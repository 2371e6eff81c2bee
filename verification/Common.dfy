/** Small shared datatypes. */
module Common {

  datatype Option<+T> = None | Some(value: T)

  datatype Result<+T, +E> = Ok(value: T) | Err(error: E)

  /** How a write or a call ends: it took effect, it did but an error was reported, or it did not. */
  datatype Write = Written | Unreported | NotWritten

  /** Stands in for the UUID generator: distinct ids outside a given set. */
  method IdsOutside(taken: set<string>, n: nat) returns (ids: seq<string>)
    ensures |ids| == n && (forall i, j | 0 <= i < j < n :: ids[i] != ids[j])
    ensures forall id <- ids :: id !in taken
  {
    var longest: nat := 0;
    var left := taken;
    while left != {}
      invariant left <= taken && forall id <- taken - left :: |id| <= longest
    {
      var id :| id in left;
      longest := if |id| > longest then |id| else longest;
      left := left - {id};
    }
    ids := seq(n, i requires 0 <= i < n => seq(longest + 1 + i, _ => 'x'));
    assert forall i | 0 <= i < n :: |ids[i]| == longest + 1 + i;
  }

  lemma HasMember<T>(s: seq<T>)
    ensures s != [] ==> exists x :: x in s
  {
    assert s != [] ==> s[0] in s;
  }

  /** A text before the first separator is determined by the whole. */
  lemma FirstSeparator<T>(a: seq<T>, x: seq<T>, b: seq<T>, y: seq<T>, c: T)
    requires c !in a && c !in b && a + [c] + x == b + [c] + y
    ensures a == b && x == y
  {
    var s := a + [c] + x;
    assert s[|a|] == c && s[|b|] == c;
    assert forall i | 0 <= i < |a| :: s[i] == a[i];
    assert forall i | 0 <= i < |b| :: s[i] == b[i];
    assert a == s[..|a|] && b == s[..|b|];
    assert x == s[|a| + 1..] && y == s[|b| + 1..];
  }
}
