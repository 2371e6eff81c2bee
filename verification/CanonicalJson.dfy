/**
  The canonical text of a provider payload: how it is printed, a parser that inverts the printer,
  and which payloads share one text. Strings are sequences of UTF-16 code units.
 */
module CanonicalJson {
  import opened Common

  type Unit = x: int | 0 <= x < 0x1_0000
  type Text = seq<Unit>

  /**
    A payload. A number is the numeral JSON.stringify prints for it, NonFinite one of NaN and the
    infinities; an object is its entries in insertion order.
   */
  datatype Json =
    | Undefined
    | Null
    | NonFinite
    | Bool(b: bool)
    | Num(numeral: Text)
    | Str(s: Text)
    | Arr(items: seq<Json>)
    | Obj(entries: seq<Entry>)

  datatype Entry = Entry(key: Text, value: Json)

  const QUOTE: Unit := 34
  const BACKSLASH: Unit := 92
  const COMMA: Unit := 44
  const COLON: Unit := 58
  const LBRACKET: Unit := 91
  const RBRACKET: Unit := 93
  const LBRACE: Unit := 123
  const RBRACE: Unit := 125
  const NULL: Text := [110, 117, 108, 108]
  const TRUE: Text := [116, 114, 117, 101]
  const FALSE: Text := [102, 97, 108, 115, 101]

  // ---------------------------------------------------------------------------
  // Quoting strings
  // ---------------------------------------------------------------------------

  predicate IsHigh(u: Unit) {
    0xD800 <= u <= 0xDBFF
  }

  predicate IsLow(u: Unit) {
    0xDC00 <= u <= 0xDFFF
  }

  function Hex(n: int): Unit
    requires 0 <= n < 16
  {
    if n < 10 then 48 + n else 87 + n
  }

  function FromHex(u: Unit): (r: Option<int>)
    ensures r.Some? ==> 0 <= r.value < 16
  {
    if 48 <= u <= 57 then Some(u - 48)
    else if 97 <= u <= 102 then Some(u - 87)
    else if 65 <= u <= 70 then Some(u - 55)
    else None
  }

  function UnicodeEscape(u: Unit): Text {
    [BACKSLASH, 117, Hex(u / 16 / 16 / 16), Hex(u / 16 / 16 % 16), Hex(u / 16 % 16), Hex(u % 16)]
  }

  function ShortEscape(u: Unit): Option<Unit> {
    if u == QUOTE || u == BACKSLASH then Some(u)
    else if u == 8 then Some(98)
    else if u == 9 then Some(116)
    else if u == 10 then Some(110)
    else if u == 12 then Some(102)
    else if u == 13 then Some(114)
    else None
  }

  function EscapeUnit(u: Unit): Text {
    if ShortEscape(u).Some? then [BACKSLASH, ShortEscape(u).value]
    else if u < 32 || IsHigh(u) || IsLow(u) then UnicodeEscape(u)
    else [u]
  }

  /** Surrogate pairs are printed as they are, lone surrogates escaped. */
  function QuoteBody(s: Text): Text {
    if s == [] then []
    else if |s| > 1 && IsHigh(s[0]) && IsLow(s[1]) then [s[0], s[1]] + QuoteBody(s[2..])
    else EscapeUnit(s[0]) + QuoteBody(s[1..])
  }

  function Quote(s: Text): Text {
    [QUOTE] + QuoteBody(s) + [QUOTE]
  }

  /** Which units are escaped, and how: control characters, the quote, the backslash, lone surrogates. */
  lemma EscapedExactlyWhen(u: Unit)
    ensures EscapeUnit(u) == [u] <==> u >= 32 && u != 34 && u != 92 && !(55_296 <= u < 57_344)
    ensures EscapeUnit(34) == [92, 34] && EscapeUnit(92) == [92, 92]
    ensures EscapeUnit(8) == [92, 98] && EscapeUnit(9) == [92, 116] && EscapeUnit(10) == [92, 110]
    ensures EscapeUnit(12) == [92, 102] && EscapeUnit(13) == [92, 114]
    ensures EscapeUnit(31) == [92, 117, 48, 48, 49, 102] && EscapeUnit(56_234) == [92, 117, 100, 98, 97, 97]
  {
  }

  /** A pair of surrogates, and only a pair, stays as it is. */
  lemma PairsStay(high: Unit, low: Unit)
    ensures QuoteBody([high, low]) == [high, low] <==>
            || (55_296 <= high < 56_320 && 56_320 <= low < 57_344)
            || (EscapeUnit(high) == [high] && EscapeUnit(low) == [low])
  {
    assert [high, low][1..] == [low] && [high, low][2..] == [] && [low][1..] == [];
    assert QuoteBody([low]) == EscapeUnit(low);
  }

  function Unescape(u: Unit): Option<Unit> {
    if u == QUOTE || u == BACKSLASH || u == 47 then Some(u)
    else if u == 98 then Some(8)
    else if u == 116 then Some(9)
    else if u == 110 then Some(10)
    else if u == 102 then Some(12)
    else if u == 114 then Some(13)
    else None
  }

  function ReadHex(t: Text): Option<Unit> {
    if |t| < 4 then None
    else
      var a, b, c, d := FromHex(t[0]), FromHex(t[1]), FromHex(t[2]), FromHex(t[3]);
      if a.None? || b.None? || c.None? || d.None? then None
      else Some(((a.value * 16 + b.value) * 16 + c.value) * 16 + d.value)
  }

  /** A string after its opening quote, and what follows the closing one. */
  function ReadString(t: Text): (r: Option<(Text, Text)>)
    ensures r.Some? ==> |r.value.1| < |t|
    decreases |t|
  {
    if t == [] then None
    else if t[0] == QUOTE then Some(([], t[1..]))
    else if t[0] != BACKSLASH then Prepend(t[0], ReadString(t[1..]))
    else if |t| == 1 then None
    else if t[1] == 117 then
      if ReadHex(t[2..]).None? then None else Prepend(ReadHex(t[2..]).value, ReadString(t[6..]))
    else if Unescape(t[1]).None? then None
    else Prepend(Unescape(t[1]).value, ReadString(t[2..]))
  }

  function Prepend(u: Unit, r: Option<(Text, Text)>): Option<(Text, Text)> {
    if r.None? then None else Some(([u] + r.value.0, r.value.1))
  }

  lemma ReadHexEscape(u: Unit, rest: Text)
    ensures ReadHex(UnicodeEscape(u)[2..] + rest) == Some(u)
  {
    var t := UnicodeEscape(u)[2..] + rest;
    var a := u / 16;
    var b := a / 16;
    assert t[0] == Hex(b / 16) && t[1] == Hex(b % 16) && t[2] == Hex(a % 16) && t[3] == Hex(u % 16);
  }

  lemma ReadPlain(u: Unit, rest: Text)
    requires u != QUOTE && u != BACKSLASH
    ensures ReadString([u] + rest) == Prepend(u, ReadString(rest))
  {
    assert ([u] + rest)[1..] == rest;
  }

  lemma ReadEscaped(u: Unit, rest: Text)
    ensures ReadString(EscapeUnit(u) + rest) == Prepend(u, ReadString(rest))
  {
    var t := EscapeUnit(u) + rest;
    if ShortEscape(u).Some? {
      assert t[2..] == rest;
    } else if u < 32 || IsHigh(u) || IsLow(u) {
      ReadHexEscape(u, rest);
      assert t[2..] == UnicodeEscape(u)[2..] + rest && t[6..] == rest;
    } else {
      assert t[1..] == rest;
    }
  }

  lemma ReadClosing(rest: Text)
    ensures ReadString([QUOTE] + rest) == Some(([], rest))
  {
    assert ([QUOTE] + rest)[1..] == rest;
  }

  lemma ReadPair(high: Unit, low: Unit, rest: Text)
    requires IsHigh(high) && IsLow(low)
    ensures ReadString([high, low] + rest) == Prepend(high, Prepend(low, ReadString(rest)))
  {
    assert [high, low] + rest == [high] + ([low] + rest);
    ReadPlain(low, rest);
    ReadPlain(high, [low] + rest);
  }

  /** Reading inverts quoting, whatever follows. */
  lemma {:induction false} ReadQuoted(s: Text, rest: Text)
    ensures ReadString(QuoteBody(s) + ([QUOTE] + rest)) == Some((s, rest))
  {
    hide ReadString, EscapeUnit;
    var after := [QUOTE] + rest;
    if s == [] {
      ReadClosing(rest);
      assert [] + after == after;
    } else if |s| > 1 && IsHigh(s[0]) && IsLow(s[1]) {
      var tail := QuoteBody(s[2..]) + after;
      assert QuoteBody(s) + after == [s[0], s[1]] + tail;
      assert s == [s[0]] + ([s[1]] + s[2..]);
      ReadPair(s[0], s[1], tail);
      ReadQuoted(s[2..], rest);
    } else {
      var tail := QuoteBody(s[1..]) + after;
      assert QuoteBody(s) + after == EscapeUnit(s[0]) + tail;
      assert s == [s[0]] + s[1..];
      ReadEscaped(s[0], tail);
      ReadQuoted(s[1..], rest);
    }
  }

  // ---------------------------------------------------------------------------
  // Key order
  // ---------------------------------------------------------------------------

  /** The default order of Array.prototype.sort on strings: by code unit. */
  predicate Less(a: Text, b: Text) {
    b != [] && (a == [] || a[0] < b[0] || (a[0] == b[0] && Less(a[1..], b[1..])))
  }

  lemma {:induction false} LessIsTotal(a: Text, b: Text)
    ensures a == b || Less(a, b) || Less(b, a)
    ensures !(Less(a, b) && Less(b, a))
  {
    if a != [] && b != [] {
      LessIsTotal(a[1..], b[1..]);
      assert a == [a[0]] + a[1..] && b == [b[0]] + b[1..];
    }
  }

  lemma {:induction false} LessIsTransitive(a: Text, b: Text, c: Text)
    requires Less(a, b) && Less(b, c)
    ensures Less(a, c)
  {
    if a != [] && a[0] == b[0] && b[0] == c[0] {
      LessIsTransitive(a[1..], b[1..], c[1..]);
    }
  }

  ghost predicate StrictlySorted(es: seq<Entry>) {
    forall i, j | 0 <= i < j < |es| :: Less(es[i].key, es[j].key)
  }

  function InsertEntry(e: Entry, es: seq<Entry>): seq<Entry> {
    if es == [] || Less(e.key, es[0].key) then [e] + es
    else [es[0]] + InsertEntry(e, es[1..])
  }

  /** Entries in key order. */
  function Sorted(es: seq<Entry>): seq<Entry> {
    if es == [] then [] else InsertEntry(es[0], Sorted(es[1..]))
  }

  ghost predicate DistinctKeys(es: seq<Entry>) {
    forall i, j | 0 <= i < j < |es| :: es[i].key != es[j].key
  }

  lemma {:induction false} InsertKeepsSorted(e: Entry, es: seq<Entry>)
    requires StrictlySorted(es) && forall f <- es :: f.key != e.key
    ensures StrictlySorted(InsertEntry(e, es))
    ensures forall f :: f in InsertEntry(e, es) <==> f == e || f in es
  {
    if es != [] {
      assert es == [es[0]] + es[1..] && es[0] in es;
      if Less(e.key, es[0].key) {
        forall j | 0 <= j < |es|
          ensures Less(e.key, es[j].key)
        {
          if j > 0 {
            LessIsTransitive(e.key, es[0].key, es[j].key);
          }
        }
      } else {
        LessIsTotal(e.key, es[0].key);
        InsertKeepsSorted(e, es[1..]);
        var rest := InsertEntry(e, es[1..]);
        forall j | 0 <= j < |rest|
          ensures Less(es[0].key, rest[j].key)
        {
          assert rest[j] in rest;
          if rest[j] != e {
            var k :| 0 <= k < |es[1..]| && es[1..][k] == rest[j];
            assert es[1 + k] == rest[j];
          }
        }
      }
    }
  }

  lemma {:induction false} SortedSorts(es: seq<Entry>)
    requires DistinctKeys(es)
    ensures StrictlySorted(Sorted(es))
    ensures forall f :: f in Sorted(es) <==> f in es
  {
    if es != [] {
      SortedSorts(es[1..]);
      assert es == [es[0]] + es[1..];
      forall f | f in Sorted(es[1..])
        ensures f.key != es[0].key
      {
        var k :| 0 <= k < |es[1..]| && es[1..][k] == f;
        assert es[1 + k] == f;
      }
      InsertKeepsSorted(es[0], Sorted(es[1..]));
    }
  }

  /** Sorted entries are determined by which entries they are. */
  lemma {:induction false} SortedIsUnique(es: seq<Entry>, fs: seq<Entry>)
    requires StrictlySorted(es) && StrictlySorted(fs)
    requires forall x :: x in es <==> x in fs
    ensures es == fs
  {
    if es == [] {
      HasMember(fs);
    } else {
      assert es[0] in es;
      assert fs != [];
      assert fs[0] in fs;
      var i :| 0 <= i < |es| && es[i] == fs[0];
      var j :| 0 <= j < |fs| && fs[j] == es[0];
      LessIsTotal(es[0].key, fs[0].key);
      assert es[0] == fs[0];
      assert es == [es[0]] + es[1..] && fs == [fs[0]] + fs[1..];
      forall x
        ensures x in es[1..] <==> x in fs[1..]
      {
        TailMembers(es, x);
        TailMembers(fs, x);
      }
      SortedIsUnique(es[1..], fs[1..]);
    }
  }

  lemma TailMembers(es: seq<Entry>, x: Entry)
    requires es != [] && StrictlySorted(es)
    ensures x in es[1..] <==> x in es && x != es[0]
  {
    assert es == [es[0]] + es[1..];
    if x in es[1..] {
      var k :| 0 <= k < |es[1..]| && es[1..][k] == x;
      assert Less(es[0].key, es[1 + k].key);
      LessIsTotal(es[0].key, es[0].key);
    }
  }

  // ---------------------------------------------------------------------------
  // Printing
  // ---------------------------------------------------------------------------

  function Print(v: Json): Text {
    match v
    case Undefined => NULL
    case Null => NULL
    case NonFinite => NULL
    case Bool(b) => if b then TRUE else FALSE
    case Num(numeral) => numeral
    case Str(s) => Quote(s)
    case Arr(items) => [LBRACKET] + PrintItems(items) + [RBRACKET]
    case Obj(entries) => [LBRACE] + PrintEntries(entries) + [RBRACE]
  }

  function PrintEntry(e: Entry): Text {
    Quote(e.key) + [COLON] + Print(e.value)
  }

  function PrintItems(items: seq<Json>): Text {
    if items == [] then []
    else if |items| == 1 then Print(items[0])
    else Print(items[0]) + [COMMA] + PrintItems(items[1..])
  }

  function PrintEntries(entries: seq<Entry>): Text {
    if entries == [] then []
    else if |entries| == 1 then PrintEntry(entries[0])
    else PrintEntry(entries[0]) + [COMMA] + PrintEntries(entries[1..])
  }

  /** What the text keeps: no order of keys, no undefined fields, null for every other undefined. */
  function Norm(v: Json): Json {
    match v
    case Undefined => Null
    case Null => Null
    case NonFinite => Null
    case Bool(_) => v
    case Num(_) => v
    case Str(_) => v
    case Arr(items) => Arr(NormItems(items))
    case Obj(entries) => Obj(Sorted(NormEntries(entries)))
  }

  function NormItems(items: seq<Json>): seq<Json> {
    if items == [] then [] else [Norm(items[0])] + NormItems(items[1..])
  }

  function NormEntries(entries: seq<Entry>): seq<Entry> {
    if entries == [] then []
    else (if entries[0].value.Undefined? then [] else [Entry(entries[0].key, Norm(entries[0].value))])
         + NormEntries(entries[1..])
  }

  function Canonicalized(v: Json): Text {
    Print(Norm(v))
  }

  // {"b":"x","c":undefined,"a":[1,NaN]} is printed as {"a":[1,null],"b":"x"}, by its codes.

  ghost const EntryA := Entry([97], Arr([Num([49]), Null]))
  ghost const EntryB := Entry([98], Str([120]))

  lemma ExampleInOrder()
    ensures Norm(Obj([EntryB, Entry([99], Undefined), Entry([97], Arr([Num([49]), NonFinite]))]))
            == Obj([EntryA, EntryB])
  {
    var c, a := Entry([99], Undefined), Entry([97], Arr([Num([49]), NonFinite]));
    assert [EntryB, c, a][1..] == [c, a] && [c, a][1..] == [a] && [a][1..] == [];
    assert [Num([49]), NonFinite][1..] == [NonFinite] && [NonFinite][1..] == [];
    assert Norm(a.value) == EntryA.value;
    assert NormEntries([a]) == [EntryA];
    assert NormEntries([EntryB, c, a]) == [EntryB, EntryA];
    assert [EntryB, EntryA][1..] == [EntryA] && [EntryA][1..] == [];
    assert Sorted([EntryA]) == [EntryA];
    assert !Less([98], [97]);
    assert InsertEntry(EntryB, [EntryA]) == [EntryA, EntryB];
  }

  lemma ExampleParts()
    ensures Quote([97]) == [34, 97, 34] && Quote([98]) == [34, 98, 34] && Quote([120]) == [34, 120, 34]
    ensures Print(EntryA.value) == [91, 49, 44, 110, 117, 108, 108, 93]
  {
    assert QuoteBody([97]) == [97] && QuoteBody([98]) == [98] && QuoteBody([120]) == [120];
    assert [Num([49]), Null][1..] == [Null];
    assert PrintItems([Num([49]), Null]) == [49, 44, 110, 117, 108, 108];
  }

  lemma ExamplePrinted()
    ensures Print(Obj([EntryA, EntryB]))
            == [123, 34, 97, 34, 58, 91, 49, 44, 110, 117, 108, 108, 93, 44, 34, 98, 34, 58, 34, 120, 34, 125]
  {
    ExampleParts();
    assert Print(EntryB.value) == Quote([120]);
    assert Print(Obj([EntryA, EntryB])) == [123] + PrintEntries([EntryA, EntryB]) + [125];
    assert [EntryA, EntryB][1..] == [EntryB];
    hide Quote, Print;
    assert PrintEntry(EntryB) == [34, 98, 34, 58, 34, 120, 34];
    assert PrintEntry(EntryA) == [34, 97, 34, 58, 91, 49, 44, 110, 117, 108, 108, 93];
    assert PrintEntries([EntryA, EntryB]) == PrintEntry(EntryA) + [44] + PrintEntry(EntryB);
  }

  /** One payload in full: keys in order, fields without a value gone, no space, null for NaN. */
  lemma CanonicalExample()
    ensures Canonicalized(Obj([EntryB, Entry([99], Undefined), Entry([97], Arr([Num([49]), NonFinite]))]))
            == [123, 34, 97, 34, 58, 91, 49, 44, 110, 117, 108, 108, 93, 44, 34, 98, 34, 58, 34, 120, 34, 125]
  {
    ExampleInOrder();
    ExamplePrinted();
    hide Norm, Print;
  }

  predicate IsNumeralUnit(u: Unit) {
    48 <= u <= 57 || u == 43 || u == 45 || u == 46 || u == 101
  }

  predicate IsNumeral(t: Text) {
    t != [] && t[0] != 101 && forall u <- t :: IsNumeralUnit(u)
  }

  /** An object has one value per key, and numbers are printed as numerals. */
  /** The numerals 0, -1.5e+21 and 12 are numerals, a word is not. */
  lemma NumeralExamples()
    ensures IsNumeral([48]) && IsNumeral([45, 49, 46, 53, 101, 43, 50, 49]) && IsNumeral([49, 50])
    ensures !IsNumeral([]) && !IsNumeral(NULL) && !IsNumeral(TRUE) && !IsNumeral(FALSE)
  {
    assert NULL[0] == 110 && NULL[0] in NULL;
    assert TRUE[0] == 116 && TRUE[0] in TRUE;
    assert FALSE[0] == 102 && FALSE[0] in FALSE;
  }

  ghost predicate WellFormed(v: Json) {
    match v
    case Num(numeral) => IsNumeral(numeral)
    case Arr(items) => forall x <- items :: WellFormed(x)
    case Obj(entries) => DistinctKeys(entries) && forall e <- entries :: WellFormed(e.value)
    case _ => true
  }

  ghost predicate Canonical(v: Json) {
    match v
    case Undefined => false
    case NonFinite => false
    case Num(numeral) => IsNumeral(numeral)
    case Arr(items) => forall x <- items :: Canonical(x)
    case Obj(entries) => StrictlySorted(entries) && forall e <- entries :: Canonical(e.value)
    case _ => true
  }

  lemma {:induction false} NormEntriesAre(entries: seq<Entry>)
    ensures forall f :: f in NormEntries(entries) <==>
              exists e <- entries :: !e.value.Undefined? && f == Entry(e.key, Norm(e.value))
    ensures DistinctKeys(entries) ==> DistinctKeys(NormEntries(entries))
  {
    if entries != [] {
      var first, rest := entries[0], entries[1..];
      NormEntriesAre(rest);
      assert entries == [first] + rest;
      var all, tail := NormEntries(entries), NormEntries(rest);
      forall f
        ensures f in all <==> exists e <- entries :: !e.value.Undefined? && f == Entry(e.key, Norm(e.value))
      {
        assert f in all <==> (!first.value.Undefined? && f == Entry(first.key, Norm(first.value))) || f in tail;
      }
      if DistinctKeys(entries) {
        forall j | 0 <= j < |tail|
          ensures tail[j].key != first.key
        {
          assert tail[j] in tail;
          var e :| e in rest && tail[j] == Entry(e.key, Norm(e.value));
          var k :| 0 <= k < |rest| && rest[k] == e;
          assert entries[k + 1] == e;
        }
        assert DistinctKeys(rest) by {
          assert forall i | 0 <= i < |rest| :: rest[i] == entries[i + 1];
        }
      }
    }
  }

  lemma {:induction false} NormItemsAre(items: seq<Json>)
    ensures |NormItems(items)| == |items|
    ensures forall i | 0 <= i < |items| :: NormItems(items)[i] == Norm(items[i])
  {
    if items != [] {
      NormItemsAre(items[1..]);
    }
  }

  lemma {:induction false} NormIsCanonical(v: Json)
    requires WellFormed(v)
    ensures Canonical(Norm(v))
  {
    match v
    case Arr(items) =>
      NormItemsAre(items);
      forall x | x in NormItems(items)
        ensures Canonical(x)
      {
        var i :| 0 <= i < |items| && NormItems(items)[i] == x;
        NormIsCanonical(items[i]);
      }
    case Obj(entries) =>
      NormEntriesAre(entries);
      SortedSorts(NormEntries(entries));
      forall f | f in Sorted(NormEntries(entries))
        ensures Canonical(f.value)
      {
        var e :| e in entries && !e.value.Undefined? && f == Entry(e.key, Norm(e.value));
        NormIsCanonical(e.value);
      }
    case _ =>
  }

  // ---------------------------------------------------------------------------
  // Parsing
  // ---------------------------------------------------------------------------

  function NumeralLength(t: Text): (n: nat)
    ensures n <= |t|
  {
    if t == [] || !IsNumeralUnit(t[0]) then 0 else 1 + NumeralLength(t[1..])
  }

  function Parse(t: Text): (r: Option<(Json, Text)>)
    ensures r.Some? ==> |r.value.1| < |t|
    decreases |t|, 0
  {
    if t == [] then None
    else if t[0] == QUOTE then
      var r := ReadString(t[1..]);
      if r.None? then None else Some((Str(r.value.0), r.value.1))
    else if t[0] == LBRACKET then
      if |t| > 1 && t[1] == RBRACKET then Some((Arr([]), t[2..]))
      else
        var r := ParseItems(t[1..]);
        if r.None? then None else Some((Arr(r.value.0), r.value.1))
    else if t[0] == LBRACE then
      if |t| > 1 && t[1] == RBRACE then Some((Obj([]), t[2..]))
      else
        var r := ParseEntries(t[1..]);
        if r.None? then None else Some((Obj(r.value.0), r.value.1))
    else if NULL <= t then Some((Null, t[4..]))
    else if TRUE <= t then Some((Bool(true), t[4..]))
    else if FALSE <= t then Some((Bool(false), t[5..]))
    else
      var n := NumeralLength(t);
      if n == 0 then None else Some((Num(t[..n]), t[n..]))
  }

  /** Items up to the closing bracket. */
  function ParseItems(t: Text): (r: Option<(seq<Json>, Text)>)
    ensures r.Some? ==> |r.value.1| < |t|
    decreases |t|, 1
  {
    var v := Parse(t);
    if v.None? || v.value.1 == [] then None
    else if v.value.1[0] == RBRACKET then Some(([v.value.0], v.value.1[1..]))
    else if v.value.1[0] != COMMA then None
    else
      var r := ParseItems(v.value.1[1..]);
      if r.None? then None else Some(([v.value.0] + r.value.0, r.value.1))
  }

  function ParseEntry(t: Text): (r: Option<(Entry, Text)>)
    ensures r.Some? ==> |r.value.1| < |t|
    decreases |t|, 1
  {
    if t == [] || t[0] != QUOTE then None
    else
      var k := ReadString(t[1..]);
      if k.None? || k.value.1 == [] || k.value.1[0] != COLON then None
      else
        var v := Parse(k.value.1[1..]);
        if v.None? then None else Some((Entry(k.value.0, v.value.0), v.value.1))
  }

  /** Entries up to the closing brace. */
  function ParseEntries(t: Text): (r: Option<(seq<Entry>, Text)>)
    ensures r.Some? ==> |r.value.1| < |t|
    decreases |t|, 2
  {
    var e := ParseEntry(t);
    if e.None? || e.value.1 == [] then None
    else if e.value.1[0] == RBRACE then Some(([e.value.0], e.value.1[1..]))
    else if e.value.1[0] != COMMA then None
    else
      var r := ParseEntries(e.value.1[1..]);
      if r.None? then None else Some(([e.value.0] + r.value.0, r.value.1))
  }

  /** What may follow a value: nothing, or a separator. */
  predicate Ends(rest: Text) {
    rest == [] || !IsNumeralUnit(rest[0])
  }

  lemma {:induction false} NumeralLengthIs(t: Text, rest: Text)
    requires (forall u <- t :: IsNumeralUnit(u)) && Ends(rest)
    ensures NumeralLength(t + rest) == |t|
  {
    if t == [] {
      assert t + rest == rest;
    } else {
      assert (t + rest)[1..] == t[1..] + rest && t[0] in t;
      assert forall u <- t[1..] :: u in t;
      NumeralLengthIs(t[1..], rest);
    }
  }

  lemma ParseNumeral(numeral: Text, rest: Text)
    requires IsNumeral(numeral) && Ends(rest)
    ensures Parse(numeral + rest) == Some((Num(numeral), rest))
  {
    var t := numeral + rest;
    assert numeral[0] in numeral && t[0] == numeral[0];
    NumeralLengthIs(numeral, rest);
    assert t[..|numeral|] == numeral && t[|numeral|..] == rest;
  }

  lemma ParseWord(v: Json, rest: Text)
    requires v.Null? || v.Bool?
    ensures Parse(Print(v) + rest) == Some((v, rest))
  {
    var word := Print(v);
    var t := word + rest;
    assert word <= t && t[|word|..] == rest && t[0] == word[0];
  }

  lemma ParseString(s: Text, rest: Text)
    ensures Parse(Quote(s) + rest) == Some((Str(s), rest))
  {
    var t := Quote(s) + rest;
    assert t[1..] == QuoteBody(s) + ([QUOTE] + rest);
    ReadQuoted(s, rest);
  }

  /** No value begins with a closing bracket or brace. */
  lemma PrintBegins(v: Json)
    requires Canonical(v)
    ensures Print(v) != [] && Print(v)[0] != RBRACKET
  {
    if v.Num? {
      assert v.numeral[0] in v.numeral;
    }
  }

  lemma PrintItemsBegins(items: seq<Json>)
    requires items != [] && Canonical(items[0])
    ensures PrintItems(items) != [] && PrintItems(items)[0] != RBRACKET
  {
    PrintBegins(items[0]);
  }

  lemma PrintEntriesBegins(entries: seq<Entry>)
    requires entries != []
    ensures PrintEntries(entries) != [] && PrintEntries(entries)[0] == QUOTE
  {
  }

  lemma ParseBracketed(p: Text, items: seq<Json>, rest: Text)
    requires if items == [] then p == []
             else p != [] && p[0] != RBRACKET && ParseItems(p + ([RBRACKET] + rest)) == Some((items, rest))
    ensures Parse([LBRACKET] + p + [RBRACKET] + rest) == Some((Arr(items), rest))
  {
    hide ParseItems;
    var t := [LBRACKET] + p + [RBRACKET] + rest;
    assert t[1..] == p + ([RBRACKET] + rest);
    assert p == [] ==> t[2..] == rest;
  }

  lemma ParseBraced(p: Text, entries: seq<Entry>, rest: Text)
    requires if entries == [] then p == []
             else p != [] && p[0] == QUOTE && ParseEntries(p + ([RBRACE] + rest)) == Some((entries, rest))
    ensures Parse([LBRACE] + p + [RBRACE] + rest) == Some((Obj(entries), rest))
  {
    hide ParseEntries;
    var t := [LBRACE] + p + [RBRACE] + rest;
    assert t[1..] == p + ([RBRACE] + rest);
    assert p == [] ==> t[2..] == rest;
  }

  lemma ParseLastItem(t: Text, v: Json, rest: Text)
    requires Parse(t) == Some((v, [RBRACKET] + rest))
    ensures ParseItems(t) == Some(([v], rest))
  {
    hide Parse;
    assert ([RBRACKET] + rest)[1..] == rest;
  }

  lemma ParseMoreItems(t: Text, v: Json, tail: Text, items: seq<Json>, rest: Text)
    requires Parse(t) == Some((v, [COMMA] + tail)) && ParseItems(tail) == Some((items, rest))
    ensures ParseItems(t) == Some(([v] + items, rest))
  {
    hide Parse;
    assert ([COMMA] + tail)[1..] == tail;
  }

  lemma ParseLastEntry(t: Text, e: Entry, rest: Text)
    requires ParseEntry(t) == Some((e, [RBRACE] + rest))
    ensures ParseEntries(t) == Some(([e], rest))
  {
    hide ParseEntry;
    assert ([RBRACE] + rest)[1..] == rest;
  }

  lemma ParseMoreEntries(t: Text, e: Entry, tail: Text, entries: seq<Entry>, rest: Text)
    requires ParseEntry(t) == Some((e, [COMMA] + tail)) && ParseEntries(tail) == Some((entries, rest))
    ensures ParseEntries(t) == Some(([e] + entries, rest))
  {
    hide ParseEntry;
    assert ([COMMA] + tail)[1..] == tail;
  }

  lemma ParseKeyed(key: Text, tail: Text, v: Json, rest: Text)
    requires Parse(tail) == Some((v, rest))
    ensures ParseEntry(Quote(key) + ([COLON] + tail)) == Some((Entry(key, v), rest))
  {
    hide Parse, ReadString, QuoteBody;
    var t := Quote(key) + ([COLON] + tail);
    assert t[1..] == QuoteBody(key) + ([QUOTE] + ([COLON] + tail));
    ReadQuoted(key, [COLON] + tail);
    assert ([COLON] + tail)[1..] == tail;
  }

  /** The parser inverts the printer on canonical values, whatever follows. */
  lemma {:induction false} ParsePrinted(v: Json, rest: Text)
    requires Canonical(v) && Ends(rest)
    ensures Parse(Print(v) + rest) == Some((v, rest))
    decreases v
  {
    hide Parse, ParseItems, ParseEntries, PrintItems, PrintEntries;
    match v
    case Null => ParseWord(v, rest);
    case Bool(_) => ParseWord(v, rest);
    case Num(numeral) => ParseNumeral(numeral, rest);
    case Str(s) => ParseString(s, rest);
    case Arr(items) =>
      if items != [] {
        PrintItemsBegins(items);
        ParsePrintedItems(items, rest);
        ParseBracketed(PrintItems(items), items, rest);
      } else {
        ParseBracketed([], items, rest);
        NothingPrinted();
      }
    case Obj(entries) =>
      if entries != [] {
        PrintEntriesBegins(entries);
        ParsePrintedEntries(entries, rest);
        ParseBraced(PrintEntries(entries), entries, rest);
      } else {
        ParseBraced([], entries, rest);
        NothingPrinted();
      }
  }

  lemma NothingPrinted()
    ensures PrintItems([]) == [] && PrintEntries([]) == []
  {
  }

  lemma {:induction false} ParsePrintedItems(items: seq<Json>, rest: Text)
    requires items != [] && forall x <- items :: Canonical(x)
    ensures ParseItems(PrintItems(items) + ([RBRACKET] + rest)) == Some((items, rest))
    decreases items
  {
    hide Parse, ParseItems, Print, Canonical;
    var after := [RBRACKET] + rest;
    assert items[0] in items && items == [items[0]] + items[1..];
    if |items| == 1 {
      assert items == [items[0]];
      ParsePrinted(items[0], after);
      ParseLastItem(Print(items[0]) + after, items[0], rest);
    } else {
      var tail := PrintItems(items[1..]) + after;
      assert PrintItems(items) + after == Print(items[0]) + ([COMMA] + tail);
      ParsePrinted(items[0], [COMMA] + tail);
      ParsePrintedItems(items[1..], rest);
      ParseMoreItems(Print(items[0]) + ([COMMA] + tail), items[0], tail, items[1..], rest);
    }
  }

  lemma {:induction false} ParsePrintedEntry(e: Entry, rest: Text)
    requires Canonical(e.value) && Ends(rest)
    ensures ParseEntry(PrintEntry(e) + rest) == Some((e, rest))
    decreases e
  {
    hide Parse, ParseEntry, Print, Quote, Canonical;
    var tail := Print(e.value) + rest;
    assert PrintEntry(e) + rest == Quote(e.key) + ([COLON] + tail);
    ParsePrinted(e.value, rest);
    ParseKeyed(e.key, tail, e.value, rest);
  }

  lemma {:induction false} ParsePrintedEntries(entries: seq<Entry>, rest: Text)
    requires entries != [] && forall e <- entries :: Canonical(e.value)
    ensures ParseEntries(PrintEntries(entries) + ([RBRACE] + rest)) == Some((entries, rest))
    decreases entries
  {
    hide ParseEntry, ParseEntries, PrintEntry, Canonical;
    var after := [RBRACE] + rest;
    assert entries[0] in entries && entries == [entries[0]] + entries[1..];
    if |entries| == 1 {
      assert entries == [entries[0]];
      ParsePrintedEntry(entries[0], after);
      ParseLastEntry(PrintEntry(entries[0]) + after, entries[0], rest);
    } else {
      var tail := PrintEntries(entries[1..]) + after;
      assert PrintEntries(entries) + after == PrintEntry(entries[0]) + ([COMMA] + tail);
      ParsePrintedEntry(entries[0], [COMMA] + tail);
      ParsePrintedEntries(entries[1..], rest);
      ParseMoreEntries(PrintEntry(entries[0]) + ([COMMA] + tail), entries[0], tail, entries[1..], rest);
    }
  }

  // ---------------------------------------------------------------------------
  // Which payloads share a text
  // ---------------------------------------------------------------------------

  predicate Nullish(v: Json) {
    v.Undefined? || v.Null? || v.NonFinite?
  }

  /** Every key defined in the one is defined in the other. */
  ghost predicate KeysWithin(entries: seq<Entry>, others: seq<Entry>) {
    forall e <- entries | !e.value.Undefined? ::
      exists f <- others :: !f.value.Undefined? && f.key == e.key
  }

  /** Equal up to the order of keys, at every depth; undefined fields do not count. */
  ghost predicate Same(v: Json, w: Json)
    decreases v
  {
    match v
    case Arr(items) =>
      w.Arr? && |items| == |w.items|
      && forall i | 0 <= i < |items| :: Same(items[i], w.items[i])
    case Obj(entries) =>
      w.Obj? && KeysWithin(entries, w.entries) && KeysWithin(w.entries, entries)
      && forall e <- entries, f <- w.entries |
           !e.value.Undefined? && !f.value.Undefined? && e.key == f.key :: Same(e.value, f.value)
    case _ => v == w || (Nullish(v) && Nullish(w))
  }

  lemma {:induction false} SameHasSameNorm(v: Json, w: Json)
    requires WellFormed(v) && WellFormed(w) && Same(v, w)
    ensures Norm(v) == Norm(w)
    decreases v
  {
    match v
    case Arr(items) =>
      NormItemsAre(items);
      NormItemsAre(w.items);
      forall i | 0 <= i < |items|
        ensures Norm(items[i]) == Norm(w.items[i])
      {
        SameHasSameNorm(items[i], w.items[i]);
      }
      assert NormItems(items) == NormItems(w.items);
    case Obj(entries) =>
      forall e, f | e in entries && f in w.entries && !e.value.Undefined? && !f.value.Undefined? && e.key == f.key
        ensures Norm(e.value) == Norm(f.value)
      {
        SameHasSameNorm(e.value, f.value);
      }
      SameMembers(entries, w.entries);
    case _ =>
  }

  ghost predicate SameValues(entries: seq<Entry>, others: seq<Entry>) {
    forall e <- entries, f <- others | !e.value.Undefined? && !f.value.Undefined? && e.key == f.key ::
      Norm(e.value) == Norm(f.value)
  }

  lemma NormWithin(entries: seq<Entry>, others: seq<Entry>, x: Entry)
    requires KeysWithin(entries, others) && SameValues(entries, others) && x in NormEntries(entries)
    ensures x in NormEntries(others)
  {
    NormEntriesAre(entries);
    NormEntriesAre(others);
    var e :| e in entries && !e.value.Undefined? && x == Entry(e.key, Norm(e.value));
    var f :| f in others && !f.value.Undefined? && f.key == e.key;
    assert x == Entry(f.key, Norm(f.value));
  }

  lemma SameMembers(entries: seq<Entry>, others: seq<Entry>)
    requires DistinctKeys(entries) && DistinctKeys(others)
    requires KeysWithin(entries, others) && KeysWithin(others, entries) && SameValues(entries, others)
    ensures Sorted(NormEntries(entries)) == Sorted(NormEntries(others))
  {
    NormEntriesAre(entries);
    NormEntriesAre(others);
    SortedSorts(NormEntries(entries));
    SortedSorts(NormEntries(others));
    hide Sorted, NormEntries, Norm, KeysWithin;
    assert SameValues(others, entries);
    forall x | x in NormEntries(entries)
      ensures x in NormEntries(others)
    {
      NormWithin(entries, others, x);
    }
    forall x | x in NormEntries(others)
      ensures x in NormEntries(entries)
    {
      NormWithin(others, entries, x);
    }
    SortedIsUnique(Sorted(NormEntries(entries)), Sorted(NormEntries(others)));
  }

  lemma {:induction false} SameNormIsSame(v: Json, w: Json)
    requires WellFormed(v) && WellFormed(w) && Norm(v) == Norm(w)
    ensures Same(v, w)
    decreases v
  {
    match v
    case Arr(items) =>
      NormItemsAre(items);
      NormItemsAre(w.items);
      forall i | 0 <= i < |items|
        ensures Same(items[i], w.items[i])
      {
        assert NormItems(items)[i] == NormItems(w.items)[i];
        SameNormIsSame(items[i], w.items[i]);
      }
    case Obj(entries) =>
      SameNormHasSameKeys(entries, w.entries);
      forall e, f | e in entries && f in w.entries && !e.value.Undefined? && !f.value.Undefined? && e.key == f.key
        ensures Same(e.value, f.value)
      {
        SameNormIsSame(e.value, f.value);
      }
    case _ =>
  }

  lemma SameNormHasSameKeys(entries: seq<Entry>, others: seq<Entry>)
    requires DistinctKeys(entries) && DistinctKeys(others)
    requires Sorted(NormEntries(entries)) == Sorted(NormEntries(others))
    ensures KeysWithin(entries, others) && KeysWithin(others, entries) && SameValues(entries, others)
  {
    NormEntriesAre(entries);
    NormEntriesAre(others);
    SortedSorts(NormEntries(entries));
    SortedSorts(NormEntries(others));
    hide Sorted, NormEntries, Norm;
    forall e | e in entries && !e.value.Undefined?
      ensures exists f <- others :: !f.value.Undefined? && f.key == e.key && Norm(f.value) == Norm(e.value)
    {
      FoundIn(entries, others, e);
    }
    forall e | e in others && !e.value.Undefined?
      ensures exists f <- entries :: !f.value.Undefined? && f.key == e.key && Norm(f.value) == Norm(e.value)
    {
      FoundIn(others, entries, e);
    }
    forall e, f | e in entries && f in others && !e.value.Undefined? && !f.value.Undefined? && e.key == f.key
      ensures Norm(e.value) == Norm(f.value)
    {
      var g :| g in others && !g.value.Undefined? && g.key == e.key && Norm(g.value) == Norm(e.value);
      OnePerKey(others, f, g);
    }
  }

  lemma OnePerKey(entries: seq<Entry>, e: Entry, f: Entry)
    requires DistinctKeys(entries) && e in entries && f in entries && e.key == f.key
    ensures e == f
  {
  }

  lemma FoundIn(entries: seq<Entry>, others: seq<Entry>, e: Entry)
    requires e in entries && !e.value.Undefined?
    requires forall x :: x in NormEntries(entries) <==> x in NormEntries(others)
    ensures exists f <- others :: !f.value.Undefined? && f.key == e.key && Norm(f.value) == Norm(e.value)
  {
    NormEntriesAre(entries);
    NormEntriesAre(others);
    var x := Entry(e.key, Norm(e.value));
    assert x in NormEntries(entries);
  }

  /** Two payloads have the same canonical text exactly when they are equal up to key order. */
  lemma CanonicalTextDecidesSameness(v: Json, w: Json)
    requires WellFormed(v) && WellFormed(w)
    ensures Canonicalized(v) == Canonicalized(w) <==> Same(v, w)
  {
    if Same(v, w) {
      SameHasSameNorm(v, w);
    }
    if Canonicalized(v) == Canonicalized(w) {
      NormIsCanonical(v);
      NormIsCanonical(w);
      ParsePrinted(Norm(v), []);
      ParsePrinted(Norm(w), []);
      assert Canonicalized(v) + [] == Canonicalized(w) + [];
      SameNormIsSame(v, w);
    }
  }

  /** Fingerprints hash the account and the text together; accounts hold no colon. */
  lemma FingerprintedTextIsInjective(account: Text, v: Json, other: Text, w: Json)
    requires WellFormed(v) && WellFormed(w) && COLON !in account && COLON !in other
    ensures account + [COLON] + Canonicalized(v) == other + [COLON] + Canonicalized(w)
            <==> account == other && Same(v, w)
  {
    CanonicalTextDecidesSameness(v, w);
    if account + [COLON] + Canonicalized(v) == other + [COLON] + Canonicalized(w) {
      FirstSeparator(account, Canonicalized(v), other, Canonicalized(w), COLON);
    }
  }

  // ---------------------------------------------------------------------------
  // The algorithm
  // ---------------------------------------------------------------------------

  function Joined(parts: seq<Text>): Text {
    if parts == [] then []
    else if |parts| == 1 then parts[0]
    else parts[0] + [COMMA] + Joined(parts[1..])
  }

  lemma {:induction false} JoinedItems(items: seq<Json>, parts: seq<Text>)
    requires |parts| == |items| && forall i | 0 <= i < |items| :: parts[i] == Canonicalized(items[i])
    ensures Joined(parts) == PrintItems(NormItems(items))
  {
    if |items| > 1 {
      JoinedItems(items[1..], parts[1..]);
    }
  }

  lemma {:induction false} JoinedEntries(entries: seq<Entry>, parts: seq<Text>)
    requires |parts| == |entries| && forall i | 0 <= i < |entries| :: parts[i] == PrintEntry(entries[i])
    ensures Joined(parts) == PrintEntries(entries)
  {
    if |entries| > 1 {
      JoinedEntries(entries[1..], parts[1..]);
    }
  }

  lemma {:induction false} NormEntriesSnoc(entries: seq<Entry>, e: Entry)
    ensures NormEntries(entries + [e]) == NormEntries(entries) + NormEntries([e])
  {
    if entries == [] {
      assert entries + [e] == [e];
    } else {
      assert (entries + [e])[0] == entries[0] && (entries + [e])[1..] == entries[1..] + [e];
      NormEntriesSnoc(entries[1..], e);
    }
  }

  /** Normalizing keeps the key order, so sorting first and normalizing first are the same. */
  lemma SortThenNorm(entries: seq<Entry>)
    requires DistinctKeys(entries)
    ensures NormEntries(Sorted(entries)) == Sorted(NormEntries(entries))
  {
    SortedSorts(entries);
    SortedDistinct(Sorted(entries));
    NormEntriesAre(entries);
    NormEntriesAre(Sorted(entries));
    SortedSorts(NormEntries(entries));
    NormKeepsSorted(Sorted(entries));
    hide NormEntries, Sorted, Norm;
    SortedIsUnique(NormEntries(Sorted(entries)), Sorted(NormEntries(entries)));
  }

  lemma SortedDistinct(entries: seq<Entry>)
    requires StrictlySorted(entries)
    ensures DistinctKeys(entries)
  {
    forall i, j | 0 <= i < j < |entries|
      ensures entries[i].key != entries[j].key
    {
      LessIsTotal(entries[i].key, entries[j].key);
    }
  }

  lemma {:induction false} NormKeepsSorted(entries: seq<Entry>)
    requires StrictlySorted(entries)
    ensures StrictlySorted(NormEntries(entries))
  {
    if entries != [] {
      NormKeepsSorted(entries[1..]);
      NormEntriesAre(entries[1..]);
      var rest := NormEntries(entries[1..]);
      forall j | 0 <= j < |rest|
        ensures Less(entries[0].key, rest[j].key)
      {
        assert rest[j] in rest;
        var e :| e in entries[1..] && rest[j] == Entry(e.key, Norm(e.value));
        var k :| 0 <= k < |entries[1..]| && entries[1..][k] == e;
        assert entries[k + 1] == e;
      }
    }
  }

  /** The recursive printer, with its loop over the sorted keys of an object. */
  method CanonicalizePayload(data: Json) returns (text: Text)
    requires WellFormed(data)
    ensures text == Canonicalized(data)
    decreases data
  {
    match data
    case Undefined => text := NULL;
    case Null => text := NULL;
    case NonFinite => text := NULL;
    case Bool(b) => text := if b then TRUE else FALSE;
    case Num(numeral) => text := numeral;
    case Str(s) => text := Quote(s);
    case Arr(items) =>
      var elements := [];
      for i := 0 to |items|
        invariant |elements| == i && forall k | 0 <= k < i :: elements[k] == Canonicalized(items[k])
      {
        var element := CanonicalizePayload(items[i]);
        elements := elements + [element];
      }
      JoinedItems(items, elements);
      text := [LBRACKET] + Joined(elements) + [RBRACKET];
    case Obj(record) =>
      var sorted := Sorted(record);
      SortedSorts(record);
      var entries := [];
      for i := 0 to |sorted|
        invariant |entries| == |NormEntries(sorted[..i])|
        invariant forall k | 0 <= k < |entries| :: entries[k] == PrintEntry(NormEntries(sorted[..i])[k])
      {
        var e := sorted[i];
        assert e in sorted && sorted[..i + 1] == sorted[..i] + [e];
        NormEntriesSnoc(sorted[..i], e);
        if !e.value.Undefined? {
          var value := CanonicalizePayload(e.value);
          entries := entries + [Quote(e.key) + [COLON] + value];
        }
      }
      assert sorted[..|sorted|] == sorted;
      JoinedEntries(NormEntries(sorted), entries);
      SortThenNorm(record);
      text := [LBRACE] + Joined(entries) + [RBRACE];
  }
}
