/**
 The canonical JSON printer behind every message identity, and a reader that undoes it.

 An object keeps its members in insertion order, as the hub's JSON library does; the printer
 sorts them by key.  Strings are byte strings, because the library escapes byte by byte.
 */
module CanonicalJson {
  import opened Bytes
  import opened Outcomes

  datatype Keyed<T> = Keyed(key: seq<Byte>, value: T)

  /** A float is represented by the text the library prints for it. */
  datatype Number = Int(value: int) | Float(text: seq<Byte>)

  datatype Json =
    | Null
    | Bool(bit: bool)
    | Num(number: Number)
    | Str(text: seq<Byte>)
    | Array(items: seq<Json>)
    | Object(members: seq<Keyed<Json>>)

  const QUOTE: Byte := 34
  const COMMA: Byte := 44
  const COLON: Byte := 58
  const MINUS: Byte := 45
  const DOT: Byte := 46
  const LOWER_E: Byte := 101
  const BACKSLASH: Byte := 92
  const OPEN_BRACKET: Byte := 91
  const CLOSE_BRACKET: Byte := 93
  const OPEN_BRACE: Byte := 123
  const CLOSE_BRACE: Byte := 125
  const TEXT_NULL: seq<Byte> := [110, 117, 108, 108]
  const TEXT_TRUE: seq<Byte> := [116, 114, 117, 101]
  const TEXT_FALSE: seq<Byte> := [102, 97, 108, 115, 101]

  // ---- well-formed values ------------------------------------------------

  predicate DistinctKeys<T>(s: seq<Keyed<T>>)
  {
    forall i, j | 0 <= i < j < |s| :: s[i].key != s[j].key
  }

  predicate IsDigit(b: Byte) { 48 <= b <= 57 }

  predicate IsNumberByte(b: Byte) { IsDigit(b) || b == MINUS || b == 43 || b == DOT || b == LOWER_E || b == 69 }

  predicate IsFloatMark(b: Byte) { b == DOT || b == LOWER_E || b == 69 }

  /** What a printed float looks like: number characters, with a point or an exponent among them. */
  predicate IsFloatText(s: seq<Byte>)
  {
    && (exists i | 0 <= i < |s| :: IsFloatMark(s[i]))
    && (forall i | 0 <= i < |s| :: IsNumberByte(s[i]))
  }

  predicate NumberWellFormed(n: Number)
  {
    match n
    case Int(i) => -0x8000_0000_0000_0000 <= i <= USIZE_MAX
    case Float(text) => IsFloatText(text)
  }

  /** Values of the JSON library: numbers in range and no key twice in one object. */
  predicate WellFormed(v: Json)
  {
    match v
    case Num(n) => NumberWellFormed(n)
    case Array(items) => forall i | 0 <= i < |items| :: WellFormed(items[i])
    case Object(ms) => DistinctKeys(ms) && forall i | 0 <= i < |ms| :: WellFormed(ms[i].value)
    case _ => true
  }

  /** Which values are well-formed: only numbers out of range and repeated keys, at any depth, are not. */
  lemma WellFormedMeans(b: bool, text: seq<Byte>, i: int, items: seq<Json>, ms: seq<Keyed<Json>>)
    ensures WellFormed(Null) && WellFormed(Bool(b)) && WellFormed(Str(text))
    ensures WellFormed(Num(Int(i))) <==> -0x8000_0000_0000_0000 <= i <= 0xFFFF_FFFF_FFFF_FFFF
    ensures WellFormed(Array(items)) <==> forall item | item in items :: WellFormed(item)
    ensures WellFormed(Object(ms)) <==>
              (forall i, j | 0 <= i < j < |ms| :: ms[i].key != ms[j].key) && forall m | m in ms :: WellFormed(m.value)
  {
    assert (forall i | 0 <= i < |items| :: WellFormed(items[i])) <==> (forall item | item in items :: WellFormed(item));
    assert (forall i | 0 <= i < |ms| :: WellFormed(ms[i].value)) <==> (forall m | m in ms :: WellFormed(m.value));
  }

  /** Equality of JSON values up to the order of object members. */
  ghost predicate Same(v: Json, w: Json)
    decreases v
  {
    match (v, w)
    case (Array(a), Array(b)) => |a| == |b| && forall i | 0 <= i < |a| :: Same(a[i], b[i])
    case (Object(a), Object(b)) =>
      && |a| == |b|
      && forall i | 0 <= i < |a| :: exists j | 0 <= j < |b| :: a[i].key == b[j].key && Same(a[i].value, b[j].value)
    case (Array(_), _) => false
    case (Object(_), _) => false
    case (_, _) => v == w
  }

  // ---- byte-lexicographic order and sorting by key ------------------------

  predicate LexLess(a: seq<Byte>, b: seq<Byte>)
  {
    if |b| == 0 then false
    else if |a| == 0 then true
    else a[0] < b[0] || (a[0] == b[0] && LexLess(a[1..], b[1..]))
  }

  lemma {:induction false} LexTotal(a: seq<Byte>, b: seq<Byte>)
    ensures LexLess(a, b) || a == b || LexLess(b, a)
  {
    if |a| > 0 && |b| > 0 && a[0] == b[0] {
      LexTotal(a[1..], b[1..]);
      assert a == [a[0]] + a[1..] && b == [b[0]] + b[1..];
    }
  }

  lemma {:induction false} LexTransitive(a: seq<Byte>, b: seq<Byte>, c: seq<Byte>)
    requires LexLess(a, b) && LexLess(b, c)
    ensures LexLess(a, c)
  {
    if |a| > 0 && a[0] == b[0] == c[0] {
      LexTransitive(a[1..], b[1..], c[1..]);
    }
  }

  lemma {:induction false} LexIrreflexive(a: seq<Byte>)
    ensures !LexLess(a, a)
  {
    if |a| > 0 {
      LexIrreflexive(a[1..]);
    }
  }

  /** The order of keys: a proper prefix comes first, else the first byte that differs decides. */
  lemma {:induction false} LexLessMeans(a: seq<Byte>, b: seq<Byte>)
    ensures LexLess(a, b) <==>
              || (|a| < |b| && a == b[..|a|])
              || exists k | 0 <= k < |a| && k < |b| :: a[..k] == b[..k] && a[k] < b[k]
  {
    if |a| > 0 && |b| > 0 {
      LexLessMeans(a[1..], b[1..]);
      assert a == [a[0]] + a[1..] && b == [b[0]] + b[1..];
      if LexLess(a, b) && a[0] == b[0] {
        if |a| < |b| && a[1..] == b[1..][..|a| - 1] {
          assert b[..|a|] == [b[0]] + b[1..][..|a| - 1];
        } else {
          var k :| 0 <= k < |a| - 1 && k < |b| - 1 && a[1..][..k] == b[1..][..k] && a[1..][k] < b[1..][k];
          assert a[..k + 1] == [a[0]] + a[1..][..k] && b[..k + 1] == [b[0]] + b[1..][..k];
        }
      } else if LexLess(a, b) {
        assert a[..0] == b[..0] && a[0] < b[0];
      }
      if |a| < |b| && a == b[..|a|] {
        assert a[1..] == b[1..][..|a| - 1];
      }
      if k :| 0 < k < |a| && k < |b| && a[..k] == b[..k] && a[k] < b[k] {
        assert a[..k][0] == b[..k][0];
        assert a[1..][..k - 1] == a[..k][1..] && b[1..][..k - 1] == b[..k][1..];
        assert a[1..][k - 1] == a[k] && b[1..][k - 1] == b[k];
      }
    }
  }

  function Insert<T(!new)>(m: Keyed<T>, s: seq<Keyed<T>>): (r: seq<Keyed<T>>)
    ensures |r| == |s| + 1
    ensures forall x :: x in r <==> x == m || x in s
  {
    if |s| == 0 || LexLess(m.key, s[0].key) then [m] + s else
      assert s == [s[0]] + s[1..];
      [s[0]] + Insert(m, s[1..])
  }

  function SortByKey<T(!new)>(s: seq<Keyed<T>>): (r: seq<Keyed<T>>)
    ensures |r| == |s|
    ensures forall x :: x in r <==> x in s
  {
    if |s| == 0 then [] else
      assert s == [s[0]] + s[1..];
      Insert(s[0], SortByKey(s[1..]))
  }

  predicate Sorted<T>(s: seq<Keyed<T>>)
  {
    forall i, j | 0 <= i < j < |s| :: LexLess(s[i].key, s[j].key)
  }

  lemma {:induction false} InsertSorted<T(!new)>(m: Keyed<T>, s: seq<Keyed<T>>)
    requires Sorted(s) && forall i | 0 <= i < |s| :: s[i].key != m.key
    ensures Sorted(Insert(m, s))
  {
    if |s| == 0 {
    } else if LexLess(m.key, s[0].key) {
      forall j | 0 < j < |s| ensures LexLess(m.key, s[j].key) {
        LexTransitive(m.key, s[0].key, s[j].key);
      }
    } else {
      LexTotal(m.key, s[0].key);
      InsertSorted(m, s[1..]);
      var r := Insert(m, s[1..]);
      forall j | 0 <= j < |r| ensures LexLess(s[0].key, r[j].key) {
        assert r[j] in r;
      }
    }
  }

  lemma {:induction false} SortByKeySorts<T(!new)>(s: seq<Keyed<T>>)
    requires DistinctKeys(s)
    ensures Sorted(SortByKey(s))
  {
    if |s| > 0 {
      SortByKeySorts(s[1..]);
      var r := SortByKey(s[1..]);
      forall i | 0 <= i < |r| ensures r[i].key != s[0].key {
        assert r[i] in s[1..];
      }
      InsertSorted(s[0], r);
    }
  }

  /** A strictly sorted sequence is determined by its elements. */
  lemma {:induction false} SortedIsUnique<T(!new)>(a: seq<Keyed<T>>, b: seq<Keyed<T>>)
    requires Sorted(a) && Sorted(b) && forall x :: x in a <==> x in b
    ensures a == b
  {
    assert |a| > 0 ==> a[0] in b;
    assert |b| > 0 ==> b[0] in a;
    if |a| > 0 {
      if a[0] != b[0] {
        var i :| 0 <= i < |b| && b[i] == a[0];
        var j :| 0 <= j < |a| && a[j] == b[0];
        LexTransitive(a[0].key, b[0].key, a[0].key);
        LexIrreflexive(a[0].key);
      }
      LexIrreflexive(a[0].key);
      forall x ensures x in a[1..] <==> x in b[1..] {
        assert x in a <==> x == a[0] || x in a[1..];
        assert x in b <==> x == b[0] || x in b[1..];
      }
      SortedIsUnique(a[1..], b[1..]);
      assert a == [a[0]] + a[1..] && b == [b[0]] + b[1..];
    }
  }

  // ---- the printer --------------------------------------------------------

  function HexDigit(d: nat): (b: Byte)
    requires d < 16
  {
    if d < 10 then 48 + d else 87 + d
  }

  /** One byte of a JSON string: section 7 of RFC 8259, in the library's short forms. */
  function EscapeByte(b: Byte): (r: seq<Byte>)
  {
    if b == QUOTE then [BACKSLASH, QUOTE]
    else if b == BACKSLASH then [BACKSLASH, BACKSLASH]
    else if b == 8 then [BACKSLASH, 98]
    else if b == 9 then [BACKSLASH, 116]
    else if b == 10 then [BACKSLASH, 110]
    else if b == 12 then [BACKSLASH, 102]
    else if b == 13 then [BACKSLASH, 114]
    else if b < 32 then [BACKSLASH, 117, 48, 48, HexDigit(b / 16), HexDigit(b % 16)]
    else [b]
  }

  /**
   Every byte as the library prints it: itself, except the quotation mark, the backslash and the control
   characters, which have a short form where RFC 8259 has one and else four lower-case hexadecimal digits.
   */
  lemma EscapeByteMeans(b: Byte)
    ensures b >= 0x20 && b != 0x22 && b != 0x5C ==> EscapeByte(b) == [b]
    ensures EscapeByte(0x22) == [0x5C, 0x22] && EscapeByte(0x5C) == [0x5C, 0x5C]
    ensures EscapeByte(8) == [0x5C, 0x62] && EscapeByte(9) == [0x5C, 0x74] && EscapeByte(10) == [0x5C, 0x6E]
    ensures EscapeByte(12) == [0x5C, 0x66] && EscapeByte(13) == [0x5C, 0x72]
    ensures b < 0x20 && b !in {8, 9, 10, 12, 13} ==>
              && EscapeByte(b)[..5] == [0x5C, 0x75, 0x30, 0x30, if b < 0x10 then 0x30 else 0x31]
              && |EscapeByte(b)| == 6
              && EscapeByte(b)[5] == if b % 16 < 10 then 0x30 + b % 16 else 0x61 + (b % 16 - 10)
  {
  }

  function Escape(s: seq<Byte>): (r: seq<Byte>)
  {
    if |s| == 0 then [] else EscapeByte(s[0]) + Escape(s[1..])
  }

  function PrintString(s: seq<Byte>): (r: seq<Byte>)
  {
    [QUOTE] + Escape(s) + [QUOTE]
  }

  function PrintNat(n: nat): (r: seq<Byte>)
    ensures |r| > 0
    ensures forall i | 0 <= i < |r| :: IsDigit(r[i])
  {
    if n < 10 then [48 + n] else PrintNat(n / 10) + [48 + n % 10]
  }

  function PrintNumber(n: Number): (r: seq<Byte>)
  {
    match n
    case Int(i) => if i < 0 then [MINUS] + PrintNat(-i) else PrintNat(i)
    case Float(text) => text
  }

  lemma {:induction false} NoLeadingZero(n: nat)
    ensures PrintNat(n)[0] == 0x30 ==> n == 0
    ensures n == 0 ==> PrintNat(n) == [0x30]
  {
    if n >= 10 {
      NoLeadingZero(n / 10);
    }
  }

  /** An integer begins with a minus sign exactly when it is negative, and its digits with a zero only when it is zero. */
  lemma IntegerText(i: int)
    ensures PrintNumber(Int(i))[0] == 0x2D <==> i < 0
    ensures i != 0 ==> PrintNumber(Int(i))[if i < 0 then 1 else 0] != 0x30
    ensures PrintNumber(Int(0)) == [0x30]
  {
    NoLeadingZero(if i < 0 then -i else i);
    assert IsDigit(PrintNat(if i < 0 then -i else i)[0]);
  }

  /** The canonical text of a value. */
  function Print(v: Json): (r: seq<Byte>)
    decreases v, 1
  {
    match v
    case Null => TEXT_NULL
    case Bool(b) => if b then TEXT_TRUE else TEXT_FALSE
    case Num(n) => PrintNumber(n)
    case Str(s) => PrintString(s)
    case Array(items) => [OPEN_BRACKET] + PrintItems(items) + [CLOSE_BRACKET]
    case Object(ms) => [OPEN_BRACE] + JoinMembers(SortByKey(PrintMembers(ms))) + [CLOSE_BRACE]
  }

  function PrintItems(items: seq<Json>): (r: seq<Byte>)
    decreases items, 0
  {
    if |items| == 0 then []
    else if |items| == 1 then Print(items[0])
    else Print(items[0]) + [COMMA] + PrintItems(items[1..])
  }

  function PrintMembers(ms: seq<Keyed<Json>>): (r: seq<Keyed<seq<Byte>>>)
    ensures |r| == |ms|
    ensures forall i | 0 <= i < |ms| :: r[i] == Keyed(ms[i].key, Print(ms[i].value))
    decreases ms, 0
  {
    if |ms| == 0 then []
    else [Keyed(ms[0].key, Print(ms[0].value))] + PrintMembers(ms[1..])
  }

  function PrintMember(m: Keyed<seq<Byte>>): (r: seq<Byte>)
  {
    PrintString(m.key) + [COLON] + m.value
  }

  function JoinMembers(ms: seq<Keyed<seq<Byte>>>): (r: seq<Byte>)
  {
    if |ms| == 0 then []
    else if |ms| == 1 then PrintMember(ms[0])
    else PrintMember(ms[0]) + [COMMA] + JoinMembers(ms[1..])
  }

  // ---- a reader for canonical text ------------------------------------------

  datatype Read<T> = Read(result: T, rest: seq<Byte>)

  function HexValue(b: Byte): (r: Option<nat>)
    ensures r.Some? ==> r.value < 16
  {
    if IsDigit(b) then Some(b - 48) else if 97 <= b <= 102 then Some(b - 87) else None
  }

  /** The byte after a backslash, for the two-character escapes. */
  function ShortEscape(b: Byte): (r: Option<Byte>)
  {
    if b == QUOTE || b == BACKSLASH || b == 47 then Some(b)
    else if b == 98 then Some(8)
    else if b == 102 then Some(12)
    else if b == 110 then Some(10)
    else if b == 114 then Some(13)
    else if b == 116 then Some(9)
    else None
  }

  /** Reads string characters up to and including the closing quote. */
  function ReadStringTail(s: seq<Byte>): (r: Option<Read<seq<Byte>>>)
    ensures r.Some? ==> |r.value.rest| < |s|
  {
    if |s| == 0 || s[0] < 32 then None
    else if s[0] == QUOTE then Some(Read([], s[1..]))
    else if s[0] != BACKSLASH then Prepend(s[0], ReadStringTail(s[1..]))
    else if |s| >= 2 && ShortEscape(s[1]).Some? then Prepend(ShortEscape(s[1]).value, ReadStringTail(s[2..]))
    else if |s| >= 6 && s[1..4] == [117, 48, 48] && HexValue(s[4]).Some? && HexValue(s[5]).Some?
            && HexValue(s[4]).value < 8 then
      Prepend(16 * HexValue(s[4]).value + HexValue(s[5]).value, ReadStringTail(s[6..]))
    else None
  }

  function Prepend(b: Byte, r: Option<Read<seq<Byte>>>): (q: Option<Read<seq<Byte>>>)
    ensures q.Some? <==> r.Some?
    ensures q.Some? ==> q.value.rest == r.value.rest
  {
    if r.None? then None else Some(Read([b] + r.value.result, r.value.rest))
  }

  function ReadString(s: seq<Byte>): (r: Option<Read<seq<Byte>>>)
    ensures r.Some? ==> |r.value.rest| < |s|
  {
    if |s| == 0 || s[0] != QUOTE then None else ReadStringTail(s[1..])
  }

  /** The length of the longest prefix made of number characters. */
  function NumberSpan(s: seq<Byte>): (n: nat)
    ensures n <= |s|
    ensures forall i | 0 <= i < n :: IsNumberByte(s[i])
    ensures n < |s| ==> !IsNumberByte(s[n])
  {
    if |s| > 0 && IsNumberByte(s[0]) then 1 + NumberSpan(s[1..]) else 0
  }

  function ReadNat(s: seq<Byte>): (r: Option<int>)
    ensures r.Some? ==> r.value >= 0
  {
    if |s| == 0 || !IsDigit(s[|s| - 1]) then None
    else if |s| == 1 then Some(s[0] - 48)
    else
      var high := ReadNat(s[..|s| - 1]);
      if high.None? then None else Some(10 * high.value + (s[|s| - 1] - 48))
  }

  function ReadInt(s: seq<Byte>): (r: Option<int>)
  {
    if |s| > 0 && s[0] == MINUS then
      var n := ReadNat(s[1..]);
      if n.None? then None else Some(-n.value)
    else
      var n := ReadNat(s);
      if n.None? then None else Some(n.value)
  }

  function ReadNumber(s: seq<Byte>): (r: Option<Read<Number>>)
    ensures r.Some? ==> |r.value.rest| < |s|
  {
    var n := NumberSpan(s);
    var token := s[..n];
    if n == 0 then None
    else if exists i | 0 <= i < n :: IsFloatMark(token[i]) then Some(Read(Float(token), s[n..]))
    else
      var i := ReadInt(token);
      if i.None? then None else Some(Read(Int(i.value), s[n..]))
  }

  function ReadValue(s: seq<Byte>): (r: Option<Read<Json>>)
    ensures r.Some? ==> |r.value.rest| < |s|
    decreases |s|, 2
  {
    if |s| == 0 then None
    else if s[0] == QUOTE then
      var t := ReadString(s);
      if t.None? then None else Some(Read(Str(t.value.result), t.value.rest))
    else if s[0] == OPEN_BRACKET then
      if |s| > 1 && s[1] == CLOSE_BRACKET then Some(Read(Array([]), s[2..]))
      else
        var t := ReadItems(s[1..]);
        if t.None? then None else Some(Read(Array(t.value.result), t.value.rest))
    else if s[0] == OPEN_BRACE then
      if |s| > 1 && s[1] == CLOSE_BRACE then Some(Read(Object([]), s[2..]))
      else
        var t := ReadMembers(s[1..]);
        if t.None? then None else Some(Read(Object(t.value.result), t.value.rest))
    else if TEXT_NULL <= s then Some(Read(Null, s[4..]))
    else if TEXT_TRUE <= s then Some(Read(Bool(true), s[4..]))
    else if TEXT_FALSE <= s then Some(Read(Bool(false), s[5..]))
    else
      var t := ReadNumber(s);
      if t.None? then None else Some(Read(Num(t.value.result), t.value.rest))
  }

  /** Reads `item , item ... ]`. */
  function ReadItems(s: seq<Byte>): (r: Option<Read<seq<Json>>>)
    ensures r.Some? ==> |r.value.rest| < |s|
    decreases |s|, 3
  {
    var head := ReadValue(s);
    if head.None? || |head.value.rest| == 0 then None
    else if head.value.rest[0] == CLOSE_BRACKET then Some(Read([head.value.result], head.value.rest[1..]))
    else if head.value.rest[0] != COMMA then None
    else
      var tail := ReadItems(head.value.rest[1..]);
      if tail.None? then None else Some(Read([head.value.result] + tail.value.result, tail.value.rest))
  }

  function ReadMember(s: seq<Byte>): (r: Option<Read<Keyed<Json>>>)
    ensures r.Some? ==> |r.value.rest| < |s|
    decreases |s|, 3
  {
    var key := ReadString(s);
    if key.None? || |key.value.rest| == 0 || key.value.rest[0] != COLON then None
    else
      var value := ReadValue(key.value.rest[1..]);
      if value.None? then None
      else Some(Read(Keyed(key.value.result, value.value.result), value.value.rest))
  }

  /** Reads `"key":value , "key":value ... }`. */
  function ReadMembers(s: seq<Byte>): (r: Option<Read<seq<Keyed<Json>>>>)
    ensures r.Some? ==> |r.value.rest| < |s|
    decreases |s|, 4
  {
    var head := ReadMember(s);
    if head.None? || |head.value.rest| == 0 then None
    else if head.value.rest[0] == CLOSE_BRACE then Some(Read([head.value.result], head.value.rest[1..]))
    else if head.value.rest[0] != COMMA then None
    else
      var tail := ReadMembers(head.value.rest[1..]);
      if tail.None? then None else Some(Read([head.value.result] + tail.value.result, tail.value.rest))
  }

  // ---- the reader undoes the printer ----------------------------------------

  /** The same value with the members of every object sorted by key. */
  function Normalize(v: Json): (r: Json)
    decreases v, 1
  {
    match v
    case Array(items) => Array(NormalizeItems(items))
    case Object(ms) => Object(SortByKey(NormalizeMembers(ms)))
    case _ => v
  }

  function NormalizeItems(items: seq<Json>): (r: seq<Json>)
    ensures |r| == |items|
    ensures forall i | 0 <= i < |items| :: r[i] == Normalize(items[i])
    decreases items, 0
  {
    if |items| == 0 then [] else [Normalize(items[0])] + NormalizeItems(items[1..])
  }

  function NormalizeMembers(ms: seq<Keyed<Json>>): (r: seq<Keyed<Json>>)
    ensures |r| == |ms|
    ensures forall i | 0 <= i < |ms| :: r[i] == Keyed(ms[i].key, Normalize(ms[i].value))
    decreases ms, 0
  {
    if |ms| == 0 then [] else [Keyed(ms[0].key, Normalize(ms[0].value))] + NormalizeMembers(ms[1..])
  }

  /** What may follow a value: the end of the text or a closing or separating character. */
  predicate Delimited(rest: seq<Byte>)
  {
    |rest| > 0 ==> rest[0] in {COMMA, CLOSE_BRACKET, CLOSE_BRACE}
  }

  /** `text` is read back as `v`, whatever follows it. */
  ghost predicate Reads(text: seq<Byte>, v: Json)
  {
    && |text| > 0 && text[0] !in {CLOSE_BRACKET, CLOSE_BRACE}
    && forall rest {:trigger ReadValue(text + rest)} | Delimited(rest) :: ReadValue(text + rest) == Some(Read(v, rest))
  }

  lemma EscapedByteReads(b: Byte, tail: seq<Byte>)
    ensures ReadStringTail(EscapeByte(b) + tail) == Prepend(b, ReadStringTail(tail))
  {
    var e := EscapeByte(b);
    var s := e + tail;
    assert s[|e|..] == tail;
    if |e| == 6 {
      assert s[1..4] == [117, 48, 48];
      assert s[4] == HexDigit(b / 16) && s[5] == HexDigit(b % 16);
      assert ShortEscape(117).None?;
    }
  }

  lemma {:induction false} StringRoundTrip(s: seq<Byte>, rest: seq<Byte>)
    ensures ReadStringTail(Escape(s) + [QUOTE] + rest) == Some(Read(s, rest))
  {
    if |s| == 0 {
      assert Escape(s) + [QUOTE] + rest == [QUOTE] + rest;
    } else {
      StringRoundTrip(s[1..], rest);
      var tail := Escape(s[1..]) + [QUOTE] + rest;
      assert Escape(s) + [QUOTE] + rest == EscapeByte(s[0]) + tail;
      EscapedByteReads(s[0], tail);
      assert s == [s[0]] + s[1..];
    }
  }

  lemma {:induction false} NatRoundTrip(n: nat)
    ensures ReadNat(PrintNat(n)) == Some(n)
  {
    if n >= 10 {
      NatRoundTrip(n / 10);
      assert PrintNat(n)[..|PrintNat(n)| - 1] == PrintNat(n / 10);
    }
  }

  lemma IntRoundTrip(i: int)
    ensures ReadInt(PrintNumber(Int(i))) == Some(i)
  {
    if i < 0 {
      NatRoundTrip(-i);
      assert PrintNumber(Int(i))[1..] == PrintNat(-i);
    } else {
      NatRoundTrip(i);
    }
  }

  lemma {:induction false} NumberSpanOfPrefix(token: seq<Byte>, rest: seq<Byte>)
    requires forall i | 0 <= i < |token| :: IsNumberByte(token[i])
    requires Delimited(rest)
    ensures NumberSpan(token + rest) == |token|
  {
    var s := token + rest;
    assert forall i | 0 <= i < |token| :: s[i] == token[i];
    assert |rest| > 0 ==> s[|token|] == rest[0];
  }

  lemma NumberTextReads(n: Number, rest: seq<Byte>)
    requires NumberWellFormed(n) && Delimited(rest)
    ensures ReadNumber(PrintNumber(n) + rest) == Some(Read(n, rest))
  {
    var token := PrintNumber(n);
    var s := token + rest;
    NumberSpanOfPrefix(token, rest);
    assert s[..|token|] == token && s[|token|..] == rest;
    if n.Int? {
      IntRoundTrip(n.value);
      assert forall i | 0 <= i < |token| :: token[i] == MINUS || IsDigit(token[i]);
    }
  }

  /** A text that starts with a number character is read as a number. */
  lemma NumberDispatch(s: seq<Byte>)
    requires |s| > 0 && IsNumberByte(s[0]) && ReadNumber(s).Some?
    ensures ReadValue(s) == Some(Read(Num(ReadNumber(s).value.result), ReadNumber(s).value.rest))
  {
    assert forall t: seq<Byte> | |t| > 0 && t <= s :: t[0] == s[0];
  }

  lemma NumberReads(n: Number)
    requires NumberWellFormed(n)
    ensures Reads(PrintNumber(n), Num(n))
  {
    var token := PrintNumber(n);
    assert |token| > 0 && IsNumberByte(token[0]);
    forall rest | Delimited(rest) ensures ReadValue(token + rest) == Some(Read(Num(n), rest)) {
      NumberTextReads(n, rest);
      assert (token + rest)[0] == token[0];
      NumberDispatch(token + rest);
    }
  }

  lemma ReadsApplies(text: seq<Byte>, v: Json, s: seq<Byte>, after: seq<Byte>)
    requires Reads(text, v) && s == text + after && Delimited(after)
    ensures ReadValue(s) == Some(Read(v, after))
  {
    assert ReadValue(text + after) == Some(Read(v, after));
  }

  lemma LastItem(s: seq<Byte>, v: Json, rest: seq<Byte>)
    requires ReadValue(s) == Some(Read(v, [CLOSE_BRACKET] + rest))
    ensures ReadItems(s) == Some(Read([v], rest))
  {
  }

  lemma NextItem(s: seq<Byte>, v: Json, tail: seq<Byte>, vs: seq<Json>, rest: seq<Byte>)
    requires ReadValue(s) == Some(Read(v, [COMMA] + tail)) && ReadItems(tail) == Some(Read(vs, rest))
    ensures ReadItems(s) == Some(Read([v] + vs, rest))
  {
    assert ([COMMA] + tail)[1..] == tail;
  }

  lemma {:induction false} ItemsRead(items: seq<Json>, s: seq<Byte>, rest: seq<Byte>)
    requires |items| > 0 && forall i | 0 <= i < |items| :: Reads(Print(items[i]), Normalize(items[i]))
    requires s == PrintItems(items) + ([CLOSE_BRACKET] + rest)
    ensures ReadItems(s) == Some(Read(NormalizeItems(items), rest))
  {
    hide ReadValue, ReadItems, ReadMember, ReadMembers;
    var head, v := Print(items[0]), Normalize(items[0]);
    if |items| == 1 {
      ReadsApplies(head, v, s, [CLOSE_BRACKET] + rest);
      LastItem(s, v, rest);
      assert NormalizeItems(items) == [v];
    } else {
      var tail := PrintItems(items[1..]) + ([CLOSE_BRACKET] + rest);
      ItemsRead(items[1..], tail, rest);
      assert s == head + ([COMMA] + tail);
      ReadsApplies(head, v, s, [COMMA] + tail);
      NextItem(s, v, tail, NormalizeItems(items[1..]), rest);
    }
  }

  /** Printed members, paired in order with the values their texts are read back as. */
  ghost predicate Aligned(ts: seq<Keyed<seq<Byte>>>, vs: seq<Keyed<Json>>)
  {
    && |ts| == |vs|
    && forall i | 0 <= i < |ts| :: ts[i].key == vs[i].key && Reads(ts[i].value, vs[i].value)
  }

  lemma {:induction false} InsertAligned(t: Keyed<seq<Byte>>, v: Keyed<Json>, ts: seq<Keyed<seq<Byte>>>, vs: seq<Keyed<Json>>)
    requires t.key == v.key && Reads(t.value, v.value) && Aligned(ts, vs)
    ensures Aligned(Insert(t, ts), Insert(v, vs))
  {
    if |ts| > 0 && !LexLess(t.key, ts[0].key) {
      InsertAligned(t, v, ts[1..], vs[1..]);
    }
  }

  lemma {:induction false} SortAligned(ts: seq<Keyed<seq<Byte>>>, vs: seq<Keyed<Json>>)
    requires Aligned(ts, vs)
    ensures Aligned(SortByKey(ts), SortByKey(vs))
  {
    if |ts| > 0 {
      SortAligned(ts[1..], vs[1..]);
      InsertAligned(ts[0], vs[0], SortByKey(ts[1..]), SortByKey(vs[1..]));
    }
  }

  lemma MemberReads(t: Keyed<seq<Byte>>, v: Json, s: seq<Byte>, rest: seq<Byte>)
    requires Reads(t.value, v) && Delimited(rest) && s == PrintMember(t) + rest
    ensures ReadMember(s) == Some(Read(Keyed(t.key, v), rest))
  {
    var after := [COLON] + (t.value + rest);
    assert s[1..] == Escape(t.key) + [QUOTE] + after;
    StringRoundTrip(t.key, after);
    ReadsApplies(t.value, v, t.value + rest, rest);
    assert after[1..] == t.value + rest;
  }

  lemma LastMember(t: Keyed<seq<Byte>>, v: Json, rest: seq<Byte>)
    requires Reads(t.value, v)
    ensures ReadMembers(PrintMember(t) + ([CLOSE_BRACE] + rest)) == Some(Read([Keyed(t.key, v)], rest))
  {
    MemberReads(t, v, PrintMember(t) + ([CLOSE_BRACE] + rest), [CLOSE_BRACE] + rest);
  }

  lemma NextMember(t: Keyed<seq<Byte>>, v: Json, tail: seq<Byte>, vs: seq<Keyed<Json>>, rest: seq<Byte>)
    requires Reads(t.value, v) && ReadMembers(tail) == Some(Read(vs, rest))
    ensures ReadMembers(PrintMember(t) + ([COMMA] + tail)) == Some(Read([Keyed(t.key, v)] + vs, rest))
  {
    MemberReads(t, v, PrintMember(t) + ([COMMA] + tail), [COMMA] + tail);
    assert ([COMMA] + tail)[1..] == tail;
  }

  lemma {:induction false} MembersRead(ts: seq<Keyed<seq<Byte>>>, vs: seq<Keyed<Json>>, s: seq<Byte>, rest: seq<Byte>)
    requires |ts| > 0 && Aligned(ts, vs)
    requires s == JoinMembers(ts) + ([CLOSE_BRACE] + rest)
    ensures ReadMembers(s) == Some(Read(vs, rest))
  {
    hide ReadValue, ReadItems, ReadMember, ReadMembers;
    if |ts| == 1 {
      LastMember(ts[0], vs[0].value, rest);
      assert vs == [vs[0]];
    } else {
      var tail := JoinMembers(ts[1..]) + ([CLOSE_BRACE] + rest);
      MembersRead(ts[1..], vs[1..], tail, rest);
      assert s == PrintMember(ts[0]) + ([COMMA] + tail);
      NextMember(ts[0], vs[0].value, tail, vs[1..], rest);
      assert vs == [vs[0]] + vs[1..];
    }
  }

  lemma StringTextReads(t: seq<Byte>, rest: seq<Byte>)
    ensures ReadString(PrintString(t) + rest) == Some(Read(t, rest))
  {
    StringRoundTrip(t, rest);
    assert (PrintString(t) + rest)[1..] == Escape(t) + [QUOTE] + rest;
  }

  lemma StringReads(t: seq<Byte>)
    ensures Reads(PrintString(t), Str(t))
  {
    forall rest ensures ReadValue(PrintString(t) + rest) == Some(Read(Str(t), rest)) {
      StringTextReads(t, rest);
    }
  }

  lemma ConstantsRead()
    ensures Reads(TEXT_NULL, Null) && Reads(TEXT_TRUE, Bool(true)) && Reads(TEXT_FALSE, Bool(false))
  {
    forall rest: seq<Byte>
      ensures ReadValue(TEXT_NULL + rest) == Some(Read(Null, rest))
      ensures ReadValue(TEXT_TRUE + rest) == Some(Read(Bool(true), rest))
      ensures ReadValue(TEXT_FALSE + rest) == Some(Read(Bool(false), rest))
    {
      assert (TEXT_NULL + rest)[4..] == rest && (TEXT_TRUE + rest)[4..] == rest && (TEXT_FALSE + rest)[5..] == rest;
      assert (TEXT_NULL + rest)[0] == 110 && (TEXT_TRUE + rest)[0] == 116 && (TEXT_FALSE + rest)[0] == 102;
    }
  }

  lemma OpenArray(s: seq<Byte>, vs: seq<Json>, rest: seq<Byte>)
    requires |s| > 1 && s[0] == OPEN_BRACKET
    requires if s[1] == CLOSE_BRACKET then vs == [] && s[2..] == rest else ReadItems(s[1..]) == Some(Read(vs, rest))
    ensures ReadValue(s) == Some(Read(Array(vs), rest))
  {
  }

  lemma ArrayTextReads(items: seq<Json>, rest: seq<Byte>)
    requires forall i | 0 <= i < |items| :: Reads(Print(items[i]), Normalize(items[i]))
    ensures ReadValue([OPEN_BRACKET] + PrintItems(items) + [CLOSE_BRACKET] + rest) == Some(Read(Array(NormalizeItems(items)), rest))
  {
    var s := [OPEN_BRACKET] + PrintItems(items) + [CLOSE_BRACKET] + rest;
    var tail := PrintItems(items) + ([CLOSE_BRACKET] + rest);
    assert s[1..] == tail && s[0] == OPEN_BRACKET;
    if |items| > 0 {
      ItemsRead(items, tail, rest);
      assert s[1] == Print(items[0])[0];
    } else {
      assert s[2..] == rest;
    }
    OpenArray(s, NormalizeItems(items), rest);
  }

  lemma ArrayReads(items: seq<Json>)
    requires forall i | 0 <= i < |items| :: Reads(Print(items[i]), Normalize(items[i]))
    ensures Reads(Print(Array(items)), Array(NormalizeItems(items)))
  {
    forall rest ensures ReadValue(Print(Array(items)) + rest) == Some(Read(Array(NormalizeItems(items)), rest)) {
      ArrayTextReads(items, rest);
    }
  }

  lemma OpenObject(s: seq<Byte>, vs: seq<Keyed<Json>>, rest: seq<Byte>)
    requires |s| > 1 && s[0] == OPEN_BRACE
    requires if s[1] == CLOSE_BRACE then vs == [] && s[2..] == rest else ReadMembers(s[1..]) == Some(Read(vs, rest))
    ensures ReadValue(s) == Some(Read(Object(vs), rest))
  {
  }

  lemma {:induction false} PrintMembersAligned(ms: seq<Keyed<Json>>)
    requires forall i | 0 <= i < |ms| :: Reads(Print(ms[i].value), Normalize(ms[i].value))
    ensures Aligned(PrintMembers(ms), NormalizeMembers(ms))
  {
    if |ms| > 0 {
      PrintMembersAligned(ms[1..]);
    }
  }

  lemma ObjectReads(ms: seq<Keyed<Json>>)
    requires forall i | 0 <= i < |ms| :: Reads(Print(ms[i].value), Normalize(ms[i].value))
    ensures Reads(Print(Object(ms)), Normalize(Object(ms)))
  {
    PrintMembersAligned(ms);
    var ts, vs := SortByKey(PrintMembers(ms)), SortByKey(NormalizeMembers(ms));
    SortAligned(PrintMembers(ms), NormalizeMembers(ms));
    var text := Print(Object(ms));
    forall rest ensures ReadValue(text + rest) == Some(Read(Object(vs), rest)) {
      var s := text + rest;
      var tail := JoinMembers(ts) + ([CLOSE_BRACE] + rest);
      assert s == [OPEN_BRACE] + tail;
      assert s[1..] == tail;
      if |ms| > 0 {
        MembersRead(ts, vs, tail, rest);
        assert tail[0] == QUOTE;
      } else {
        assert s[2..] == rest;
      }
      OpenObject(s, vs, rest);
    }
  }

  /** Reading back a printed value gives the value with its members in key order, whatever follows. */
  lemma {:induction false} PrintedValueReads(v: Json)
    requires WellFormed(v)
    ensures Reads(Print(v), Normalize(v))
  {
    match v
    case Null => ConstantsRead();
    case Bool(_) => ConstantsRead();
    case Num(n) => NumberReads(n);
    case Str(t) => StringReads(t);
    case Array(items) =>
      forall i | 0 <= i < |items| ensures Reads(Print(items[i]), Normalize(items[i])) {
        PrintedValueReads(items[i]);
      }
      ArrayReads(items);
    case Object(ms) =>
      forall i | 0 <= i < |ms| ensures Reads(Print(ms[i].value), Normalize(ms[i].value)) {
        PrintedValueReads(ms[i].value);
      }
      ObjectReads(ms);
  }

  lemma RoundTrip(v: Json)
    requires WellFormed(v)
    ensures ReadValue(Print(v)) == Some(Read(Normalize(v), []))
  {
    PrintedValueReads(v);
    assert Print(v) + [] == Print(v);
  }

  // ---- canonical text decides equality up to member order ---------------------

  ghost function Keys<T>(s: seq<Keyed<T>>): set<seq<Byte>>
  {
    set i | 0 <= i < |s| :: s[i].key
  }

  lemma {:induction false} KeysCount<T>(s: seq<Keyed<T>>)
    requires DistinctKeys(s)
    ensures |Keys(s)| == |s|
  {
    if |s| > 0 {
      var last := |s| - 1;
      KeysCount(s[..last]);
      assert Keys(s) == Keys(s[..last]) + {s[last].key};
    }
  }

  lemma SubsetOfSameSize<T>(a: set<T>, b: set<T>)
    requires a <= b && |a| == |b|
    ensures a == b
  {
    assert b == a + (b - a);
    assert |b| == |a| + |b - a|;
  }

  /** Equally many members with distinct keys, all of one list in the other: sorting makes them equal. */
  lemma SameMembersSortAlike<T(!new)>(a: seq<Keyed<T>>, b: seq<Keyed<T>>)
    requires DistinctKeys(a) && DistinctKeys(b) && |a| == |b|
    requires forall x | x in a :: x in b
    ensures SortByKey(a) == SortByKey(b)
  {
    KeysCount(a);
    KeysCount(b);
    forall k | k in Keys(a) ensures k in Keys(b) {
      var i :| 0 <= i < |a| && a[i].key == k;
      assert a[i] in b;
    }
    SubsetOfSameSize(Keys(a), Keys(b));
    forall x | x in b ensures x in a {
      assert x.key in Keys(a);
      var i :| 0 <= i < |a| && a[i].key == x.key;
      assert a[i] in b;
    }
    SortByKeySorts(a);
    SortByKeySorts(b);
    SortedIsUnique(SortByKey(a), SortByKey(b));
  }

  lemma {:induction false} SameArrays(a: seq<Json>, b: seq<Json>)
    requires |a| == |b| && forall i | 0 <= i < |a| :: Print(a[i]) == Print(b[i])
    ensures PrintItems(a) == PrintItems(b)
  {
    if |a| > 1 {
      SameArrays(a[1..], b[1..]);
    }
  }

  /** Some member of `b` has the key of `m` and prints like it. */
  ghost predicate PrintsIn(m: Keyed<Json>, b: seq<Keyed<Json>>)
  {
    exists j | 0 <= j < |b| :: m.key == b[j].key && Print(m.value) == Print(b[j].value)
  }

  lemma SameObjects(a: seq<Keyed<Json>>, b: seq<Keyed<Json>>)
    requires DistinctKeys(a) && DistinctKeys(b) && |a| == |b|
    requires forall i | 0 <= i < |a| :: PrintsIn(a[i], b)
    ensures Print(Object(a)) == Print(Object(b))
  {
    var pa, pb := PrintMembers(a), PrintMembers(b);
    forall x | x in pa ensures x in pb {
      var i :| 0 <= i < |a| && pa[i] == x;
      assert PrintsIn(a[i], b);
      var j :| 0 <= j < |b| && a[i].key == b[j].key && Print(a[i].value) == Print(b[j].value);
      assert pb[j] == x;
    }
    SameMembersSortAlike(pa, pb);
  }

  lemma {:induction false} SameValuesPrintAlike(v: Json, w: Json)
    requires WellFormed(v) && WellFormed(w) && Same(v, w)
    ensures Print(v) == Print(w)
    decreases v
  {
    match (v, w)
    case (Array(a), Array(b)) =>
      forall i | 0 <= i < |a| ensures Print(a[i]) == Print(b[i]) {
        SameValuesPrintAlike(a[i], b[i]);
      }
      SameArrays(a, b);
    case (Object(a), Object(b)) =>
      forall i | 0 <= i < |a| ensures PrintsIn(a[i], b) {
        var j :| 0 <= j < |b| && a[i].key == b[j].key && Same(a[i].value, b[j].value);
        SameValuesPrintAlike(a[i].value, b[j].value);
      }
      SameObjects(a, b);
    case (_, _) =>
  }

  lemma {:induction false} NormalizedAreSame(v: Json, w: Json)
    requires WellFormed(v) && WellFormed(w) && Normalize(v) == Normalize(w)
    ensures Same(v, w)
    decreases v
  {
    match (v, w)
    case (Array(a), Array(b)) =>
      forall i | 0 <= i < |a| ensures Same(a[i], b[i]) {
        assert NormalizeItems(a)[i] == NormalizeItems(b)[i];
        NormalizedAreSame(a[i], b[i]);
      }
    case (Object(a), Object(b)) =>
      var na, nb := NormalizeMembers(a), NormalizeMembers(b);
      forall i | 0 <= i < |a|
        ensures exists j | 0 <= j < |b| :: a[i].key == b[j].key && Same(a[i].value, b[j].value)
      {
        assert na[i] in SortByKey(na) && na[i] in nb;
        var j :| 0 <= j < |b| && nb[j] == na[i];
        NormalizedAreSame(a[i].value, b[j].value);
      }
    case (_, _) =>
  }

  /** Two values print alike exactly when they are equal up to the order of object members. */
  lemma PrintIsCanonical(v: Json, w: Json)
    requires WellFormed(v) && WellFormed(w)
    ensures Print(v) == Print(w) <==> Same(v, w)
  {
    RoundTrip(v);
    RoundTrip(w);
    if Print(v) == Print(w) {
      NormalizedAreSame(v, w);
    }
    if Same(v, w) {
      SameValuesPrintAlike(v, w);
    }
  }

  // ---- no NUL byte is ever printed ----------------------------------------------

  lemma {:induction false} EscapeHasNoNul(s: seq<Byte>)
    ensures NUL !in Escape(s)
  {
    if |s| > 0 {
      EscapeHasNoNul(s[1..]);
    }
  }

  lemma {:induction false} JoinHasNoNul(ms: seq<Keyed<seq<Byte>>>)
    requires forall m | m in ms :: NUL !in m.value
    ensures NUL !in JoinMembers(ms)
  {
    if |ms| > 0 {
      EscapeHasNoNul(ms[0].key);
      JoinHasNoNul(ms[1..]);
    }
  }

  lemma {:induction false} ItemsHaveNoNul(items: seq<Json>)
    requires forall i | 0 <= i < |items| :: NUL !in Print(items[i])
    ensures NUL !in PrintItems(items)
  {
    if |items| > 1 {
      ItemsHaveNoNul(items[1..]);
    }
  }

  lemma {:induction false} PrintHasNoNul(v: Json)
    requires WellFormed(v)
    ensures NUL !in Print(v)
  {
    match v
    case Str(t) => EscapeHasNoNul(t);
    case Array(items) =>
      forall i | 0 <= i < |items| ensures NUL !in Print(items[i]) {
        PrintHasNoNul(items[i]);
      }
      ItemsHaveNoNul(items);
    case Object(ms) =>
      forall i | 0 <= i < |ms| ensures NUL !in Print(ms[i].value) {
        PrintHasNoNul(ms[i].value);
      }
      forall m | m in SortByKey(PrintMembers(ms)) ensures NUL !in m.value {
        assert m in PrintMembers(ms);
      }
      JoinHasNoNul(SortByKey(PrintMembers(ms)));
    case _ =>
  }
}
