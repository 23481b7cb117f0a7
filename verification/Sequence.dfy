/** sequence.rs: the ordering key of feed items and its cursor text. */
module Sequence {
  import opened Prelude

  datatype SequenceKey = SequenceKey(blockHeight: i64, txId: i64, phase: i64, ordinal: i64)

  /** The derived lexicographic order. */
  predicate Less(a: SequenceKey, b: SequenceKey) {
    || a.blockHeight < b.blockHeight
    || (a.blockHeight == b.blockHeight
        && (|| a.txId < b.txId
            || (a.txId == b.txId
                && (|| a.phase < b.phase
                    || (a.phase == b.phase && a.ordinal < b.ordinal)))))
  }

  function Digit(d: int): char
    requires 0 <= d < 10
  {
    '0' + d as char
  }

  predicate IsDigit(c: char) {
    '0' <= c <= '9'
  }

  function PrintNat(n: nat): string {
    if n < 10 then [Digit(n)] else PrintNat(n / 10) + [Digit(n % 10)]
  }

  /** `to_string` of an integer. */
  function PrintInt(n: int): string {
    if n < 0 then "-" + PrintNat(-n) else PrintNat(n)
  }

  function ToCursor(k: SequenceKey): string {
    PrintInt(k.blockHeight) + ":" + PrintInt(k.txId) + ":" + PrintInt(k.phase) + ":" + PrintInt(k.ordinal)
  }

  /** `str::split(':')`: always at least one part. */
  function Split(s: string): (parts: seq<string>)
    ensures |parts| >= 1
  {
    if s == [] then [[]]
    else if s[0] == ':' then [[]] + Split(s[1..])
    else
      var rest := Split(s[1..]);
      [[s[0]] + rest[0]] + rest[1..]
  }

  predicate AllDigits(s: string) {
    forall i :: 0 <= i < |s| ==> IsDigit(s[i])
  }

  function DigitsValue(s: string): nat
    requires AllDigits(s)
  {
    if s == [] then 0
    else 10 * DigitsValue(s[..|s| - 1]) + (s[|s| - 1] as int - '0' as int)
  }

  /** `str::parse::<i64>`: an optional sign, at least one digit, a value in range. */
  function ParseI64(s: string): Option<i64> {
    var negative := s != [] && s[0] == '-';
    var signed := negative || (s != [] && s[0] == '+');
    var digits := if signed then s[1..] else s;
    if digits == [] || !AllDigits(digits) then None
    else
      var v: int := DigitsValue(digits);
      var value: int := if negative then -v else v;
      if I64_MIN <= value <= I64_MAX then Some(value) else None
  }

  datatype CursorError = WrongPartCount | BadBlockHeight | BadTxId | BadPhase | BadOrdinal

  function ParseCursor(cursor: string): Result<SequenceKey, CursorError> {
    var parts := Split(cursor);
    if |parts| != 4 then Failure(WrongPartCount)
    else
      var h, t, p, o := ParseI64(parts[0]), ParseI64(parts[1]), ParseI64(parts[2]), ParseI64(parts[3]);
      if h.None? then Failure(BadBlockHeight)
      else if t.None? then Failure(BadTxId)
      else if p.None? then Failure(BadPhase)
      else if o.None? then Failure(BadOrdinal)
      else Success(SequenceKey(h.value, t.value, p.value, o.value))
  }

  lemma {:induction false} PrintNatDigits(n: nat)
    ensures PrintNat(n) != [] && AllDigits(PrintNat(n))
    ensures DigitsValue(PrintNat(n)) == n
  {
    if n >= 10 {
      PrintNatDigits(n / 10);
      assert PrintNat(n)[..|PrintNat(n)| - 1] == PrintNat(n / 10);
    } else {
      assert DigitsValue([Digit(n)]) == n;
    }
  }

  lemma PrintIntNoColon(n: int)
    ensures ':' !in PrintInt(n)
  {
    PrintNatDigits(if n < 0 then -n else n);
  }

  /** Every i64 survives printing and parsing, the minimum value included. */
  lemma ParsePrint(n: i64)
    ensures ParseI64(PrintInt(n)) == Some(n)
  {
    if n < 0 {
      PrintNatDigits(-(n as int));
      assert PrintInt(n)[1..] == PrintNat(-(n as int));
    } else {
      PrintNatDigits(n);
      assert IsDigit(PrintNat(n)[0]);
    }
  }

  lemma {:induction false} SplitHead(a: string, b: string)
    requires ':' !in a
    ensures Split(a + ":" + b) == [a] + Split(b)
  {
    if a == [] {
      assert (a + ":" + b)[1..] == b;
    } else {
      assert (a + ":" + b)[1..] == a[1..] + ":" + b;
      assert a[0] in a && forall c :: c in a[1..] ==> c in a;
      SplitHead(a[1..], b);
      assert [a[0]] + a[1..] == a;
    }
  }

  lemma {:induction false} SplitNone(a: string)
    requires ':' !in a
    ensures Split(a) == [a]
  {
    if a == [] {
    } else {
      assert a[0] in a && forall c :: c in a[1..] ==> c in a;
      SplitNone(a[1..]);
      assert [a[0]] + a[1..] == a;
    }
  }

  lemma FourParts(h: string, t: string, p: string, o: string)
    ensures h + ":" + t + ":" + p + ":" + o == h + ":" + (t + ":" + (p + ":" + o))
  {
    assert t + ":" + (p + ":" + o) == (t + ":" + p) + (":" + o);
    assert h + ":" + t + ":" + p + ":" + o == (h + ":") + ((t + ":" + p) + (":" + o));
  }

  lemma SplitFour(h: string, t: string, p: string, o: string)
    requires ':' !in h && ':' !in t && ':' !in p && ':' !in o
    ensures Split(h + ":" + t + ":" + p + ":" + o) == [h, t, p, o]
  {
    hide Split;
    FourParts(h, t, p, o);
    SplitHead(h, t + ":" + (p + ":" + o));
    SplitHead(t, p + ":" + o);
    SplitHead(p, o);
    SplitNone(o);
  }

  /** `parse_cursor(key.to_cursor())` is the key, for every quadruple of i64 values. */
  lemma CursorRoundTrip(k: SequenceKey)
    ensures ParseCursor(ToCursor(k)) == Success(k)
  {
    var h, t, p, o := PrintInt(k.blockHeight), PrintInt(k.txId), PrintInt(k.phase), PrintInt(k.ordinal);
    PrintIntNoColon(k.blockHeight);
    PrintIntNoColon(k.txId);
    PrintIntNoColon(k.phase);
    PrintIntNoColon(k.ordinal);
    SplitFour(h, t, p, o);
    assert Split(ToCursor(k)) == [h, t, p, o];
    ParsePrint(k.blockHeight);
    ParsePrint(k.txId);
    ParsePrint(k.phase);
    ParsePrint(k.ordinal);
  }

  /** Different keys never share a cursor text. */
  lemma CursorInjective(a: SequenceKey, b: SequenceKey)
    requires ToCursor(a) == ToCursor(b)
    ensures a == b
  {
    CursorRoundTrip(a);
    CursorRoundTrip(b);
  }

  // ---- What the order and the text are, spelled out ----

  function Fields(k: SequenceKey): seq<i64> {
    [k.blockHeight, k.txId, k.phase, k.ordinal]
  }

  /** The order of keys is decided by the first field in which they differ, height first. */
  lemma LessIsLexicographic(a: SequenceKey, b: SequenceKey)
    ensures Less(a, b) <==> exists i :: 0 <= i < 4 && Fields(a)[..i] == Fields(b)[..i] && Fields(a)[i] < Fields(b)[i]
  {
    var x, y := Fields(a), Fields(b);
    assert x[..1] == y[..1] <==> x[0] == y[0];
    assert x[..2] == y[..2] <==> x[0] == y[0] && x[1] == y[1];
    assert x[..3] == y[..3] <==> x[0] == y[0] && x[1] == y[1] && x[2] == y[2];
    if Less(a, b) {
      var i := if x[0] != y[0] then 0 else if x[1] != y[1] then 1 else if x[2] != y[2] then 2 else 3;
      assert x[..i] == y[..i] && x[i] < y[i];
    }
    if i :| 0 <= i < 4 && x[..i] == y[..i] && x[i] < y[i] {
      assert i == 0 || i == 1 || i == 2 || i == 3;
    }
  }

  /** `digits` is a non-empty decimal numeral of the value `n`. */
  ghost predicate Numeral(digits: string, n: int) {
    digits != [] && AllDigits(digits) && DigitsValue(digits) == n
  }

  /** A text is read as `v` exactly when it is a numeral of `v`, with an optional sign, and `v` is an i64. */
  ghost predicate SignedNumeral(s: string, v: int) {
    || Numeral(s, v)
    || (s != [] && s[0] == '+' && Numeral(s[1..], v))
    || (s != [] && s[0] == '-' && Numeral(s[1..], -v))
  }

  lemma ParseI64Iff(s: string, v: i64)
    ensures ParseI64(s) == Some(v) <==> SignedNumeral(s, v)
  {
    assert !IsDigit('+') && !IsDigit('-');
  }

  /**
   * A cursor is read exactly when it is four signed i64 numerals with colons between them, and the key has
   * them in the order height, transaction, phase, ordinal.
   */
  lemma ParseCursorIff(cursor: string, k: SequenceKey)
    ensures ParseCursor(cursor) == Success(k) <==>
      exists h, t, p, o :: ':' !in h && ':' !in t && ':' !in p && ':' !in o
        && cursor == h + ":" + t + ":" + p + ":" + o
        && SignedNumeral(h, k.blockHeight) && SignedNumeral(t, k.txId)
        && SignedNumeral(p, k.phase) && SignedNumeral(o, k.ordinal)
  {
    if ParseCursor(cursor) == Success(k) {
      var parts := Split(cursor);
      SplitJoins(cursor);
      JoinFour(parts);
      ParseI64Iff(parts[0], k.blockHeight);
      ParseI64Iff(parts[1], k.txId);
      ParseI64Iff(parts[2], k.phase);
      ParseI64Iff(parts[3], k.ordinal);
      assert cursor == parts[0] + ":" + parts[1] + ":" + parts[2] + ":" + parts[3];
    }
    if h, t, p, o :| ':' !in h && ':' !in t && ':' !in p && ':' !in o
                     && cursor == h + ":" + t + ":" + p + ":" + o
                     && SignedNumeral(h, k.blockHeight) && SignedNumeral(t, k.txId)
                     && SignedNumeral(p, k.phase) && SignedNumeral(o, k.ordinal) {
      SplitFour(h, t, p, o);
      ParseI64Iff(h, k.blockHeight);
      ParseI64Iff(t, k.txId);
      ParseI64Iff(p, k.phase);
      ParseI64Iff(o, k.ordinal);
    }
  }

  function Join(parts: seq<string>): string
    requires parts != []
  {
    if |parts| == 1 then parts[0] else parts[0] + ":" + Join(parts[1..])
  }

  /** Splitting loses nothing and leaves no colon in a part. */
  lemma {:induction false} SplitJoins(s: string)
    ensures Join(Split(s)) == s && forall i :: 0 <= i < |Split(s)| ==> ':' !in Split(s)[i]
  {
    if s == [] {
    } else {
      var rest := Split(s[1..]);
      SplitJoins(s[1..]);
      assert s == [s[0]] + s[1..];
      if s[0] == ':' {
        assert Split(s)[1..] == rest;
      } else {
        assert Split(s)[1..] == rest[1..];
      }
    }
  }

  lemma JoinTwo(parts: seq<string>)
    requires |parts| == 2
    ensures Join(parts) == parts[0] + ":" + parts[1]
  {
  }

  lemma JoinFour(parts: seq<string>)
    requires |parts| == 4
    ensures Join(parts) == parts[0] + ":" + parts[1] + ":" + parts[2] + ":" + parts[3]
  {
    JoinTwo(parts[2..]);
    assert parts[1..][1..] == parts[2..];
    assert Join(parts[1..]) == parts[1] + ":" + Join(parts[2..]);
    assert Join(parts) == parts[0] + ":" + Join(parts[1..]);
    hide Join;
    FourParts(parts[0], parts[1], parts[2], parts[3]);
    assert Join(parts[1..]) == parts[1] + ":" + (parts[2] + ":" + parts[3]);
  }

  lemma {:induction false} SplitCount(s: string)
    ensures |Split(s)| == multiset(s)[':'] + 1
  {
    if s == [] {
    } else {
      assert s == [s[0]] + s[1..];
      SplitCount(s[1..]);
    }
  }

  ghost predicate NoNumeral(s: string) {
    forall v: i64 :: !SignedNumeral(s, v)
  }

  lemma NoNumeralFails(s: string)
    ensures NoNumeral(s) <==> ParseI64(s).None?
  {
    forall v: i64
      ensures ParseI64(s) == Some(v) <==> SignedNumeral(s, v)
    {
      ParseI64Iff(s, v);
    }
    if ParseI64(s).Some? {
      assert SignedNumeral(s, ParseI64(s).value);
    }
  }

  /** What a refused cursor is refused for: the number of its colons, else its first part that is no i64. */
  lemma CursorErrors(h: string, t: string, p: string, o: string, cursor: string)
    requires ':' !in h && ':' !in t && ':' !in p && ':' !in o && cursor == h + ":" + t + ":" + p + ":" + o
    ensures forall s :: ParseCursor(s) == Failure(WrongPartCount) <==> multiset(s)[':'] != 3
    ensures ParseCursor(cursor) == Failure(BadBlockHeight) <==> NoNumeral(h)
    ensures ParseCursor(cursor) == Failure(BadTxId) <==> !NoNumeral(h) && NoNumeral(t)
    ensures ParseCursor(cursor) == Failure(BadPhase) <==> !NoNumeral(h) && !NoNumeral(t) && NoNumeral(p)
    ensures ParseCursor(cursor) == Failure(BadOrdinal)
       <==> !NoNumeral(h) && !NoNumeral(t) && !NoNumeral(p) && NoNumeral(o)
  {
    hide NoNumeral, ParseI64, Split;
    SplitFour(h, t, p, o);
    NoNumeralFails(h);
    NoNumeralFails(t);
    NoNumeralFails(p);
    NoNumeralFails(o);
    forall s
      ensures ParseCursor(s) == Failure(WrongPartCount) <==> multiset(s)[':'] != 3
    {
      SplitCount(s);
    }
  }

  /** Printed digits stand in their usual order, the sign in front. */
  lemma PrintSamples()
    ensures PrintInt(1205) == "1205" && PrintInt(-30) == "-30" && PrintInt(0) == "0"
  {
    assert PrintNat(12) == "12";
    assert PrintNat(120) == "120";
    assert PrintNat(1205) == "1205";
    assert PrintNat(30) == "30";
  }
}
