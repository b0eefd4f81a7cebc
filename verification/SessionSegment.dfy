// The per-session directory name of the spill store (src/spill-store.ts).
module SessionSegment {
  import opened Text

  // ----- Characters and bytes -----

  predicate High(u: CodeUnit) { 0xD800 <= u < 0xDC00 }

  predicate Low(u: CodeUnit) { 0xDC00 <= u < 0xE000 }

  predicate StartsPair(id: Text) {
    |id| >= 2 && High(id[0]) && Low(id[1])
  }

  function PairValue(high: CodeUnit, low: CodeUnit): int {
    0x10000 + (high as int - 0xD800) * 0x400 + (low as int - 0xDC00)
  }

  const REPLACEMENT := 0xFFFD

  // What the encoder sees: pairs as one character, a lone surrogate as U+FFFD.
  function Scalars(id: Text): seq<int> {
    if id == [] then []
    else if StartsPair(id) then [PairValue(id[0], id[1])] + Scalars(id[2..])
    else if High(id[0]) || Low(id[0]) then [REPLACEMENT] + Scalars(id[1..])
    else [id[0] as int] + Scalars(id[1..])
  }

  predicate WellFormed(id: Text) {
    if id == [] then true
    else if StartsPair(id) then WellFormed(id[2..])
    else !High(id[0]) && !Low(id[0]) && WellFormed(id[1..])
  }

  // No surrogate stands alone: a high one comes before a low one and a low one after a
  // high one.
  predicate PairedAt(id: Text, i: nat) {
    i < |id| &&
    (High(id[i]) ==> i + 1 < |id| && Low(id[i + 1])) && (Low(id[i]) ==> i > 0 && High(id[i - 1]))
  }

  lemma {:induction false} WellFormedIff(id: Text)
    ensures WellFormed(id) <==> forall i: nat :: i < |id| ==> PairedAt(id, i)
    decreases |id|
  {
    if id != [] {
      var n := if StartsPair(id) then 2 else 1;
      WellFormedIff(id[n..]);
      if forall i: nat :: i < |id| ==> PairedAt(id, i) {
        assert PairedAt(id, 0);
        forall i: nat | i < |id[n..]| ensures PairedAt(id[n..], i) {
          assert PairedAt(id, i + n);
        }
      }
      if WellFormed(id) {
        forall i: nat | i < |id| ensures PairedAt(id, i) {
          if i >= n { assert PairedAt(id[n..], i - n); }
        }
      }
    }
  }

  predicate Scalar(c: int) {
    0 <= c < 0x110000
  }

  function Utf8(c: int): seq<int> {
    if c < 0x80 then [c]
    else if c < 0x800 then [0xC0 + c / 0x40, 0x80 + c % 0x40]
    else if c < 0x10000 then [0xE0 + c / 0x1000, 0x80 + c / 0x40 % 0x40, 0x80 + c % 0x40]
    else [0xF0 + c / 0x40000, 0x80 + c / 0x1000 % 0x40, 0x80 + c / 0x40 % 0x40, 0x80 + c % 0x40]
  }

  function Bytes(scalars: seq<int>): seq<int> {
    if scalars == [] then [] else Utf8(scalars[0]) + Bytes(scalars[1..])
  }

  function HexDigit(d: int): CodeUnit
    requires 0 <= d < 16
  {
    (if d < 10 then 48 + d else 87 + d) as CodeUnit
  }

  predicate Byte(b: int) {
    0 <= b < 256
  }

  function Hex(bytes: seq<int>): Text
    requires forall i :: 0 <= i < |bytes| ==> Byte(bytes[i])
  {
    if bytes == [] then []
    else
      assert Byte(bytes[0]);
      [HexDigit(bytes[0] / 16), HexDigit(bytes[0] % 16)] + Hex(bytes[1..])
  }

  lemma {:induction false} ScalarsAre(id: Text)
    ensures forall i :: 0 <= i < |Scalars(id)| ==> Scalar(Scalars(id)[i])
  {
    if id != [] {
      if StartsPair(id) {
        ScalarsAre(id[2..]);
      } else {
        ScalarsAre(id[1..]);
      }
    }
  }

  lemma {:induction false} BytesAre(scalars: seq<int>)
    requires forall i :: 0 <= i < |scalars| ==> Scalar(scalars[i])
    ensures forall i :: 0 <= i < |Bytes(scalars)| ==> Byte(Bytes(scalars)[i])
  {
    if scalars != [] {
      BytesAre(scalars[1..]);
      assert Scalar(scalars[0]);
    }
  }

  // The UTF-8 bytes of an id, in hex.
  function Encoded(id: Text): Text {
    ScalarsAre(id);
    BytesAre(Scalars(id));
    Hex(Bytes(Scalars(id)))
  }

  // ----- The readable part -----

  const DASH: CodeUnit := 45
  const UNDERSCORE: CodeUnit := 95

  predicate Safe(u: CodeUnit) {
    48 <= u <= 57 || 65 <= u <= 90 || 97 <= u <= 122 || u == UNDERSCORE || u == DASH
  }

  // The safe alphabet, in characters.
  lemma SafeIff(u: CodeUnit)
    ensures DASH as int == '-' as int && UNDERSCORE as int == '_' as int
    ensures Safe(u) <==>
            || '0' as int <= u as int <= '9' as int || 'A' as int <= u as int <= 'Z' as int
            || 'a' as int <= u as int <= 'z' as int || u as int == '_' as int || u as int == '-' as int
  {
  }

  function ReplaceUnsafe(id: Text): Text {
    if id == [] then [] else [if Safe(id[0]) then id[0] else UNDERSCORE] + ReplaceUnsafe(id[1..])
  }

  function Collapse(s: Text): Text {
    if s == [] then []
    else if |s| >= 2 && s[0] == UNDERSCORE && s[1] == UNDERSCORE then Collapse(s[1..])
    else [s[0]] + Collapse(s[1..])
  }

  predicate Trimmed(u: CodeUnit) { u == UNDERSCORE || u == DASH }

  function TrimStart(s: Text): Text {
    if s != [] && Trimmed(s[0]) then TrimStart(s[1..]) else s
  }

  function TrimEnd(s: Text): Text {
    if s != [] && Trimmed(s[|s| - 1]) then TrimEnd(s[..|s| - 1]) else s
  }

  function Readable(id: Text): Text {
    var trimmed := TrimStart(Collapse(ReplaceUnsafe(id)));
    TrimEnd(if |trimmed| > 24 then trimmed[..24] else trimmed)
  }

  // "session"
  const SESSION: Text := [115, 101, 115, 115, 105, 111, 110]

  function Segment(id: Text): Text {
    var encoded := Encoded(id);
    var readable := Readable(id);
    if readable != [] then readable + [DASH] + encoded
    else if encoded == [] then SESSION else encoded
  }

  // ----- The encoding is injective -----

  lemma Utf8Shape(c: int)
    requires Scalar(c)
    ensures |Utf8(c)| == (if Utf8(c)[0] < 0x80 then 1 else if Utf8(c)[0] < 0xE0 then 2
                          else if Utf8(c)[0] < 0xF0 then 3 else 4)
  {
  }

  lemma Utf8Decodes(c: int)
    requires Scalar(c)
    ensures var b := Utf8(c);
            c == (if |b| == 1 then b[0]
                  else if |b| == 2 then (b[0] - 0xC0) * 0x40 + (b[1] - 0x80)
                  else if |b| == 3 then (b[0] - 0xE0) * 0x1000 + (b[1] - 0x80) * 0x40 + (b[2] - 0x80)
                  else (b[0] - 0xF0) * 0x40000 + (b[1] - 0x80) * 0x1000 + (b[2] - 0x80) * 0x40 + (b[3] - 0x80))
  {
    assert c / 0x40 / 0x40 == c / 0x1000;
    assert c / 0x1000 / 0x40 == c / 0x40000;
  }

  // The UTF-8 of section 3 of RFC 3629: the number of bytes by the character, the first
  // byte telling it, every other from 0x80 to 0xBF, and the character read back from them.
  lemma Utf8Is(c: int)
    requires Scalar(c)
    ensures var b := Utf8(c);
            && |b| == (if c <= 0x7F then 1 else if c <= 0x7FF then 2 else if c <= 0xFFFF then 3 else 4)
            && (forall i :: 1 <= i < |b| ==> 0x80 <= b[i] <= 0xBF)
            && (|b| == 2 ==> 0xC2 <= b[0] <= 0xDF && c == (b[0] - 0xC0) * 64 + (b[1] - 0x80))
            && (|b| == 3 ==> 0xE0 <= b[0] <= 0xEF && c == ((b[0] - 0xE0) * 64 + (b[1] - 0x80)) * 64 + (b[2] - 0x80))
            && (|b| == 4 ==> 0xF0 <= b[0] <= 0xF4 &&
                             c == (((b[0] - 0xF0) * 64 + (b[1] - 0x80)) * 64 + (b[2] - 0x80)) * 64 + (b[3] - 0x80))
            && (|b| == 1 ==> b[0] == c)
  {
    Utf8Decodes(c);
  }

  // The value of a lower-case hex digit.
  function DigitValue(u: CodeUnit): int {
    if 48 <= u <= 57 then u as int - 48 else if 97 <= u <= 102 then u as int - 97 + 10 else -1
  }

  // Two digits a byte, the high one first.
  lemma {:induction false} HexIs(bytes: seq<int>, i: nat)
    requires forall k :: 0 <= k < |bytes| ==> Byte(bytes[k])
    requires i < |bytes|
    ensures |Hex(bytes)| == 2 * |bytes|
    ensures var high, low := DigitValue(Hex(bytes)[2 * i]), DigitValue(Hex(bytes)[2 * i + 1]);
            0 <= high < 16 && 0 <= low < 16 && bytes[i] == 16 * high + low
    decreases |bytes|
  {
    assert Byte(bytes[0]);
    var rest := Hex(bytes[1..]);
    assert Hex(bytes)[2..] == rest;
    if i > 0 {
      HexIs(bytes[1..], i - 1);
      assert Hex(bytes)[2 * i] == rest[2 * (i - 1)] && Hex(bytes)[2 * i + 1] == rest[2 * (i - 1) + 1];
    } else if |bytes| > 1 {
      HexIs(bytes[1..], 0);
    } else {
      assert rest == [];
    }
  }

  // No character's bytes begin another's.
  lemma Utf8IsPrefixFree(c: int, x: seq<int>, d: int, y: seq<int>)
    requires Scalar(c) && Scalar(d) && Utf8(c) + x == Utf8(d) + y
    ensures c == d && x == y
  {
    hide Utf8;
    Utf8Shape(c);
    Utf8Shape(d);
    assert (Utf8(c) + x)[0] == Utf8(c)[0] && (Utf8(d) + y)[0] == Utf8(d)[0];
    assert |Utf8(c)| == |Utf8(d)|;
    assert Utf8(c) == (Utf8(c) + x)[..|Utf8(c)|] == Utf8(d);
    assert x == (Utf8(c) + x)[|Utf8(c)|..] == y;
    Utf8Decodes(c);
    Utf8Decodes(d);
  }

  lemma {:induction false} BytesAreInjective(a: seq<int>, b: seq<int>)
    requires forall i :: 0 <= i < |a| ==> Scalar(a[i])
    requires forall i :: 0 <= i < |b| ==> Scalar(b[i])
    requires Bytes(a) == Bytes(b)
    ensures a == b
  {
    hide Utf8;
    if a != [] { SomeBytes(a[0]); }
    if b != [] { SomeBytes(b[0]); }
    if a != [] && b != [] {
      Utf8IsPrefixFree(a[0], Bytes(a[1..]), b[0], Bytes(b[1..]));
      BytesAreInjective(a[1..], b[1..]);
      assert a == [a[0]] + a[1..] && b == [b[0]] + b[1..];
    }
  }

  lemma SomeBytes(c: int)
    ensures Utf8(c) != []
  {
  }

  lemma {:induction false} HexIsInjective(a: seq<int>, b: seq<int>)
    requires forall i :: 0 <= i < |a| ==> Byte(a[i])
    requires forall i :: 0 <= i < |b| ==> Byte(b[i])
    requires Hex(a) == Hex(b)
    ensures a == b
  {
    if a != [] && b != [] {
      assert Hex(a)[0] == HexDigit(a[0] / 16) && Hex(b)[0] == HexDigit(b[0] / 16);
      assert Hex(a)[1] == HexDigit(a[0] % 16) && Hex(b)[1] == HexDigit(b[0] % 16);
      assert Byte(a[0]) && Byte(b[0]);
      assert Hex(a)[2..] == Hex(a[1..]) && Hex(b)[2..] == Hex(b[1..]);
      HexIsInjective(a[1..], b[1..]);
      assert a == [a[0]] + a[1..] && b == [b[0]] + b[1..];
    }
  }

  predicate HexUnit(u: CodeUnit) {
    48 <= u <= 57 || 97 <= u <= 102
  }

  lemma {:induction false} HexUnits(bytes: seq<int>)
    requires forall i :: 0 <= i < |bytes| ==> Byte(bytes[i])
    ensures forall i :: 0 <= i < |Hex(bytes)| ==> HexUnit(Hex(bytes)[i])
  {
    if bytes != [] {
      HexUnits(bytes[1..]);
    }
  }

  lemma EncodedUnits(id: Text)
    ensures forall i :: 0 <= i < |Encoded(id)| ==> HexUnit(Encoded(id)[i])
  {
    ScalarsAre(id);
    BytesAre(Scalars(id));
    HexUnits(Bytes(Scalars(id)));
  }

  lemma EncodedIdentifies(a: Text, b: Text)
    ensures Encoded(a) == Encoded(b) <==> Scalars(a) == Scalars(b)
  {
    ScalarsAre(a);
    ScalarsAre(b);
    BytesAre(Scalars(a));
    BytesAre(Scalars(b));
    if Encoded(a) == Encoded(b) {
      HexIsInjective(Bytes(Scalars(a)), Bytes(Scalars(b)));
      BytesAreInjective(Scalars(a), Scalars(b));
    }
  }

  // Well-formed ids are told apart by their characters.
  lemma {:induction false} ScalarsIdentify(a: Text, b: Text)
    requires WellFormed(a) && WellFormed(b) && Scalars(a) == Scalars(b)
    ensures a == b
    decreases |a|
  {
    if a == [] || b == [] {
      SomeScalar(a);
      SomeScalar(b);
    } else {
      FirstScalar(a);
      FirstScalar(b);
      if StartsPair(a) {
        ScalarsIdentify(a[2..], b[2..]);
        assert a == [a[0], a[1]] + a[2..] && b == [b[0], b[1]] + b[2..];
      } else {
        ScalarsIdentify(a[1..], b[1..]);
        assert a == [a[0]] + a[1..] && b == [b[0]] + b[1..];
      }
    }
  }

  lemma SomeScalar(id: Text)
    ensures Scalars(id) == [] <==> id == []
  {
  }

  lemma FirstScalar(id: Text)
    requires id != []
    ensures Scalars(id) != [] && Scalars(id)[1..] == Scalars(if StartsPair(id) then id[2..] else id[1..])
    ensures StartsPair(id) <==> Scalars(id)[0] >= 0x10000
    ensures StartsPair(id) ==> Scalars(id)[0] == PairValue(id[0], id[1])
    ensures StartsPair(id) ==>
              Scalars(id)[0] == 0x10000 + 1024 * (id[0] as int - 0xD800) + (id[1] as int - 0xDC00)
    ensures StartsPair(id) <==> |id| >= 2 && 0xD800 <= id[0] <= 0xDBFF && 0xDC00 <= id[1] <= 0xDFFF
    ensures !StartsPair(id) ==> Scalars(id)[0] == if 0xD800 <= id[0] <= 0xDFFF then 0xFFFD else id[0] as int
  {
  }

  // ----- The name is injective -----

  lemma EarlierDash(r: Text, e: Text, s: Text, f: Text)
    requires forall i :: 0 <= i < |e| ==> HexUnit(e[i])
    requires |r| < |s|
    ensures r + [DASH] + e != s + [DASH] + f
  {
    assert (s + [DASH] + f)[|s|] == DASH;
    if |s| < |r| + 1 + |e| {
      assert (r + [DASH] + e)[|s|] == e[|s| - |r| - 1];
    }
  }

  lemma LastDash(r: Text, e: Text, s: Text, f: Text)
    requires forall i :: 0 <= i < |e| ==> HexUnit(e[i])
    requires forall i :: 0 <= i < |f| ==> HexUnit(f[i])
    requires r + [DASH] + e == s + [DASH] + f
    ensures e == f
  {
    if |r| < |s| { EarlierDash(r, e, s, f); }
    if |s| < |r| { EarlierDash(s, f, r, e); }
    var whole := r + [DASH] + e;
    assert e == whole[|r| + 1..] && f == whole[|s| + 1..];
  }

  lemma {:induction false} ReplacedAlike(a: Text, b: Text)
    requires Scalars(a) == Scalars(b)
    ensures ReplaceUnsafe(a) == ReplaceUnsafe(b)
    decreases |a|
  {
    SomeScalar(a);
    SomeScalar(b);
    if a != [] {
      FirstScalar(a);
      FirstScalar(b);
      if StartsPair(a) {
        ReplacedAlike(a[2..], b[2..]);
        ReplacedPair(a);
        ReplacedPair(b);
      } else {
        ReplacedAlike(a[1..], b[1..]);
      }
    }
  }

  lemma ReplacedPair(id: Text)
    requires StartsPair(id)
    ensures ReplaceUnsafe(id) == [UNDERSCORE, UNDERSCORE] + ReplaceUnsafe(id[2..])
  {
    ReplaceStep(id);
    ReplaceStep(id[1..]);
    assert id[1..][1..] == id[2..];
    var rest := ReplaceUnsafe(id[2..]);
    hide ReplaceUnsafe;
    assert [UNDERSCORE] + ([UNDERSCORE] + rest) == [UNDERSCORE, UNDERSCORE] + rest;
  }

  lemma ReplaceStep(id: Text)
    requires id != []
    ensures ReplaceUnsafe(id) == [if Safe(id[0]) then id[0] else UNDERSCORE] + ReplaceUnsafe(id[1..])
  {
  }

  // Two ids share a directory exactly when they are the same characters: they may
  // differ only where both have a lone surrogate or U+FFFD.
  lemma SegmentIdentifies(a: Text, b: Text)
    ensures Segment(a) == Segment(b) <==> Scalars(a) == Scalars(b)
  {
    EncodedIdentifies(a, b);
    EncodedUnits(a);
    EncodedUnits(b);
    if Scalars(a) == Scalars(b) {
      ReplacedAlike(a, b);
    }
    hide Encoded, Readable, Scalars;
    var ra, rb := Readable(a), Readable(b);
    if Segment(a) == Segment(b) {
      SegmentForm(a);
      SegmentForm(b);
      if ra != [] && rb != [] {
        LastDash(ra, Encoded(a), rb, Encoded(b));
      }
    }
  }

  predicate HasDash(s: Text) {
    DASH in s
  }

  // The three forms are told apart: only the prefixed one has a dash, and only the
  // empty one has a unit that is no hex digit.
  lemma SegmentForm(id: Text)
    ensures HasDash(Segment(id)) <==> Readable(id) != []
    ensures Readable(id) == [] ==> (Segment(id) == SESSION <==> Encoded(id) == [])
  {
    EncodedUnits(id);
    hide Encoded, Readable;
    if Readable(id) != [] {
      assert Segment(id)[|Readable(id)|] == DASH;
    } else if Encoded(id) != [] {
      assert HexUnit(Encoded(id)[0]);
      assert !HexUnit(SESSION[0]);
    }
  }

  // Distinct well-formed ids never share a directory.
  lemma WellFormedAreApart(a: Text, b: Text)
    requires WellFormed(a) && WellFormed(b)
    ensures Segment(a) == Segment(b) <==> a == b
  {
    SegmentIdentifies(a, b);
    if Scalars(a) == Scalars(b) {
      ScalarsIdentify(a, b);
    }
  }

  // Ill-formed ones may.
  lemma LoneSurrogatesCollide()
    ensures var a: Text, b: Text := [0xD800], [0xD801]; a != b && Segment(a) == Segment(b)
  {
    var a: Text, b: Text := [0xD800], [0xD801];
    assert Scalars(a[1..]) == [] == Scalars(b[1..]);
    SegmentIdentifies(a, b);
  }

  // ----- The name is a plain one -----

  lemma {:induction false} ReplacedIsSafe(id: Text)
    ensures forall i :: 0 <= i < |ReplaceUnsafe(id)| ==> Safe(ReplaceUnsafe(id)[i])
  {
    if id != [] {
      ReplacedIsSafe(id[1..]);
    }
  }

  lemma {:induction false} CollapsedIsSafe(s: Text)
    requires forall i :: 0 <= i < |s| ==> Safe(s[i])
    ensures forall i :: 0 <= i < |Collapse(s)| ==> Safe(Collapse(s)[i])
  {
    if s != [] {
      CollapsedIsSafe(s[1..]);
    }
  }

  lemma {:induction false} TrimStartIsSafe(s: Text)
    requires forall i :: 0 <= i < |s| ==> Safe(s[i])
    ensures forall i :: 0 <= i < |TrimStart(s)| ==> Safe(TrimStart(s)[i])
  {
    if s != [] {
      TrimStartIsSafe(s[1..]);
    }
  }

  lemma {:induction false} TrimEndIsSafe(s: Text)
    requires forall i :: 0 <= i < |s| ==> Safe(s[i])
    ensures |TrimEnd(s)| <= |s| && forall i :: 0 <= i < |TrimEnd(s)| ==> Safe(TrimEnd(s)[i])
  {
    if s != [] {
      TrimEndIsSafe(s[..|s| - 1]);
    }
  }

  lemma ReadableIsSafe(id: Text)
    ensures |Readable(id)| <= 24 && forall i :: 0 <= i < |Readable(id)| ==> Safe(Readable(id)[i])
  {
    var replaced := ReplaceUnsafe(id);
    ReplacedIsSafe(id);
    CollapsedIsSafe(replaced);
    TrimStartIsSafe(Collapse(replaced));
    var trimmed := TrimStart(Collapse(replaced));
    hide ReplaceUnsafe, Collapse, TrimStart, TrimEnd, Safe;
    TrimEndIsSafe(if |trimmed| > 24 then trimmed[..24] else trimmed);
  }

  // Never empty, never "." or "..", no separator: letters, digits, "_" and "-" only,
  // with at most 24 readable units before the encoding.
  lemma SegmentIsPlain(id: Text)
    ensures Segment(id) != [] && |Readable(id)| <= 24
    ensures forall i :: 0 <= i < |Segment(id)| ==> Safe(Segment(id)[i])
  {
    hide Encoded, Readable;
    ReadableIsSafe(id);
    EncodedUnits(id);
    forall i | 0 <= i < |Encoded(id)| ensures Safe(Encoded(id)[i]) {
      assert HexUnit(Encoded(id)[i]);
    }
  }

  // An id without a character names the directory "session".
  lemma NoId()
    ensures Segment([]) == [115, 101, 115, 115, 105, 111, 110]
  {
    assert Scalars([]) == [] && Bytes([]) == [] && Readable([]) == [];
  }

  // ----- What the readable part is -----

  // Letters, digits, single underscores and dashes, and no dash or underscore first.
  ghost predicate Tidy(s: Text) {
    && (forall i :: 0 <= i < |s| ==> Safe(s[i]))
    && (forall i :: 1 <= i < |s| ==> !(s[i] == UNDERSCORE && AfterUnderscore(s, i)))
    && (s != [] ==> s[0] != UNDERSCORE && s[0] != DASH)
  }

  predicate AfterUnderscore(s: Text, i: nat) {
    1 <= i <= |s| && s[i - 1] == UNDERSCORE
  }

  lemma {:induction false} ReplaceAppend(a: Text, b: Text)
    ensures ReplaceUnsafe(a + b) == ReplaceUnsafe(a) + ReplaceUnsafe(b)
  {
    if a == [] {
      assert a + b == b;
    } else {
      ReplaceAppend(a[1..], b);
      assert (a + b)[0] == a[0] && (a + b)[1..] == a[1..] + b;
    }
  }

  lemma ReplaceTwo(a: Text, u: CodeUnit, b: Text)
    ensures ReplaceUnsafe(a + [u] + b) == ReplaceUnsafe(a) + [if Safe(u) then u else UNDERSCORE] + ReplaceUnsafe(b)
  {
    ReplaceAppend(a + [u], b);
    ReplaceAppend(a, [u]);
    assert [u][1..] == [] && ReplaceUnsafe([u]) == [if Safe(u) then u else UNDERSCORE];
  }

  lemma {:induction false} CollapseRun(a: Text, b: Text)
    ensures Collapse(a + [UNDERSCORE] + [UNDERSCORE] + b) == Collapse(a + [UNDERSCORE] + b)
  {
    var more, less := a + [UNDERSCORE] + [UNDERSCORE] + b, a + [UNDERSCORE] + b;
    if a == [] {
      assert more[1..] == less;
    } else {
      CollapseRun(a[1..], b);
      assert more[1..] == a[1..] + [UNDERSCORE] + [UNDERSCORE] + b && less[1..] == a[1..] + [UNDERSCORE] + b;
      assert more[0] == less[0] == a[0] && more[1] == less[1];
    }
  }

  lemma {:induction false} TidyIsCollapsed(s: Text)
    requires forall i :: 1 <= i < |s| ==> !(s[i] == UNDERSCORE && AfterUnderscore(s, i))
    ensures Collapse(s) == s
  {
    if s != [] {
      assert |s| >= 2 ==> !(s[1] == UNDERSCORE && AfterUnderscore(s, 1));
      forall i | 1 <= i < |s[1..]| ensures !(s[1..][i] == UNDERSCORE && AfterUnderscore(s[1..], i)) {
        assert !(s[i + 1] == UNDERSCORE && AfterUnderscore(s, i + 1));
      }
      TidyIsCollapsed(s[1..]);
      assert s == [s[0]] + s[1..];
    }
  }

  lemma {:induction false} SafeIsKept(s: Text)
    requires forall i :: 0 <= i < |s| ==> Safe(s[i])
    ensures ReplaceUnsafe(s) == s
  {
    if s != [] {
      SafeIsKept(s[1..]);
      assert s == [s[0]] + s[1..];
    }
  }

  lemma {:induction false} TrimEndIs(s: Text)
    ensures var r := TrimEnd(s);
            && |r| <= |s| && r == s[..|r|] && (r != [] ==> !Trimmed(r[|r| - 1]))
            && forall i :: |r| <= i < |s| ==> Trimmed(s[i])
  {
    if s != [] && Trimmed(s[|s| - 1]) {
      TrimEndIs(s[..|s| - 1]);
    }
  }

  // A unit outside the safe alphabet reads as an underscore, a run of underscores as
  // one, and a dash or an underscore at the front as nothing. What is tidy is kept, up
  // to 24 units and without dashes or underscores at the end.
  lemma ReadableIs(a: Text, u: CodeUnit, b: Text)
    ensures !Safe(u) ==> Readable(a + [u] + b) == Readable(a + [UNDERSCORE] + b)
    ensures Readable(a + [UNDERSCORE] + [UNDERSCORE] + b) == Readable(a + [UNDERSCORE] + b)
    ensures u == UNDERSCORE || u == DASH ==> Readable([u] + b) == Readable(b)
    ensures Tidy(a) ==>
              var r, limit := Readable(a), if |a| <= 24 then |a| else 24;
              && |r| <= limit && r == a[..|r|] && (r != [] ==> r[|r| - 1] != UNDERSCORE && r[|r| - 1] != DASH)
              && forall i :: |r| <= i < limit ==> a[i] == UNDERSCORE || a[i] == DASH
  {
    ReplaceTwo(a, u, b);
    ReplaceTwo(a, UNDERSCORE, b);
    ReplaceTwo(a + [UNDERSCORE], UNDERSCORE, b);
    ReplaceAppend(a, [UNDERSCORE]);
    assert ReplaceUnsafe([UNDERSCORE]) == [UNDERSCORE] by { assert [UNDERSCORE][1..] == []; }
    CollapseRun(ReplaceUnsafe(a), ReplaceUnsafe(b));
    if u == UNDERSCORE || u == DASH {
      LeadingIsDropped(u, b);
    }
    if Tidy(a) {
      TidyReads(a);
    }
  }

  lemma LeadingIsDropped(u: CodeUnit, b: Text)
    requires u == UNDERSCORE || u == DASH
    ensures Readable([u] + b) == Readable(b)
  {
    var c := ReplaceUnsafe(b);
    ReplaceAppend([u], b);
    assert ReplaceUnsafe([u]) == [u] by { assert [u][1..] == []; }
    var whole := [u] + c;
    assert whole[1..] == c;
    if !(|whole| >= 2 && whole[0] == UNDERSCORE && whole[1] == UNDERSCORE) {
      assert Collapse(whole) == [u] + Collapse(c);
      assert ([u] + Collapse(c))[1..] == Collapse(c);
    }
  }

  lemma TidyReads(a: Text)
    requires Tidy(a)
    ensures var r, limit := Readable(a), if |a| <= 24 then |a| else 24;
            && |r| <= limit && r == a[..|r|] && (r != [] ==> r[|r| - 1] != UNDERSCORE && r[|r| - 1] != DASH)
            && forall i :: |r| <= i < limit ==> a[i] == UNDERSCORE || a[i] == DASH
  {
    SafeIsKept(a);
    TidyIsCollapsed(a);
    var cut := if |a| > 24 then a[..24] else a;
    TrimEndIs(cut);
    assert Readable(a) == TrimEnd(cut);
  }
}
