/**
 Base64 (section 4 of RFC 4648): qcloud_iot_utils_base64encode and the two passes of
 qcloud_iot_utils_base64decode. Text and data are bytes; shifts and masks are written as
 division and remainder.
 */
module Base64 {
  import opened Arithmetic

  const SIZE_MAX := 0xFFFF_FFFF_FFFF_FFFF
  const ERR_FAILURE := -1001

  const SPACE: byte := 32
  const LF: byte := 10
  const CR: byte := 13
  const EQUALS: byte := 61

  // ---------------------------------------------------------------- the two maps

  function EncMap(v: nat): byte
    requires v < 64
  {
    if v < 26 then 65 + v else if v < 52 then 71 + v else if v < 62 then v - 4 else if v == 62 then 43 else 47
  }

  /** base64_dec_map: 64 for the padding character, 127 for characters outside the alphabet. */
  function DecMap(c: byte): (v: nat)
    ensures v <= 64 || v == 127
  {
    if c == 43 then 62 else if c == 47 then 63 else if 48 <= c <= 57 then c + 4 else if c == EQUALS then 64
    else if 65 <= c <= 90 then c - 65 else if 97 <= c <= 122 then c - 71 else 127
  }

  /** Table 1 of RFC 4648. */
  const ALPHABET := Part(0) + Part(1) + Part(2) + Part(3) + Part(4) + Part(5) + Part(6) + Part(7)

  function Part(k: nat): (s: string)
    ensures |s| == 8
  {
    if k == 0 then "ABCDEFGH" else if k == 1 then "IJKLMNOP" else if k == 2 then "QRSTUVWX" else if k == 3 then "YZabcdef"
    else if k == 4 then "ghijklmn" else if k == 5 then "opqrstuv" else if k == 6 then "wxyz0123" else "456789+/"
  }

  /** The two maps are the alphabet and its inverse. */
  lemma AlphabetMaps(v: nat)
    requires v < 64
    ensures EncMap(v) == ALPHABET[v] as int && DecMap(EncMap(v)) == v && DecMap('=' as int) == 64
  {
    AlphabetPart(v);
    EightCharacters(v);
  }

  lemma AlphabetPart(v: nat)
    requires v < 64
    ensures ALPHABET[v] == Part(v / 8)[v % 8]
  {
    hide Part;
    var k := v / 8;
    if k == 0 {} else if k == 1 {} else if k == 2 {} else if k == 3 {} else if k == 4 {} else if k == 5 {} else if k == 6 {} else {}
  }

  lemma EightCharacters(v: nat)
    requires v < 64
    ensures Part(v / 8)[v % 8] as int == EncMap(v)
  {
    var k := v % 8;
    if k == 0 {} else if k == 1 {} else if k == 2 {} else if k == 3 {} else if k == 4 {} else if k == 5 {} else if k == 6 {} else {}
  }

  /** Every other character but the padding is marked as foreign. */
  lemma OtherCharacters(c: byte)
    ensures c == '=' as int || DecMap(c) == 127 || (DecMap(c) < 64 && ALPHABET[DecMap(c)] as int == c)
  {
    if DecMap(c) < 64 {
      AlphabetMaps(DecMap(c));
      hide Part;
    }
  }

  /** The characters that the checking pass treats apart. */
  lemma Characters()
    ensures SPACE == ' ' as int && LF == '\n' as int && CR == '\r' as int && EQUALS == '=' as int
  {}

  // ---------------------------------------------------------------- encoding

  function Quad(a: byte, b: byte, c: byte): (q: seq<byte>)
    ensures |q| == 4
  {
    [EncMap(a / 4), EncMap(a % 4 * 16 + b / 16), EncMap(b % 16 * 4 + c / 64), EncMap(c % 64)]
  }

  function Encode(s: seq<byte>): seq<byte> {
    if s == [] then []
    else if |s| == 1 then [EncMap(s[0] / 4), EncMap(s[0] % 4 * 16), EQUALS, EQUALS]
    else if |s| == 2 then [EncMap(s[0] / 4), EncMap(s[0] % 4 * 16 + s[1] / 16), EncMap(s[1] % 16 * 4), EQUALS]
    else Quad(s[0], s[1], s[2]) + Encode(s[3..])
  }

  lemma {:induction false} EncodeLength(s: seq<byte>)
    ensures |Encode(s)| == (|s| + 2) / 3 * 4
    decreases |s|
  {
    hide EncMap;
    if |s| > 2 { EncodeLength(s[3..]); }
  }

  // ---------------------------------------------------------------- well-formed text

  predicate Blank(c: byte) { c == SPACE || c == CR || c == LF }

  function Strip(t: seq<byte>): seq<byte> {
    if t == [] then [] else (if Blank(t[0]) then [] else [t[0]]) + Strip(t[1..])
  }

  /** Spaces only before a line end or the end of the text, carriage returns only before line feeds. */
  predicate LineRule(t: seq<byte>, i: nat)
    requires i < |t|
  {
    && (t[i] == SPACE ==> i + 1 == |t| || Blank(t[i + 1]))
    && (t[i] == CR ==> i + 1 < |t| && t[i + 1] == LF)
  }

  predicate LineRules(t: seq<byte>) { forall i :: 0 <= i < |t| ==> LineRule(t, i) }

  predicate Data(c: byte) { DecMap(c) < 64 }

  /** Alphabet characters followed by at most two padding characters. */
  ghost predicate Body(b: seq<byte>) {
    exists m: nat :: BodyAt(b, m)
  }

  ghost predicate BodyAt(b: seq<byte>, m: nat) {
    && m <= |b| <= m + 2
    && (forall i :: 0 <= i < m ==> Data(b[i]))
    && (forall i :: m <= i < |b| ==> b[i] == EQUALS)
  }

  function Equals(b: seq<byte>): nat {
    if b == [] then 0 else (if b[0] == EQUALS then 1 else 0) + Equals(b[1..])
  }

  // ---------------------------------------------------------------- the checking pass

  datatype Verdict = Reject | Accept(n: nat, j: nat)

  /** What is left of the checking pass: spaces seen, padding seen, characters counted. */
  function Scan(t: seq<byte>, spaces: bool, j: nat, n: nat): Verdict {
    if t == [] then Accept(n, j)
    else if t[0] == SPACE then Scan(t[1..], true, j, n)
    else if t[0] == CR && |t| >= 2 && t[1] == LF then Scan(t[1..], false, j, n)
    else if t[0] == LF then Scan(t[1..], false, j, n)
    else if spaces then Reject
    else
      var j' := if t[0] == EQUALS then j + 1 else j;
      if t[0] == EQUALS && j' > 2 then Reject
      else if t[0] > 127 || DecMap(t[0]) == 127 then Reject
      else if DecMap(t[0]) < 64 && j' != 0 then Reject
      else Scan(t[1..], false, j', n + 1)
  }

  /** The same conditions as Scan, on lines and on the remaining body separately. */
  predicate Lines(t: seq<byte>, spaces: bool) {
    t != [] ==>
      if t[0] == SPACE then Lines(t[1..], true)
      else if t[0] == CR then |t| >= 2 && t[1] == LF && Lines(t[1..], false)
      else if t[0] == LF then Lines(t[1..], false)
      else !spaces && Lines(t[1..], false)
  }

  predicate Rest(b: seq<byte>, j: nat) {
    b != [] ==>
      if b[0] == EQUALS then j < 2 && Rest(b[1..], j + 1)
      else Data(b[0]) && j == 0 && Rest(b[1..], 0)
  }

  lemma {:induction false} ScanMeaning(t: seq<byte>, spaces: bool, j: nat, n: nat)
    ensures Scan(t, spaces, j, n)
         == if Lines(t, spaces) && Rest(Strip(t), j) then Accept(n + |Strip(t)|, j + Equals(Strip(t))) else Reject
  {
    if t != [] {
      var (c, u) := (t[0], t[1..]);
      StripStep(t);
      EqualsStep(Strip(t));
      DataIs(c);
      hide Strip, DecMap, Data, Equals;
      if c == SPACE {
        ScanMeaning(u, true, j, n);
      } else if c == CR || c == LF {
        ScanMeaning(u, false, j, n);
      } else {
        ScanMeaning(u, false, if c == EQUALS then j + 1 else j, n + 1);
      }
    }
  }

  lemma StripStep(t: seq<byte>)
    requires t != []
    ensures if Blank(t[0]) then Strip(t) == Strip(t[1..]) else Strip(t) == [t[0]] + Strip(t[1..]) && Strip(t)[1..] == Strip(t[1..])
  {
    assert [] + Strip(t[1..]) == Strip(t[1..]);
    assert ([t[0]] + Strip(t[1..]))[1..] == Strip(t[1..]);
  }

  lemma EqualsStep(b: seq<byte>)
    ensures b != [] ==> Equals(b) == (if b[0] == EQUALS then 1 else 0) + Equals(b[1..])
    ensures b == [] ==> Equals(b) == 0
  {
  }

  lemma DataIs(c: byte)
    ensures c == EQUALS ==> c <= 127 && DecMap(c) == 64
    ensures c != EQUALS ==> (Data(c) <==> c <= 127 && DecMap(c) < 64)
    ensures c != EQUALS && c <= 127 ==> DecMap(c) == 127 || DecMap(c) < 64
  {
  }

  lemma {:induction false} LinesMeaning(t: seq<byte>, spaces: bool)
    ensures Lines(t, spaces) <==> LineRules(t) && (spaces && t != [] ==> Blank(t[0]))
  {
    if t != [] {
      var u := t[1..];
      LinesMeaning(u, t[0] == SPACE);
      assert LineRules(t) <==> LineRule(t, 0) && LineRules(u) by {
        forall i | 0 <= i < |u| ensures LineRule(t, i + 1) == LineRule(u, i) {}
        if LineRule(t, 0) && LineRules(u) {
          forall i | 0 <= i < |t| ensures LineRule(t, i) { if i > 0 { assert LineRule(u, i - 1); } }
        }
        if LineRules(t) {
          forall i | 0 <= i < |u| ensures LineRule(u, i) { assert LineRule(t, i + 1); }
        }
      }
    }
  }

  lemma {:induction false} AllEquals(b: seq<byte>, j: nat)
    requires j > 0
    ensures Rest(b, j) <==> (b == [] || j + |b| <= 2) && forall i :: 0 <= i < |b| ==> b[i] == EQUALS
  {
    if b != [] {
      AllEquals(b[1..], j + 1);
      assert forall i :: 0 < i < |b| ==> b[i] == b[1..][i - 1];
    }
  }

  lemma {:induction false} RestMeaning(b: seq<byte>)
    ensures Rest(b, 0) <==> Body(b)
  {
    if b == [] {
      assert BodyAt(b, 0);
    } else if b[0] == EQUALS {
      AllEquals(b[1..], 1);
      assert forall i :: 0 < i < |b| ==> b[i] == b[1..][i - 1];
      if Rest(b, 0) { assert BodyAt(b, 0); }
      if Body(b) { var m: nat :| BodyAt(b, m); assert m == 0; }
    } else {
      RestMeaning(b[1..]);
      assert forall i :: 0 < i < |b| ==> b[i] == b[1..][i - 1];
      if Rest(b, 0) { var m: nat :| BodyAt(b[1..], m); assert BodyAt(b, m + 1); }
      if Body(b) { var m: nat :| BodyAt(b, m); assert m > 0 && BodyAt(b[1..], m - 1); }
    }
  }

  /** A text is accepted exactly when its line structure and its stripped body are right. */
  lemma Accepted(t: seq<byte>)
    ensures Scan(t, false, 0, 0).Accept? <==> LineRules(t) && Body(Strip(t))
    ensures LineRules(t) && Body(Strip(t)) ==> Scan(t, false, 0, 0) == Accept(|Strip(t)|, Equals(Strip(t)))
  {
    ScanMeaning(t, false, 0, 0);
    LinesMeaning(t, false);
    RestMeaning(Strip(t));
  }

  /** Removing blanks keeps a text acceptable and changes neither the verdict nor the body. */
  lemma StrippedAccepted(t: seq<byte>)
    requires Scan(t, false, 0, 0).Accept?
    ensures Strip(Strip(t)) == Strip(t) && Scan(Strip(t), false, 0, 0) == Scan(t, false, 0, 0)
  {
    Accepted(t);
    NoBlanks(t);
    StripIdentity(Strip(t));
    NoBlankLines(Strip(t));
    Accepted(Strip(t));
  }

  lemma {:induction false} NoBlanks(t: seq<byte>)
    ensures forall i :: 0 <= i < |Strip(t)| ==> !Blank(Strip(t)[i])
  {
    if t != [] { NoBlanks(t[1..]); }
  }

  lemma {:induction false} StripIdentity(t: seq<byte>)
    requires forall i :: 0 <= i < |t| ==> !Blank(t[i])
    ensures Strip(t) == t
  {
    if t != [] { StripIdentity(t[1..]); }
  }

  lemma {:induction false} StripAppend(a: seq<byte>, b: seq<byte>)
    ensures Strip(a + b) == Strip(a) + Strip(b)
  {
    if a == [] {
      assert a + b == b;
    } else {
      assert (a + b)[0] == a[0] && (a + b)[1..] == a[1..] + b;
      StripAppend(a[1..], b);
    }
  }

  // ---------------------------------------------------------------- decoding by groups

  function Sextet(c: byte): nat { DecMap(c) % 64 }

  function Value(a: byte, b: byte, c: byte, d: byte): nat {
    ((Sextet(a) * 64 + Sextet(b)) * 64 + Sextet(c)) * 64 + Sextet(d)
  }

  /** The first k of the three bytes of a 24-bit value. */
  function Emit(v: nat, k: int): seq<byte> {
    (if k > 0 then [v / 0x1_0000 % 256] else []) + (if k > 1 then [v / 0x100 % 256] else []) + (if k > 2 then [v % 256] else [])
  }

  /** Complete groups of four; each padding character seen so far drops one byte of a group. */
  function DecodeFrom(b: seq<byte>, seen: nat): seq<byte> {
    if |b| < 4 then []
    else
      var e := seen + Equals(b[..4]);
      Emit(Value(b[0], b[1], b[2], b[3]), 3 - e) + DecodeFrom(b[4..], e)
  }

  function Size(n: nat, j: nat): int { (6 * n + 7) / 8 - j }

  lemma {:induction false} EqualsCount(b: seq<byte>, m: nat)
    requires BodyAt(b, m)
    ensures Equals(b) == |b| - m
  {
    if b != [] {
      var u := b[1..];
      assert forall i :: 0 <= i < |u| ==> u[i] == b[i + 1];
      EqualsCount(u, if m > 0 then m - 1 else 0);
    }
  }

  lemma BodySplit(b: seq<byte>, m: nat)
    requires BodyAt(b, m) && |b| >= 4
    ensures Equals(b[..4]) == if m >= 4 then 0 else 4 - m
    ensures m >= 4 ==> BodyAt(b[4..], m - 4)
  {
    var (head, tail) := (b[..4], b[4..]);
    assert forall i :: 0 <= i < |tail| ==> tail[i] == b[i + 4];
    assert BodyAt(head, if m >= 4 then 4 else m);
    EqualsCount(head, if m >= 4 then 4 else m);
  }

  lemma EmitLength(v: nat, k: int)
    requires 0 <= k <= 3
    ensures |Emit(v, k)| == k
  {}

  lemma DecodeUnfold(b: seq<byte>, seen: nat)
    requires |b| >= 4 && seen + Equals(b[..4]) <= 3
    ensures var e := seen + Equals(b[..4]);
            |DecodeFrom(b, seen)| == 3 - e + |DecodeFrom(b[4..], e)|
  {
    hide Value, Emit, Equals;
    EmitLength(Value(b[0], b[1], b[2], b[3]), 3 - (seen + Equals(b[..4])));
  }

  lemma DecodeShort(b: seq<byte>, seen: nat)
    requires |b| < 4
    ensures DecodeFrom(b, seen) == []
  {}

  lemma BodyLength(b: seq<byte>, m: nat)
    requires BodyAt(b, m)
    ensures m <= |b| <= m + 2
  {}

  /** Complete groups give three bytes each, less one for every padding character inside them. */
  lemma {:induction false} DecodedLength(b: seq<byte>, m: nat, g: nat)
    requires BodyAt(b, m) && 4 * g <= |b| < 4 * g + 4
    ensures |DecodeFrom(b, 0)| == 3 * g - if 4 * g > m then 4 * g - m else 0
    decreases |b|
  {
    hide *;
    BodyLength(b, m);
    if g == 0 {
      DecodeShort(b, 0);
    } else {
      BodySplit(b, m);
      DecodeUnfold(b, 0);
      if m >= 4 {
        DecodedLength(b[4..], m - 4, g - 1);
      } else {
        DecodeShort(b[4..], 4 - m);
      }
    }
  }

  /** The writing pass emits no more bytes than the checking pass computed. */
  lemma WithinSize(b: seq<byte>)
    requires Body(b)
    ensures |DecodeFrom(b, 0)| <= Size(|b|, Equals(b))
    ensures |DecodeFrom(b, 0)| == Size(|b|, Equals(b)) <==> |b| - Equals(b) <= |b| / 4 * 4
  {
    var m: nat :| BodyAt(b, m);
    EqualsCount(b, m);
    BodyLength(b, m);
    DecodedLength(b, m, |b| / 4);
  }

  // ---------------------------------------------------------------- the round trip

  lemma SextetEnc(v: nat)
    requires v < 64
    ensures Sextet(EncMap(v)) == v && EncMap(v) != EQUALS && Data(EncMap(v)) && !Blank(EncMap(v))
  {}

  lemma QuadValue(a: byte, b: byte, c: byte)
    ensures var q := Quad(a, b, c);
            Value(q[0], q[1], q[2], q[3]) == a * 0x1_0000 + b * 0x100 + c
  {
    hide Sextet, EncMap;
    SextetEnc(a / 4); SextetEnc(a % 4 * 16 + b / 16); SextetEnc(b % 16 * 4 + c / 64); SextetEnc(c % 64);
  }

  lemma EmitBytes(a: byte, b: byte, c: byte)
    ensures var v := a * 0x1_0000 + b * 0x100 + c;
            Emit(v, 3) == [a, b, c] && Emit(v, 2) == [a, b] && Emit(v, 1) == [a]
  {
    DivisionUnique(a * 0x1_0000 + b * 0x100 + c, 0x1_0000, a, b * 0x100 + c);
    DivisionUnique(a * 0x1_0000 + b * 0x100 + c, 0x100, a * 0x100 + b, c);
    DivisionUnique(a * 0x100 + b, 256, a, b);
  }

  lemma QuadData(a: byte, b: byte, c: byte)
    ensures BodyAt(Quad(a, b, c), 4)
  {
    hide EncMap;
    SextetEnc(a / 4); SextetEnc(a % 4 * 16 + b / 16); SextetEnc(b % 16 * 4 + c / 64); SextetEnc(c % 64);
  }

  /** The padded last group of one or two bytes. */
  function Last(a: byte, b: byte, k: nat): (g: seq<byte>)
    ensures |g| == 4
  {
    [EncMap(a / 4), EncMap(a % 4 * 16 + b / 16), if k == 2 then EncMap(b % 16 * 4) else EQUALS, EQUALS]
  }

  lemma LastData(a: byte, b: byte, k: nat)
    requires (k == 1 && b == 0) || k == 2
    ensures BodyAt(Last(a, b, k), k + 1)
    ensures var g := Last(a, b, k); Value(g[0], g[1], g[2], g[3]) == a * 0x1_0000 + b * 0x100
  {
    hide EncMap, Sextet;
    SextetEnc(a / 4); SextetEnc(a % 4 * 16 + b / 16); SextetEnc(b % 16 * 4);
    SextetEquals();
  }

  lemma SextetEquals()
    ensures Sextet(EQUALS) == 0
  {}

  lemma EncodeLast(s: seq<byte>)
    requires 0 < |s| < 3
    ensures Encode(s) == Last(s[0], if |s| == 2 then s[1] else 0, |s|)
  {
    hide EncMap;
    if |s| == 1 { assert |Encode(s)| == 4; } else { assert |Encode(s)| == 4; }
  }

  lemma EncodeMore(s: seq<byte>)
    requires |s| >= 3
    ensures Encode(s) == Quad(s[0], s[1], s[2]) + Encode(s[3..])
  {
    hide Quad, EncMap;
  }

  /** One group in front of decoded text. */
  lemma DecodeGroup(g: seq<byte>, rest: seq<byte>, e: nat)
    requires |g| == 4 && Equals(g) == e
    ensures DecodeFrom(g + rest, 0) == Emit(Value(g[0], g[1], g[2], g[3]), 3 - e) + DecodeFrom(rest, e)
  {
    hide Emit, Value, Equals;
    assert (g + rest)[..4] == g && (g + rest)[4..] == rest;
  }

  lemma BodyAppend(g: seq<byte>, rest: seq<byte>, m: nat)
    requires |g| == 4 && BodyAt(g, 4) && BodyAt(rest, m)
    ensures BodyAt(g + rest, m + 4)
  {}

  lemma RoundTripLast(s: seq<byte>)
    requires 0 < |s| < 3
    ensures DecodeFrom(Encode(s), 0) == s && BodyAt(Encode(s), |s| + 1)
  {
    hide *;
    var (a, b) := (s[0], if |s| == 2 then s[1] else 0);
    var g := Last(a, b, |s|);
    EncodeLast(s);
    LastData(a, b, |s|);
    EqualsCount(g, |s| + 1);
    assert g + [] == g;
    DecodeGroup(g, [], 3 - |s|);
    DecodeShort([], 3 - |s|);
    EmitBytes(a, b, 0);
  }

  lemma MoreBody(s: seq<byte>, m: nat)
    requires |s| >= 3 && BodyAt(Encode(s[3..]), m)
    ensures BodyAt(Encode(s), m + 4)
  {
    hide *;
    EncodeMore(s);
    QuadData(s[0], s[1], s[2]);
    BodyAppend(Quad(s[0], s[1], s[2]), Encode(s[3..]), m);
  }

  lemma MoreDecoded(a: byte, b: byte, c: byte, rest: seq<byte>)
    ensures DecodeFrom(Quad(a, b, c) + rest, 0) == [a, b, c] + DecodeFrom(rest, 0)
  {
    hide *;
    var q := Quad(a, b, c);
    QuadData(a, b, c);
    EqualsCount(q, 4);
    DecodeGroup(q, rest, 0);
    QuadEmits(a, b, c);
  }

  lemma RoundTripMore(s: seq<byte>, m: nat)
    requires |s| >= 3 && DecodeFrom(Encode(s[3..]), 0) == s[3..] && BodyAt(Encode(s[3..]), m)
    ensures DecodeFrom(Encode(s), 0) == s && BodyAt(Encode(s), m + 4)
  {
    hide *;
    MoreBody(s, m);
    EncodeMore(s);
    MoreDecoded(s[0], s[1], s[2], Encode(s[3..]));
    FirstThree(s);
  }

  lemma QuadEmits(a: byte, b: byte, c: byte)
    ensures var q := Quad(a, b, c); Emit(Value(q[0], q[1], q[2], q[3]), 3) == [a, b, c]
  {
    hide Quad, Value, Emit;
    QuadValue(a, b, c); EmitBytes(a, b, c);
  }

  lemma FirstThree(s: seq<byte>)
    requires |s| >= 3
    ensures [s[0], s[1], s[2]] + s[3..] == s
  {}

  /** Decoding undoes encoding, and the encoded text is a well-formed body. */
  lemma {:induction false} RoundTrip(s: seq<byte>) returns (m: nat)
    ensures DecodeFrom(Encode(s), 0) == s
    ensures BodyAt(Encode(s), m)
    decreases |s|
  {
    if s == [] {
      m := 0;
    } else if |s| < 3 {
      RoundTripLast(s);
      m := |s| + 1;
    } else {
      m := RoundTrip(s[3..]);
      RoundTripMore(s, m);
      m := m + 4;
    }
  }

  /** The encoding is accepted as it stands, with the size of the original. */
  lemma EncodedAccepted(s: seq<byte>)
    ensures var t := Encode(s);
            && Strip(t) == t && Scan(t, false, 0, 0).Accept?
            && Size(Scan(t, false, 0, 0).n, Scan(t, false, 0, 0).j) == |s|
  {
    hide *;
    var t := Encode(s);
    var m := RoundTrip(s);
    EncodeLength(s);
    WholeGroups(|s|);
    forall i | 0 <= i < |t| ensures !Blank(t[i]) { BodyByte(t, m, i); }
    StripIdentity(t);
    BodyIs(t, m);
    NoBlankLines(t);
    Accepted(t);
    WithinSize(t);
  }

  lemma WholeGroups(n: nat)
    ensures (n + 2) / 3 * 4 % 4 == 0
  {}

  lemma BodyIs(b: seq<byte>, m: nat)
    requires BodyAt(b, m)
    ensures Body(b)
  {}

  lemma NoBlankLines(t: seq<byte>)
    requires forall i :: 0 <= i < |t| ==> !Blank(t[i])
    ensures LineRules(t)
  {
    forall i | 0 <= i < |t| ensures LineRule(t, i) { assert !Blank(t[i]); }
  }

  lemma BodyByte(b: seq<byte>, m: nat, i: nat)
    requires BodyAt(b, m) && i < |b|
    ensures !Blank(b[i])
  {}

  lemma ShortVectors()
    ensures Encode([]) == []
    ensures Encode(Octets("f")) == Octets("Zg==") && Encode(Octets("fo")) == Octets("Zm8=")
    ensures Encode(Octets("b")) == Octets("Yg==") && Encode(Octets("ba")) == Octets("YmE=")
  {
    assert Octets("f") == [102] && Octets("fo") == [102, 111] && Octets("b") == [98] && Octets("ba") == [98, 97];
  }

  lemma WholeVectors()
    ensures Encode(Octets("foo")) == Octets("Zm9v") && Encode(Octets("bar")) == Octets("YmFy")
    ensures Encode([0xFF, 0xFF, 0xFF]) == Octets("////") && Encode([0xFB, 0xEF, 0xBE]) == Octets("++++")
  {
    assert Octets("foo") == [102, 111, 111] && Octets("Zm9v") == [90, 109, 57, 118] == Quad(102, 111, 111);
    assert Octets("bar") == [98, 97, 114] && Octets("YmFy") == [89, 109, 70, 121] == Quad(98, 97, 114);
    assert Octets("////") == [47, 47, 47, 47] == Quad(0xFF, 0xFF, 0xFF);
    assert Octets("++++") == [43, 43, 43, 43] == Quad(0xFB, 0xEF, 0xBE);
    hide *;
    OneGroup(102, 111, 111);
    OneGroup(98, 97, 114);
    OneGroup(0xFF, 0xFF, 0xFF);
    OneGroup(0xFB, 0xEF, 0xBE);
  }

  lemma OneGroup(a: byte, b: byte, c: byte)
    ensures Encode([a, b, c]) == Quad(a, b, c)
  {
    assert [a, b, c][3..] == [];
    assert Quad(a, b, c) + [] == Quad(a, b, c);
  }

  /** The vectors of section 10 of RFC 4648, and texts that need the last characters of the alphabet. */
  lemma Vectors()
    ensures Encode(Octets("")) == Octets("") && Encode(Octets("f")) == Octets("Zg==") && Encode(Octets("fo")) == Octets("Zm8=")
    ensures Encode(Octets("foo")) == Octets("Zm9v") && Encode(Octets("foob")) == Octets("Zm9vYg==")
    ensures Encode(Octets("fooba")) == Octets("Zm9vYmE=") && Encode(Octets("foobar")) == Octets("Zm9vYmFy")
    ensures Encode([0xFF, 0xFF, 0xFF]) == Octets("////") && Encode([0xFB, 0xEF, 0xBE]) == Octets("++++")
  {
    ShortVectors();
    WholeVectors();
    hide Encode;
    assert Octets("") == [];
    assert Octets("foob") == Octets("foo") + Octets("b") && Octets("Zm9vYg==") == Octets("Zm9v") + Octets("Yg==");
    EncodeAppend(Octets("foo"), Octets("b"));
    assert Octets("fooba") == Octets("foo") + Octets("ba") && Octets("Zm9vYmE=") == Octets("Zm9v") + Octets("YmE=");
    EncodeAppend(Octets("foo"), Octets("ba"));
    assert Octets("foobar") == Octets("foo") + Octets("bar") && Octets("Zm9vYmFy") == Octets("Zm9v") + Octets("YmFy");
    EncodeAppend(Octets("foo"), Octets("bar"));
  }

  /** Decoding the same texts. */
  lemma DecodedVectors()
    ensures DecodeFrom(Octets("Zg=="), 0) == Octets("f") && DecodeFrom(Octets("Zm8="), 0) == Octets("fo")
    ensures DecodeFrom(Octets("Zm9v"), 0) == Octets("foo") && DecodeFrom(Octets("Zm9vYg=="), 0) == Octets("foob")
    ensures DecodeFrom(Octets("Zm9vYmE="), 0) == Octets("fooba") && DecodeFrom(Octets("Zm9vYmFy"), 0) == Octets("foobar")
    ensures DecodeFrom(Octets("////"), 0) == [0xFF, 0xFF, 0xFF] && DecodeFrom(Octets("++++"), 0) == [0xFB, 0xEF, 0xBE]
  {
    hide Encode, DecodeFrom, Octets, BodyAt;
    Vectors();
    var _ := RoundTrip(Octets("f"));
    var _ := RoundTrip(Octets("fo"));
    var _ := RoundTrip(Octets("foo"));
    var _ := RoundTrip(Octets("foob"));
    var _ := RoundTrip(Octets("fooba"));
    var _ := RoundTrip(Octets("foobar"));
    var _ := RoundTrip([0xFF, 0xFF, 0xFF]);
    var _ := RoundTrip([0xFB, 0xEF, 0xBE]);
  }

  /** A text as bytes. */
  function Octets(t: string): seq<byte> {
    seq(|t|, i requires 0 <= i < |t| => if t[i] as int < 256 then t[i] as int else 0)
  }

  // ---------------------------------------------------------------- the encoder

  lemma {:induction false} EncodeAppend(a: seq<byte>, b: seq<byte>)
    requires |a| % 3 == 0
    ensures Encode(a + b) == Encode(a) + Encode(b)
    decreases |a|
  {
    hide Encode, EncMap, Quad;
    if a == [] {
      EncodeNothing();
      assert a + b == b;
    } else {
      assert (a + b)[3..] == a[3..] + b;
      EncodeMore(a); EncodeMore(a + b);
      EncodeAppend(a[3..], b);
    }
  }

  /** Stores bytes at a position and moves on. */
  method Put(dst: array<byte>, p: nat, bytes: seq<byte>) returns (q: nat)
    requires p + |bytes| <= dst.Length
    modifies dst
    ensures q == p + |bytes| && dst[..q] == old(dst[..p]) + bytes && dst[q..] == old(dst[q..])
  {
    for i := 0 to |bytes|
      invariant dst[..p + i] == old(dst[..p]) + bytes[..i] && dst[p + i..] == old(dst[p + i..])
    {
      dst[p + i] := bytes[i];
    }
    q := p + |bytes|;
  }

  predicate EncodeFits(dlen: nat, slen: nat) {
    (slen + 2) / 3 <= (SIZE_MAX - 1) / 4 && dlen >= (slen + 2) / 3 * 4 + 1
  }

  /** qcloud_iot_utils_base64encode; a null destination only asks for the length. */
  method EncodeInto(dst: array?<byte>, dlen: nat, src: seq<byte>) returns (ret: int, olen: nat)
    requires dst != null ==> dlen <= dst.Length
    modifies if dst != null then {dst} else {}
    ensures src == [] ==> ret == 0 && olen == 0
    ensures src != [] && (|src| + 2) / 3 > (SIZE_MAX - 1) / 4 ==> ret == ERR_FAILURE && olen == SIZE_MAX
    ensures src != [] && (|src| + 2) / 3 <= (SIZE_MAX - 1) / 4 && !(dst != null && EncodeFits(dlen, |src|)) ==>
      ret == ERR_FAILURE && olen == |Encode(src)| + 1
    ensures src != [] && dst != null && EncodeFits(dlen, |src|) ==>
      ret == 0 && olen == |Encode(src)| < dst.Length && dst[..olen] == Encode(src) && dst[olen] == 0
  {
    if |src| == 0 { return 0, 0; }
    var n := |src| / 3 + if |src| % 3 != 0 then 1 else 0;
    assert n == (|src| + 2) / 3;
    EncodeLength(src);
    if n > (SIZE_MAX - 1) / 4 { return ERR_FAILURE, SIZE_MAX; }
    n := n * 4;
    if dlen < n + 1 || dst == null { return ERR_FAILURE, n + 1; }
    var p := EncodeGroups(dst, src, n);
    dst[p] := 0;
    ret, olen := 0, p;
  }

  method EncodeGroups(dst: array<byte>, src: seq<byte>, ghost need: nat) returns (p: nat)
    requires need == |Encode(src)| < dst.Length
    modifies dst
    ensures p == need && dst[..p] == Encode(src)
  {
    hide Encode, Quad, EncMap;
    var n := |src| / 3 * 3;
    var i := 0;
    p := 0;
    EncodeNothing();
    assert src[..0] == [];
    while i < n
      invariant i % 3 == 0 && i <= n && p <= need
      invariant dst[..p] == Encode(src[..i])
    {
      EncodeSplit(src, i);
      p := Put(dst, p, Quad(src[i], src[i + 1], src[i + 2]));
      i := i + 3;
    }
    EncodeCut(src, i);
    if i < |src| {
      var c2 := if i + 1 < |src| then src[i + 1] else 0;
      EncodeLast(src[i..]);
      p := Put(dst, p, Last(src[i], c2, |src| - i));
    } else {
      EncodeNothing();
      assert src[i..] == [];
    }
  }

  lemma EncodeNothing()
    ensures Encode([]) == []
  {}

  lemma EncodeCut(src: seq<byte>, i: nat)
    requires i <= |src| && i % 3 == 0
    ensures Encode(src) == Encode(src[..i]) + Encode(src[i..])
  {
    hide Encode;
    assert src == src[..i] + src[i..];
    EncodeAppend(src[..i], src[i..]);
  }

  lemma EncodeSplit(src: seq<byte>, i: nat)
    requires i + 3 <= |src| && i % 3 == 0
    ensures Encode(src[..i + 3]) == Encode(src[..i]) + Quad(src[i], src[i + 1], src[i + 2])
    ensures |Encode(src[..i + 3])| <= |Encode(src)|
  {
    hide Encode, Quad, EncMap;
    var front := src[..i + 3];
    EncodeCut(src, i + 3);
    EncodeCut(front, i);
    assert front[..i] == src[..i];
    EncodeMore(front[i..]);
    EncodeNothing();
    assert front[i..][3..] == [];
  }

  // ---------------------------------------------------------------- the decoder

  /** First pass: check for validity and count; it always runs to the end of an accepted text. */
  method CheckPass(src: seq<byte>) returns (v: Verdict, i: nat)
    ensures v == Scan(src, false, 0, 0)
    ensures v.Accept? ==> i == |src|
  {
    hide DecMap;
    var n, j := 0, 0;
    i := 0;
    assert src[0..] == src;
    while i < |src|
      invariant i <= |src| && Scan(src, false, 0, 0) == Scan(src[i..], false, j, n)
      decreases |src| - i
    {
      var x := 0;
      while i < |src| && src[i] == SPACE
        invariant i <= |src| && Scan(src, false, 0, 0) == Scan(src[i..], x > 0, j, n)
        decreases |src| - i
      {
        i, x := i + 1, x + 1;
      }
      if i == |src| { break; }
      assert src[i..][1..] == src[i + 1..];
      if |src| - i >= 2 && src[i] == CR && src[i + 1] == LF {
        i := i + 1;
        continue;
      }
      if src[i] == LF {
        i := i + 1;
        continue;
      }
      if x != 0 { return Reject, i; }
      if src[i] == EQUALS {
        j := j + 1;
        if j > 2 { return Reject, i; }
      }
      if src[i] > 127 || DecMap(src[i]) == 127 { return Reject, i; }
      if DecMap(src[i]) < 64 && j != 0 { return Reject, i; }
      n, i := n + 1, i + 1;
    }
    v := Accept(n, j);
  }

  /** The state of the second pass: bytes allowed per group, position in the group, accumulator, output. */
  datatype Writer = Writer(j: int, n: nat, x: nat, out: seq<byte>)

  const B32 := 0x1_0000_0000

  function Write(w: Writer, c: byte): Writer {
    var j := w.j - if DecMap(c) == 64 then 1 else 0;
    var x := (w.x * 64 + Sextet(c)) % B32;
    if w.n + 1 == 4 then Writer(j, 0, x, w.out + Emit(x, j)) else Writer(j, w.n + 1, x, w.out)
  }

  function WriteAll(w: Writer, b: seq<byte>): Writer
    decreases |b|
  {
    if b == [] then w else WriteAll(Write(w, b[0]), b[1..])
  }

  lemma {:induction false} WriteAppend(w: Writer, a: seq<byte>, b: seq<byte>)
    ensures WriteAll(w, a + b) == WriteAll(WriteAll(w, a), b)
    decreases |a|
  {
    hide Write;
    if a == [] {
      assert a + b == b;
    } else {
      assert (a + b)[0] == a[0] && (a + b)[1..] == a[1..] + b;
      WriteAppend(Write(w, a[0]), a[1..], b);
    }
  }

  lemma {:induction false} WriteGrows(w: Writer, b: seq<byte>)
    ensures |w.out| <= |WriteAll(w, b).out|
    decreases |b|
  {
    hide Emit, Sextet, DecMap;
    if b != [] { WriteGrows(Write(w, b[0]), b[1..]); }
  }

  /** The accumulator keeps bits of earlier groups, but only its low 24 bits are written. */
  lemma FourSextets(x: nat, a: nat, b: nat, c: nat, d: nat)
    requires a < 64 && b < 64 && c < 64 && d < 64
    ensures var v := ((a * 64 + b) * 64 + c) * 64 + d;
            exists h: nat :: (((((x * 64 + a) % B32 * 64 + b) % B32 * 64 + c) % B32) * 64 + d) % B32 == h * 0x100_0000 + v
  {
    var v := ((a * 64 + b) * 64 + c) * 64 + d;
    var y := (((((x * 64 + a) % B32 * 64 + b) % B32 * 64 + c) % B32) * 64 + d) % B32;
    var x1 := (x * 64 + a) % B32;
    var x2 := (x1 * 64 + b) % B32;
    var x3 := (x2 * 64 + c) % B32;
    LowBits(x * 64 + a, 64, a, x); LowBits(x1 * 64 + b, 4096, a * 64 + b, x1 / 64);
    LowBits(x2 * 64 + c, 0x4_0000, (a * 64 + b) * 64 + c, x2 / 4096);
    LowBits(x3 * 64 + d, 0x100_0000, v, x3 / 0x4_0000);
    assert y == (y / 0x100_0000) * 0x100_0000 + v;
  }

  /** Dropping bits above 32 leaves the low bits. */
  lemma LowBits(y: nat, p: nat, r: nat, q: nat)
    requires (p == 64 || p == 4096 || p == 0x4_0000 || p == 0x100_0000) && y == q * p + r && r < p
    ensures y % B32 % p == r
  {
    var z := y % B32;
    var k := B32 / p;
    assert B32 == p * k;
    var w := y / B32;
    assert z == p * (q - k * w) + r by {
      assert y == B32 * w + z;
      assert B32 * w == p * (k * w);
      assert q * p == p * q;
      assert p * (q - k * w) == p * q - p * (k * w);
    }
    DivisionUnique(z, p, q - k * w, r);
  }

  lemma EmitLow(y: nat, h: nat, v: nat, k: int)
    requires y == h * 0x100_0000 + v && v < 0x100_0000
    ensures Emit(y, k) == Emit(v, k)
  {
    DivisionUnique(y, 0x1_0000, h * 0x100 + v / 0x1_0000, v % 0x1_0000);
    DivisionUnique(y, 0x100, h * 0x1_0000 + v / 0x100, v % 0x100);
    DivisionUnique(h * 0x100 + v / 0x1_0000, 256, h, v / 0x1_0000);
    DivisionUnique(h * 0x1_0000 + v / 0x100, 256, h * 0x100 + v / 0x1_0000, v / 0x100 % 256);
  }

  lemma SextetSmall(c: byte)
    ensures Sextet(c) < 64
  {}

  lemma EqualsFour(b: seq<byte>)
    requires |b| >= 4
    ensures Equals(b[..4]) == (if b[0] == EQUALS then 1 else 0) + (if b[1] == EQUALS then 1 else 0)
                            + (if b[2] == EQUALS then 1 else 0) + (if b[3] == EQUALS then 1 else 0)
  {
    var g := b[..4];
    assert g[1..][1..] == g[2..] && g[2..][1..] == g[3..] && g[3..][1..] == [];
    assert Equals(g[3..]) == if b[3] == EQUALS then 1 else 0;
    assert Equals(g[2..]) == (if b[2] == EQUALS then 1 else 0) + Equals(g[3..]);
    assert Equals(g[1..]) == (if b[1] == EQUALS then 1 else 0) + Equals(g[2..]);
  }

  lemma PaddingMark(c: byte)
    ensures DecMap(c) == 64 <==> c == EQUALS
  {}

  /** Four characters through the writer give one group, whatever the accumulator held. */
  lemma WriteFour(w: Writer, b: seq<byte>, seen: nat)
    requires w.n == 0 && w.j == 3 - seen && |b| >= 4
    ensures var (e, v) := (seen + Equals(b[..4]), Value(b[0], b[1], b[2], b[3]));
            var r := Write(Write(Write(Write(w, b[0]), b[1]), b[2]), b[3]);
            r.n == 0 && r.j == 3 - e && r.out == w.out + Emit(v, 3 - e)
  {
    hide DecMap, Sextet, Emit, Equals;
    EqualsFour(b);
    PaddingMark(b[0]); PaddingMark(b[1]); PaddingMark(b[2]); PaddingMark(b[3]);
    SextetSmall(b[0]); SextetSmall(b[1]); SextetSmall(b[2]); SextetSmall(b[3]);
    FourSextets(w.x, Sextet(b[0]), Sextet(b[1]), Sextet(b[2]), Sextet(b[3]));
    var r := Write(Write(Write(Write(w, b[0]), b[1]), b[2]), b[3]);
    var v := Value(b[0], b[1], b[2], b[3]);
    var h: nat :| r.x == h * 0x100_0000 + v;
    EmitLow(r.x, h, v, r.j);
  }

  lemma WriteAllFour(w: Writer, b: seq<byte>)
    requires |b| >= 4
    ensures WriteAll(w, b) == WriteAll(Write(Write(Write(Write(w, b[0]), b[1]), b[2]), b[3]), b[4..])
  {
    hide Write;
    assert b[1..][1..] == b[2..] && b[2..][1..] == b[3..] && b[3..][1..] == b[4..];
    assert WriteAll(w, b) == WriteAll(Write(w, b[0]), b[1..]);
    assert WriteAll(Write(w, b[0]), b[1..]) == WriteAll(Write(Write(w, b[0]), b[1]), b[2..]);
    assert WriteAll(Write(Write(w, b[0]), b[1]), b[2..]) == WriteAll(Write(Write(Write(w, b[0]), b[1]), b[2]), b[3..]);
  }

  lemma WriteShort(w: Writer, b: seq<byte>)
    requires w.n + |b| < 4
    ensures WriteAll(w, b).out == w.out
    decreases |b|
  {
    hide Emit, Sextet, DecMap;
    if b != [] { WriteShort(Write(w, b[0]), b[1..]); }
  }

  /** The second pass writes exactly the complete groups. */
  lemma {:induction false} WriteIsDecode(w: Writer, b: seq<byte>, seen: nat)
    requires w.n == 0 && w.j == 3 - seen
    ensures WriteAll(w, b).out == w.out + DecodeFrom(b, seen)
    decreases |b|
  {
    hide Write, WriteAll, Value, Emit, Equals;
    if |b| < 4 {
      WriteShort(w, b);
    } else {
      WriteFour(w, b, seen);
      WriteAllFour(w, b);
      var r := Write(Write(Write(Write(w, b[0]), b[1]), b[2]), b[3]);
      WriteIsDecode(r, b[4..], seen + Equals(b[..4]));
    }
  }

  const Fresh := Writer(3, 0, 0, [])

  /** One more character of the text, and what it means for the final length. */
  lemma NextChar(src: seq<byte>, k: nat)
    requires k < |src|
    ensures var (before, after) := (WriteAll(Fresh, Strip(src[..k])), WriteAll(Fresh, Strip(src[..k + 1])));
            && after == (if Blank(src[k]) then before else Write(before, src[k]))
            && |after.out| <= |WriteAll(Fresh, Strip(src)).out|
  {
    hide Write, WriteAll, Strip;
    assert src[..k + 1] == src[..k] + [src[k]] && src == src[..k + 1] + src[k + 1..];
    StripAppend(src[..k], [src[k]]);
    StripAppend(src[..k + 1], src[k + 1..]);
    StripOne(src[k]);
    WriteAppend(Fresh, Strip(src[..k]), Strip([src[k]]));
    WriteOne(WriteAll(Fresh, Strip(src[..k])), src[k]);
    WriteAppend(Fresh, Strip(src[..k + 1]), Strip(src[k + 1..]));
    WriteGrows(WriteAll(Fresh, Strip(src[..k + 1])), Strip(src[k + 1..]));
  }

  lemma StripOne(c: byte)
    ensures Strip([c]) == if Blank(c) then [] else [c]
  {}

  lemma WriteOne(w: Writer, c: byte)
    ensures WriteAll(w, []) == w && WriteAll(w, [c]) == Write(w, c)
  {
    hide Write;
    assert [c][1..] == [];
  }

  /** Second pass: blanks are skipped, every fourth character flushes a group. */
  method WritePass(dst: array<byte>, src: seq<byte>) returns (p: nat)
    requires |WriteAll(Fresh, Strip(src)).out| <= dst.Length
    modifies dst
    ensures p == |WriteAll(Fresh, Strip(src)).out| && dst[..p] == WriteAll(Fresh, Strip(src)).out && dst[p..] == old(dst[p..])
  {
    hide WriteAll, Strip, DecMap, Sextet, Emit;
    var j, n := 3, 0;
    var x: nat := 0;
    p := 0;
    assert src[..0] == [];
    WriteNothing();
    for k := 0 to |src|
      invariant 0 <= n && p <= dst.Length && Writer(j, n, x, dst[..p]) == WriteAll(Fresh, Strip(src[..k]))
      invariant dst[p..] == old(dst[p..])
    {
      NextChar(src, k);
      if src[k] == CR || src[k] == LF || src[k] == SPACE { continue; }
      j := j - if DecMap(src[k]) == 64 then 1 else 0;
      x := (x * 64 + Sextet(src[k])) % B32;
      n := n + 1;
      if n == 4 {
        n := 0;
        ghost var before := dst[p..];
        var q := Put(dst, p, Emit(x, j));
        assert dst[q..] == before[q - p..];
        p := q;
      }
    }
    assert src[..|src|] == src;
  }

  lemma WriteNothing()
    ensures WriteAll(Fresh, Strip([])) == Fresh
  {}

  /** qcloud_iot_utils_base64decode. */
  method DecodeInto(dst: array?<byte>, dlen: nat, src: seq<byte>) returns (ret: int, olen: nat)
    requires dst != null ==> dlen <= dst.Length
    modifies if dst != null then {dst} else {}
    ensures var v := Scan(src, false, 0, 0);
            ret == 0 <==> v.Accept? && (v.n == 0 || (dst != null && Size(v.n, v.j) <= dlen))
    ensures ret != 0 ==> ret == ERR_FAILURE == -1001 && (dst != null ==> dst[..] == old(dst[..]))
    ensures ret != 0 && Scan(src, false, 0, 0).Accept? ==> olen == Size(|Strip(src)|, Equals(Strip(src)))
    ensures ret == 0 && Strip(src) != [] ==>
      && dst != null && olen <= dlen && dst[..olen] == DecodeFrom(Strip(src), 0) && dst[olen..] == old(dst[olen..])
    ensures ret == 0 && Strip(src) == [] ==> olen == 0
  {
    hide Scan, Strip, Equals, DecodeFrom, WriteAll, LineRules, Body;
    var v, i := CheckPass(src);
    Accepted(src);
    olen := 0;
    if v.Reject? { return ERR_FAILURE, olen; }
    if v.n == 0 { return 0, 0; }
    WithinSize(Strip(src));
    var size := (v.n * 6 + 7) / 8 - v.j;
    assert size == Size(v.n, v.j);
    if dst == null || dlen < size { return ERR_FAILURE, size; }
    WriteIsDecode(Fresh, Strip(src), 0);
    olen := WritePass(dst, src);
    ret := 0;
  }
}
