/**
 DER (sections 8.1.3 and 10.1 of ITU-T X.690) as the bundled mbed TLS writes it, backwards
 from the end of a buffer, and reads it, forwards with a cursor.
 */
module Der {
  import opened Arithmetic

  const OUT_OF_DATA := -0x0060
  const UNEXPECTED_TAG := -0x0062
  const INVALID_LENGTH := -0x0064
  const LENGTH_MISMATCH := -0x0066
  const BUF_TOO_SMALL := -0x006C

  const OCTET_STRING: byte := 0x04
  const SEQUENCE_OF: byte := 0x30

  const INT_MAX := 0x7FFF_FFFF

  // ---------------------------------------------------------------- the encoding

  /** A length in its shortest definite form. */
  function LengthOctets(n: nat): seq<byte>
    requires n <= 0xFFFF_FFFF
  {
    if n < 0x80 then [n]
    else if n <= 0xFF then [0x81, n]
    else if n <= 0xFFFF then [0x82, n / 0x100, n % 0x100]
    else if n <= 0xFF_FFFF then [0x83, n / 0x1_0000, n / 0x100 % 0x100, n % 0x100]
    else [0x84, n / 0x100_0000, n / 0x1_0000 % 0x100, n / 0x100 % 0x100, n % 0x100]
  }

  function Tlv(tag: byte, content: seq<byte>): seq<byte>
    requires |content| <= 0xFFFF_FFFF
  {
    [tag] + LengthOctets(|content|) + content
  }

  predicate Short(items: seq<seq<byte>>) { forall i :: 0 <= i < |items| ==> |items[i]| <= 0xFFFF_FFFF }

  function Strings(items: seq<seq<byte>>): seq<byte>
    requires Short(items)
  {
    if items == [] then [] else Tlv(OCTET_STRING, items[0]) + Strings(items[1..])
  }

  /** A sequence of two octet strings, octet by octet. */
  lemma WrittenExample()
    ensures Short([[0x01], [0x02, 0x03]])
    ensures Strings([[0x01], [0x02, 0x03]]) == [0x04, 0x01, 0x01, 0x04, 0x02, 0x02, 0x03]
    ensures Tlv(SEQUENCE_OF, Strings([[0x01], [0x02, 0x03]])) == [0x30, 0x07, 0x04, 0x01, 0x01, 0x04, 0x02, 0x02, 0x03]
  {
    var items: seq<seq<byte>> := [[0x01], [0x02, 0x03]];
    assert items[1..] == [[0x02, 0x03]] && items[1..][1..] == [];
    assert Tlv(OCTET_STRING, items[0]) == [0x04, 0x01, 0x01];
    assert Tlv(OCTET_STRING, items[1]) == [0x04, 0x02, 0x02, 0x03];
    assert Strings(items[1..]) == [0x04, 0x02, 0x02, 0x03];
  }

  /** Lengths of one to five octets (section 8.1.3 of X.690). */
  lemma LengthExamples()
    ensures LengthOctets(0x7F) == [0x7F] && LengthOctets(0x80) == [0x81, 0x80] && LengthOctets(0x100) == [0x82, 0x01, 0x00]
    ensures LengthOctets(0x1_0203) == [0x83, 0x01, 0x02, 0x03] && LengthOctets(0x102_0304) == [0x84, 0x01, 0x02, 0x03, 0x04]
  {
  }

  // ---------------------------------------------------------------- reading a length

  /** What reading a length leaves: the status, the octets consumed and the value. */
  datatype Length = Length(ret: int, used: nat, len: nat)

  function BigEndian(s: seq<byte>): nat {
    if s == [] then 0 else BigEndian(s[..|s| - 1]) * 256 + s[|s| - 1]
  }

  /** mbedtls_asn1_get_len on the octets between the cursor and the end. */
  function ReadLength(s: seq<byte>): (r: Length)
    ensures r.used <= |s|
  {
    if |s| < 1 then Length(OUT_OF_DATA, 0, 0)
    else if s[0] < 0x80 then Checked(s, 1, s[0])
    else
      var k := s[0] % 0x80;
      if k == 0 || k > 4 then Length(INVALID_LENGTH, 0, 0)
      else if |s| < k + 1 then Length(OUT_OF_DATA, 0, 0)
      else Checked(s, k + 1, BigEndian(s[1..k + 1]))
  }

  function Checked(s: seq<byte>, used: nat, len: nat): Length {
    Length(if used <= |s| && len <= |s| - used then 0 else OUT_OF_DATA, if used <= |s| then used else 0, len)
  }

  /** What the reader refuses, with its codes: no octet, a missing or an indefinite or too long length, too few octets. */
  lemma LengthErrors(n: byte, s: seq<byte>)
    ensures ReadLength([]).ret == -0x0060
    ensures n < 0x80 && |s| < n ==> ReadLength([n] + s).ret == -0x0060
    ensures n == 0x80 || n > 0x84 ==> ReadLength([n] + s).ret == -0x0064
    ensures 0x81 <= n <= 0x84 && |s| < n - 0x80 ==> ReadLength([n] + s).ret == -0x0060
    ensures 0x81 <= n <= 0x84 && |s| >= n - 0x80 && BigEndian(s[..n - 0x80]) > |s| - (n - 0x80) ==>
      ReadLength([n] + s).ret == -0x0060
  {
    assert ([n] + s)[0] == n;
    if 0x81 <= n <= 0x84 && |s| >= n - 0x80 { assert ([n] + s)[1..n - 0x80 + 1] == s[..n - 0x80]; }
    hide BigEndian;
  }

  lemma BigEndian1(a: byte)
    ensures BigEndian([a]) == a
  {
    assert [a][..0] == [];
  }

  lemma BigEndianSnoc(s: seq<byte>, a: byte)
    ensures BigEndian(s + [a]) == BigEndian(s) * 256 + a
  {
    var t := s + [a];
    assert t[..|t| - 1] == s && t[|t| - 1] == a;
  }

  lemma BigEndianDigits(a: byte, b: byte, c: byte, d: byte)
    ensures BigEndian([a, b]) == a * 0x100 + b
    ensures BigEndian([a, b, c]) == a * 0x1_0000 + b * 0x100 + c
    ensures BigEndian([a, b, c, d]) == a * 0x100_0000 + b * 0x1_0000 + c * 0x100 + d
  {
    BigEndian1(a);
    BigEndianSnoc([a], b); BigEndianSnoc([a, b], c); BigEndianSnoc([a, b, c], d);
    assert [a] + [b] == [a, b] && [a, b] + [c] == [a, b, c] && [a, b, c] + [d] == [a, b, c, d];
  }

  lemma Digits(n: nat)
    requires n <= 0xFFFF_FFFF
    ensures n == n / 0x100 * 0x100 + n % 0x100
    ensures n / 0x100 == n / 0x1_0000 * 0x100 + n / 0x100 % 0x100
    ensures n / 0x1_0000 == n / 0x100_0000 * 0x100 + n / 0x1_0000 % 0x100
  {}

  /** The reader gets back every length that the writer can write, with exactly its octets. */
  lemma ReadWritten(n: nat, rest: seq<byte>)
    requires n <= 0xFFFF_FFFF && n <= |rest|
    ensures ReadLength(LengthOctets(n) + rest) == Length(0, |LengthOctets(n)|, n)
  {
    hide BigEndian;
    Digits(n);
    if n < 0x80 {
      assert (LengthOctets(n) + rest)[0] == n;
    } else if n <= 0xFF {
      BigEndian1(n);
      ReadLong([n], rest, n);
    } else if n <= 0xFFFF {
      BigEndianDigits(n / 0x100, n % 0x100, 0, 0);
      ReadLong([n / 0x100, n % 0x100], rest, n);
    } else if n <= 0xFF_FFFF {
      BigEndianDigits(n / 0x1_0000, n / 0x100 % 0x100, n % 0x100, 0);
      ReadLong([n / 0x1_0000, n / 0x100 % 0x100, n % 0x100], rest, n);
    } else {
      BigEndianDigits(n / 0x100_0000, n / 0x1_0000 % 0x100, n / 0x100 % 0x100, n % 0x100);
      ReadLong([n / 0x100_0000, n / 0x1_0000 % 0x100, n / 0x100 % 0x100, n % 0x100], rest, n);
    }
  }

  /** The long form: the number of octets, then the octets. */
  lemma ReadLong(octets: seq<byte>, rest: seq<byte>, n: nat)
    requires 1 <= |octets| <= 4 && BigEndian(octets) == n <= |rest|
    ensures ReadLength(([0x80 + |octets|] + octets) + rest) == Length(0, |octets| + 1, n)
  {
    hide BigEndian;
    var (k, s) := (|octets|, ([0x80 + |octets|] + octets) + rest);
    Behind(0x80 + k, octets, rest);
    assert s[0] % 0x80 == k;
    hide Checked;
    assert ReadLength(s) == Checked(s, k + 1, BigEndian(s[1..k + 1]));
    assert |s| == 1 + k + |rest|;
    ReadChecked(s, k + 1, n);
  }

  lemma Behind(head: byte, octets: seq<byte>, rest: seq<byte>)
    ensures var s := ([head] + octets) + rest; s[0] == head && s[1..|octets| + 1] == octets
  {
  }

  lemma ReadChecked(s: seq<byte>, used: nat, len: nat)
    requires used + len <= |s|
    ensures Checked(s, used, len) == Length(0, used, len)
  {
  }

  lemma {:induction false} BigEndianBound(s: seq<byte>)
    ensures BigEndian(s) < Power256(|s|)
  {
    if s != [] { BigEndianBound(s[..|s| - 1]); }
  }

  /** No accepted form of a length is shorter than the one written. */
  lemma FewestOctets(s: seq<byte>, n: nat)
    requires n <= 0xFFFF_FFFF && ReadLength(s).ret == 0 && ReadLength(s).len == n
    ensures |LengthOctets(n)| <= ReadLength(s).used
  {
    if s[0] >= 0x80 {
      var k := s[0] % 0x80;
      BigEndianBound(s[1..k + 1]);
      assert Power256(1) == 0x100 && Power256(2) == 0x1_0000 && Power256(3) == 0x100_0000;
    }
  }

  // ---------------------------------------------------------------- the writers

  /** Bytes [q, p) of the buffer hold what was written; nothing else changed. */
  ghost predicate Wrote(before: seq<byte>, after: seq<byte>, q: nat, p: nat, bytes: seq<byte>) {
    && q <= p <= |before| == |after|
    && after == before[..q] + bytes + before[p..] && |bytes| == p - q
  }

  lemma WroteTwice(a: seq<byte>, b: seq<byte>, c: seq<byte>, q: nat, r: nat, p: nat, front: seq<byte>, back: seq<byte>)
    requires Wrote(a, b, r, p, back) && Wrote(b, c, q, r, front)
    ensures Wrote(a, c, q, p, front + back)
  {
    assert b[r..] == back + a[p..];
    assert b[..q] == a[..q];
  }

  /** Stores some octets just below the cursor, as a run of predecrement stores does. */
  method PutBelow(buf: array<byte>, p: nat, bytes: seq<byte>) returns (q: nat)
    requires |bytes| <= p <= buf.Length
    modifies buf
    ensures q == p - |bytes| && Wrote(old(buf[..]), buf[..], q, p, bytes)
  {
    q := p;
    var i := |bytes|;
    while i > 0
      invariant 0 <= i <= |bytes| && q == p - |bytes| + i
      invariant buf[..] == old(buf[..])[..q] + bytes[i..] + old(buf[..])[p..]
    {
      i, q := i - 1, q - 1;
      buf[q] := bytes[i];
    }
  }

  method WriteLen(buf: array<byte>, p: nat, len: nat) returns (ret: int, q: nat)
    requires p <= buf.Length
    modifies buf
    ensures ret < 0 ==> q == p && buf[..] == old(buf[..])
    ensures len > 0xFFFF_FFFF ==> ret == INVALID_LENGTH == -0x0064
    ensures len <= 0xFFFF_FFFF && p < |LengthOctets(len)| ==> ret == BUF_TOO_SMALL == -0x006C
    ensures len <= 0xFFFF_FFFF && p >= |LengthOctets(len)| ==>
      ret == |LengthOctets(len)| && Wrote(old(buf[..]), buf[..], q, p, LengthOctets(len))
  {
    if len < 0x80 {
      if p < 1 { return BUF_TOO_SMALL, p; }
      q := PutBelow(buf, p, [len]);
      return 1, q;
    }
    if len <= 0xFF {
      if p < 2 { return BUF_TOO_SMALL, p; }
      q := PutBelow(buf, p, [0x81, len]);
      return 2, q;
    }
    if len <= 0xFFFF {
      if p < 3 { return BUF_TOO_SMALL, p; }
      q := PutBelow(buf, p, [0x82, len / 0x100, len % 0x100]);
      return 3, q;
    }
    if len <= 0xFF_FFFF {
      if p < 4 { return BUF_TOO_SMALL, p; }
      q := PutBelow(buf, p, [0x83, len / 0x1_0000, len / 0x100 % 0x100, len % 0x100]);
      return 4, q;
    }
    if len <= 0xFFFF_FFFF {
      if p < 5 { return BUF_TOO_SMALL, p; }
      q := PutBelow(buf, p, [0x84, len / 0x100_0000, len / 0x1_0000 % 0x100, len / 0x100 % 0x100, len % 0x100]);
      return 5, q;
    }
    ret, q := INVALID_LENGTH, p;
  }

  method WriteTag(buf: array<byte>, p: nat, tag: byte) returns (ret: int, q: nat)
    requires p <= buf.Length
    modifies buf
    ensures p < 1 ==> ret == BUF_TOO_SMALL && q == p && buf[..] == old(buf[..])
    ensures p >= 1 ==> ret == 1 && Wrote(old(buf[..]), buf[..], q, p, [tag])
  {
    if p < 1 { return BUF_TOO_SMALL, p; }
    q := PutBelow(buf, p, [tag]);
    ret := 1;
  }

  method WriteRaw(buf: array<byte>, p: nat, bytes: seq<byte>) returns (ret: int, q: nat)
    requires p <= buf.Length
    modifies buf
    ensures p < |bytes| ==> ret == BUF_TOO_SMALL && q == p && buf[..] == old(buf[..])
    ensures p >= |bytes| ==> ret == |bytes| && Wrote(old(buf[..]), buf[..], q, p, bytes)
  {
    if p < |bytes| { return BUF_TOO_SMALL, p; }
    q := PutBelow(buf, p, bytes);
    ret := |bytes|;
  }

  /** The length and tag that close what lies between q and p; stops at the first failure. */
  method WriteHeader(buf: array<byte>, q: nat, len: nat, tag: byte) returns (ret: int, r: nat)
    requires q <= buf.Length && len <= INT_MAX
    modifies buf
    ensures ret < 0 <==> q < 1 + |LengthOctets(len)|
    ensures ret < 0 ==> ret == BUF_TOO_SMALL && r <= q && buf[q..] == old(buf[q..])
    ensures ret >= 0 ==>
      ret == 1 + |LengthOctets(len)| && Wrote(old(buf[..]), buf[..], r, q, [tag] + LengthOctets(len))
  {
    hide LengthOctets;
    LengthNonempty(len);
    ghost var a := buf[..];
    var m;
    m, r := WriteLen(buf, q, len);
    if m < 0 { return m, r; }
    ghost var (b, r1) := (buf[..], r);
    ret, r := WriteTag(buf, r, tag);
    if ret < 0 { return; }
    WroteTwice(a, b, buf[..], r, r1, q, [tag], LengthOctets(len));
    ret := ret + m;
  }

  lemma LengthNonempty(n: nat)
    requires n <= 0xFFFF_FFFF
    ensures |LengthOctets(n)| > 0
  {}

  method WriteOctetString(buf: array<byte>, p: nat, bytes: seq<byte>) returns (ret: int, q: nat)
    requires p <= buf.Length <= INT_MAX
    modifies buf
    ensures |bytes| <= 0xFFFF_FFFF && p >= |Tlv(OCTET_STRING, bytes)| ==>
      ret == |Tlv(OCTET_STRING, bytes)| && Wrote(old(buf[..]), buf[..], q, p, Tlv(OCTET_STRING, bytes))
    ensures (|bytes| <= 0xFFFF_FFFF ==> p < |Tlv(OCTET_STRING, bytes)|) ==> ret == BUF_TOO_SMALL && q <= p && buf[p..] == old(buf[p..])
  {
    hide LengthOctets;
    ghost var a := buf[..];
    ret, q := WriteRaw(buf, p, bytes);
    if ret < 0 { return; }
    ghost var (b, q1) := (buf[..], q);
    var m;
    m, q := WriteHeader(buf, q, |bytes|, OCTET_STRING);
    if m < 0 { return m, q; }
    WroteTwice(a, b, buf[..], q, q1, p, [OCTET_STRING] + LengthOctets(|bytes|), bytes);
    ret := ret + m;
  }

  /**
   A list of octet strings inside one sequence, written from the last item back: every item
   with its header, then the length and tag of the whole.
   */
  method WriteSequence(buf: array<byte>, p: nat, items: seq<seq<byte>>) returns (ret: int, q: nat)
    requires p <= buf.Length <= INT_MAX && Short(items)
    modifies buf
    ensures ret >= 0 ==>
      && |Strings(items)| <= INT_MAX && ret == |Tlv(SEQUENCE_OF, Strings(items))|
      && Wrote(old(buf[..]), buf[..], q, p, Tlv(SEQUENCE_OF, Strings(items)))
    ensures ret < 0 <==> |Strings(items)| > 0xFFFF_FFFF || p < |Tlv(SEQUENCE_OF, Strings(items))|
  {
    hide LengthOctets, Strings;
    ghost var a := buf[..];
    var len := 0;
    q := p;
    var i := |items|;
    StringsEnd(items);
    while i > 0
      invariant 0 <= i <= |items| && len == p - q == |Strings(items[i..])|
      invariant Wrote(a, buf[..], q, p, Strings(items[i..]))
    {
      i := i - 1;
      StringsNext(items, i);
      StringsSuffix(items, i);
      ghost var (b, q1) := (buf[..], q);
      ret, q := WriteOctetString(buf, q, items[i]);
      if ret < 0 { return; }
      WroteTwice(a, b, buf[..], q, q1, p, Tlv(OCTET_STRING, items[i]), Strings(items[i + 1..]));
      len := len + ret;
    }
    assert items[0..] == items;
    ghost var (b, q1) := (buf[..], q);
    ret, q := WriteHeader(buf, q, len, SEQUENCE_OF);
    if ret < 0 { return; }
    WroteTwice(a, b, buf[..], q, q1, p, [SEQUENCE_OF] + LengthOctets(len), Strings(items));
    ret := ret + len;
  }

  lemma StringsEnd(items: seq<seq<byte>>)
    requires Short(items)
    ensures items[|items|..] == [] && Strings([]) == []
  {}

  lemma StringsNext(items: seq<seq<byte>>, i: nat)
    requires Short(items) && i < |items|
    ensures Strings(items[i..]) == Tlv(OCTET_STRING, items[i]) + Strings(items[i + 1..])
  {
    hide Tlv;
    assert items[i..][0] == items[i] && items[i..][1..] == items[i + 1..];
  }

  /** Every suffix of the list takes no more room than the whole. */
  lemma {:induction false} StringsSuffix(items: seq<seq<byte>>, i: nat)
    requires Short(items) && i <= |items|
    ensures |Strings(items[i..])| <= |Strings(items)|
  {
    hide Tlv, Strings;
    if i == 0 {
      assert items[0..] == items;
    } else {
      StringsNext(items, i - 1);
      StringsSuffix(items, i - 1);
    }
  }

  // ---------------------------------------------------------------- the readers

  /** The four cases of the length switch: one to four octets shifted together. */
  function Octets(b: seq<byte>): (v: nat)
    requires 1 <= |b| <= 4
    ensures v == BigEndian(b)
  {
    var (x0: nat, x1: nat, x2: nat, x3: nat) :=
      (b[0], if |b| > 1 then b[1] else 0, if |b| > 2 then b[2] else 0, if |b| > 3 then b[3] else 0);
    BigEndian1(x0);
    BigEndianDigits(x0, x1, x2, x3);
    assert b == if |b| == 1 then [x0] else if |b| == 2 then [x0, x1] else if |b| == 3 then [x0, x1, x2] else [x0, x1, x2, x3];
    if |b| == 1 then x0
    else if |b| == 2 then x0 * 0x100 + x1
    else if |b| == 3 then x0 * 0x1_0000 + x1 * 0x100 + x2
    else x0 * 0x100_0000 + x1 * 0x1_0000 + x2 * 0x100 + x3
  }

  lemma SliceSlice(b: seq<byte>, p: nat, end: nat, i: nat, j: nat)
    requires p <= end <= |b| && i <= j <= end - p
    ensures b[p..end][i..j] == b[p + i..p + j]
  {
    var (l, r) := (b[p..end][i..j], b[p + i..p + j]);
    assert |l| == |r| && forall k :: 0 <= k < |l| ==> l[k] == b[p + i + k] == r[k];
  }

  method GetLen(buf: seq<byte>, p: nat, end: nat) returns (ret: int, q: nat, len: nat)
    requires p <= end <= |buf|
    ensures var r := ReadLength(buf[p..end]); ret == r.ret && q == p + r.used && (ret == 0 ==> len == r.len && q + len <= end)
  {
    len := 0;
    if end - p < 1 { return OUT_OF_DATA, p, len; }
    ghost var s := buf[p..end];
    if buf[p] < 0x80 {
      len, q := buf[p], p + 1;
    } else {
      var k := buf[p] % 0x80;
      if k == 0 || k > 4 { return INVALID_LENGTH, p, len; }
      if end - p < k + 1 { return OUT_OF_DATA, p, len; }
      len, q := Octets(buf[p + 1..p + 1 + k]), p + 1 + k;
      SliceSlice(buf, p, end, 1, k + 1);
      assert p + (k + 1) == p + 1 + k;
      assert len == BigEndian(s[1..k + 1]);
      assert ReadLength(s) == Checked(s, k + 1, len);
    }
    ret := if len > end - q then OUT_OF_DATA else 0;
  }

  /** What get_tag leaves: the status, the octets consumed and the content length. */
  function ReadTag(s: seq<byte>, tag: byte): (r: Length)
    ensures r.used <= |s|
  {
    if |s| < 1 then Length(OUT_OF_DATA, 0, 0)
    else if s[0] != tag then Length(UNEXPECTED_TAG, 0, 0)
    else var r := ReadLength(s[1..]); Length(r.ret, r.used + 1, r.len)
  }

  method GetTag(buf: seq<byte>, p: nat, end: nat, tag: byte) returns (ret: int, q: nat, len: nat)
    requires p <= end <= |buf|
    ensures var r := ReadTag(buf[p..end], tag); ret == r.ret && q == p + r.used && (ret == 0 ==> len == r.len && q + len <= end)
  {
    hide ReadLength;
    if end - p < 1 { return OUT_OF_DATA, p, 0; }
    if buf[p] != tag { return UNEXPECTED_TAG, p, 0; }
    assert buf[p..end][1..] == buf[p + 1..end];
    ret, q, len := GetLen(buf, p + 1, end);
  }

  /** A missing and a wrong tag, with their codes. */
  lemma TagErrors(n: byte, s: seq<byte>, tag: byte)
    ensures ReadTag([], tag).ret == -0x0060
    ensures n != tag ==> ReadTag([n] + s, tag).ret == -0x0062
  {
    assert ([n] + s)[0] == n;
    hide ReadLength;
  }

  lemma ReadTlv(tag: byte, content: seq<byte>, rest: seq<byte>)
    requires |content| <= 0xFFFF_FFFF
    ensures ReadTag(Tlv(tag, content) + rest, tag) == Length(0, 1 + |LengthOctets(|content|)|, |content|)
  {
    hide ReadLength, LengthOctets;
    var s := Tlv(tag, content) + rest;
    assert s[1..] == LengthOctets(|content|) + (content + rest);
    ReadWritten(|content|, content + rest);
  }

  /** A node of mbedtls_asn1_sequence. */
  class Node {
    var tag: nat
    var len: nat
    var p: nat
    var next: Node?
    constructor ()
      ensures tag == 0 && len == 0 && p == 0 && next == null
    {
      tag, len, p, next := 0, 0, 0, null;
    }
  }

  datatype Entry = Entry(tag: nat, p: nat, len: nat)
  datatype Items = Items(ret: int, entries: seq<Entry>)

  /** The items between the cursor and the end, or the first error. */
  function ReadItems(buf: seq<byte>, p: nat, end: nat, tag: byte): Items
    requires p <= end <= |buf|
    decreases end - p
  {
    if p == end then Items(0, [])
    else
      var r := ReadTag(buf[p..end], tag);
      if r.ret != 0 || p + r.used + r.len > end || r.used == 0 then Items(r.ret, [])
      else
        var rest := ReadItems(buf, p + r.used + r.len, end, tag);
        Items(rest.ret, [Entry(tag, p + r.used, r.len)] + rest.entries)
  }

  /** The nodes are distinct, linked in order, and hold the entries. */
  ghost predicate Holds(nodes: seq<Node>, entries: seq<Entry>)
    reads nodes
  {
    && |entries| == |nodes|
    && (forall i, j :: 0 <= i < j < |nodes| ==> nodes[i] != nodes[j])
    && (forall i :: 0 <= i < |nodes| ==> Entry(nodes[i].tag, nodes[i].p, nodes[i].len) == entries[i])
    && (forall i :: 0 <= i && i + 1 < |nodes| ==> nodes[i].next == nodes[i + 1])
  }

  /** A successful read consumes at least the tag. */
  lemma TagConsumes(s: seq<byte>, tag: byte)
    ensures ReadTag(s, tag).ret == 0 ==> ReadTag(s, tag).used > 0 && ReadTag(s, tag).used + ReadTag(s, tag).len <= |s|
  {}

  /** The entries read so far, followed by those still ahead, are all the entries. */
  ghost predicate ReadUpTo(buf: seq<byte>, start: nat, p: nat, end: nat, tag: byte, entries: seq<Entry>)
    requires start <= p <= end <= |buf|
  {
    var (all, rest) := (ReadItems(buf, start, end, tag), ReadItems(buf, p, end, tag));
    all.ret == rest.ret && all.entries == entries + rest.entries
  }

  lemma ReadItemsNext(buf: seq<byte>, start: nat, p: nat, end: nat, tag: byte, entries: seq<Entry>)
    requires start <= p < end <= |buf| && ReadTag(buf[p..end], tag).ret == 0 && ReadUpTo(buf, start, p, end, tag, entries)
    ensures var r := ReadTag(buf[p..end], tag);
            && buf[p] == tag && p + r.used + r.len <= end
            && ReadUpTo(buf, start, p + r.used + r.len, end, tag, entries + [Entry(tag, p + r.used, r.len)])
  {
    FirstIsTag(buf[p..end], tag);
    hide ReadTag;
    TagConsumes(buf[p..end], tag);
  }

  /** The list under construction: finished nodes, and the node that is filled next or was filled last. */
  ghost predicate Building(nodes: seq<Node>, entries: seq<Entry>, first: Node, cur: Node, pending: bool)
    reads nodes
  {
    && Holds(nodes, entries)
    && (if nodes == [] then cur == first else nodes[0] == first)
    && (nodes != [] ==> if pending then cur !in nodes && nodes[|nodes| - 1].next == cur else cur == nodes[|nodes| - 1])
  }

  /** Fills the current node and, when more items follow, allocates and links the next one. */
  method FillNode(ghost nodes: seq<Node>, ghost entries: seq<Entry>, ghost first: Node, cur: Node, entry: Entry, more: bool)
    returns (cur': Node, ghost nodes': seq<Node>)
    requires Building(nodes, entries, first, cur, true)
    modifies cur
    ensures nodes' == nodes + [cur] && (cur' == cur || fresh(cur'))
    ensures Building(nodes', entries + [entry], first, cur', more)
  {
    cur.tag, cur.p, cur.len := entry.tag, entry.p, entry.len;
    nodes' := nodes + [cur];
    cur' := cur;
    if more {
      cur' := new Node();
      cur.next := cur';
    }
  }

  ghost predicate Finished(nodes: seq<Node>, entries: seq<Entry>, first: Node)
    reads nodes, first
  {
    && Holds(nodes, entries) && (nodes == [] ==> first.next == null)
    && (nodes != [] ==> nodes[0] == first && nodes[|nodes| - 1].next == null)
  }

  method CloseList(ghost nodes: seq<Node>, ghost entries: seq<Entry>, ghost first: Node, cur: Node)
    requires Building(nodes, entries, first, cur, false)
    modifies cur
    ensures Finished(nodes, entries, first)
  {
    cur.next := null;
  }

  lemma ItemsAll(buf: seq<byte>, start: nat, end: nat, tag: byte, entries: seq<Entry>)
    requires start <= end <= |buf| && ReadUpTo(buf, start, end, end, tag, entries)
    ensures ReadItems(buf, start, end, tag) == Items(0, entries)
  {
    ItemsEnd(buf, end, tag);
    hide ReadItems;
  }

  /** The loop over the items, from the cursor to the end. */
  method GetItems(buf: seq<byte>, start: nat, end: nat, first: Node, tag: byte)
    returns (ret: int, q: nat, ghost nodes: seq<Node>)
    requires start <= end <= |buf|
    modifies first
    ensures ret == ReadItems(buf, start, end, tag).ret
    ensures ret == 0 ==> q == end && Finished(nodes, ReadItems(buf, start, end, tag).entries, first)
  {
    hide ReadTag, ReadItems, Finished;
    nodes := [];
    ghost var entries := [];
    q := start;
    var cur := first;
    assert [] + ReadItems(buf, q, end, tag).entries == ReadItems(buf, q, end, tag).entries;
    while q < end
      invariant start <= q <= end && (cur == first || fresh(cur))
      invariant Building(nodes, entries, first, cur, q < end)
      invariant ReadUpTo(buf, start, q, end, tag, entries)
    {
      hide Building, ReadUpTo;
      ghost var at := q;
      var (seen, len) := (buf[q], 0);
      ret, q, len := GetTag(buf, q, end, tag);
      if ret != 0 {
        ItemsError(buf, start, at, end, tag, entries);
        cur.tag := seen;
        return;
      }
      ReadItemsNext(buf, start, at, end, tag, entries);
      cur, nodes := FillNode(nodes, entries, first, cur, Entry(seen, q, len), q + len < end);
      entries := entries + [Entry(seen, q, len)];
      q := q + len;
    }
    ItemsAll(buf, start, end, tag, entries);
    CloseList(nodes, entries, first, cur);
    ret := 0;
  }

  /** mbedtls_asn1_get_sequence_of; the first node is the caller's, the others are allocated. */
  method GetSequenceOf(buf: seq<byte>, p: nat, end: nat, first: Node, tag: byte)
    returns (ret: int, q: nat, ghost nodes: seq<Node>)
    requires p <= end <= |buf|
    modifies first
    ensures var r := ReadTag(buf[p..end], SEQUENCE_OF);
            if r.ret != 0 then ret == r.ret
            else if p + r.used + r.len != end then ret == LENGTH_MISMATCH == -0x0066
            else ret == ReadItems(buf, p + r.used, end, tag).ret
    ensures ret == 0 ==>
      q == end && Finished(nodes, ReadItems(buf, p + ReadTag(buf[p..end], SEQUENCE_OF).used, end, tag).entries, first)
  {
    hide ReadTag, ReadItems, Finished;
    var len;
    nodes := [];
    ret, q, len := GetTag(buf, p, end, SEQUENCE_OF);
    if ret != 0 { return; }
    if q + len != end { return LENGTH_MISMATCH, q, nodes; }
    ret, q, nodes := GetItems(buf, q, end, first, tag);
  }

  lemma ItemsError(buf: seq<byte>, start: nat, p: nat, end: nat, tag: byte, entries: seq<Entry>)
    requires start <= p < end <= |buf| && ReadTag(buf[p..end], tag).ret != 0 && ReadUpTo(buf, start, p, end, tag, entries)
    ensures ReadItems(buf, start, end, tag).ret == ReadTag(buf[p..end], tag).ret
  {
    hide ReadTag;
  }

  lemma ItemsEnd(buf: seq<byte>, end: nat, tag: byte)
    requires end <= |buf|
    ensures ReadItems(buf, end, end, tag) == Items(0, [])
  {}

  lemma FirstIsTag(s: seq<byte>, tag: byte)
    requires ReadTag(s, tag).ret == 0
    ensures |s| > 0 && s[0] == tag
  {}

  // ---------------------------------------------------------------- the round trip

  /** Entry and item agree: the tag, the length and the very bytes. */
  ghost predicate Delivers(buf: seq<byte>, entry: Entry, item: seq<byte>) {
    && entry.tag == OCTET_STRING && entry.len == |item|
    && entry.p + entry.len <= |buf| && buf[entry.p..entry.p + entry.len] == item
  }

  ghost predicate DeliversAll(buf: seq<byte>, entries: seq<Entry>, items: seq<seq<byte>>) {
    |entries| == |items| && forall i :: 0 <= i < |items| ==> Delivers(buf, entries[i], items[i])
  }

  /** One item at the cursor: its entry, and the cursor behind it. */
  lemma FirstItem(buf: seq<byte>, p: nat, end: nat, item: seq<byte>, rest: seq<byte>)
    requires p <= end <= |buf| && |item| <= 0xFFFF_FFFF && buf[p..end] == Tlv(OCTET_STRING, item) + rest
    ensures var r := ReadTag(buf[p..end], OCTET_STRING);
            var q := p + r.used + r.len;
            && r.ret == 0 && r.used > 0 && q <= end && buf[q..end] == rest
            && Delivers(buf, Entry(OCTET_STRING, p + r.used, r.len), item)
  {
    hide ReadTag, LengthOctets;
    var (s, h) := (buf[p..end], 1 + |LengthOctets(|item|)|);
    ReadTlv(OCTET_STRING, item, rest);
    SliceSlice(buf, p, end, h, h + |item|);
    SliceSlice(buf, p, end, h + |item|, |s|);
    assert s[h..h + |item|] == item && s[h + |item|..|s|] == rest;
    assert p + (h + |item|) == p + h + |item|;
  }

  lemma {:induction false} ItemsDelivered(buf: seq<byte>, p: nat, end: nat, items: seq<seq<byte>>)
    requires p <= end <= |buf| && Short(items) && buf[p..end] == Strings(items)
    ensures var r := ReadItems(buf, p, end, OCTET_STRING); r.ret == 0 && DeliversAll(buf, r.entries, items)
    decreases |items|
  {
    hide ReadTag, Tlv, Delivers;
    if items == [] {
      assert p == end;
    } else {
      var rest := Strings(items[1..]);
      TlvNonempty(OCTET_STRING, items[0]);
      FirstItem(buf, p, end, items[0], rest);
      var r := ReadTag(buf[p..end], OCTET_STRING);
      ItemsDelivered(buf, p + r.used + r.len, end, items[1..]);
    }
  }

  lemma TlvNonempty(tag: byte, content: seq<byte>)
    requires |content| <= 0xFFFF_FFFF
    ensures |Tlv(tag, content)| > 0
  {}

  /**
   Reading back what WriteSequence writes: the header covers exactly the rest of the buffer, and
   the entries deliver the same strings in the same order.
   */
  lemma SequenceRoundTrip(buf: seq<byte>, p: nat, end: nat, items: seq<seq<byte>>)
    requires p <= end <= |buf| && Short(items) && |Strings(items)| <= 0xFFFF_FFFF
    requires buf[p..end] == Tlv(SEQUENCE_OF, Strings(items))
    ensures var h := ReadTag(buf[p..end], SEQUENCE_OF);
            && h.ret == 0 && p + h.used + h.len == end
            && var r := ReadItems(buf, p + h.used, end, OCTET_STRING);
               r.ret == 0 && DeliversAll(buf, r.entries, items)
  {
    hide ReadTag, LengthOctets, ReadItems, DeliversAll, Strings;
    var (s, content) := (buf[p..end], Strings(items));
    var h := 1 + |LengthOctets(|content|)|;
    assert s + [] == s;
    ReadTlv(SEQUENCE_OF, content, []);
    SliceSlice(buf, p, end, h, |s|);
    assert s[h..|s|] == content;
    assert p + |s| == end;
    ItemsDelivered(buf, p + h, end, items);
  }

  /** Writes a list and reads it back through the linked nodes. */
  method WriteThenRead(buf: array<byte>, items: seq<seq<byte>>, first: Node) returns (ret: int, ghost nodes: seq<Node>)
    requires buf.Length <= INT_MAX && Short(items)
    modifies buf, first
    ensures ret == 0 <==> |Strings(items)| <= 0xFFFF_FFFF && |Tlv(SEQUENCE_OF, Strings(items))| <= buf.Length
    ensures ret == 0 ==> |nodes| == |items|
    ensures ret == 0 ==>
      forall i :: 0 <= i < |items| ==> Delivers(buf[..], Entry(nodes[i].tag, nodes[i].p, nodes[i].len), items[i])
    ensures ret == 0 && items != [] ==> nodes[0] == first && nodes[|nodes| - 1].next == null
    ensures ret == 0 ==> forall i :: 0 <= i && i + 1 < |nodes| ==> nodes[i].next == nodes[i + 1]
  {
    hide ReadTag, ReadItems, Tlv, Strings;
    nodes := [];
    var end, q := buf.Length, 0;
    ret, q := WriteSequence(buf, end, items);
    if ret < 0 { return; }
    var text := buf[..];
    ghost var tlv := Tlv(SEQUENCE_OF, Strings(items));
    assert text[q..end] == tlv;
    SequenceRoundTrip(text, q, end, items);
    ret, q, nodes := GetSequenceOf(text, q, end, first, OCTET_STRING);
  }
}
