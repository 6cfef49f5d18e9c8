/** Type-length-value elements, as delimited by the TLV encoding of the NDN Packet Format
    Specification. Only the extent of an element matters here. */
module Tlv {
  import opened Ndn
  import opened Framing

  /** A variable-size number and the position behind it. */
  datatype VarNumber = VarNumber(value: nat, next: nat)

  function BigEndian(b: Bytes, from: nat, n: nat): (v: nat)
    requires from + n <= |b|
  {
    if n == 0 then 0 else BigEndian(b, from, n - 1) * 256 + b[from + n - 1] as int
  }

  /** Octets that follow the first one. */
  function ExtraOctets(first: Byte): nat {
    if first < 253 then 0 else if first == 253 then 2 else if first == 254 then 4 else 8
  }

  function ReadVarNumber(b: Bytes, at: nat): Option<VarNumber> {
    if at >= |b| then None
    else
      var extra := ExtraOctets(b[at]);
      if extra == 0 then Some(VarNumber(b[at] as int, at + 1))
      else if |b| < at + 1 + extra then None
      else Some(VarNumber(BigEndian(b, at + 1, extra), at + 1 + extra))
  }

  /** The size of the element at the front of the buffer, if it is complete. */
  function ElementSize(b: Bytes): (size: Option<nat>) {
    match ReadVarNumber(b, 0)
    case None => None
    case Some(t) =>
      if t.value > 0xFFFF_FFFF then None
      else
        match ReadVarNumber(b, t.next)
        case None => None
        case Some(l) => if l.value > |b| - l.next then None else Some(l.next + l.value)
  }

  lemma {:induction false} BigEndianAgrees(b: Bytes, c: Bytes, from: nat, at: nat, n: nat)
    requires from + n <= |b| && at + n <= |c|
    requires b[from..from + n] == c[at..at + n]
    ensures BigEndian(b, from, n) == BigEndian(c, at, n)
  {
    if n != 0 {
      assert b[from..from + (n - 1)] == b[from..from + n][..n - 1];
      assert c[at..at + (n - 1)] == c[at..at + n][..n - 1];
      assert b[from..from + n][n - 1] == c[at..at + n][n - 1];
      BigEndianAgrees(b, c, from, at, n - 1);
    }
  }

  lemma VarNumberPrefix(b: Bytes, n: nat, at: nat)
    requires n <= |b|
    ensures match ReadVarNumber(b, at)
            case None => ReadVarNumber(b[..n], at) == None
            case Some(v) => at < v.next <= |b|
                            && ReadVarNumber(b[..n], at) == if v.next <= n then Some(v) else None
  {
    if at < n && at + 1 + ExtraOctets(b[at]) <= n {
      BigEndianAgrees(b, b[..n], at + 1, at + 1, ExtraOctets(b[at]));
    }
  }

  /** An element is recognised in a buffer exactly when the buffer holds all of it. */
  lemma SizeOfPrefix(b: Bytes, n: nat)
    requires n <= |b|
    ensures match ElementSize(b)
            case None => ElementSize(b[..n]) == None
            case Some(size) => 2 <= size <= |b| && ElementSize(b[..n]) == if size <= n then Some(size) else None
  {
    VarNumberPrefix(b, n, 0);
    if ReadVarNumber(b, 0).Some? {
      VarNumberPrefix(b, n, ReadVarNumber(b, 0).value.next);
    }
  }

  lemma TlvIsSelfDelimiting()
    ensures SelfDelimiting(ElementSize)
  {
    forall b: Bytes, n: nat ensures PrefixLaw(ElementSize, b, n) {
      if n <= |b| { SizeOfPrefix(b, n); }
    }
  }

  /** TLV delimits elements the way the reassembler needs. */
  function TlvReader(): Reader {
    TlvIsSelfDelimiting();
    ElementSize
  }

  // ---- The writer the reader inverts --------------------------------------------------

  function Octets(v: nat, width: nat): (b: Bytes)
    ensures |b| == width
  {
    if width == 0 then [] else Octets(v / 256, width - 1) + [(v % 256) as Byte]
  }

  function Pow256(n: nat): nat {
    if n == 0 then 1 else 256 * Pow256(n - 1)
  }

  function WriteVarNumber(v: nat): Bytes
    requires v < Pow256(8)
  {
    if v < 253 then [v as Byte]
    else if v <= 0xFFFF then [253] + Octets(v, 2)
    else if v <= 0xFFFF_FFFF then [254] + Octets(v, 4)
    else [255] + Octets(v, 8)
  }

  /** Numbers below 253 take one octet; 253, 254 and 255 announce 2, 4 and 8 more, most
      significant first. */
  lemma NumberForms(v: nat)
    requires v < Pow256(8)
    ensures v < 253 ==> WriteVarNumber(v) == [v as Byte]
    ensures 253 <= v < 65536 ==> WriteVarNumber(v) == [253, (v / 256) as Byte, (v % 256) as Byte]
    ensures 65536 <= v < 4294967296 ==>
              |WriteVarNumber(v)| == 5 && WriteVarNumber(v)[0] == 254
              && WriteVarNumber(v)[1..3] == [(v / 16777216) as Byte, (v / 65536 % 256) as Byte]
              && WriteVarNumber(v)[3..] == [(v / 256 % 256) as Byte, (v % 256) as Byte]
    ensures 4294967296 <= v ==> |WriteVarNumber(v)| == 9 && WriteVarNumber(v)[0] == 255
  {
    if 253 <= v < 65536 {
      assert Octets(v, 2) == Octets(v / 256, 1) + [(v % 256) as Byte];
    } else if 65536 <= v < 4294967296 {
      assert v / 256 / 256 == v / 65536 && v / 65536 / 256 == v / 16777216;
      assert Octets(v / 256, 3) == Octets(v / 65536, 2) + [(v / 256 % 256) as Byte];
      assert Octets(v / 65536, 2) == Octets(v / 16777216, 1) + [(v / 65536 % 256) as Byte];
    }
  }

  function Encode(tlvType: nat, value: Bytes): Bytes
    requires tlvType <= 0xFFFF_FFFF && |value| < Pow256(8)
  {
    WriteVarNumber(tlvType) + WriteVarNumber(|value|) + value
  }

  lemma {:induction false} OctetsRoundTrip(v: nat, width: nat)
    requires v < Pow256(width)
    ensures BigEndian(Octets(v, width), 0, width) == v
  {
    if width != 0 {
      var b := Octets(v, width);
      OctetsRoundTrip(v / 256, width - 1);
      BigEndianAgrees(Octets(v / 256, width - 1), b, 0, 0, width - 1);
    }
  }

  lemma VarNumberRoundTrip(before: Bytes, v: nat, more: Bytes)
    requires v < Pow256(8)
    ensures var w := WriteVarNumber(v);
            ReadVarNumber(before + w + more, |before|) == Some(VarNumber(v, |before| + |w|))
  {
    var b, at := before + WriteVarNumber(v) + more, |before|;
    if v >= 253 {
      var width := ExtraOctets(b[at]);
      assert Pow256(2) == 0x1_0000 && Pow256(4) == 0x1_0000_0000;
      OctetsRoundTrip(v, width);
      BigEndianAgrees(Octets(v, width), b, 0, at + 1, width);
    }
  }

  /** What the writer produces is one element, whatever its type and value. */
  lemma EncodeIsElement(tlvType: nat, value: Bytes)
    requires tlvType <= 0xFFFF_FFFF && |value| < Pow256(8)
    ensures ElementSize(Encode(tlvType, value)) == Some(|Encode(tlvType, value)|)
  {
    var t, l := WriteVarNumber(tlvType), WriteVarNumber(|value|);
    VarNumberRoundTrip([], tlvType, l + value);
    VarNumberRoundTrip(t, |value|, value);
    assert [] + t + (l + value) == Encode(tlvType, value);
  }
}
