/** OpenPGP signature packets and subpackets (RFC 4880, sections 4.2 and 5.2.3), parsed and encoded. */
module OpenPgp {
  import opened Common

  type byte = x: nat | x < 256
  type Bytes = seq<byte>

  datatype ParseError = ValueError | IndexError

  // ---- Python's byte-string idioms ------------------------------------------------------------

  function Clamp(i: nat, n: nat): nat { if i < n then i else n }

  /** `data[lo:lo + count]`, which quietly stops at the end of the data. */
  function Slice(data: Bytes, lo: nat, count: nat): Bytes {
    data[Clamp(lo, |data|)..Clamp(lo + count, |data|)]
  }

  /** `int.from_bytes(..., "big")`; the value of no bytes at all is 0. */
  function BigEndian(bs: Bytes): nat {
    if bs == [] then 0 else 256 * BigEndian(bs[..|bs| - 1]) + bs[|bs| - 1]
  }

  function Octets(n: nat, width: nat): (bs: Bytes)
    ensures |bs| == width
  {
    if width == 0 then [] else Octets(n / 256, width - 1) + [n % 256]
  }

  function Pow256(k: nat): (p: nat)
    ensures p >= 1
  {
    if k == 0 then 1 else 256 * Pow256(k - 1)
  }

  lemma {:induction false} OctetsRoundTrip(n: nat, width: nat)
    requires n < Pow256(width)
    ensures BigEndian(Octets(n, width)) == n
  {
    if width != 0 {
      OctetsRoundTrip(n / 256, width - 1);
      assert Octets(n, width)[..width - 1] == Octets(n / 256, width - 1);
    }
  }

  lemma {:induction false} BigEndianRoundTrip(bs: Bytes)
    ensures BigEndian(bs) < Pow256(|bs|) && Octets(BigEndian(bs), |bs|) == bs
  {
    if bs != [] {
      BigEndianRoundTrip(bs[..|bs| - 1]);
      assert bs == bs[..|bs| - 1] + [bs[|bs| - 1]];
    }
  }

  // ---- Subpackets -----------------------------------------------------------------------------

  /** The three length forms of section 5.2.3.1. */
  datatype Width = One | Two | Five

  datatype Chunk = Chunk(width: Width, critical: bool, kind: nat, body: Bytes)

  predicate Legal(c: Chunk) {
    var n := 1 + |c.body|;
    c.kind < 128 && LegalLength(c.width, n)
  }

  function LengthOctets(width: Width, n: nat): Bytes
    requires LegalLength(width, n)
  {
    match width
    case One => [n]
    case Two => [(n - 192) / 256 + 192, (n - 192) % 256]
    case Five => [255] + Octets(n, 4)
  }

  function TypeOctet(c: Chunk): byte
    requires Legal(c)
  {
    c.kind + if c.critical then 128 else 0
  }

  function Encode(c: Chunk): Bytes
    requires Legal(c)
  {
    LengthOctets(c.width, 1 + |c.body|) + [TypeOctet(c)] + c.body
  }

  predicate AllLegal(cs: seq<Chunk>) { forall i :: 0 <= i < |cs| ==> Legal(cs[i]) }

  function EncodeAll(cs: seq<Chunk>): Bytes
    requires AllLegal(cs)
  {
    if cs == [] then [] else Encode(cs[0]) + EncodeAll(cs[1..])
  }

  /** What the parser keeps of a chunk: the critical bit and the length form are dropped. */
  function Contents(cs: seq<Chunk>): seq<(nat, Bytes)> {
    if cs == [] then [] else [(cs[0].kind, cs[0].body)] + Contents(cs[1..])
  }

  function TwoOctets(first: nat, second: nat): nat
    requires first >= 192
  {
    (first - 192) * 256 + second + 192
  }

  datatype Header = Header(width: Width, length: nat, size: nat)

  /** The length octets at the front of the data, read as the source reads them. */
  function ReadHeader(data: Bytes): (r: Result<Header, ParseError>)
    requires data != []
    ensures r.Ok? ==> r.value.size >= 1
  {
    var first := data[0];
    if first < 192 then Ok(Header(One, first, 1))
    else if first < 255 then
      if |data| < 2 then Err(IndexError) else Ok(Header(Two, TwoOctets(first, data[1]), 2))
    else Ok(Header(Five, BigEndian(Slice(data, 1, 4)), 5))
  }

  /** One turn of the loop: the chunk at the front, or the exception it raises. */
  function DecodeOne(data: Bytes): (r: Result<Chunk, ParseError>)
    requires data != []
  {
    match ReadHeader(data)
    case Err(e) => Err(e)
    case Ok(h) =>
      var packet := Slice(data, h.size, h.length);
      if packet == [] || h.size + h.length > |data| then Err(ValueError)
      else Ok(Chunk(h.width, packet[0] >= 128, packet[0] % 128, packet[1..]))
  }

  predicate LegalLength(width: Width, n: nat) {
    match width
    case One => n < 192
    case Two => 192 <= n <= 16319
    case Five => n < 0x1_0000_0000
  }

  lemma HeaderSound(data: Bytes)
    requires data != [] && ReadHeader(data).Ok? && ReadHeader(data).value.size <= |data|
    ensures
      var h := ReadHeader(data).value;
      LegalLength(h.width, h.length) && LengthOctets(h.width, h.length) == data[..h.size]
  {
    var h := ReadHeader(data).value;
    match h.width
    case One => assert data[..1] == [data[0]];
    case Two => assert data[..2] == [data[0], data[1]];
    case Five =>
      var tail := data[1..5];
      assert Slice(data, 1, 4) == tail;
      BigEndianRoundTrip(tail);
      assert Pow256(4) == 0x1_0000_0000;
      assert data[..5] == [255] + tail;
  }

  lemma ChunkFollows(data: Bytes, size: nat, length: nat, packet: Bytes)
    requires size + length <= |data| && packet == Slice(data, size, length)
    ensures data[..size] + packet == data[..size + length] <= data && |packet| == length
  {}

  /** The octet after the length splits into the critical bit and the type. */
  lemma TypeOctetSplits(width: Width, packet: Bytes)
    requires packet != [] && LegalLength(width, |packet|)
    ensures
      var c := Chunk(width, packet[0] >= 128, packet[0] % 128, packet[1..]);
      Legal(c) && Encode(c) == LengthOctets(width, |packet|) + packet
  {
    var c := Chunk(width, packet[0] >= 128, packet[0] % 128, packet[1..]);
    assert packet == [TypeOctet(c)] + c.body;
  }

  /** What is decoded was encoded there: the chunk is legal and its octets are the front of the data. */
  lemma DecodeOneSound(data: Bytes)
    requires data != [] && DecodeOne(data).Ok?
    ensures
      var c := DecodeOne(data).value;
      Legal(c) && Encode(c) <= data && |Encode(c)| == ReadHeader(data).value.size + ReadHeader(data).value.length
  {
    var h := ReadHeader(data).value;
    var packet := Slice(data, h.size, h.length);
    ChunkFollows(data, h.size, h.length, packet);
    HeaderSound(data);
    TypeOctetSplits(h.width, packet);
  }

  lemma HeaderOf(c: Chunk, data: Bytes)
    requires Legal(c) && LengthOctets(c.width, 1 + |c.body|) <= data
    ensures data != []
    ensures ReadHeader(data) == Ok(Header(c.width, 1 + |c.body|, |LengthOctets(c.width, 1 + |c.body|)|))
  {
    var octets := LengthOctets(c.width, 1 + |c.body|);
    assert data[0] == octets[0];
    if c.width == Two {
      assert data[1] == octets[1];
    }
    if c.width == Five {
      OctetsRoundTrip(1 + |c.body|, 4);
      assert Slice(data, 1, 4) == octets[1..5] == Octets(1 + |c.body|, 4);
    }
  }

  /** What was encoded is decoded, whatever follows it. */
  lemma DecodeOneComplete(c: Chunk, rest: Bytes)
    requires Legal(c)
    ensures Encode(c) + rest != [] && DecodeOne(Encode(c) + rest) == Ok(c)
  {
    var octets := LengthOctets(c.width, 1 + |c.body|);
    var data := Encode(c) + rest;
    assert octets <= data;
    HeaderOf(c, data);
    var packet := Slice(data, |octets|, 1 + |c.body|);
    assert packet == [TypeOctet(c)] + c.body;
    assert packet[1..] == c.body;
  }

  function DecodeAll(data: Bytes): Result<seq<Chunk>, ParseError>
    decreases |data|
  {
    if data == [] then Ok([])
    else
      match DecodeOne(data)
      case Err(e) => Err(e)
      case Ok(c) =>
        DecodeOneSound(data);
        assert |Encode(c)| > 0;
        Prepend(c, DecodeAll(data[|Encode(c)|..]))
  }

  function Prepend(c: Chunk, r: Result<seq<Chunk>, ParseError>): Result<seq<Chunk>, ParseError> {
    match r
    case Err(e) => Err(e)
    case Ok(cs) => Ok([c] + cs)
  }

  /** Parsing undoes encoding, for every list of subpackets in every mix of legal length forms. */
  lemma {:induction false} SubpacketsRoundTrip(cs: seq<Chunk>)
    requires AllLegal(cs)
    ensures DecodeAll(EncodeAll(cs)) == Ok(cs)
  {
    if cs != [] {
      DecodeOneComplete(cs[0], EncodeAll(cs[1..]));
      SubpacketsRoundTrip(cs[1..]);
      assert EncodeAll(cs)[|Encode(cs[0])|..] == EncodeAll(cs[1..]);
      assert cs == [cs[0]] + cs[1..];
    }
  }

  /** Accepted data is covered, octet by octet, by the encodings of the chunks it decodes to. */
  lemma {:induction false} AcceptedIsCovered(data: Bytes)
    requires DecodeAll(data).Ok?
    ensures AllLegal(DecodeAll(data).value) && EncodeAll(DecodeAll(data).value) == data
    decreases |data|
  {
    if data != [] {
      var c := DecodeOne(data).value;
      DecodeOneSound(data);
      AcceptedIsCovered(data[|Encode(c)|..]);
      var cs := DecodeAll(data).value;
      assert cs[1..] == DecodeAll(data[|Encode(c)|..]).value;
      assert data == Encode(c) + data[|Encode(c)|..];
    }
  }

  /** So the accepted strings are exactly the encodings, and no string encodes two lists. */
  lemma AcceptsExactlyEncodings(data: Bytes)
    ensures DecodeAll(data).Ok? <==> exists cs :: AllLegal(cs) && EncodeAll(cs) == data
    ensures forall cs, ds :: AllLegal(cs) && AllLegal(ds) && EncodeAll(cs) == data && EncodeAll(ds) == data ==> cs == ds
  {
    if DecodeAll(data).Ok? { AcceptedIsCovered(data); }
    forall cs | AllLegal(cs) && EncodeAll(cs) == data
      ensures DecodeAll(data) == Ok(cs)
    {
      SubpacketsRoundTrip(cs);
    }
  }

  function ContentsOf(r: Result<seq<Chunk>, ParseError>): Result<seq<(nat, Bytes)>, ParseError> {
    match r
    case Err(e) => Err(e)
    case Ok(cs) => Ok(Contents(cs))
  }

  /** What the rest of the data adds to the subpackets found so far. */
  function Continue(found: seq<(nat, Bytes)>, r: Result<seq<Chunk>, ParseError>): Result<seq<(nat, Bytes)>, ParseError> {
    match r
    case Err(e) => Err(e)
    case Ok(cs) => Ok(found + Contents(cs))
  }

  lemma ContinuePrepend(found: seq<(nat, Bytes)>, c: Chunk, r: Result<seq<Chunk>, ParseError>)
    ensures Continue(found, Prepend(c, r)) == Continue(found + [(c.kind, c.body)], r)
  {
    if r.Ok? {
      assert ([c] + r.value)[1..] == r.value;
      assert found + ([(c.kind, c.body)] + Contents(r.value)) == found + [(c.kind, c.body)] + Contents(r.value);
    }
  }

  lemma ContinueOne(found: seq<(nat, Bytes)>, data: Bytes)
    requires data != [] && DecodeOne(data).Ok?
    ensures
      var c := DecodeOne(data).value;
      Legal(c) && 0 < |Encode(c)| <= |data|
      && Continue(found, DecodeAll(data)) == Continue(found + [(c.kind, c.body)], DecodeAll(data[|Encode(c)|..]))
  {
    DecodeOneSound(data);
    var c := DecodeOne(data).value;
    ContinuePrepend(found, c, DecodeAll(data[|Encode(c)|..]));
  }

  /** The length octets at an index, and the index after them. */
  method ReadLength(data: Bytes, start: nat) returns (r: Result<(nat, nat), ParseError>)
    requires start < |data|
    ensures r == match ReadHeader(data[start..])
                 { case Err(e) => Err(e) case Ok(h) => Ok((h.length, start + h.size)) }
  {
    var index := start;
    var first := data[index];
    index := index + 1;
    if first < 192 {
      return Ok((first, index));
    }
    if first < 255 {
      if index >= |data| {
        return Err(IndexError);
      }
      var length := TwoOctets(first, data[index]);
      return Ok((length, index + 1));
    }
    SliceOfSuffix(data, start, 1, 4);
    r := Ok((BigEndian(Slice(data, index, 4)), index + 4));
  }

  lemma SliceOfSuffix(data: Bytes, index: nat, lo: nat, count: nat)
    requires index <= |data|
    ensures Slice(data[index..], lo, count) == Slice(data, index + lo, count)
  {}

  /** The subpacket at an index, and the index after it. */
  method NextSubpacket(data: Bytes, index: nat) returns (r: Result<(nat, Bytes, nat), ParseError>)
    requires index < |data|
    ensures DecodeOne(data[index..]).Err? ==> r == Err(DecodeOne(data[index..]).error)
    ensures DecodeOne(data[index..]).Ok? ==>
              var c := DecodeOne(data[index..]).value;
              Legal(c) && r == Ok((c.kind, c.body, index + |Encode(c)|))
  {
    ghost var rest := data[index..];
    var header := ReadLength(data, index);
    if header.Err? {
      return Err(header.error);
    }
    var (length, next) := header.value;
    var packet := Slice(data, next, length);
    SliceOfSuffix(data, index, next - index, length);
    if packet == [] || next + length > |data| {
      return Err(ValueError);
    }
    DecodeOneSound(rest);
    r := Ok((packet[0] % 128, packet[1..], next + length));
  }

  /** `_subpackets`: the loop over an index, equal to the decoder in value and in exception. */
  method Subpackets(data: Bytes) returns (r: Result<seq<(nat, Bytes)>, ParseError>)
    ensures r == ContentsOf(DecodeAll(data))
  {
    var result: seq<(nat, Bytes)> := [];
    var index := 0;
    assert data[0..] == data;
    ContinueNothing(DecodeAll(data));
    while index < |data|
      invariant 0 <= index <= |data|
      invariant ContentsOf(DecodeAll(data)) == Continue(result, DecodeAll(data[index..]))
      decreases |data| - index
    {
      ghost var rest := data[index..];
      var one := NextSubpacket(data, index);
      if one.Err? {
        return Err(one.error);
      }
      ContinueOne(result, rest);
      assert rest[one.value.2 - index..] == data[one.value.2..];
      result := result + [(one.value.0, one.value.1)];
      index := one.value.2;
    }
    assert data[index..] == [];
    assert result + Contents([]) == result;
    r := Ok(result);
  }

  lemma ContinueNothing(r: Result<seq<Chunk>, ParseError>)
    ensures Continue([], r) == ContentsOf(r)
  {
    if r.Ok? { assert [] + Contents(r.value) == Contents(r.value); }
  }

  // ---- The signature packet -------------------------------------------------------------------

  /** Sections 4.2.1 and 4.2.2: three old forms by width, three new forms by value. */
  datatype Form = Old(width: nat) | New(form: Width)

  predicate LegalForm(f: Form, n: nat) {
    match f
    case Old(width) => width in {1, 2, 4} && n < Pow256(width)
    case New(One) => n < 192
    case New(Two) => 192 <= n <= 8383
    case New(Five) => n < 0x1_0000_0000
  }

  function PacketHeader(f: Form, n: nat): Bytes
    requires LegalForm(f, n)
  {
    match f
    case Old(width) => [0x88 + (if width == 1 then 0 else if width == 2 then 1 else 2)] + Octets(n, width)
    case New(width) => [0xC2] + LengthOctets(width, n)
  }

  /** `_packet_body`; bits are picked out of the head octet by division. */
  function PacketBody(data: Bytes): Result<Bytes, ParseError> {
    if data == [] || data[0] / 128 % 2 == 0 then Err(ValueError)
    else
      match PacketLength(data)
      case Err(e) => Err(e)
      case Ok((tag, length, index)) =>
        var body := Slice(data, index, length);
        if tag != 2 || |body| != length then Err(ValueError) else Ok(body)
  }

  function PacketLength(data: Bytes): Result<(nat, nat, nat), ParseError>
    requires data != []
  {
    var head := data[0];
    if head / 64 % 2 == 1 then
      if |data| < 2 then Err(IndexError)
      else
        var tag, first := head % 64, data[1];
        if first < 192 then Ok((tag, first, 2))
        else if first < 224 then
          if |data| < 3 then Err(IndexError) else Ok((tag, TwoOctets(first, data[2]), 3))
        else if first == 255 then Ok((tag, BigEndian(Slice(data, 2, 4)), 6))
        else Err(ValueError)
    else if head % 4 == 3 then Err(ValueError)
    else
      var width := if head % 4 == 0 then 1 else if head % 4 == 1 then 2 else 4;
      Ok((head / 4 % 16, BigEndian(Slice(data, 1, width)), 1 + width))
  }

  lemma OldPacketLength(width: nat, n: nat, rest: Bytes)
    requires LegalForm(Old(width), n)
    ensures PacketHeader(Old(width), n) + rest != []
    ensures PacketLength(PacketHeader(Old(width), n) + rest) == Ok((2, n, 1 + width))
  {
    OctetsRoundTrip(n, width);
    assert Slice(PacketHeader(Old(width), n) + rest, 1, width) == Octets(n, width);
  }

  lemma NewPacketLength(form: Width, n: nat, rest: Bytes)
    requires LegalForm(New(form), n)
    ensures PacketHeader(New(form), n) + rest != []
    ensures PacketLength(PacketHeader(New(form), n) + rest) == Ok((2, n, |PacketHeader(New(form), n)|))
  {
    var header := PacketHeader(New(form), n);
    var data := header + rest;
    assert data[0] == 0xC2 && data[1] == header[1];
    match form
    case One =>
    case Two =>
      assert data[2] == header[2];
      assert TwoOctets(header[1], header[2]) == n;
    case Five =>
      assert Pow256(4) == 0x1_0000_0000;
      OctetsRoundTrip(n, 4);
      assert Slice(data, 2, 4) == Octets(n, 4);
  }

  lemma PacketLengthOf(f: Form, n: nat, rest: Bytes)
    requires LegalForm(f, n)
    ensures PacketHeader(f, n) + rest != [] && (PacketHeader(f, n) + rest)[0] / 128 % 2 == 1
    ensures PacketLength(PacketHeader(f, n) + rest) == Ok((2, n, |PacketHeader(f, n)|))
  {
    match f
    case Old(width) => OldPacketLength(width, n, rest);
    case New(form) => NewPacketLength(form, n, rest);
  }

  /** Every old and new form of a signature packet parses back to its body, whatever follows the packet. */
  lemma PacketRoundTrip(f: Form, body: Bytes, rest: Bytes)
    requires LegalForm(f, |body|)
    ensures PacketBody(PacketHeader(f, |body|) + body + rest) == Ok(body)
  {
    var header := PacketHeader(f, |body|);
    assert header + body + rest == header + (body + rest);
    PacketLengthOf(f, |body|, body + rest);
    assert Slice(header + (body + rest), |header|, |body|) == body;
  }

  /** A head octet that promises more length octets than there are, all of those present being zero. */
  predicate TruncatedHeader(data: Bytes) {
    || (1 <= |data| <= 4 && data[0] in {0x88, 0x89, 0x8A} && |data| <= LengthWidth(data[0]) && AllZero(data[1..]))
    || (2 <= |data| <= 5 && data[0] == 0xC2 && data[1] == 255 && AllZero(data[2..]))
  }

  function LengthWidth(head: byte): nat { if head == 0x88 then 1 else if head == 0x89 then 2 else 4 }

  predicate AllZero(bs: Bytes) { forall i :: 0 <= i < |bs| ==> bs[i] == 0 }

  lemma {:induction false} ZeroValue(bs: Bytes)
    ensures BigEndian(bs) == 0 <==> AllZero(bs)
  {
    if bs != [] {
      ZeroValue(bs[..|bs| - 1]);
      assert bs == bs[..|bs| - 1] + [bs[|bs| - 1]];
    }
  }

  /**
   * What the parser accepts: a complete packet with anything after it, or a truncated header, which it
   * takes for a packet with an empty body because a short slice still has a value.
   */
  lemma AcceptedPackets(data: Bytes)
    requires PacketBody(data).Ok?
    ensures
      var body := PacketBody(data).value;
      (body == [] && TruncatedHeader(data))
      || exists f :: LegalForm(f, |body|) && PacketHeader(f, |body|) + body <= data
  {
    var body := PacketBody(data).value;
    var (tag, length, index) := PacketLength(data).value;
    if index > |data| {
      assert body == [];
      TruncatedIsZero(data);
    } else {
      CompletePacket(data);
    }
  }

  lemma CompletePacket(data: Bytes)
    requires PacketBody(data).Ok? && PacketLength(data).value.2 <= |data|
    ensures |data| >= 2
    ensures
      var body := PacketBody(data).value;
      LegalForm(FormOf(data), |body|) && PacketHeader(FormOf(data), |body|) + body <= data
  {
    var (tag, length, index) := PacketLength(data).value;
    var body := PacketBody(data).value;
    HeaderIsFront(data);
    FrontTwo(data, index, length, body);
  }

  lemma FrontTwo(data: Bytes, index: nat, length: nat, body: Bytes)
    requires index <= |data| && body == Slice(data, index, length) && |body| == length
    ensures data[..index] + body <= data
  {
    assert data[..index] + body == data[..index + length];
  }

  function FormOf(data: Bytes): Form
    requires |data| >= 2
  {
    if data[0] == 0x88 then Old(1)
    else if data[0] == 0x89 then Old(2)
    else if data[0] == 0x8A then Old(4)
    else if data[1] < 192 then New(One)
    else if data[1] < 224 then New(Two)
    else New(Five)
  }

  lemma HeaderIsFront(data: Bytes)
    requires PacketBody(data).Ok? && PacketLength(data).value.2 <= |data|
    ensures |data| >= 2 && LegalForm(FormOf(data), PacketLength(data).value.1)
    ensures PacketHeader(FormOf(data), PacketLength(data).value.1) == data[..PacketLength(data).value.2]
  {
    if data[0] / 64 % 2 == 1 {
      assert data[0] == 0xC2;
      NewHeaderIsFront(data);
    } else {
      assert data[0] in {0x88, 0x89, 0x8A};
      OldHeaderIsFront(data);
    }
  }

  lemma NewHeaderIsFront(data: Bytes)
    requires data != [] && data[0] == 0xC2
    requires PacketLength(data).Ok? && PacketLength(data).value.2 <= |data|
    ensures |data| >= 2 && LegalForm(FormOf(data), PacketLength(data).value.1)
    ensures PacketHeader(FormOf(data), PacketLength(data).value.1) == data[..PacketLength(data).value.2]
  {
    if data[1] == 255 {
      var tail := data[2..6];
      assert Slice(data, 2, 4) == tail;
      BigEndianRoundTrip(tail);
      assert Pow256(4) == 0x1_0000_0000;
      assert data[..6] == [0xC2] + ([255] + tail);
    } else if data[1] < 192 {
      assert data[..2] == [0xC2] + [data[1]];
    } else {
      assert data[..3] == [0xC2] + [data[1], data[2]];
    }
  }

  lemma OldHeaderIsFront(data: Bytes)
    requires data != [] && data[0] in {0x88, 0x89, 0x8A}
    requires PacketLength(data).Ok? && PacketLength(data).value.2 <= |data|
    ensures |data| >= 2 && LegalForm(FormOf(data), PacketLength(data).value.1)
    ensures PacketHeader(FormOf(data), PacketLength(data).value.1) == data[..PacketLength(data).value.2]
  {
    OldLengthIs(data);
    OldOctets(data, LengthWidth(data[0]));
  }

  lemma OldLengthIs(data: Bytes)
    requires data != [] && data[0] in {0x88, 0x89, 0x8A}
    ensures PacketLength(data) == Ok((2, BigEndian(Slice(data, 1, LengthWidth(data[0]))), 1 + LengthWidth(data[0])))
  {}

  lemma OldOctets(data: Bytes, width: nat)
    requires 1 + width <= |data|
    ensures BigEndian(Slice(data, 1, width)) < Pow256(width)
    ensures [data[0]] + Octets(BigEndian(Slice(data, 1, width)), width) == data[..1 + width]
  {
    var tail := Slice(data, 1, width);
    BigEndianRoundTrip(tail);
    assert data[..1 + width] == [data[0]] + tail;
  }

  lemma TruncatedIsZero(data: Bytes)
    requires PacketBody(data).Ok? && PacketLength(data).value.2 > |data|
    ensures TruncatedHeader(data)
  {
    var (tag, length, index) := PacketLength(data).value;
    assert length == 0;
    if data[0] / 64 % 2 == 1 {
      assert data[0] == 0xC2 && data[1] == 255;
      assert Slice(data, 2, 4) == data[2..];
      ZeroValue(data[2..]);
    } else {
      assert data[0] in {0x88, 0x89, 0x8A};
      assert Slice(data, 1, index - 1) == data[1..];
      ZeroValue(data[1..]);
    }
  }

  /** And both kinds are accepted. */
  lemma TruncatedIsAccepted(data: Bytes)
    requires TruncatedHeader(data)
    ensures PacketBody(data) == Ok([])
  {
    if data[0] == 0xC2 {
      assert Slice(data, 2, 4) == data[2..];
      ZeroValue(data[2..]);
    } else {
      assert Slice(data, 1, LengthWidth(data[0])) == data[1..];
      ZeroValue(data[1..]);
    }
  }

  // ---- Version 4 signatures -------------------------------------------------------------------

  datatype Signature = Signature(
    signatureType: byte, publicKeyAlgorithm: byte, hashAlgorithm: byte,
    hashed: seq<Chunk>, unhashed: seq<Chunk>, rest: Bytes)

  datatype Metadata = Metadata(fingerprint: Bytes, publicKeyAlgorithm: byte, hashAlgorithm: byte)

  predicate LegalSignature(s: Signature) {
    && AllLegal(s.hashed) && AllLegal(s.unhashed)
    && |EncodeAll(s.hashed)| < 0x10000 && |EncodeAll(s.unhashed)| < 0x10000
  }

  function SignatureBody(s: Signature): Bytes
    requires LegalSignature(s)
  {
    [4, s.signatureType, s.publicKeyAlgorithm, s.hashAlgorithm]
    + Octets(|EncodeAll(s.hashed)|, 2) + EncodeAll(s.hashed)
    + Octets(|EncodeAll(s.unhashed)|, 2) + EncodeAll(s.unhashed)
    + s.rest
  }

  /** The issuer fingerprints (subpacket type 33, key version 4) among parsed subpackets. */
  function Fingerprints(subpackets: seq<(nat, Bytes)>): seq<Bytes> {
    if subpackets == [] then []
    else
      var (kind, packet) := subpackets[0];
      (if kind == 33 && |packet| == 21 && packet[0] == 4 then [packet[1..]] else []) + Fingerprints(subpackets[1..])
  }

  /** `signature_metadata`, from the decoded armor on. */
  method SignatureMetadata(raw: Bytes) returns (r: Result<Metadata, ParseError>)
    ensures r == MetadataOf(raw)
  {
    var packet := PacketBody(raw);
    if packet.Err? {
      return Err(packet.error);
    }
    r := ReadBody(packet.value);
  }

  method ReadBody(body: Bytes) returns (r: Result<Metadata, ParseError>)
    ensures r == BodyMetadata(body)
  {
    if |body| < 8 || body[0] != 4 {
      return Err(ValueError);
    }
    var hashedLength := BigEndian(Slice(body, 4, 2));
    var hashed := Subpackets(Slice(body, 6, hashedLength));
    var cursor := 6 + hashedLength;
    var unhashedLength := BigEndian(Slice(body, cursor, 2));
    if hashed.Err? {
      return Err(hashed.error);
    }
    var unhashed := Subpackets(Slice(body, cursor + 2, unhashedLength));
    if unhashed.Err? {
      return Err(unhashed.error);
    }
    r := Issuer(Fingerprints(hashed.value + unhashed.value), body[2], body[3]);
  }

  function MetadataOf(raw: Bytes): Result<Metadata, ParseError> {
    match PacketBody(raw)
    case Err(e) => Err(e)
    case Ok(body) => BodyMetadata(body)
  }

  function BodyMetadata(body: Bytes): Result<Metadata, ParseError> {
    if |body| < 8 || body[0] != 4 then Err(ValueError)
    else
      var hashedLength := BigEndian(Slice(body, 4, 2));
      var cursor := 6 + hashedLength;
      var unhashedLength := BigEndian(Slice(body, cursor, 2));
      match ContentsOf(DecodeAll(Slice(body, 6, hashedLength)))
      case Err(e) => Err(e)
      case Ok(hashed) =>
        match ContentsOf(DecodeAll(Slice(body, cursor + 2, unhashedLength)))
        case Err(e) => Err(e)
        case Ok(unhashed) => Issuer(Fingerprints(hashed + unhashed), body[2], body[3])
  }

  function Issuer(fingerprints: seq<Bytes>, publicKeyAlgorithm: byte, hashAlgorithm: byte): Result<Metadata, ParseError> {
    if |SetOf(fingerprints)| != 1 then Err(ValueError)
    else
      Ok(Metadata(fingerprints[0], publicKeyAlgorithm, hashAlgorithm))
  }

  lemma SliceMiddle(before: Bytes, middle: Bytes, after: Bytes)
    ensures Slice(before + middle + after, |before|, |middle|) == middle
  {}

  /** Each field of the body sits where the parser looks for it. */
  lemma BodySplits(s: Signature)
    requires LegalSignature(s)
    ensures
      var body := SignatureBody(s);
      var h, u := |EncodeAll(s.hashed)|, |EncodeAll(s.unhashed)|;
      && |body| >= 8 && body[0] == 4 && body[2] == s.publicKeyAlgorithm && body[3] == s.hashAlgorithm
      && BigEndian(Slice(body, 4, 2)) == h && Slice(body, 6, h) == EncodeAll(s.hashed)
      && BigEndian(Slice(body, 6 + h, 2)) == u && Slice(body, 8 + h, u) == EncodeAll(s.unhashed)
  {
    var head: Bytes := [4, s.signatureType, s.publicKeyAlgorithm, s.hashAlgorithm];
    var hashed, unhashed := EncodeAll(s.hashed), EncodeAll(s.unhashed);
    assert Pow256(2) == 0x10000;
    OctetsRoundTrip(|hashed|, 2);
    OctetsRoundTrip(|unhashed|, 2);
    FieldsSplit(head, Octets(|hashed|, 2), hashed, Octets(|unhashed|, 2), unhashed, s.rest);
  }

  lemma FieldsSplit(a: Bytes, b: Bytes, c: Bytes, d: Bytes, e: Bytes, f: Bytes)
    ensures
      var all := a + b + c + d + e + f;
      && a <= all && Slice(all, |a|, |b|) == b && Slice(all, |a| + |b|, |c|) == c
      && Slice(all, |a| + |b| + |c|, |d|) == d && Slice(all, |a| + |b| + |c| + |d|, |e|) == e
  {
    var all := a + b + c + d + e + f;
    assert all == a + b + (c + d + e + f);
    SliceMiddle(a, b, c + d + e + f);
    assert all == (a + b) + c + (d + e + f);
    SliceMiddle(a + b, c, d + e + f);
    assert all == (a + b + c) + d + (e + f);
    SliceMiddle(a + b + c, d, e + f);
    SliceMiddle(a + b + c + d, e, f);
  }

  /**
   * A version 4 signature, in any packet form, with any legal mix of subpackets, yields its algorithms and
   * its issuer exactly when its two areas together name one issuer.
   */
  lemma SignatureRoundTrip(f: Form, s: Signature, trailing: Bytes)
    requires LegalSignature(s) && LegalForm(f, |SignatureBody(s)|)
    ensures MetadataOf(PacketHeader(f, |SignatureBody(s)|) + SignatureBody(s) + trailing) == IssuerOf(s)
  {
    PacketRoundTrip(f, SignatureBody(s), trailing);
    BodySplits(s);
    SubpacketsRoundTrip(s.hashed);
    SubpacketsRoundTrip(s.unhashed);
  }

  // ---- Which bodies are accepted --------------------------------------------------------------

  /** How a body may end: as it says, or short of a length it announces, or before the second length is complete. */
  datatype Ending = Whole | HashedRunsOut(announced: nat) | UnhashedMissing | UnhashedRunsOut(announced: nat)

  predicate LegalEnding(s: Signature, e: Ending) {
    && LegalSignature(s)
    && match e
       case Whole => true
       case HashedRunsOut(announced) => |EncodeAll(s.hashed)| < announced < 0x10000 && s.unhashed == [] && s.rest == []
       case UnhashedMissing => s.unhashed == [] && |s.rest| < 2
       case UnhashedRunsOut(announced) => |EncodeAll(s.unhashed)| < announced < 0x10000 && s.rest == []
  }

  /** A body as written, ending one way or another. */
  function EndedBody(s: Signature, e: Ending): Bytes
    requires LegalEnding(s, e)
  {
    var head: Bytes := [4, s.signatureType, s.publicKeyAlgorithm, s.hashAlgorithm];
    var hashed, unhashed := EncodeAll(s.hashed), EncodeAll(s.unhashed);
    match e
    case Whole => SignatureBody(s)
    case HashedRunsOut(announced) => head + Octets(announced, 2) + hashed
    case UnhashedMissing => head + Octets(|hashed|, 2) + hashed + s.rest
    case UnhashedRunsOut(announced) => head + Octets(|hashed|, 2) + hashed + Octets(announced, 2) + unhashed
  }

  function IssuerOf(s: Signature): Result<Metadata, ParseError> {
    Issuer(Fingerprints(Contents(s.hashed) + Contents(s.unhashed)), s.publicKeyAlgorithm, s.hashAlgorithm)
  }

  function Head(s: Signature): Bytes { [4, s.signatureType, s.publicKeyAlgorithm, s.hashAlgorithm] }

  /** Where the parser finds the two areas, with the lengths it takes for them. */
  predicate ReadsAt(body: Bytes, head: Bytes, hashed: Bytes, unhashed: Bytes, h: nat, u: nat) {
    && |body| >= 8 && body[..4] == head
    && BigEndian(Slice(body, 4, 2)) == h && Slice(body, 6, h) == hashed
    && BigEndian(Slice(body, 6 + h, 2)) == u && Slice(body, 8 + h, u) == unhashed
  }

  lemma BodyReads(body: Bytes, s: Signature, h: nat, u: nat)
    requires AllLegal(s.hashed) && AllLegal(s.unhashed)
    requires ReadsAt(body, Head(s), EncodeAll(s.hashed), EncodeAll(s.unhashed), h, u)
    ensures BodyMetadata(body) == IssuerOf(s)
  {
    SubpacketsRoundTrip(s.hashed);
    SubpacketsRoundTrip(s.unhashed);
    assert body[..4][0] == body[0] && body[..4][2] == body[2] && body[..4][3] == body[3];
  }

  lemma EndedBodyReads(s: Signature, e: Ending)
    requires LegalEnding(s, e) && |EndedBody(s, e)| >= 8
    ensures BodyMetadata(EndedBody(s, e)) == IssuerOf(s)
  {
    var h, u := EndingReads(s, e, EndedBody(s, e));
    BodyReads(EndedBody(s, e), s, h, u);
  }

  lemma EndingReads(s: Signature, e: Ending, body: Bytes) returns (h: nat, u: nat)
    requires LegalEnding(s, e) && |body| >= 8 && body == EndedBody(s, e)
    ensures ReadsAt(body, Head(s), EncodeAll(s.hashed), EncodeAll(s.unhashed), h, u)
  {
    h := |EncodeAll(s.hashed)|;
    match e
    case Whole =>
      u := |EncodeAll(s.unhashed)|;
      WholeBody(Head(s), EncodeAll(s.hashed), EncodeAll(s.unhashed), s.rest, body);
    case HashedRunsOut(announced) =>
      h, u := announced, 0;
      ShortHashed(Head(s), EncodeAll(s.hashed), announced, body);
    case UnhashedMissing =>
      u := MissingUnhashed(Head(s), EncodeAll(s.hashed), s.rest, body);
    case UnhashedRunsOut(announced) =>
      u := announced;
      ShortUnhashed(Head(s), EncodeAll(s.hashed), EncodeAll(s.unhashed), announced, body);
  }

  lemma TwoOctetsRead(n: nat)
    requires n < 0x10000
    ensures BigEndian(Octets(n, 2)) == n
  {
    assert Pow256(2) == 0x10000;
    OctetsRoundTrip(n, 2);
  }

  lemma WholeBody(head: Bytes, hashed: Bytes, unhashed: Bytes, rest: Bytes, body: Bytes)
    requires |head| == 4 && |hashed| < 0x10000 && |unhashed| < 0x10000
    requires body == head + Octets(|hashed|, 2) + hashed + Octets(|unhashed|, 2) + unhashed + rest
    ensures ReadsAt(body, head, hashed, unhashed, |hashed|, |unhashed|)
  {
    TwoOctetsRead(|hashed|);
    TwoOctetsRead(|unhashed|);
    WholeParts(head, Octets(|hashed|, 2), hashed, Octets(|unhashed|, 2), unhashed, rest, body);
  }

  lemma WholeParts(head: Bytes, h: Bytes, hashed: Bytes, u: Bytes, unhashed: Bytes, rest: Bytes, body: Bytes)
    requires |head| == 4 && |h| == |u| == 2 && body == head + h + hashed + u + unhashed + rest
    ensures |body| >= 8 && body[..4] == head && Slice(body, 4, 2) == h && Slice(body, 6, |hashed|) == hashed
    ensures Slice(body, 6 + |hashed|, 2) == u && Slice(body, 8 + |hashed|, |unhashed|) == unhashed
  {
    FieldsSplit(head, h, hashed, u, unhashed, rest);
  }

  lemma ShortHashed(head: Bytes, hashed: Bytes, announced: nat, body: Bytes)
    requires |head| == 4 && |hashed| < announced < 0x10000 && |body| >= 8
    requires body == head + Octets(announced, 2) + hashed
    ensures ReadsAt(body, head, hashed, [], announced, 0)
  {
    TwoOctetsRead(announced);
    SliceMiddle(head, Octets(announced, 2), hashed);
    SliceToEnd(head + Octets(announced, 2), hashed, announced);
  }

  lemma MissingUnhashed(head: Bytes, hashed: Bytes, rest: Bytes, body: Bytes) returns (u: nat)
    requires |head| == 4 && |hashed| < 0x10000 && |rest| < 2 && |body| >= 8
    requires body == head + Octets(|hashed|, 2) + hashed + rest
    ensures ReadsAt(body, head, hashed, [], |hashed|, u)
  {
    TwoOctetsRead(|hashed|);
    assert body == head + Octets(|hashed|, 2) + (hashed + rest);
    SliceMiddle(head, Octets(|hashed|, 2), hashed + rest);
    SliceMiddle(head + Octets(|hashed|, 2), hashed, rest);
    u := BigEndian(Slice(body, 6 + |hashed|, 2));
    SliceBehind(body, 8 + |hashed|, u);
  }

  lemma ShortUnhashed(head: Bytes, hashed: Bytes, unhashed: Bytes, announced: nat, body: Bytes)
    requires |head| == 4 && |hashed| < 0x10000 && |unhashed| < announced < 0x10000
    requires body == head + Octets(|hashed|, 2) + hashed + Octets(announced, 2) + unhashed
    ensures ReadsAt(body, head, hashed, unhashed, |hashed|, announced)
  {
    TwoOctetsRead(|hashed|);
    TwoOctetsRead(announced);
    FieldsSplit(head, Octets(|hashed|, 2), hashed, Octets(announced, 2), unhashed, []);
    assert body == head + Octets(|hashed|, 2) + hashed + Octets(announced, 2) + unhashed + [];
    SliceToEnd(head + Octets(|hashed|, 2) + hashed + Octets(announced, 2), unhashed, announced);
  }

  lemma SliceToEnd(before: Bytes, after: Bytes, count: nat)
    requires |after| <= count
    ensures Slice(before + after, |before|, count) == after
  {}

  lemma SliceBehind(data: Bytes, lo: nat, count: nat)
    requires |data| <= lo
    ensures Slice(data, lo, count) == []
  {}

  /** The areas of a body that parses are the encodings of legal subpackets. */
  lemma BodyAreas(body: Bytes) returns (s: Signature, h: nat, u: nat)
    requires BodyMetadata(body).Ok?
    ensures AllLegal(s.hashed) && AllLegal(s.unhashed) && s.rest == []
    ensures ReadsAt(body, Head(s), EncodeAll(s.hashed), EncodeAll(s.unhashed), h, u)
  {
    h := BigEndian(Slice(body, 4, 2));
    u := BigEndian(Slice(body, 6 + h, 2));
    BodyParses(body, h, u);
    var hashed := AreaIs(Slice(body, 6, h));
    var unhashed := AreaIs(Slice(body, 8 + h, u));
    s := Signature(body[1], body[2], body[3], hashed, unhashed, []);
  }

  lemma BodyParses(body: Bytes, h: nat, u: nat)
    requires BodyMetadata(body).Ok? && h == BigEndian(Slice(body, 4, 2)) && u == BigEndian(Slice(body, 6 + h, 2))
    ensures |body| >= 8 && body[..4] == [4, body[1], body[2], body[3]]
    ensures ContentsOf(DecodeAll(Slice(body, 6, h))).Ok? && ContentsOf(DecodeAll(Slice(body, 8 + h, u))).Ok?
  {}

  lemma AreaIs(data: Bytes) returns (cs: seq<Chunk>)
    requires ContentsOf(DecodeAll(data)).Ok?
    ensures AllLegal(cs) && EncodeAll(cs) == data
  {
    AcceptedIsCovered(data);
    cs := DecodeAll(data).value;
  }

  /** Every body that parses was written as legal subpackets, ending one way or another. */
  lemma BodyIsEnded(body: Bytes) returns (s: Signature, e: Ending)
    requires BodyMetadata(body).Ok?
    ensures LegalEnding(s, e) && EndedBody(s, e) == body
  {
    var h, u;
    s, h, u := BodyAreas(body);
    if 8 + h > |body| {
      s, e := LengthNotThere(body, s, h, u);
    } else if 8 + h + u > |body| {
      UnhashedCut(body, Head(s), EncodeAll(s.hashed), EncodeAll(s.unhashed), h, u);
      e := UnhashedRunsOut(u);
    } else {
      NothingCut(body, Head(s), EncodeAll(s.hashed), EncodeAll(s.unhashed), h, u);
      s, e := s.(rest := body[8 + h + u..]), Whole;
    }
  }

  lemma LengthNotThere(body: Bytes, s: Signature, h: nat, u: nat) returns (s': Signature, e: Ending)
    requires AllLegal(s.hashed) && AllLegal(s.unhashed) && s.rest == [] && 8 + h > |body|
    requires ReadsAt(body, Head(s), EncodeAll(s.hashed), EncodeAll(s.unhashed), h, u)
    ensures LegalEnding(s', e) && EndedBody(s', e) == body
  {
    LengthCut(body, Head(s), EncodeAll(s.hashed), EncodeAll(s.unhashed), h, u);
    NothingEncodes(s.unhashed);
    if 6 + h > |body| { s', e := s, HashedRunsOut(h); } else { s', e := s.(rest := body[6 + h..]), UnhashedMissing; }
  }

  lemma LengthCut(body: Bytes, head: Bytes, hashed: Bytes, unhashed: Bytes, h: nat, u: nat)
    requires ReadsAt(body, head, hashed, unhashed, h, u) && 8 + h > |body|
    ensures unhashed == [] && h < 0x10000
    ensures 6 + h > |body| ==> body == head + Octets(h, 2) + hashed && |hashed| < h
    ensures 6 + h <= |body| ==> body == head + Octets(h, 2) + hashed + body[6 + h..] && |hashed| == h
  {
    LengthField(body, 4);
    SliceBehind(body, 8 + h, u);
    if 6 + h > |body| { SliceTail(body, 6, h); } else { SliceInside(body, 6, h); }
  }

  lemma UnhashedCut(body: Bytes, head: Bytes, hashed: Bytes, unhashed: Bytes, h: nat, u: nat)
    requires ReadsAt(body, head, hashed, unhashed, h, u) && 8 + h <= |body| < 8 + h + u
    ensures body == head + Octets(h, 2) + hashed + Octets(u, 2) + unhashed
    ensures |hashed| == h < 0x10000 && |unhashed| < u < 0x10000
  {
    LengthField(body, 4);
    LengthField(body, 6 + h);
    SliceInside(body, 6, h);
    SliceTail(body, 8 + h, u);
    Pieces(body, 6 + h, 8 + h, |body|);
  }

  lemma NothingCut(body: Bytes, head: Bytes, hashed: Bytes, unhashed: Bytes, h: nat, u: nat)
    requires ReadsAt(body, head, hashed, unhashed, h, u) && 8 + h + u <= |body|
    ensures body == head + Octets(h, 2) + hashed + Octets(u, 2) + unhashed + body[8 + h + u..]
    ensures |hashed| == h < 0x10000 && |unhashed| == u < 0x10000
  {
    LengthField(body, 4);
    LengthField(body, 6 + h);
    SliceInside(body, 6, h);
    SliceInside(body, 8 + h, u);
    Pieces(body, 6 + h, 8 + h, 8 + h + u);
  }

  lemma Pieces(body: Bytes, a: nat, b: nat, c: nat)
    requires 6 <= a <= b <= c <= |body|
    ensures body == body[..4] + body[4..6] + body[6..a] + body[a..b] + body[b..c] + body[c..]
  {}

  lemma SliceInside(data: Bytes, lo: nat, count: nat)
    requires lo + count <= |data|
    ensures Slice(data, lo, count) == data[lo..lo + count]
  {}

  lemma SliceTail(data: Bytes, lo: nat, count: nat)
    requires lo <= |data| < lo + count
    ensures Slice(data, lo, count) == data[lo..] && |data[lo..]| < count
  {}

  lemma LengthField(data: Bytes, lo: nat)
    requires lo + 2 <= |data|
    ensures BigEndian(Slice(data, lo, 2)) < 0x10000 && Octets(BigEndian(Slice(data, lo, 2)), 2) == data[lo..lo + 2]
  {
    BigEndianRoundTrip(data[lo..lo + 2]);
    assert Pow256(2) == 0x10000;
  }

  lemma NothingEncodes(cs: seq<Chunk>)
    requires AllLegal(cs) && EncodeAll(cs) == []
    ensures cs == []
  {}

  ghost predicate ReadsAs(body: Bytes, s: Signature, e: Ending) { LegalEnding(s, e) && EndedBody(s, e) == body }

  /**
   * Which bodies are accepted, and as what: exactly those of at least eight octets that write out a version 4
   * signature with one issuer, complete or cut short in one of the three ways.
   */
  lemma AcceptedBodies(body: Bytes, m: Metadata)
    ensures BodyMetadata(body) == Ok(m) <==> |body| >= 8 && exists s, e :: ReadsAs(body, s, e) && IssuerOf(s) == Ok(m)
  {
    if BodyMetadata(body) == Ok(m) {
      var s, e := BodyIsEnded(body);
      EndedBodyReads(s, e);
      assert ReadsAs(body, s, e);
    }
    if |body| >= 8 {
      forall s, e | ReadsAs(body, s, e)
        ensures BodyMetadata(body) == IssuerOf(s)
      {
        EndedBodyReads(s, e);
      }
    }
  }

  /** A body that announces 65535 octets of hashed subpackets and holds one, the issuer, is accepted. */
  lemma ShortBodyIsAccepted(key: Bytes, issuer: Chunk, s: Signature)
    requires |key| == 20 && issuer == Chunk(One, false, 33, [4] + key)
    requires s == Signature(0, 1, 8, [issuer], [], [])
    ensures LegalEnding(s, HashedRunsOut(0xFFFF))
    ensures BodyMetadata(EndedBody(s, HashedRunsOut(0xFFFF))) == Ok(Metadata(key, 1, 8))
  {
    assert [issuer][1..] == [] && EncodeAll([issuer]) == Encode(issuer) + EncodeAll([]);
    assert Contents([issuer]) + Contents([]) == [(33, [4] + key)];
    assert ([4] + key)[1..] == key;
    OneFingerprint([4] + key);
    EndedBodyReads(s, HashedRunsOut(0xFFFF));
  }

  lemma OneFingerprint(packet: Bytes)
    requires |packet| == 21 && packet[0] == 4
    ensures Fingerprints([(33, packet)]) == [packet[1..]] && |SetOf([packet[1..]])| == 1
  {
    var found: seq<(nat, Bytes)> := [(33, packet)];
    assert found[1..] == [];
    assert SetOf([packet[1..]]) == {packet[1..]};
  }

  /** Truncated headers come to nothing here: an empty body is no version 4 signature. */
  lemma TruncatedIsNoSignature(data: Bytes)
    requires TruncatedHeader(data)
    ensures MetadataOf(data) == Err(ValueError)
  {
    TruncatedIsAccepted(data);
  }
}
