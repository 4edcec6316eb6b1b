/** smsc95xx TX framing and RX status decoding: the Python model, the generated C, and what both mean. */
module PacketFraming {
  import opened Common
  import opened Bits

  const UINT32 := 0x1_0000_0000
  type uint32 = x: nat | x < UINT32

  const TX_CMD_A_FIRST_SEG := 0x2000
  const TX_CMD_A_LAST_SEG := 0x1000
  const TX_CMD_B_CSUM_ENABLE := 0x4000
  const TX_FRAME_LENGTH := 0x7FF
  const TX_OVERHEAD := 8
  const TX_OVERHEAD_CSUM := 12
  const MIN_CSUM_FRAME_EXCLUSIVE := 45
  const TRAILING_GUARD := 5
  const RX_STS_FRAME_LENGTH := 0x3FFF0000
  const RX_STS_ERROR_SUMMARY := 0x8000

  // ---- TX: what a frame looks like on the wire ------------------------------------------------

  datatype Checksum = Checksum(start: nat, field: nat)

  datatype TxFrame = TxFrame(
    checksumRequested: bool, checksumEnabled: bool, softwareFallback: bool, preamble: Option<nat>,
    cmdA: nat, cmdB: nat, usbBufferLength: nat, overhead: nat)

  /** The controller can checksum: long frame, and the field ends before the trailing guard. */
  predicate Offloads(frame: int, c: Checksum) {
    frame > MIN_CSUM_FRAME_EXCLUSIVE && c.start + c.field + TRAILING_GUARD < frame
  }

  /** The command words as sums of the fields they carry. */
  function Framed(frame: nat, request: Option<Checksum>): TxFrame {
    var offload := request.Some? && Offloads(frame, request.value);
    TxFrame(
      request.Some?, offload, request.Some? && !offload,
      if offload then Some(0x10000 * (request.value.start + request.value.field) + request.value.start) else None,
      TX_CMD_A_FIRST_SEG + TX_CMD_A_LAST_SEG + frame + (if offload then 4 else 0),
      (if offload then TX_CMD_B_CSUM_ENABLE + frame + 4 else frame),
      frame + (if offload then TX_OVERHEAD_CSUM else TX_OVERHEAD),
      if offload then TX_OVERHEAD_CSUM else TX_OVERHEAD)
  }

  predicate GoodLength(frame: int) { 1 <= frame <= TX_FRAME_LENGTH }

  predicate GoodOffsets(start: int, field: int) {
    0 <= start <= 0xFFFF && 0 <= field <= 0xFFFF && start + field <= 0xFFFF
  }

  datatype TxError = BadLength | LoneOffset | BadOffset | BadEnd

  lemma CommandBits(frame: nat)
    requires frame <= TX_FRAME_LENGTH
    ensures BitOr(BitOr(frame, TX_CMD_A_FIRST_SEG), TX_CMD_A_LAST_SEG) == frame + 0x3000
    ensures BitOr(frame + 4, TX_CMD_B_CSUM_ENABLE) == frame + 4 + TX_CMD_B_CSUM_ENABLE
  {
    Powers();
    SetBit(frame, 13, TX_CMD_A_FIRST_SEG);
    DivUnique(frame, TX_CMD_A_FIRST_SEG, 0, frame);
    SetBit(frame + TX_CMD_A_FIRST_SEG, 12, TX_CMD_A_LAST_SEG);
    DivUnique(frame + TX_CMD_A_FIRST_SEG, TX_CMD_A_LAST_SEG, 2, frame);
    SetBit(frame + 4, 14, TX_CMD_B_CSUM_ENABLE);
    DivUnique(frame + 4, TX_CMD_B_CSUM_ENABLE, 0, frame + 4);
  }

  lemma PreambleBits(start: nat, end: nat)
    requires start <= 0xFFFF
    ensures BitOr(0x10000 * end, start) == 0x10000 * end + start
  {
    Powers();
    OrLow(start, end, 16, 0x10000 * end);
  }

  /** `frame_length | TX_CMD_A_FIRST_SEG | TX_CMD_A_LAST_SEG`, in Python and in C. */
  method SegmentWord(frame: nat) returns (word: nat)
    requires frame <= TX_FRAME_LENGTH
    ensures word == 0x3000 + frame
  {
    CommandBits(frame);
    word := BitOr(BitOr(frame, TX_CMD_A_FIRST_SEG), TX_CMD_A_LAST_SEG);
  }

  /** `tx_cmd_b | TX_CMD_B_CSUM_ENABLE`, after the `+= 4`, in Python and in C. */
  method ChecksumWord(length: nat) returns (word: nat)
    requires 4 <= length <= TX_FRAME_LENGTH + 4
    ensures word == TX_CMD_B_CSUM_ENABLE + length
  {
    CommandBits(length - 4);
    word := BitOr(length, TX_CMD_B_CSUM_ENABLE);
  }

  /** `(checksum_end << 16) | checksum_start_offset`, unbounded as in Python. */
  method PreambleWord(start: nat, end: nat) returns (word: nat)
    requires start <= 0xFFFF
    ensures word == 0x10000 * end + start
  {
    PreambleBits(start, end);
    word := BitOr(0x10000 * end, start);
  }

  /** `model_tx_frame`: the command words are built up step by step. */
  method ModelTxFrame(frameLength: int, start: Option<int>, field: Option<int>)
    returns (r: Result<TxFrame, TxError>)
    ensures r.Ok? <==> GoodLength(frameLength) && start.Some? == field.Some?
                       && (start.Some? ==> GoodOffsets(start.value, field.value))
    ensures r.Ok? ==> r.value == Framed(frameLength, if start.Some? then Some(Checksum(start.value, field.value)) else None)
  {
    if !(1 <= frameLength <= TX_FRAME_LENGTH) {
      return Err(BadLength);
    }
    var requested := start.Some? || field.Some?;
    if requested && (start.None? || field.None?) {
      return Err(LoneOffset);
    }
    var cmdA := SegmentWord(frameLength);
    var cmdB: nat := frameLength;
    var preamble: Option<nat> := None;
    var enabled, fallback := false, false;
    var overhead := TX_OVERHEAD;
    if requested {
      var s, f := start.value, field.value;
      if !(0 <= s <= 0xFFFF) || !(0 <= f <= 0xFFFF) {
        return Err(BadOffset);
      }
      var end := s + f;
      if end > 0xFFFF {
        return Err(BadEnd);
      }
      var payloadAfterStart := frameLength - s;
      enabled :=
        frameLength > MIN_CSUM_FRAME_EXCLUSIVE && payloadAfterStart > TRAILING_GUARD
        && f < payloadAfterStart - TRAILING_GUARD;
      fallback := !enabled;
      if enabled {
        var word := PreambleWord(s, end);
        preamble := Some(word);
        cmdA := cmdA + 4;
        cmdB := cmdB + 4;
        cmdB := ChecksumWord(cmdB);
        overhead := TX_OVERHEAD_CSUM;
      }
    }
    r := Ok(TxFrame(requested, enabled, fallback, preamble, cmdA, cmdB, frameLength + overhead, overhead));
  }

  // ---- TX: the generated C --------------------------------------------------------------------

  /** `aurum_smsc95xx_tx_shadow`. */
  datatype TxShadow = TxShadow(
    checksumRequested: uint32, checksumEnabled: uint32, softwareFallback: uint32, preamble: uint32,
    cmdA: uint32, cmdB: uint32, usbBufferLength: uint32, overhead: uint32)

  function Flag(b: bool): uint32 { if b then 1 else 0 }

  /** How the differential reads a Python frame off a C struct. */
  predicate SameTx(out: TxShadow, m: TxFrame) {
    && out.checksumRequested == Flag(m.checksumRequested)
    && out.checksumEnabled == Flag(m.checksumEnabled)
    && out.softwareFallback == Flag(m.softwareFallback)
    && out.preamble == (if m.preamble.Some? then m.preamble.value else 0)
    && out.cmdA == m.cmdA && out.cmdB == m.cmdB
    && out.usbBufferLength == m.usbBufferLength && out.overhead == m.overhead
  }

  function Add32(a: uint32, b: uint32): uint32 { (a + b) % UINT32 }
  function Sub32(a: uint32, b: uint32): uint32 { (a - b) % UINT32 }
  function Shl32(a: uint32, k: nat): uint32 { (a * Pow2(k)) % UINT32 }

  /** `|` of two words that need no more than sixteen and thirty-two bits stays a word. */
  function Or32(a: uint32, b: uint32): uint32 { BitOr(a, b) % UINT32 }

  predicate CAcceptsTx(frame: uint32, requested: uint32, start: uint32, field: uint32) {
    GoodLength(frame) && requested <= 1 && GoodOffsets(start, field)
  }

  function CRequest(requested: uint32, start: uint32, field: uint32): Option<Checksum> {
    if requested == 1 then Some(Checksum(start, field)) else None
  }

  /** The clamped unsigned subtraction decides as the signed one does. */
  lemma ClampedGate(frame: uint32, start: uint32, field: uint32)
    requires GoodLength(frame) && GoodOffsets(start, field)
    ensures
      var payloadAfterStart: uint32 := if frame >= start then Sub32(frame, start) else 0;
      (frame > MIN_CSUM_FRAME_EXCLUSIVE && payloadAfterStart > TRAILING_GUARD
       && field < Sub32(payloadAfterStart, TRAILING_GUARD))
      <==> Offloads(frame, Checksum(start, field))
  {}

  lemma Or32Is(a: uint32, b: uint32, v: nat)
    requires BitOr(a, b) == v && v < UINT32
    ensures Or32(a, b) == v
  {}

  /** The preamble expression of the C. */
  method CPreamble(start: uint32, field: uint32) returns (word: uint32)
    requires GoodOffsets(start, field)
    ensures word == 0x10000 * (start + field) + start
  {
    Powers();
    var shifted := Shl32(Add32(start, field), 16);
    assert shifted == 0x10000 * (start + field);
    PreambleBits(start, start + field);
    Or32Is(shifted, start, shifted + start);
    word := Or32(shifted, start);
  }

  /** The command word assignments of the C. */
  method CCommandWords(frame: uint32, enabled: uint32) returns (cmdA: uint32, cmdB: uint32)
    requires GoodLength(frame)
    ensures cmdA == 0x3000 + frame + if enabled != 0 then 4 else 0
    ensures cmdB == if enabled != 0 then TX_CMD_B_CSUM_ENABLE + frame + 4 else frame
  {
    cmdA := SegmentWord(frame);
    cmdB := frame;
    if enabled != 0 {
      cmdA := Add32(cmdA, 4);
      cmdB := Add32(cmdB, 4);
      cmdB := ChecksumWord(cmdB);
    }
  }

  /** `aurum_smsc95xx_model_tx` with a non-null `out`; every `+`, `-` and `<<` wraps at 32 bits. */
  method CModelTx(frame: uint32, requested: uint32, start: uint32, field: uint32, before: TxShadow)
    returns (rc: int, out: TxShadow)
    ensures rc == 0 <==> CAcceptsTx(frame, requested, start, field)
    ensures rc == 0 ==> SameTx(out, Framed(frame, CRequest(requested, start, field)))
    ensures rc != 0 ==> out == before
  {
    out := before;
    var enabled: uint32 := 0;
    if frame < 1 || frame > TX_FRAME_LENGTH || requested > 1 {
      return -1, out;
    }
    if start > 0xFFFF || field > 0xFFFF || Add32(start, field) > 0xFFFF {
      return -2, out;
    }
    ClampedGate(frame, start, field);
    var payloadAfterStart: uint32 := if frame >= start then Sub32(frame, start) else 0;
    if requested != 0 && frame > MIN_CSUM_FRAME_EXCLUSIVE && payloadAfterStart > TRAILING_GUARD
       && field < Sub32(payloadAfterStart, TRAILING_GUARD) {
      enabled := 1;
    }
    out := out.(checksumRequested := requested, checksumEnabled := enabled);
    out := out.(softwareFallback := if requested != 0 && enabled == 0 then 1 else 0);
    var preamble := CPreamble(start, field);
    out := out.(preamble := if enabled != 0 then preamble else 0);
    var cmdA, cmdB := CCommandWords(frame, enabled);
    out := out.(cmdA := cmdA, cmdB := cmdB);
    out := out.(overhead := TX_OVERHEAD);
    if enabled != 0 {
      out := out.(overhead := Add32(out.overhead, 4));
    }
    out := out.(usbBufferLength := Add32(frame, out.overhead));
    rc := 0;
  }

  /**
   * The two validations differ on one point only: the C checks the offsets even when no checksum is
   * requested. With that said, Python raises exactly when the C returns non-zero.
   */
  lemma TxDomainsAgree(frame: uint32, requested: uint32, start: uint32, field: uint32)
    requires requested <= 1
    ensures
      var pythonAccepts := GoodLength(frame) && (requested == 1 ==> GoodOffsets(start, field));
      (pythonAccepts <==> CAcceptsTx(frame, requested, start, field))
      <==> (requested == 1 || GoodOffsets(start, field) || !GoodLength(frame))
  {}

  /** Sixty bytes, no checksum wanted, but an unused start offset over 16 bits: Python frames it, the C returns -2. */
  lemma UnusedOffsetParts(frame: uint32, start: uint32)
    requires frame == 60 && start == 0x10000
    ensures GoodLength(frame) && CRequest(0, start, 0) == None && !CAcceptsTx(frame, 0, start, 0)
  {}

  // ---- TX: what the words say to the controller -----------------------------------------------

  lemma WordArithmetic(flags: nat, length: nat)
    requires length < 0x1000 && flags < 8
    ensures
      var w := 0x1000 * flags + length;
      w % 0x800 == length % 0x800 && w / 0x1000 == flags && w / 0x2000 == flags / 2 && w / 0x4000 == flags / 4
  {}

  lemma WordLayout(flags: nat, length: nat, w: nat)
    requires length < 0x1000 && flags < 8 && w == 0x1000 * flags + length
    ensures BitAnd(w, TX_FRAME_LENGTH) == length % 0x800
    ensures BitAnd(w, TX_CMD_A_LAST_SEG) != 0 <==> flags % 2 == 1
    ensures BitAnd(w, TX_CMD_A_FIRST_SEG) != 0 <==> flags / 2 % 2 == 1
    ensures BitAnd(w, TX_CMD_B_CSUM_ENABLE) != 0 <==> flags / 4 % 2 == 1
  {
    WordArithmetic(flags, length);
    Powers();
    AndLow(w, 11);
    ShrDivides(w, 11);
    TestBit(w, 12, TX_CMD_A_LAST_SEG);
    TestBit(w, 13, TX_CMD_A_FIRST_SEG);
    TestBit(w, 14, TX_CMD_B_CSUM_ENABLE);
  }

  /**
   * FIRST and LAST are set on every frame and CSUM exactly on offloaded ones, whatever the `+= 4` does;
   * the eleven-bit lengths are right exactly when no carry leaves the field.
   */
  lemma CommandWordsDecode(frame: nat, request: Option<Checksum>)
    requires GoodLength(frame)
    ensures
      var m := Framed(frame, request);
      var offload := request.Some? && Offloads(frame, request.value);
      var sent := if offload then frame + 4 else frame;
      && BitAnd(m.cmdA, TX_CMD_A_FIRST_SEG) != 0 && BitAnd(m.cmdA, TX_CMD_A_LAST_SEG) != 0
      && (BitAnd(m.cmdB, TX_CMD_B_CSUM_ENABLE) != 0 <==> offload)
      && (BitAnd(m.cmdA, TX_FRAME_LENGTH) == sent <==> !(offload && frame >= 2044))
      && (BitAnd(m.cmdB, TX_FRAME_LENGTH) == sent <==> !(offload && frame >= 2044))
  {
    var m := Framed(frame, request);
    var sent := if m.checksumEnabled then frame + 4 else frame;
    WordLayout(3, sent, m.cmdA);
    WordLayout(if m.checksumEnabled then 4 else 0, sent, m.cmdB);
  }

  /** A concrete frame whose length field does not say its length: 2044 bytes are announced as zero. */
  lemma LengthFieldOverflows()
    ensures Framed(2044, Some(Checksum(14, 2))).checksumEnabled
    ensures BitAnd(Framed(2044, Some(Checksum(14, 2))).cmdB, TX_FRAME_LENGTH) == 0
  {
    WordLayout(4, 2048, Framed(2044, Some(Checksum(14, 2))).cmdB);
  }

  /** The preamble decodes back to its two offsets, and the checksum lies inside the frame with the guard to spare. */
  lemma PreambleDecodes(frame: nat, c: Checksum)
    requires GoodLength(frame) && GoodOffsets(c.start, c.field) && Offloads(frame, c)
    ensures
      var p := Framed(frame, Some(c)).preamble.value;
      BitAnd(p, 0xFFFF) == c.start && Shr(p, 16) == c.start + c.field && p < UINT32
    ensures c.start + c.field + 2 <= frame - (TRAILING_GUARD - 1)
  {
    var p := Framed(frame, Some(c)).preamble.value;
    Powers();
    OrLow(c.start, c.start + c.field, 16, 0x10000 * (c.start + c.field));
    AndLow(p, 16);
  }

  // ---- RX -------------------------------------------------------------------------------------

  datatype RxFrame = RxFrame(frameLength: nat, errorSummary: bool, prefixBytes: nat, padding: nat, payloadValid: bool)
  datatype RxError = BadStatus | BadAvailable

  function Padding(frameLength: nat): (p: nat)
    ensures p < 4 && (4 + 2 + frameLength + p) % 4 == 0
  {
    (4 - (frameLength + 2) % 4) % 4
  }

  /** The status word by its fields: length in bits 16 to 29, error summary in bit 15. */
  function Decoded(status: uint32, available: nat): RxFrame {
    var frameLength := status / 0x10000 % 0x4000;
    RxFrame(frameLength, status / 0x8000 % 2 == 1, 6, Padding(frameLength), frameLength <= available)
  }

  lemma StatusBits(status: nat)
    ensures Shr(BitAnd(status, RX_STS_FRAME_LENGTH), 16) == status / 0x10000 % 0x4000
    ensures BitAnd(status, RX_STS_ERROR_SUMMARY) != 0 <==> status / 0x8000 % 2 == 1
  {
    Powers();
    AndShifted(status, 0x3FFF, 16);
    AndShifted(0, BitAnd(Shr(status, 16), 0x3FFF), 16);
    AndLow(Shr(status, 16), 14);
    ShrDivides(Shr(status, 16), 14);
    ShrDivides(status, 16);
    TestBit(status, 15, RX_STS_ERROR_SUMMARY);
  }

  /** `decode_rx_status`. */
  method DecodeRxStatus(status: int, available: int) returns (r: Result<RxFrame, RxError>)
    ensures r.Ok? <==> 0 <= status < UINT32 && available >= 0
    ensures r.Ok? ==> r.value == Decoded(status, available)
  {
    if !(0 <= status <= 0xFFFFFFFF) {
      return Err(BadStatus);
    }
    if available < 0 {
      return Err(BadAvailable);
    }
    StatusBits(status);
    var frameLength := Shr(BitAnd(status, RX_STS_FRAME_LENGTH), 16);
    var padding := (4 - (frameLength + 2) % 4) % 4;
    r := Ok(RxFrame(frameLength, BitAnd(status, RX_STS_ERROR_SUMMARY) != 0, 4 + 2, padding, frameLength <= available));
  }

  /** `aurum_smsc95xx_rx_shadow`. */
  datatype RxShadow = RxShadow(frameLength: uint32, errorSummary: uint32, prefixBytes: uint32, padding: uint32, payloadValid: uint32)

  predicate SameRx(out: RxShadow, m: RxFrame) {
    && out.frameLength == m.frameLength && out.errorSummary == Flag(m.errorSummary)
    && out.prefixBytes == m.prefixBytes && out.padding == m.padding && out.payloadValid == Flag(m.payloadValid)
  }

  lemma PaddingWord(frameLength: uint32)
    requires frameLength < 0x4000
    ensures Sub32(4, Add32(frameLength, 2) % 4) % 4 == Padding(frameLength)
  {
    assert Add32(frameLength, 2) == frameLength + 2;
    var r: uint32 := (frameLength + 2) % 4;
    assert Sub32(4, r) == 4 - r;
  }

  /** `aurum_smsc95xx_decode_rx` with a non-null `out`: total, and equal to the Python decoder on every word. */
  method CDecodeRx(status: uint32, available: uint32) returns (out: RxShadow)
    ensures SameRx(out, Decoded(status, available))
  {
    StatusBits(status);
    var frameLength: uint32 := Shr(BitAnd(status, RX_STS_FRAME_LENGTH), 16);
    PaddingWord(frameLength);
    out := RxShadow(
      frameLength, Flag(BitAnd(status, RX_STS_ERROR_SUMMARY) != 0), 6,
      Sub32(4, Add32(frameLength, 2) % 4) % 4, Flag(frameLength <= available));
  }

  // ---- RX: any number of frames in one buffer -------------------------------------------------

  /** Where the status word of frame `n` starts when each frame is followed by the given padding. */
  function StatusOffset(frames: seq<nat>, pads: seq<nat>, n: nat): nat
    requires n <= |frames| == |pads|
  {
    if n == 0 then 0 else StatusOffset(frames, pads, n - 1) + 4 + 2 + frames[n - 1] + pads[n - 1]
  }

  ghost predicate Aligned(frames: seq<nat>, pads: seq<nat>)
    requires |frames| == |pads|
  {
    forall n :: 0 <= n <= |frames| ==> StatusOffset(frames, pads, n) % 4 == 0
  }

  function Paddings(frames: seq<nat>): (pads: seq<nat>)
    ensures |pads| == |frames| && forall i :: 0 <= i < |pads| ==> pads[i] == Padding(frames[i])
  {
    seq(|frames|, i requires 0 <= i < |frames| => Padding(frames[i]))
  }

  lemma AddMultiples(a: nat, b: nat)
    requires a % 4 == 0 && b % 4 == 0
    ensures (a + b) % 4 == 0
  {}

  lemma {:induction false} PaddingAligns(frames: seq<nat>, n: nat)
    requires n <= |frames|
    ensures StatusOffset(frames, Paddings(frames), n) % 4 == 0
  {
    if n != 0 {
      PaddingAligns(frames, n - 1);
      AddMultiples(StatusOffset(frames, Paddings(frames), n - 1), 4 + 2 + frames[n - 1] + Padding(frames[n - 1]));
    }
  }

  lemma LeastPadding(offset: nat, frameLength: nat, pad: nat)
    requires offset % 4 == 0 && (offset + 4 + 2 + frameLength + pad) % 4 == 0
    ensures Padding(frameLength) <= pad
  {}

  /** The decoder's padding aligns every status word, and every padding that does so is at least as large. */
  lemma PaddingIsLeast(frames: seq<nat>, pads: seq<nat>)
    requires |frames| == |pads|
    ensures Aligned(frames, Paddings(frames))
    ensures Aligned(frames, pads) ==> forall i :: 0 <= i < |frames| ==> Padding(frames[i]) <= pads[i]
  {
    forall n | 0 <= n <= |frames|
      ensures StatusOffset(frames, Paddings(frames), n) % 4 == 0
    {
      PaddingAligns(frames, n);
    }
    if Aligned(frames, pads) {
      forall i | 0 <= i < |frames|
        ensures Padding(frames[i]) <= pads[i]
      {
        assert StatusOffset(frames, pads, i) % 4 == 0 && StatusOffset(frames, pads, i + 1) % 4 == 0;
        LeastPadding(StatusOffset(frames, pads, i), frames[i], pads[i]);
      }
    }
  }
}
