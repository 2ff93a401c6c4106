/*
 * The frame codec of the soft UART: the frame geometry derived by `config`, the
 * parity of `get_even_parity`, the encoding done by `set_tx_data`, the decoding and
 * checking done by `get_rx_data`, and the status-word predicates.
 *
 * Frames, data and status words are the source's `uint32_t` values, so they are
 * `bv32` here. A frame is laid out from bit 0 upwards: the start bit (0), the data
 * bits (least significant first), the optional parity bit, the stop bit(s) (1).
 */
module Frame {

  /** `data_bit_codes`: five to nine data bits per frame. */
  type DataBits = n: bv32 | 5 <= n <= 9 witness 8

  /** `parity_codes` */
  datatype Parity = NoParity | EvenParity | OddParity

  /** `stop_bit_codes` */
  datatype StopBits = OneStopBit | TwoStopBits

  /** `return_codes` */
  datatype ReturnCode = EverythingOk | BadBitRateError | BadRxPin | BadTxPin | BadHalfDuplexPin

  /** `bit_rates` */
  const MIN_BIT_RATE: nat := 75
  const MAX_BIT_RATE: nat := 115200

  /** `rx_data_status_codes`: the flags of a status word. The functions below that
      test or set a flag write its value as a literal, named in a comment. */
  const NO_DATA_AVAILABLE: bv32 := 0
  const DATA_AVAILABLE: bv32 := 1
  const DATA_LOST: bv32 := 2
  const BAD_START_BIT: bv32 := 4
  const BAD_PARITY: bv32 := 8
  const BAD_STOP_BIT: bv32 := 16

  /** Bit `k` of `x`, as 0 or 1. */
  function Bit(x: bv32, k: bv32): bv32
    requires k < 32
  {
    (x >> k) & 1
  }

  /** The low `n` bits set. */
  function Mask(n: bv32): bv32
    requires n < 32
  {
    ((1 as bv32) << n) - 1
  }

  /** A bit position or length within a frame; frames are at most 13 bits long. */
  type FramePos = k: bv32 | k < 16

  /** The frame format fixed by `config`: the caller's choices and the positions
      and lengths derived from them. */
  datatype Geometry = Geometry(
    dataBits: DataBits,
    parity: Parity,
    stopBits: StopBits,
    rxFrameBits: FramePos,
    txFrameBits: FramePos,
    parityBitPos: FramePos,
    firstStopBitPos: FramePos,
    dataMask: bv32)

  /** The derived fields as `config` computes them. The receiver counts one stop
      bit only; the transmitter sends the second one too. */
  function Derive(dataBits: DataBits, parity: Parity, stopBits: StopBits): (g: Geometry)
    ensures g.dataBits == dataBits && g.parity == parity && g.stopBits == stopBits
    ensures WellFormed(g)
    ensures 7 <= g.rxFrameBits <= g.txFrameBits <= 13
  {
    var parityBits := if parity != NoParity then 1 else 0;
    var rxFrameBits := 1 + dataBits + parityBits + 1;
    var txFrameBits := if stopBits == TwoStopBits then rxFrameBits + 1 else rxFrameBits;
    var parityBitPos := 1 + dataBits;
    Geometry(dataBits, parity, stopBits, rxFrameBits, txFrameBits, parityBitPos,
             parityBitPos + parityBits, ((1 as bv32) << dataBits) - 1)
  }

  /** A geometry whose derived fields agree with its choices, as `config` derives them. */
  predicate WellFormed(g: Geometry)
  {
    && g.rxFrameBits == 2 + g.dataBits + (if g.parity == NoParity then 0 else 1)
    && g.txFrameBits == (if g.stopBits == TwoStopBits then g.rxFrameBits + 1 else g.rxFrameBits)
    && g.parityBitPos == 1 + g.dataBits
    && g.firstStopBitPos == g.rxFrameBits - 1
    && g.dataMask == Mask(g.dataBits)
  }

  datatype GeometryResult = Configured(geometry: Geometry) | Rejected(code: ReturnCode)

  /** The validation and geometry part of `_uart_ctx_::config`: a bit rate outside
      `[MIN_BIT_RATE, MAX_BIT_RATE]` is refused before anything is derived. */
  function ComputeGeometry(bitRate: nat, dataBits: DataBits, parity: Parity, stopBits: StopBits): (r: GeometryResult)
    ensures r.Rejected? <==> bitRate < MIN_BIT_RATE || MAX_BIT_RATE < bitRate
    ensures r.Rejected? ==> r.code == BadBitRateError
    ensures r.Configured? ==> WellFormed(r.geometry) && r.geometry == Derive(dataBits, parity, stopBits)
  {
    if bitRate < MIN_BIT_RATE || MAX_BIT_RATE < bitRate then Rejected(BadBitRateError)
    else Configured(Derive(dataBits, parity, stopBits))
  }

  /** Whether bit 0 of `data` and its bits 1 to `bits - 1` hold an odd number of
      ones: exactly when `get_even_parity(data, bits)` returns 1. With `bits <= 1`
      the loop of the source does not run and bit 0 alone decides. */
  predicate OddOnes(data: bv32, bits: bv32)
    requires bits <= 32
    decreases bits
  {
    if bits <= 1 then data & 1 == 1
    else (data & 1 == 1) != OddOnes(data >> 1, bits - 1)
  }

  /** The number of set bits among the low `bits` bits of `data`. */
  function Ones(data: bv32, bits: bv32): (n: bv32)
    requires bits <= 32
    ensures n <= bits
    decreases bits
  {
    if bits == 0 then 0 else (data & 1) + Ones(data >> 1, bits - 1)
  }

  /** OddOnes is the parity of the count of ones. */
  lemma {:induction false} OddOnesCounts(data: bv32, bits: bv32)
    requires 1 <= bits <= 32
    ensures OddOnes(data, bits) <==> Ones(data, bits) % 2 == 1
    decreases bits
  {
    if bits > 1 {
      OddOnesCounts(data >> 1, bits - 1);
    }
  }

  /** The parity of the low `bits` bits depends on nothing else; `mask` selects them. */
  lemma {:induction false} OddOnesLowBits(x: bv32, y: bv32, bits: bv32, mask: bv32)
    requires 1 <= bits <= 9 && mask == Mask(bits) && x & mask == y & mask
    ensures OddOnes(x, bits) == OddOnes(y, bits)
    decreases bits
  {
    LowBitsAgree(x, y, bits, mask);
    if bits > 1 {
      OddOnesLowBits(x >> 1, y >> 1, bits - 1, mask >> 1);
    }
  }

  /** Agreeing on the low `n` bits means agreeing on bit 0 and, one place down, on
      the next `n - 1` bits. */
  lemma LowBitsAgree(x: bv32, y: bv32, n: bv32, mask: bv32)
    requires 1 <= n <= 9 && mask == Mask(n) && x & mask == y & mask
    ensures x & 1 == y & 1 && mask >> 1 == Mask(n - 1) && (x >> 1) & (mask >> 1) == (y >> 1) & (mask >> 1)
  {
  }

  /** Counting one more bit at the top, as the loop of `get_even_parity` does. */
  lemma {:induction false} OddOnesStep(data: bv32, bit: bv32)
    requires 1 <= bit < 32
    ensures OddOnes(data, bit + 1) == (OddOnes(data, bit) != (Bit(data, bit) == 1))
    decreases bit
  {
    if bit > 1 {
      OddOnesStep(data >> 1, bit - 1);
      ShiftedBit(data, bit);
    }
  }

  /** Bit `k` of `x` is bit `k - 1` of `x >> 1`. */
  lemma ShiftedBit(x: bv32, k: bv32)
    requires 1 <= k < 32
    ensures Bit(x >> 1, k - 1) == Bit(x, k)
  {
  }

  /** `get_even_parity`, with the loop of the source: 1 exactly when the bits it
      looks at hold an odd number of ones, so that adding it makes the count even. */
  method GetEvenParity(data: bv32, bits: bv32) returns (parity: bv32)
    requires bits <= 32
    ensures parity == if OddOnes(data, bits) then 1 else 0
  {
    parity := data & 1;
    var bit: bv32 := 1;
    while bit < bits
      invariant 1 <= bit <= 32
      invariant bit <= bits || bit == 1
      invariant parity == if OddOnes(data, bit) then 1 else 0
    {
      OddOnesStep(data, bit);
      parity := parity ^ Bit(data, bit);
      bit := bit + 1;
    }
  }

  /** The parity bit the frame carries for `data`: `get_even_parity` of the data
      bits, complemented for odd parity. */
  function ParityBit(parity: Parity, dataBits: DataBits, data: bv32): (p: bv32)
    ensures p == 0 || p == 1
  {
    var p: bv32 := if OddOnes(data, dataBits) then 1 else 0;
    if parity == OddParity then p ^ 1 else p
  }

  /** Even parity makes the number of ones among the data bits and the parity bit
      even; odd parity makes it odd. */
  lemma ParityBitCountsOnes(parity: Parity, dataBits: DataBits, data: bv32)
    ensures parity == OddParity ==> (Ones(data, dataBits) + ParityBit(parity, dataBits, data)) % 2 == 1
    ensures parity != OddParity ==> (Ones(data, dataBits) + ParityBit(parity, dataBits, data)) % 2 == 0
  {
    OddOnesCounts(data, dataBits);
  }

  /** The frame `set_tx_data` builds for `data`: the low `dataBits` bits of `data`
      above a start bit of 0, then the parity bit if any, then the stop bit(s). */
  function EncodeFrame(g: Geometry, data: bv32): (frame: bv32)
    requires WellFormed(g)
  {
    var toSend := data & g.dataMask;
    Layout(g, toSend, ParityBit(g.parity, g.dataBits, toSend))
  }

  /** The frame assembled from the data bits to send and their parity bit, which
      is placed only when parity is configured. */
  function Layout(g: Geometry, toSend: bv32, parityBit: bv32): bv32
    requires WellFormed(g)
  {
    var withParity :=
      if g.parity != NoParity then (toSend << 1) | (parityBit << g.parityBitPos)
      else toSend << 1;
    if g.stopBits == OneStopBit then withParity | ((1 as bv32) << g.firstStopBitPos)
    else withParity | ((3 as bv32) << g.firstStopBitPos)
  }

  /** The encoded frame starts with a 0 and carries the data bits, least significant first. */
  lemma EncodeStartAndData(g: Geometry, data: bv32)
    requires WellFormed(g)
    ensures Bit(EncodeFrame(g, data), 0) == 0
    ensures (EncodeFrame(g, data) >> 1) & g.dataMask == data & g.dataMask
  {
  }

  /** The parity bit of the frame is the configured parity of the data bits sent. */
  lemma EncodeParity(g: Geometry, data: bv32)
    requires WellFormed(g) && g.parity != NoParity
    ensures Bit(EncodeFrame(g, data), g.parityBitPos) == ParityBit(g.parity, g.dataBits, data)
  {
    EncodeParityOfMasked(g, data);
    MaskedParityBit(g, data);
  }

  /** Masking to the data bits does not change the parity bit. */
  lemma MaskedParityBit(g: Geometry, data: bv32)
    requires WellFormed(g)
    ensures ParityBit(g.parity, g.dataBits, data & g.dataMask) == ParityBit(g.parity, g.dataBits, data)
  {
    MaskedParity(g.dataBits, g.dataMask, data);
    SameParityBit(g.parity, g.dataBits, data & g.dataMask, data);
  }

  /** The frame carries the parity bit of its (masked) data bits. */
  lemma EncodeParityOfMasked(g: Geometry, data: bv32)
    requires WellFormed(g) && g.parity != NoParity
    ensures Bit(EncodeFrame(g, data), g.parityBitPos) == ParityBit(g.parity, g.dataBits, data & g.dataMask)
  {
    LayoutParity(g, data, ParityBit(g.parity, g.dataBits, data & g.dataMask));
  }

  /** With parity configured, the parity bit sits at its position in the frame. */
  lemma LayoutParity(g: Geometry, data: bv32, parityBit: bv32)
    requires WellFormed(g) && g.parity != NoParity && parityBit <= 1
    ensures Bit(Layout(g, data & g.dataMask, parityBit), g.parityBitPos) == parityBit
  {
  }

  /** Masking to the data bits does not change their parity. */
  lemma MaskedParity(n: DataBits, mask: bv32, data: bv32)
    requires mask == Mask(n)
    ensures OddOnes(data & mask, n) == OddOnes(data, n)
  {
    OddOnesLowBits(data & mask, data, n, mask);
  }

  /** The parity bit depends on its data only through OddOnes. */
  lemma SameParityBit(parity: Parity, n: DataBits, a: bv32, b: bv32)
    requires OddOnes(a, n) == OddOnes(b, n)
    ensures ParityBit(parity, n, a) == ParityBit(parity, n, b)
  {
  }

  /** The frame's (first) stop bit is set. */
  lemma EncodeStopBit(g: Geometry, data: bv32)
    requires WellFormed(g)
    ensures Bit(EncodeFrame(g, data), g.firstStopBitPos) == 1
  {
  }

  /** With two stop bits, the bit after the first stop bit is set too. */
  lemma EncodeSecondStopBit(g: Geometry, data: bv32)
    requires WellFormed(g) && g.stopBits == TwoStopBits
    ensures Bit(EncodeFrame(g, data), g.firstStopBitPos + 1) == 1
  {
  }

  /** Nothing is set above the `txFrameBits` bits that `tc_interrupt` sends. */
  lemma EncodeWidth(g: Geometry, data: bv32)
    requires WellFormed(g)
    ensures EncodeFrame(g, data) >> g.txFrameBits == 0
  {
  }

  /** What `get_rx_data` hands back for one buffered frame. */
  datatype Reception = Reception(status: bv32, data: bv32)

  /** The start bit of `raw` is not the expected 0. */
  predicate StartBitWrong(raw: bv32)
  {
    Bit(raw, 0) == 1
  }

  /** Parity is configured and the parity bit of `raw` is not the one its data bits call for. */
  predicate ParityWrong(g: Geometry, raw: bv32)
    requires WellFormed(g)
  {
    g.parity != NoParity && Bit(raw, g.parityBitPos) != ParityBit(g.parity, g.dataBits, raw >> 1)
  }

  /** The (first) stop bit of `raw` is not the expected 1. */
  predicate StopBitWrong(g: Geometry, raw: bv32)
    requires WellFormed(g)
  {
    Bit(raw, g.firstStopBitPos) == 0
  }

  /** The status word with DATA_AVAILABLE and the given error flags. */
  function Flags(badStart: bool, badParity: bool, badStop: bool): bv32
  {
    0x1  // DATA_AVAILABLE, then BAD_START_BIT, BAD_PARITY, BAD_STOP_BIT
      | (if badStart then 0x4 else 0)
      | (if badParity then 0x8 else 0)
      | (if badStop then 0x10 else 0)
  }

  /** One check of `get_rx_data`: set `flag` in `status` when the check failed,
      clear it otherwise. */
  function Mark(status: bv32, flag: bv32, failed: bool): bv32
  {
    if failed then status | flag else status & !flag
  }

  /** The three checks of `get_rx_data`, in the source's order, each setting or
      clearing its flag in a status word that starts as DATA_AVAILABLE. */
  function CheckFrame(g: Geometry, raw: bv32): bv32
    requires WellFormed(g)
  {
    var checkedStart := Mark(0x1, 0x4, raw & 1 != 0);  // DATA_AVAILABLE, BAD_START_BIT
    var checkedParity :=
      if g.parity != NoParity then
        var dataParity := ParityBit(g.parity, g.dataBits, raw >> 1);
        var receivedParity := (raw >> g.parityBitPos) & 1;
        Mark(checkedStart, 0x8, receivedParity ^ dataParity != 0)  // BAD_PARITY
      else checkedStart;
    Mark(checkedParity, 0x10, (raw >> g.firstStopBitPos) & 1 == 0)  // BAD_STOP_BIT
  }

  /** The last step of `get_rx_data`'s checks: when any check failed, the raw frame
      is packed into the upper half of the status word. */
  function PackStatus(checked: bv32, raw: bv32): bv32
  {
    if BadStatus(checked) then checked | (raw << 16) else checked
  }

  /** `get_rx_data` on a buffered frame `raw`: the checked status and the data bits. */
  function DecodeFrame(g: Geometry, raw: bv32): (r: Reception)
    requires WellFormed(g)
  {
    Reception(PackStatus(CheckFrame(g, raw), raw), (raw >> 1) & g.dataMask)
  }

  /** Each check sets its flag exactly when it fails. */
  lemma CheckFrameFlags(g: Geometry, raw: bv32)
    requires WellFormed(g)
    ensures CheckFrame(g, raw) == Flags(StartBitWrong(raw), ParityWrong(g, raw), StopBitWrong(g, raw))
  {
    if g.parity != NoParity {
      var dataParity := ParityBit(g.parity, g.dataBits, raw >> 1);
      var receivedParity := (raw >> g.parityBitPos) & 1;
      assert (receivedParity ^ dataParity != 0) == ParityWrong(g, raw);
    }
    MarkedFlags(StartBitWrong(raw), ParityWrong(g, raw), StopBitWrong(g, raw));
  }

  /** Marking the three checks in turn, starting from DATA_AVAILABLE, gives the
      status word with exactly the failed checks' flags; a check that is not made
      (no parity) leaves its flag clear. */
  lemma MarkedFlags(badStart: bool, badParity: bool, badStop: bool)
    ensures Mark(Mark(Mark(0x1, 0x4, badStart), 0x8, badParity), 0x10, badStop) == Flags(badStart, badParity, badStop)
    ensures Mark(Mark(0x1, 0x4, badStart), 0x10, badStop) == Flags(badStart, false, badStop)
  {
  }

  /** What a packed status word built from flags reports. */
  lemma PackedFlags(badStart: bool, badParity: bool, badStop: bool, raw: bv32)
    ensures BadStartBit(PackStatus(Flags(badStart, badParity, badStop), raw)) == badStart
    ensures BadParity(PackStatus(Flags(badStart, badParity, badStop), raw)) == badParity
    ensures BadStopBit(PackStatus(Flags(badStart, badParity, badStop), raw)) == badStop
    ensures DataAvailable(PackStatus(Flags(badStart, badParity, badStop), raw))
    ensures !DataLost(PackStatus(Flags(badStart, badParity, badStop), raw))
  {
  }

  /** A packed status word is exactly DATA_AVAILABLE when no flag is set, and
      otherwise holds the raw frame's low sixteen bits in its upper half. */
  lemma PackedWord(badStart: bool, badParity: bool, badStop: bool, raw: bv32)
    ensures !(badStart || badParity || badStop) ==> PackStatus(Flags(badStart, badParity, badStop), raw) == DATA_AVAILABLE
    ensures badStart || badParity || badStop ==> PackStatus(Flags(badStart, badParity, badStop), raw) >> 16 == raw & 0xFFFF
  {
  }

  /** A status word packed after a failed check holds the raw frame's low half. */
  lemma PackedKeepsRaw(status: bv32, badStart: bool, badParity: bool, badStop: bool, raw: bv32)
    requires status == PackStatus(Flags(badStart, badParity, badStop), raw)
    requires badStart || badParity || badStop
    ensures status >> 16 == raw & 0xFFFF
  {
    PackedWord(badStart, badParity, badStop, raw);
  }

  /** The decoded status packs the flags of the failed checks. */
  lemma DecodedStatus(g: Geometry, raw: bv32)
    requires WellFormed(g)
    ensures DecodeFrame(g, raw).status == PackStatus(Flags(StartBitWrong(raw), ParityWrong(g, raw), StopBitWrong(g, raw)), raw)
  {
    CheckFrameFlags(g, raw);
  }

  /** Each error flag of the decoded status is set exactly when its check fails;
      the status always reports data and never DATA_LOST. */
  lemma DecodeFlags(g: Geometry, raw: bv32)
    requires WellFormed(g)
    ensures BadStartBit(DecodeFrame(g, raw).status) <==> StartBitWrong(raw)
    ensures BadParity(DecodeFrame(g, raw).status) <==> ParityWrong(g, raw)
    ensures BadStopBit(DecodeFrame(g, raw).status) <==> StopBitWrong(g, raw)
    ensures DataAvailable(DecodeFrame(g, raw).status) && !DataLost(DecodeFrame(g, raw).status)
  {
    DecodedStatus(g, raw);
    PackedFlags(StartBitWrong(raw), ParityWrong(g, raw), StopBitWrong(g, raw), raw);
  }

  /** A frame that passes every check decodes to exactly DATA_AVAILABLE. */
  lemma DecodeClean(g: Geometry, raw: bv32)
    requires WellFormed(g)
    requires !StartBitWrong(raw) && !ParityWrong(g, raw) && !StopBitWrong(g, raw)
    ensures DecodeFrame(g, raw) == Reception(DATA_AVAILABLE, (raw >> 1) & g.dataMask)
  {
    DecodeCleanStatus(g, raw);
    DecodeData(g, raw);
  }

  /** The status of a frame that passes every check carries no flag but DATA_AVAILABLE. */
  lemma DecodeCleanStatus(g: Geometry, raw: bv32)
    requires WellFormed(g)
    requires !StartBitWrong(raw) && !ParityWrong(g, raw) && !StopBitWrong(g, raw)
    ensures DecodeFrame(g, raw).status == DATA_AVAILABLE
  {
    DecodedStatus(g, raw);
    PackedWord(StartBitWrong(raw), ParityWrong(g, raw), StopBitWrong(g, raw), raw);
  }

  /** Proof step of DecodeClean: the data field of a decoded frame, on its own so
      that the solver does not unfold the status word alongside it. */
  lemma DecodeData(g: Geometry, raw: bv32)
    requires WellFormed(g)
    ensures DecodeFrame(g, raw).data == (raw >> 1) & g.dataMask
  {
  }

  /** A frame that fails a check keeps its low sixteen bits in the status word's upper half. */
  lemma DecodeKeepsRaw(g: Geometry, raw: bv32)
    requires WellFormed(g)
    requires StartBitWrong(raw) || ParityWrong(g, raw) || StopBitWrong(g, raw)
    ensures DecodeFrame(g, raw).status >> 16 == raw & 0xFFFF
  {
    DecodedStatus(g, raw);
    PackedKeepsRaw(DecodeFrame(g, raw).status, StartBitWrong(raw), ParityWrong(g, raw), StopBitWrong(g, raw), raw);
  }

  /** `data_available`: true for DATA_AVAILABLE and for DATA_LOST. */
  function DataAvailable(status: bv32): (b: bool)
    ensures b <==> status & DATA_AVAILABLE != 0 || DataLost(status)
  {
    status & 0x3 != 0  // DATA_AVAILABLE | DATA_LOST
  }

  /** `data_lost` */
  function DataLost(status: bv32): bool
  {
    status & 0x2 != 0  // DATA_LOST
  }

  /** `bad_status`: any of the three reception errors. */
  function BadStatus(status: bv32): (b: bool)
    ensures b <==> BadStartBit(status) || BadParity(status) || BadStopBit(status)
  {
    status & 0x1C != 0  // BAD_START_BIT | BAD_PARITY | BAD_STOP_BIT
  }

  /** `bad_start_bit` */
  function BadStartBit(status: bv32): bool
  {
    status & 0x4 != 0  // BAD_START_BIT
  }

  /** `bad_parity` */
  function BadParity(status: bv32): bool
  {
    status & 0x8 != 0  // BAD_PARITY
  }

  /** `bad_stop_bit` */
  function BadStopBit(status: bv32): bool
  {
    status & 0x10 != 0  // BAD_STOP_BIT
  }

  /** The parity bit of a frame built by `set_tx_data` passes the parity check. */
  lemma EncodeParityPasses(g: Geometry, data: bv32)
    requires WellFormed(g)
    ensures !ParityWrong(g, EncodeFrame(g, data))
  {
    if g.parity != NoParity {
      EncodedDataParity(g, data);
      EncodeParity(g, data);
      ParityCheckPasses(g, EncodeFrame(g, data), data);
    }
  }

  /** The data bits read back from an encoded frame have the parity of the data sent. */
  lemma EncodedDataParity(g: Geometry, data: bv32)
    requires WellFormed(g)
    ensures OddOnes(EncodeFrame(g, data) >> 1, g.dataBits) == OddOnes(data, g.dataBits)
  {
    EncodeStartAndData(g, data);
    DataBitsParity(g, EncodeFrame(g, data) >> 1, data);
  }

  /** Values that agree on the data bits have the same parity over them. */
  lemma DataBitsParity(g: Geometry, x: bv32, y: bv32)
    requires WellFormed(g) && x & g.dataMask == y & g.dataMask
    ensures OddOnes(x, g.dataBits) == OddOnes(y, g.dataBits)
  {
    OddOnesLowBits(x, y, g.dataBits, g.dataMask);
  }

  /** The parity check passes on a frame whose parity bit matches data of the same parity. */
  lemma ParityCheckPasses(g: Geometry, frame: bv32, data: bv32)
    requires WellFormed(g) && g.parity != NoParity
    requires OddOnes(frame >> 1, g.dataBits) == OddOnes(data, g.dataBits)
    requires Bit(frame, g.parityBitPos) == ParityBit(g.parity, g.dataBits, data)
    ensures !ParityWrong(g, frame)
  {
  }

  /** A frame built by `set_tx_data` passes every check of `get_rx_data`. */
  lemma EncodePassesChecks(g: Geometry, data: bv32)
    requires WellFormed(g)
    ensures !StartBitWrong(EncodeFrame(g, data))
    ensures !ParityWrong(g, EncodeFrame(g, data))
    ensures !StopBitWrong(g, EncodeFrame(g, data))
  {
    EncodeStartAndData(g, data);
    EncodeParityPasses(g, data);
    EncodeStopBit(g, data);
  }

  /** Round trip: a frame built by `set_tx_data` is accepted by `get_rx_data` with
      exactly DATA_AVAILABLE and gives back the data bits that were sent. */
  lemma RoundTrip(g: Geometry, data: bv32)
    requires WellFormed(g)
    ensures DecodeFrame(g, EncodeFrame(g, data)) == Reception(DATA_AVAILABLE, data & g.dataMask)
  {
    EncodePassesChecks(g, data);
    DecodeClean(g, EncodeFrame(g, data));
    EncodeStartAndData(g, data);
  }
}
