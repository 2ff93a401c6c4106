/*
 * The line as the engine sees it: the transmitter drives bit `tx_bit_counter`
 * of `tx_data` on each bit period (`set_outgoing_bit`), and the receiver ORs
 * the sampled level into `rx_data` at position `rx_bit_counter`
 * (`get_incoming_bit`). These lemmas show that a receiver starting from an
 * empty `rx_data` and sampling every bit of an encoded frame reassembles
 * exactly that frame.
 */
module Wire {
  import opened Frame

  /** `get_incoming_bit`: the level `bit` (0 or 1) ORed into `acc` at position `k`. */
  function FoldBit(acc: bv32, bit: bv32, k: bv32): bv32
    requires k < 32
  {
    acc | (bit << k)
  }

  /** One fold extends the low bits of `x` by one: folding bit `j` of `x` into its
      low `j` bits gives its low `k = j + 1` bits. */
  lemma FoldStep(acc: bv32, x: bv32, j: bv32, k: bv32)
    requires j < 31 && k == j + 1 && acc == x & Mask(j)
    ensures FoldBit(acc, Bit(x, j), j) == x & Mask(k)
  {
    LowBitsGrow(x, j);
  }

  lemma LowBitsGrow(x: bv32, k: bv32)
    requires k < 31
    ensures (x & Mask(k)) | (Bit(x, k) << k) == x & Mask(k + 1)
  {
    BitInPlace(x, k);
    MaskGrows(k);
    AndOverOr(x, Mask(k), 1 << k);
  }

  lemma BitInPlace(x: bv32, k: bv32)
    requires k < 31
    ensures Bit(x, k) << k == x & (1 << k)
  {
  }

  lemma MaskGrows(k: bv32)
    requires k < 31
    ensures Mask(k + 1) == Mask(k) | (1 << k)
  {
  }

  lemma AndOverOr(x: bv32, m: bv32, b: bv32)
    ensures x & (m | b) == (x & m) | (x & b)
  {
  }

  /** What the receiver pushes when a reception completes: the fold of the last
      bit at position `rx_frame_bits - 1` and, with two stop bits, a second fold of
      the same level at position `rx_frame_bits` within the same tick. */
  function Completed(g: Geometry, acc: bv32, bit: bv32): bv32
    requires WellFormed(g)
  {
    var frame := FoldBit(acc, bit, g.rxFrameBits - 1);
    if g.stopBits == TwoStopBits then FoldBit(frame, bit, g.rxFrameBits) else frame
  }

  /** A frame whose bits above `n` are clear is its own low `n` bits. */
  lemma NarrowFrame(frame: bv32, n: bv32, mask: bv32)
    requires n < 32 && mask == Mask(n) && frame >> n == 0
    ensures frame & mask == frame
  {
  }

  /** The shape of a frame on the line: nothing above `tx_frame_bits`, and the stop
      bits set. */
  predicate StopBitsSet(g: Geometry, frame: bv32)
    requires WellFormed(g)
  {
    && frame >> g.txFrameBits == 0
    && Bit(frame, g.firstStopBitPos) == 1
    && (g.stopBits == TwoStopBits ==> Bit(frame, g.firstStopBitPos + 1) == 1)
  }

  /** A receiver that has folded every bit of a frame but the last, and then samples
      the last one (the first stop bit), pushes exactly that frame. */
  lemma CompletedFrame(g: Geometry, frame: bv32)
    requires WellFormed(g) && StopBitsSet(g, frame)
    ensures Completed(g, frame & Mask(g.rxFrameBits - 1), Bit(frame, g.rxFrameBits - 1)) == frame
  {
    var k := g.rxFrameBits - 1;
    if g.stopBits == TwoStopBits {
      TwoFolds(frame, frame & Mask(k), Bit(frame, k), k, g.rxFrameBits, g.txFrameBits);
    } else {
      OneFold(frame, frame & Mask(k), Bit(frame, k), k, g.rxFrameBits);
    }
  }

  /** Every encoded frame has the shape the receiver needs. */
  lemma EncodeStopBitsSet(g: Geometry, data: bv32)
    requires WellFormed(g)
    ensures StopBitsSet(g, EncodeFrame(g, data))
  {
    EncodeWidth(g, data);
    EncodeStopBit(g, data);
    if g.stopBits == TwoStopBits {
      EncodeSecondStopBit(g, data);
    }
  }

  /** The last fold completes a frame of `n` bits. */
  lemma OneFold(frame: bv32, acc: bv32, bit: bv32, k: bv32, n: bv32)
    requires k < 15 && n == k + 1 && frame >> n == 0 && acc == frame & Mask(k) && bit == Bit(frame, k)
    ensures FoldBit(acc, bit, k) == frame
  {
    FoldStep(acc, frame, k, n);
    NarrowFrame(frame, n, Mask(n));
  }

  /** Two folds of the same level complete a frame of `m` bits whose top two bits agree. */
  lemma TwoFolds(frame: bv32, acc: bv32, bit: bv32, k: bv32, n: bv32, m: bv32)
    requires k < 14 && n == k + 1 && m == n + 1 && frame >> m == 0
    requires acc == frame & Mask(k) && bit == Bit(frame, k) && bit == Bit(frame, n)
    ensures FoldBit(FoldBit(acc, bit, k), bit, n) == frame
  {
    FoldStep(acc, frame, k, n);
    OneFold(frame, frame & Mask(n), bit, n, m);
  }

  /** `rx_data` after the first `k` bit periods of a reception: starting from the
      0 that `rx_interrupt` sets, bit `j` of the frame on the line is folded in at
      position `j`, for `j` from 0 to `k - 1`. */
  function FoldAll(frame: bv32, k: bv32): bv32
    requires k < 32
    decreases k
  {
    if k == 0 then 0 else FoldBit(FoldAll(frame, k - 1), Bit(frame, k - 1), k - 1)
  }

  /** After `k` folds the receiver holds exactly the low `k` bits of the frame. */
  lemma {:induction false} FoldAllLowBits(frame: bv32, k: bv32)
    requires k < 32
    ensures FoldAll(frame, k) == frame & Mask(k)
    decreases k
  {
    if k > 0 {
      var j := k - 1;
      FoldAllLowBits(frame, j);
      FoldStep(FoldAll(frame, j), frame, j, k);
    }
  }

  /** A receiver that starts from an empty `rx_data`, folds every bit of an encoded
      frame but the last, and then samples the last one (the first stop bit),
      reassembles exactly that frame. */
  lemma CompletedLoopback(g: Geometry, data: bv32)
    requires WellFormed(g)
    ensures Completed(g, FoldAll(EncodeFrame(g, data), g.rxFrameBits - 1), Bit(EncodeFrame(g, data), g.rxFrameBits - 1))
         == EncodeFrame(g, data)
  {
    FoldAllLowBits(EncodeFrame(g, data), g.rxFrameBits - 1);
    EncodeStopBitsSet(g, data);
    CompletedFrame(g, EncodeFrame(g, data));
  }

  /** Sending `data` and receiving it bit by bit over a clean line, from an empty
      `rx_data`, delivers `data & data_mask` with exactly DATA_AVAILABLE. */
  lemma CompletedDecodes(g: Geometry, data: bv32)
    requires WellFormed(g)
    ensures DecodeFrame(g, Completed(g, FoldAll(EncodeFrame(g, data), g.rxFrameBits - 1), Bit(EncodeFrame(g, data), g.rxFrameBits - 1)))
         == Reception(DATA_AVAILABLE, data & g.dataMask)
  {
    CompletedLoopback(g, data);
    RoundTrip(g, data);
  }
}
