/*
 * The protocol engine `uart::_uart_ctx_` of soft_uart.h: the receive and transmit
 * state machines driven by two interrupts (the RX pin's edge interrupt and a bit
 * timer firing four times per bit period), the circular receive buffer and the
 * rejecting transmit buffer, and the API calls that feed and drain them.
 *
 * Each interrupt handler and each API call is one atomic step. The hardware is
 * replaced by `timerRunning` (whether the bit timer is started), `tx.line` (the
 * level driven on the TX pin) and the `level` argument of `RxInterrupt` (the
 * level read from the RX pin). The context's variables are grouped by side into
 * the records `rx` and `tx`, each updated in place as the source updates its
 * fields.
 */
module Engine {
  import opened Fifo
  import opened Frame
  import opened Wire

  datatype RxStatus = Listening | Receiving

  datatype TxStatus = Idle | Sending

  /** The receive-side variables of the context: `rx_status`, `rx_data` (the
      frame being assembled), `rx_bit` (the level latched by the edge interrupt),
      `rx_bit_counter`, `rx_interrupt_counter` (the phase within a bit period) and
      `rx_data_status`. */
  datatype RxState = RxState(status: RxStatus, data: bv32, bit: bv32, bitCounter: bv32, interruptCounter: bv32, dataStatus: bv32)

  /** The transmit-side variables of the context: `tx_status`, `tx_data` (the
      frame being sent), `tx_bit_counter` and `tx_interrupt_counter`, with the
      level driven on the TX pin. */
  datatype TxState = TxState(status: TxStatus, data: bv32, bitCounter: bv32, interruptCounter: bv32, line: bool)

  /** `rx_data_status` as `update_rx_data_buffer` sets it from the result of the
      circular push, which is `true` exactly when the oldest frame was overwritten:
      the stored status reports a loss exactly when nothing was lost. */
  function PushStatus(overwritten: bool): (status: bv32)
    ensures DataLost(status) <==> !overwritten
    ensures DataAvailable(status)
  {
    if overwritten then DATA_AVAILABLE else DATA_LOST
  }

  /** The level `set_outgoing_bit` drives for bit `k` of a frame. */
  function LineLevel(frame: bv32, k: bv32): bool
    requires k < 32
  {
    Bit(frame, k) == 1
  }

  /** The 0/1 value a sampled level is stored as in `rx_bit`. */
  function LevelBit(level: bool): bv32
  {
    if level then 1 else 0
  }

  /** The next value of a phase counter: `(counter + 1) & 0x3`. */
  function NextPhase(counter: bv32): (next: bv32)
    ensures next < 4
    ensures counter < 3 ==> next == counter + 1
    ensures counter == 3 ==> next == 0
  {
    (counter + 1) & 3
  }

  class UartContext {
    const rxBuffer: BasicFifo<bv32>
    const txBuffer: BasicFifo<bv32>

    var bitRate: nat
    var geometry: Geometry
    var rx: RxState
    var tx: TxState
    /** Whether the bit timer runs (`start_tc_interrupts` / `stop_tc_interrupts`). */
    var timerRunning: bool

    /** Both buffers are well-formed and distinct: a circular receive buffer and
        a rejecting transmit buffer. */
    ghost predicate BuffersValid()
      reads rxBuffer, rxBuffer.buffer, txBuffer, txBuffer.buffer
    {
      && rxBuffer != txBuffer && rxBuffer.buffer != txBuffer.buffer
      && rxBuffer.Valid() && txBuffer.Valid()
      && rxBuffer.circular && !txBuffer.circular
    }

    /** The state machines' own invariant: a well-formed geometry, phase counters
        in `0..3`, a 0/1 latched bit, bit counters inside the frame, and the bit
        timer running exactly while RX or TX is active. */
    ghost predicate PhaseValid()
      reads this
    {
      && WellFormed(geometry)
      && rx.bit <= 1
      && rx.interruptCounter < 4 && tx.interruptCounter < 4
      && (rx.status == Receiving ==> rx.bitCounter < geometry.rxFrameBits)
      && (tx.status == Sending ==> tx.bitCounter <= geometry.txFrameBits)
      && (timerRunning <==> rx.status == Receiving || tx.status == Sending)
    }

    /** The invariant every step keeps; besides the two above, no frame waits in
        the transmit buffer while TX is idle. */
    ghost predicate Valid()
      reads this, rxBuffer, rxBuffer.buffer, txBuffer, txBuffer.buffer
    {
      && BuffersValid() && PhaseValid()
      && (tx.status == Idle ==> txBuffer.Contents == [])
    }

    /** The zero-initialised static context: idle, with empty buffers of the
        template's lengths. Its geometry is a placeholder until `Config` succeeds. */
    constructor (rxBufferLength: nat, txBufferLength: nat)
      requires 1 <= rxBufferLength && 1 <= txBufferLength
      ensures Valid()
      ensures fresh(rxBuffer) && fresh(rxBuffer.buffer) && fresh(txBuffer) && fresh(txBuffer.buffer)
      ensures rxBuffer.length == rxBufferLength && txBuffer.length == txBufferLength
      ensures rxBuffer.Contents == [] && txBuffer.Contents == []
      ensures rx.status == Listening && tx.status == Idle && !timerRunning
    {
      rxBuffer := new BasicFifo(rxBufferLength, true);
      txBuffer := new BasicFifo(txBufferLength, false);
      bitRate := 0;
      geometry := Derive(8, EvenParity, OneStopBit);
      rx := RxState(Listening, 0, 0, 0, 0, NO_DATA_AVAILABLE);
      tx := TxState(Idle, 0, 0, 0, false);
      timerRunning := false;
    }

    /** `config`: a bit rate outside `[75, 115200]` is refused before anything is
        set; otherwise the geometry is derived, both sides are reset and the timer
        is stopped. Bit counters and data registers keep their values. */
    method Config(bitRate: nat, dataBits: DataBits, parity: Parity, stopBits: StopBits) returns (code: ReturnCode)
      requires Valid()
      modifies this, rxBuffer, txBuffer
      ensures Valid()
      ensures code == (if bitRate < MIN_BIT_RATE || MAX_BIT_RATE < bitRate then BadBitRateError else EverythingOk)
      ensures code != EverythingOk ==> unchanged(this, rxBuffer, txBuffer)
      ensures code == EverythingOk ==>
        && this.bitRate == bitRate && geometry == Derive(dataBits, parity, stopBits)
        && rx == old(rx).(status := Listening, dataStatus := NO_DATA_AVAILABLE, interruptCounter := 0)
        && tx == old(tx).(status := Idle, interruptCounter := 0)
        && rxBuffer.Contents == [] && txBuffer.Contents == [] && !timerRunning
    {
      var r := ComputeGeometry(bitRate, dataBits, parity, stopBits);
      if r.Rejected? {
        return r.code;
      }
      this.bitRate := bitRate;
      geometry := r.geometry;
      ResetRx();
      ResetTx();
      timerRunning := false;
      code := EverythingOk;
    }

    /** The receive-side resets of `config`. */
    method ResetRx()
      requires BuffersValid()
      modifies this, rxBuffer
      ensures tx == old(tx) && bitRate == old(bitRate) && geometry == old(geometry) && timerRunning == old(timerRunning)
      ensures rx == old(rx).(status := Listening, dataStatus := NO_DATA_AVAILABLE, interruptCounter := 0)
      ensures rxBuffer.Contents == []
      ensures BuffersValid()
    {
      rx := rx.(status := Listening, dataStatus := NO_DATA_AVAILABLE);
      rxBuffer.Reset();
      rx := rx.(interruptCounter := 0);
    }

    /** The transmit-side resets of `config`. */
    method ResetTx()
      requires BuffersValid()
      modifies this, txBuffer
      ensures rx == old(rx) && bitRate == old(bitRate) && geometry == old(geometry) && timerRunning == old(timerRunning)
      ensures tx == old(tx).(status := Idle, interruptCounter := 0)
      ensures txBuffer.Contents == []
      ensures BuffersValid()
    {
      tx := tx.(status := Idle);
      txBuffer.Reset();
      tx := tx.(interruptCounter := 0);
    }

    /** `rx_interrupt`: an edge on the RX pin. While listening, a low level is a
        start bit: reception begins with empty registers, and if TX is idle the
        timer is started with the phase counter at 1 (otherwise the running timer's
        phase 0). While receiving, the level is latched into `rx_bit`. */
    method RxInterrupt(level: bool)
      requires Valid()
      modifies this
      ensures tx == old(tx) && bitRate == old(bitRate) && geometry == old(geometry)
      ensures Valid()
      ensures old(rx.status) == Listening && level ==> rx == old(rx) && timerRunning == old(timerRunning)
      ensures old(rx.status) == Listening && !level ==>
        && rx == old(rx).(status := Receiving, data := 0, bit := 0, bitCounter := 0,
                          interruptCounter := if old(tx.status) == Idle then 1 else 0)
        && timerRunning
      ensures old(rx.status) == Receiving ==> rx == old(rx).(bit := LevelBit(level)) && timerRunning == old(timerRunning)
    {
      match rx.status {
        case Listening =>
          if !level {
            rx := rx.(status := Receiving, data := 0, bit := 0, bitCounter := 0, interruptCounter := 0);
            if tx.status == Idle {
              timerRunning := true;
              rx := rx.(interruptCounter := 1);
            }
          }
        case Receiving =>
          rx := rx.(bit := LevelBit(level));
      }
    }

    /** `tc_interrupt`: one timer tick, a quarter of a bit period: the receive
        side (as RxTick), then the transmit side (as TxTick). Neither half touches
        the other side's state, so each is stated on the state before the tick. */
    method TcInterrupt()
      requires Valid()
      modifies this, rxBuffer, rxBuffer.buffer, txBuffer
      ensures bitRate == old(bitRate) && geometry == old(geometry)
      ensures Valid()
      ensures timerRunning <==> rx.status == Receiving || tx.status == Sending
      ensures !old(timerRunning) ==> unchanged(this) && rxBuffer.Contents == old(rxBuffer.Contents)
      // The receive side.
      ensures old(rx.status) == Listening ==> rx == old(rx) && rxBuffer.Contents == old(rxBuffer.Contents)
      ensures old(rx.status) == Receiving && old(rx.interruptCounter) != 1 ==>
        && rx == old(rx).(interruptCounter := NextPhase(old(rx.interruptCounter)))
        && rxBuffer.Contents == old(rxBuffer.Contents)
      ensures old(rx.status) == Receiving && old(rx.interruptCounter) == 1 && old(rx.bitCounter) + 1 < geometry.rxFrameBits ==>
        && rx == old(rx).(data := FoldBit(old(rx.data), old(rx.bit), old(rx.bitCounter)),
                          bitCounter := old(rx.bitCounter) + 1, interruptCounter := 2)
        && rxBuffer.Contents == old(rxBuffer.Contents)
      ensures old(rx.status) == Receiving && old(rx.interruptCounter) == 1 && old(rx.bitCounter) + 1 == geometry.rxFrameBits ==>
        && rx == old(rx).(status := Listening, data := Completed(geometry, old(rx.data), old(rx.bit)),
                          bitCounter := geometry.rxFrameBits, interruptCounter := 2,
                          dataStatus := PushStatus(|old(rxBuffer.Contents)| == rxBuffer.length))
        && rxBuffer.Contents == OverwritePush(old(rxBuffer.Contents), rxBuffer.length, rx.data)
      // The transmit side.
      ensures old(tx.status) == Idle ==> tx == old(tx) && txBuffer.Contents == old(txBuffer.Contents)
      ensures old(tx.status) == Sending && old(tx.interruptCounter) != 0 ==>
        && tx == old(tx).(interruptCounter := NextPhase(old(tx.interruptCounter)))
        && txBuffer.Contents == old(txBuffer.Contents)
      ensures old(tx.status) == Sending && old(tx.interruptCounter) == 0 && old(tx.bitCounter) < geometry.txFrameBits ==>
        && tx == old(tx).(bitCounter := old(tx.bitCounter) + 1, interruptCounter := 1,
                          line := LineLevel(old(tx.data), old(tx.bitCounter)))
        && txBuffer.Contents == old(txBuffer.Contents)
      ensures old(tx.status) == Sending && old(tx.interruptCounter) == 0 && old(tx.bitCounter) == geometry.txFrameBits && old(txBuffer.Contents) != [] ==>
        && tx == TxState(Sending, old(txBuffer.Contents)[0], 1, 1, LineLevel(old(txBuffer.Contents)[0], 0))
        && txBuffer.Contents == old(txBuffer.Contents)[1..]
      ensures old(tx.status) == Sending && old(tx.interruptCounter) == 0 && old(tx.bitCounter) == geometry.txFrameBits && old(txBuffer.Contents) == [] ==>
        && tx == old(tx).(status := Idle, interruptCounter := 1)
        && txBuffer.Contents == []
    {
      RxTick();
      assert tx == old(tx) && txBuffer.Contents == old(txBuffer.Contents);
      TxTick();
    }

    /** The receive half of a tick. Only at phase 1 is the latched level folded
        into `rx_data` at position `rx_bit_counter` (`get_incoming_bit`); after
        `rx_frame_bits` folds (and, with two stop bits, a second fold of the same
        level in the same tick) the frame is pushed into the receive buffer
        (`update_rx_data_buffer`), RX listens again, and the timer stops if TX is
        idle. The phase counter advances on every tick. */
    method RxTick()
      requires Valid()
      modifies this, rxBuffer, rxBuffer.buffer
      ensures tx == old(tx) && bitRate == old(bitRate) && geometry == old(geometry)
      ensures Valid()
      ensures old(rx.status) == Listening ==> unchanged(this) && rxBuffer.Contents == old(rxBuffer.Contents)
      ensures old(rx.status) == Receiving && old(rx.interruptCounter) != 1 ==>
        && rx == old(rx).(interruptCounter := NextPhase(old(rx.interruptCounter)))
        && rxBuffer.Contents == old(rxBuffer.Contents) && timerRunning == old(timerRunning)
      ensures old(rx.status) == Receiving && old(rx.interruptCounter) == 1 && old(rx.bitCounter) + 1 < geometry.rxFrameBits ==>
        && rx == old(rx).(data := FoldBit(old(rx.data), old(rx.bit), old(rx.bitCounter)),
                          bitCounter := old(rx.bitCounter) + 1, interruptCounter := 2)
        && rxBuffer.Contents == old(rxBuffer.Contents) && timerRunning == old(timerRunning)
      ensures old(rx.status) == Receiving && old(rx.interruptCounter) == 1 && old(rx.bitCounter) + 1 == geometry.rxFrameBits ==>
        && rx == old(rx).(status := Listening, data := Completed(geometry, old(rx.data), old(rx.bit)),
                          bitCounter := geometry.rxFrameBits, interruptCounter := 2,
                          dataStatus := PushStatus(|old(rxBuffer.Contents)| == rxBuffer.length))
        && rxBuffer.Contents == OverwritePush(old(rxBuffer.Contents), rxBuffer.length, rx.data)
        && timerRunning == (tx.status == Sending)
    {
      if rx.status == Receiving {
        if rx.interruptCounter == 1 {
          SampleBit();
        }
        AdvanceRxPhase();
      }
    }

    /** `rx_interrupt_counter=(rx_interrupt_counter+1)&0x3`. */
    method AdvanceRxPhase()
      requires Valid()
      modifies this
      ensures tx == old(tx) && bitRate == old(bitRate) && geometry == old(geometry) && timerRunning == old(timerRunning)
      ensures rx == old(rx).(interruptCounter := NextPhase(old(rx.interruptCounter)))
      ensures Valid()
    {
      rx := rx.(interruptCounter := NextPhase(rx.interruptCounter));
    }

    /** Phase 1 of a receive bit period: the latched level is folded into
        `rx_data` at position `rx_bit_counter` (`get_incoming_bit`) and the bit
        counter advances; the last bit of a frame completes it. */
    method SampleBit()
      requires Valid() && rx.status == Receiving
      modifies this, rxBuffer, rxBuffer.buffer
      ensures tx == old(tx) && bitRate == old(bitRate) && geometry == old(geometry)
      ensures Valid()
      ensures rx.interruptCounter == old(rx.interruptCounter)
      ensures old(rx.bitCounter) + 1 < geometry.rxFrameBits ==>
        && rx == old(rx).(data := FoldBit(old(rx.data), old(rx.bit), old(rx.bitCounter)), bitCounter := old(rx.bitCounter) + 1)
        && rxBuffer.Contents == old(rxBuffer.Contents) && timerRunning == old(timerRunning)
      ensures old(rx.bitCounter) + 1 == geometry.rxFrameBits ==>
        && rx == old(rx).(status := Listening, data := Completed(geometry, old(rx.data), old(rx.bit)),
                          bitCounter := geometry.rxFrameBits,
                          dataStatus := PushStatus(|old(rxBuffer.Contents)| == rxBuffer.length))
        && rxBuffer.Contents == OverwritePush(old(rxBuffer.Contents), rxBuffer.length, rx.data)
        && timerRunning == (tx.status == Sending)
    {
      if rx.bitCounter + 1 == geometry.rxFrameBits {
        CompleteFrame();
      } else {
        rx := rx.(data := FoldBit(rx.data, rx.bit, rx.bitCounter));
        rx := rx.(bitCounter := rx.bitCounter + 1);
      }
    }

    /** The last bit of a frame: `Completed` is its `get_incoming_bit`, the advance
        of `rx_bit_counter` to `rx_frame_bits` and, with two stop bits, the second
        `get_incoming_bit` of the same level one position up in the same tick.
        Then the timer stops if TX is idle, the frame is pushed into the receive
        buffer (`update_rx_data_buffer`) and RX listens again. */
    method CompleteFrame()
      requires Valid() && rx.status == Receiving && rx.bitCounter + 1 == geometry.rxFrameBits
      modifies this, rxBuffer, rxBuffer.buffer
      ensures tx == old(tx) && bitRate == old(bitRate) && geometry == old(geometry)
      ensures Valid()
      ensures rx == old(rx).(status := Listening, data := Completed(geometry, old(rx.data), old(rx.bit)),
                             bitCounter := geometry.rxFrameBits,
                             dataStatus := PushStatus(|old(rxBuffer.Contents)| == rxBuffer.length))
      ensures rxBuffer.Contents == OverwritePush(old(rxBuffer.Contents), rxBuffer.length, rx.data)
      ensures timerRunning == (tx.status == Sending)
    {
      rx := rx.(data := Completed(geometry, rx.data, rx.bit), bitCounter := geometry.rxFrameBits);
      if tx.status == Idle {
        timerRunning := false;
      }
      UpdateRxDataBuffer();
      rx := rx.(status := Listening);
    }

    /** `update_rx_data_buffer`: pushes `rx_data` into the circular receive buffer
        and sets `rx_data_status` from the push's result. */
    method UpdateRxDataBuffer()
      requires BuffersValid()
      modifies this, rxBuffer, rxBuffer.buffer
      ensures tx == old(tx) && bitRate == old(bitRate) && geometry == old(geometry) && timerRunning == old(timerRunning)
      ensures rx == old(rx).(dataStatus := PushStatus(|old(rxBuffer.Contents)| == rxBuffer.length))
      ensures rxBuffer.Contents == OverwritePush(old(rxBuffer.Contents), rxBuffer.length, rx.data)
      ensures BuffersValid()
    {
      var overwritten := rxBuffer.Push(rx.data);
      rx := rx.(dataStatus := PushStatus(overwritten));
    }

    /** The transmit half of a tick. Only at phase 0 is a bit driven: bit
        `tx_bit_counter` of `tx_data` (`set_outgoing_bit`). When the frame is done,
        the next queued frame starts in the same tick with its bit 0; if none is
        queued TX goes idle, and the timer stops if RX is listening. The phase
        counter advances on every tick. */
    method TxTick()
      requires Valid()
      modifies this, txBuffer
      ensures rx == old(rx) && bitRate == old(bitRate) && geometry == old(geometry)
      ensures Valid()
      ensures old(tx.status) == Idle ==> unchanged(this) && txBuffer.Contents == old(txBuffer.Contents)
      ensures old(tx.status) == Sending && old(tx.interruptCounter) != 0 ==>
        && tx == old(tx).(interruptCounter := NextPhase(old(tx.interruptCounter)))
        && txBuffer.Contents == old(txBuffer.Contents) && timerRunning == old(timerRunning)
      ensures old(tx.status) == Sending && old(tx.interruptCounter) == 0 && old(tx.bitCounter) < geometry.txFrameBits ==>
        && tx == old(tx).(bitCounter := old(tx.bitCounter) + 1, interruptCounter := 1,
                          line := LineLevel(old(tx.data), old(tx.bitCounter)))
        && txBuffer.Contents == old(txBuffer.Contents) && timerRunning == old(timerRunning)
      ensures old(tx.status) == Sending && old(tx.interruptCounter) == 0 && old(tx.bitCounter) == geometry.txFrameBits && old(txBuffer.Contents) != [] ==>
        && tx == TxState(Sending, old(txBuffer.Contents)[0], 1, 1, LineLevel(old(txBuffer.Contents)[0], 0))
        && txBuffer.Contents == old(txBuffer.Contents)[1..] && timerRunning == old(timerRunning)
      ensures old(tx.status) == Sending && old(tx.interruptCounter) == 0 && old(tx.bitCounter) == geometry.txFrameBits && old(txBuffer.Contents) == [] ==>
        && tx == old(tx).(status := Idle, interruptCounter := 1)
        && txBuffer.Contents == [] && timerRunning == (rx.status == Receiving)
    {
      if tx.status == Sending {
        SendingTick();
      }
    }

    /** A tick while transmitting: phase 0 drives a bit, every phase advances. */
    method SendingTick()
      requires Valid() && tx.status == Sending
      modifies this, txBuffer
      ensures rx == old(rx) && bitRate == old(bitRate) && geometry == old(geometry)
      ensures Valid()
      ensures old(tx.interruptCounter) != 0 ==>
        && tx == old(tx).(interruptCounter := NextPhase(old(tx.interruptCounter)))
        && txBuffer.Contents == old(txBuffer.Contents) && timerRunning == old(timerRunning)
      ensures old(tx.interruptCounter) == 0 && old(tx.bitCounter) < geometry.txFrameBits ==>
        && tx == old(tx).(bitCounter := old(tx.bitCounter) + 1, interruptCounter := 1,
                          line := LineLevel(old(tx.data), old(tx.bitCounter)))
        && txBuffer.Contents == old(txBuffer.Contents) && timerRunning == old(timerRunning)
      ensures old(tx.interruptCounter) == 0 && old(tx.bitCounter) == geometry.txFrameBits && old(txBuffer.Contents) != [] ==>
        && tx == TxState(Sending, old(txBuffer.Contents)[0], 1, 1, LineLevel(old(txBuffer.Contents)[0], 0))
        && txBuffer.Contents == old(txBuffer.Contents)[1..] && timerRunning == old(timerRunning)
      ensures old(tx.interruptCounter) == 0 && old(tx.bitCounter) == geometry.txFrameBits && old(txBuffer.Contents) == [] ==>
        && tx == old(tx).(status := Idle, interruptCounter := 1)
        && txBuffer.Contents == [] && timerRunning == (rx.status == Receiving)
    {
      if tx.interruptCounter == 0 {
        DriveBit();
      }
      AdvanceTxPhase();
    }

    /** Phase 0 of a transmitting tick: the next bit of the frame, or the next frame. */
    method DriveBit()
      requires Valid() && tx.status == Sending && tx.interruptCounter == 0
      modifies this, txBuffer
      ensures rx == old(rx) && bitRate == old(bitRate) && geometry == old(geometry)
      ensures Valid() && tx.interruptCounter == 0
      ensures old(tx.bitCounter) < geometry.txFrameBits ==>
        && tx == old(tx).(bitCounter := old(tx.bitCounter) + 1, line := LineLevel(old(tx.data), old(tx.bitCounter)))
        && txBuffer.Contents == old(txBuffer.Contents) && timerRunning == old(timerRunning)
      ensures old(tx.bitCounter) == geometry.txFrameBits && old(txBuffer.Contents) != [] ==>
        && tx == TxState(Sending, old(txBuffer.Contents)[0], 1, 0, LineLevel(old(txBuffer.Contents)[0], 0))
        && txBuffer.Contents == old(txBuffer.Contents)[1..] && timerRunning == old(timerRunning)
      ensures old(tx.bitCounter) == geometry.txFrameBits && old(txBuffer.Contents) == [] ==>
        && tx == old(tx).(status := Idle)
        && txBuffer.Contents == [] && timerRunning == (rx.status == Receiving)
    {
      if tx.bitCounter >= geometry.txFrameBits {
        NextFrame();
      } else {
        SendBit();
      }
    }

    /** `tx_interrupt_counter=(tx_interrupt_counter+1)&0x3`. */
    method AdvanceTxPhase()
      requires Valid()
      modifies this
      ensures rx == old(rx) && bitRate == old(bitRate) && geometry == old(geometry) && timerRunning == old(timerRunning)
      ensures tx == old(tx).(interruptCounter := NextPhase(old(tx.interruptCounter)))
      ensures Valid()
    {
      tx := tx.(interruptCounter := NextPhase(tx.interruptCounter));
    }

    /** `set_outgoing_bit`: bit `tx_bit_counter` of `tx_data` is driven on the
        TX pin, and the bit counter advances. */
    method SendBit()
      requires Valid() && tx.status == Sending && tx.bitCounter < geometry.txFrameBits
      modifies this
      ensures rx == old(rx) && bitRate == old(bitRate) && geometry == old(geometry) && timerRunning == old(timerRunning)
      ensures Valid()
      ensures tx == old(tx).(bitCounter := old(tx.bitCounter) + 1, line := LineLevel(old(tx.data), old(tx.bitCounter)))
    {
      tx := tx.(line := LineLevel(tx.data, tx.bitCounter), bitCounter := tx.bitCounter + 1);
    }

    /** The end of a transmitted frame: the next queued frame is popped into
        `tx_data` and its bit 0 driven at once; with none queued TX goes idle, and
        the timer stops if RX is listening. */
    method NextFrame()
      requires Valid() && tx.status == Sending && tx.bitCounter >= geometry.txFrameBits
      modifies this, txBuffer
      ensures rx == old(rx) && bitRate == old(bitRate) && geometry == old(geometry)
      ensures Valid()
      ensures old(txBuffer.Contents) != [] ==>
        && tx == old(tx).(data := old(txBuffer.Contents)[0], bitCounter := 1, line := LineLevel(old(txBuffer.Contents)[0], 0))
        && txBuffer.Contents == old(txBuffer.Contents)[1..] && timerRunning == old(timerRunning)
      ensures old(txBuffer.Contents) == [] ==>
        && tx == old(tx).(status := Idle)
        && txBuffer.Contents == [] && timerRunning == (rx.status == Receiving)
    {
      var popped, next := txBuffer.Pop(0);
      if popped {
        StartFrame(next);
      } else {
        StopSending();
      }
    }

    /** A popped frame becomes `tx_data` and its bit 0 is driven. */
    method StartFrame(frame: bv32)
      requires Valid() && tx.status == Sending
      modifies this
      ensures rx == old(rx) && bitRate == old(bitRate) && geometry == old(geometry) && timerRunning == old(timerRunning)
      ensures tx == old(tx).(data := frame, bitCounter := 1, line := LineLevel(frame, 0))
      ensures Valid()
    {
      tx := tx.(data := frame, bitCounter := 0);
      SendBit();
    }

    /** Nothing left to send: TX goes idle, and the timer stops if RX is listening. */
    method StopSending()
      requires Valid() && tx.status == Sending && txBuffer.Contents == []
      modifies this
      ensures rx == old(rx) && bitRate == old(bitRate) && geometry == old(geometry)
      ensures tx == old(tx).(status := Idle)
      ensures timerRunning == (rx.status == Receiving)
      ensures Valid()
    {
      if rx.status == Listening {
        timerRunning := false;
      }
      tx := tx.(status := Idle);
    }

    /** `get_rx_data`: pops the oldest received frame and decodes it. An empty
        buffer yields `NO_DATA_AVAILABLE` and leaves the caller's `data` as it was. */
    method GetRxData(data: bv32) returns (status: bv32, data': bv32)
      requires Valid()
      modifies rxBuffer
      ensures Valid()
      ensures old(rxBuffer.Contents) == [] ==>
        status == NO_DATA_AVAILABLE && data' == data && rxBuffer.Contents == []
      ensures old(rxBuffer.Contents) != [] ==>
        && Reception(status, data') == DecodeFrame(geometry, old(rxBuffer.Contents)[0])
        && rxBuffer.Contents == old(rxBuffer.Contents)[1..]
      ensures DataAvailable(status) <==> old(rxBuffer.Contents) != []
      ensures !DataLost(status)
    {
      var popped, raw := rxBuffer.Pop(0);
      if !popped {
        return NO_DATA_AVAILABLE, data;
      }
      var r := DecodeFrame(geometry, raw);
      DecodeFlags(geometry, raw);
      status, data' := r.status, r.data;
    }

    /** `set_tx_data`: encodes `data` and queues the frame. A full transmit buffer
        refuses it and nothing changes. If TX was idle the frame goes straight into
        `tx_data` (the buffer is left as it was), and if RX is also listening the
        timer is started. On success TX is sending. */
    method SetTxData(data: bv32) returns (r: bool)
      requires Valid()
      modifies this, txBuffer, txBuffer.buffer
      ensures rx == old(rx) && bitRate == old(bitRate) && geometry == old(geometry)
      ensures Valid()
      ensures r == (|old(txBuffer.Contents)| < txBuffer.length)
      ensures !r ==> unchanged(this) && txBuffer.Contents == old(txBuffer.Contents)
      ensures r && old(tx.status) == Idle ==>
        && tx == old(tx).(status := Sending, data := EncodeFrame(geometry, data), bitCounter := 0, interruptCounter := 0)
        && txBuffer.Contents == []
      ensures r && old(tx.status) == Sending ==>
        && tx == old(tx)
        && txBuffer.Contents == old(txBuffer.Contents) + [EncodeFrame(geometry, data)]
      ensures r ==> timerRunning
    {
      var frame := EncodeFrame(geometry, data);
      var pushed := txBuffer.Push(frame);
      if !pushed {
        return false;
      }
      if tx.status == Idle {
        StartSending();
      }
      return true;
    }

    /** The rest of `set_tx_data` when TX was idle: the frame just queued is popped
        straight into `tx_data` with both counters at 0, the timer is started if RX
        is listening too, and TX is sending. */
    method StartSending()
      requires BuffersValid() && PhaseValid() && tx.status == Idle && |txBuffer.Contents| == 1
      modifies this, txBuffer
      ensures rx == old(rx) && bitRate == old(bitRate) && geometry == old(geometry)
      ensures tx == old(tx).(status := Sending, data := old(txBuffer.Contents)[0], bitCounter := 0, interruptCounter := 0)
      ensures txBuffer.Contents == [] && timerRunning
      ensures Valid()
    {
      var popped, next := txBuffer.Pop(0);
      tx := tx.(data := next, bitCounter := 0, interruptCounter := 0);
      if rx.status == Listening {
        timerRunning := true;
      }
      tx := tx.(status := Sending);
    }

    /** `flush_rx`: discards every received frame. */
    method FlushRx()
      requires Valid()
      modifies rxBuffer
      ensures Valid()
      ensures rxBuffer.Contents == []
    {
      rxBuffer.Reset();
    }

    /** `available`: the number of received frames waiting to be read. */
    function Available(): (n: int)
      reads this, rxBuffer, rxBuffer.buffer, txBuffer, txBuffer.buffer
      requires Valid()
      ensures n == |rxBuffer.Contents|
    {
      rxBuffer.Items()
    }

    /** `is_tx_full`: whether a further `set_tx_data` would be refused. */
    function IsTxFull(): (full: bool)
      reads this, rxBuffer, rxBuffer.buffer, txBuffer, txBuffer.buffer
      requires Valid()
      ensures full <==> |txBuffer.Contents| == txBuffer.length
    {
      txBuffer.IsFull()
    }

    /** `available_for_write`: the number of frames the transmit buffer can still take. */
    function AvailableForWrite(): (n: int)
      reads this, rxBuffer, rxBuffer.buffer, txBuffer, txBuffer.buffer
      requires Valid()
      ensures n == txBuffer.length - |txBuffer.Contents| && 0 <= n
      ensures n == 0 <==> IsTxFull()
    {
      txBuffer.Available()
    }
  }
}
