/*
 * The mode controller `uart` of soft_uart.h: the `_mode_` of the port, set by
 * `config` (full duplex on two pins) and `half_duplex_config` (one pin, in RX
 * or TX mode), switched by `set_rx_mode` / `set_tx_mode`, and gating the I/O
 * calls it forwards to its single context `_ctx_`.
 *
 * `NUM_DIGITAL_PINS` is a constant of the board, here a constant of the port.
 * Configuring pins and attaching or detaching the RX edge interrupt are not
 * modelled; driving the TX pin high is `ctx.tx.line := true`.
 */
module SoftUart {
  import opened Frame
  import opened Engine

  /** `mode_codes` */
  datatype Mode = InvalidMode | FullDuplex | RxMode | TxMode

  /** The modes in which `get_rx_data` reaches the context. */
  predicate CanReceive(m: Mode)
  {
    m == FullDuplex || m == RxMode
  }

  /** The modes in which `set_tx_data`, `is_tx_full` and `available_for_write`
      reach the context. */
  predicate CanTransmit(m: Mode)
  {
    m == FullDuplex || m == TxMode
  }

  /** The outcome of `config`'s checks, in the source's order: the RX pin, the TX
      pin, then the bit rate checked by the context. */
  function FullDuplexCheck(numDigitalPins: nat, rxPin: nat, txPin: nat, bitRate: nat): (code: ReturnCode)
    ensures code == EverythingOk <==>
      rxPin < numDigitalPins && txPin < numDigitalPins && MIN_BIT_RATE <= bitRate <= MAX_BIT_RATE
    ensures code == BadRxPin <==> numDigitalPins <= rxPin
    ensures code == BadTxPin <==> rxPin < numDigitalPins <= txPin
    ensures code in {EverythingOk, BadRxPin, BadTxPin, BadBitRateError}
  {
    if rxPin >= numDigitalPins then BadRxPin
    else if txPin >= numDigitalPins then BadTxPin
    else if bitRate < MIN_BIT_RATE || MAX_BIT_RATE < bitRate then BadBitRateError
    else EverythingOk
  }

  /** The outcome of `half_duplex_config`'s checks: the shared pin, then the bit rate. */
  function HalfDuplexCheck(numDigitalPins: nat, pin: nat, bitRate: nat): (code: ReturnCode)
    ensures code == EverythingOk <==> pin < numDigitalPins && MIN_BIT_RATE <= bitRate <= MAX_BIT_RATE
    ensures code == BadHalfDuplexPin <==> numDigitalPins <= pin
    ensures code in {EverythingOk, BadHalfDuplexPin, BadBitRateError}
  {
    if pin >= numDigitalPins then BadHalfDuplexPin
    else if bitRate < MIN_BIT_RATE || MAX_BIT_RATE < bitRate then BadBitRateError
    else EverythingOk
  }

  /** `set_rx_mode` / `set_tx_mode` on the mode alone: refused (false) in
      `INVALID_MODE` and `FULL_DUPLEX`, otherwise the half-duplex port is put in
      `target`. */
  function Switch(m: Mode, target: Mode): (r: (bool, Mode))
    requires target == RxMode || target == TxMode
  {
    if m == InvalidMode || m == FullDuplex then (false, m) else (true, target)
  }

  /** A refused switch changes nothing; an accepted one reaches the target, and
      only a half-duplex port accepts. */
  lemma SwitchOutcome(m: Mode, target: Mode)
    requires target == RxMode || target == TxMode
    ensures !Switch(m, target).0 ==> Switch(m, target).1 == m
    ensures Switch(m, target).0 ==> Switch(m, target).1 == target
    ensures Switch(m, target).0 <==> m == RxMode || m == TxMode
  {
  }

  /** Switching twice to the same mode is switching once, and the second switch
      answers as the first did. */
  lemma SwitchIdempotent(m: Mode, target: Mode)
    requires target == RxMode || target == TxMode
    ensures Switch(Switch(m, target).1, target) == Switch(m, target)
  {
  }

  /** `uart<TIMER,RX_BUFFER_LENGTH,TX_BUFFER_LENGTH>`. */
  class Uart {
    /** `NUM_DIGITAL_PINS` */
    const numDigitalPins: nat
    /** The static `_ctx_`. */
    const ctx: UartContext
    var mode: Mode

    ghost predicate Valid()
      reads this, ctx, ctx.rxBuffer, ctx.rxBuffer.buffer, ctx.txBuffer, ctx.txBuffer.buffer
    {
      ctx.Valid()
    }

    /** A new port is unconfigured. */
    constructor (numDigitalPins: nat, rxBufferLength: nat, txBufferLength: nat)
      requires 1 <= rxBufferLength && 1 <= txBufferLength
      ensures Valid() && fresh(ctx)
      ensures this.numDigitalPins == numDigitalPins && mode == InvalidMode
      ensures ctx.rxBuffer.length == rxBufferLength && ctx.txBuffer.length == txBufferLength
    {
      this.numDigitalPins := numDigitalPins;
      ctx := new UartContext(rxBufferLength, txBufferLength);
      mode := InvalidMode;
    }

    /** `config`: the port becomes unconfigured, then the pins and the bit rate are
        checked in turn. A bad pin leaves the context untouched; a bad bit rate is
        refused by the context, which also changes nothing. On success the context
        is configured, the TX line is driven high and the port is full duplex. */
    method Config(rxPin: nat, txPin: nat, bitRate: nat, dataBits: DataBits, parity: Parity, stopBits: StopBits)
      returns (code: ReturnCode)
      requires Valid()
      modifies this, ctx, ctx.rxBuffer, ctx.txBuffer
      ensures Valid()
      ensures code == FullDuplexCheck(numDigitalPins, rxPin, txPin, bitRate)
      ensures mode == (if code == EverythingOk then FullDuplex else InvalidMode)
      ensures code != EverythingOk ==> unchanged(ctx, ctx.rxBuffer, ctx.txBuffer)
      ensures code == EverythingOk ==>
        && ctx.bitRate == bitRate && ctx.geometry == Derive(dataBits, parity, stopBits)
        && ctx.rx == old(ctx.rx).(status := Listening, dataStatus := NO_DATA_AVAILABLE, interruptCounter := 0)
        && ctx.tx == old(ctx.tx).(status := Idle, interruptCounter := 0, line := true)
        && ctx.rxBuffer.Contents == [] && ctx.txBuffer.Contents == [] && !ctx.timerRunning
    {
      mode := InvalidMode;
      if rxPin >= numDigitalPins {
        return BadRxPin;
      }
      if txPin >= numDigitalPins {
        return BadTxPin;
      }
      code := ctx.Config(bitRate, dataBits, parity, stopBits);
      if code != EverythingOk {
        return;
      }
      ctx.tx := ctx.tx.(line := true);
      mode := FullDuplex;
    }

    /** `half_duplex_config`: as `config` on one shared pin; on success the port is
        in RX mode, or in TX mode with the line driven high. */
    method HalfDuplexConfig(pin: nat, bitRate: nat, dataBits: DataBits, parity: Parity, stopBits: StopBits, inRxMode: bool)
      returns (code: ReturnCode)
      requires Valid()
      modifies this, ctx, ctx.rxBuffer, ctx.txBuffer
      ensures Valid()
      ensures code == HalfDuplexCheck(numDigitalPins, pin, bitRate)
      ensures mode == (if code != EverythingOk then InvalidMode else if inRxMode then RxMode else TxMode)
      ensures code != EverythingOk ==> unchanged(ctx, ctx.rxBuffer, ctx.txBuffer)
      ensures code == EverythingOk ==>
        && ctx.bitRate == bitRate && ctx.geometry == Derive(dataBits, parity, stopBits)
        && ctx.rx == old(ctx.rx).(status := Listening, dataStatus := NO_DATA_AVAILABLE, interruptCounter := 0)
        && ctx.tx == old(ctx.tx).(status := Idle, interruptCounter := 0, line := if inRxMode then old(ctx.tx.line) else true)
        && ctx.rxBuffer.Contents == [] && ctx.txBuffer.Contents == [] && !ctx.timerRunning
    {
      mode := InvalidMode;
      if pin >= numDigitalPins {
        return BadHalfDuplexPin;
      }
      code := ctx.Config(bitRate, dataBits, parity, stopBits);
      if code != EverythingOk {
        return;
      }
      if inRxMode {
        mode := RxMode;
      } else {
        ctx.tx := ctx.tx.(line := true);
        mode := TxMode;
      }
    }

    /** `set_rx_mode`: from TX mode it first waits, in `flush`, until everything
        queued has been sent (the caller's state when the wait is over is the
        precondition); the context is not touched. */
    method SetRxMode() returns (r: bool)
      requires Valid()
      requires mode == TxMode ==> ctx.tx.status == Idle
      modifies this
      ensures Valid()
      ensures (r, mode) == Switch(old(mode), RxMode)
    {
      if mode == InvalidMode || mode == FullDuplex {
        return false;
      }
      if mode == RxMode {
        return true;
      }
      mode := RxMode;
      return true;
    }

    /** `set_tx_mode`: from RX mode it first waits until no frame is being
        received (the precondition), then drives the line high. */
    method SetTxMode() returns (r: bool)
      requires Valid()
      requires mode == RxMode ==> ctx.rx.status == Listening
      modifies this, ctx
      ensures Valid()
      ensures (r, mode) == Switch(old(mode), TxMode)
      ensures old(mode) == RxMode ==> ctx.tx == old(ctx.tx).(line := true)
      ensures old(mode) != RxMode ==> ctx.tx == old(ctx.tx)
      ensures ctx.rx == old(ctx.rx) && ctx.timerRunning == old(ctx.timerRunning)
      ensures ctx.bitRate == old(ctx.bitRate) && ctx.geometry == old(ctx.geometry)
    {
      if mode == InvalidMode || mode == FullDuplex {
        return false;
      }
      if mode == TxMode {
        return true;
      }
      ctx.tx := ctx.tx.(line := true);
      mode := TxMode;
      return true;
    }

    /** `get_rx_data`: outside full duplex and RX mode nothing is popped, the
        caller's `data` is left alone and the status is `NO_DATA_AVAILABLE`. */
    method GetRxData(data: bv32) returns (status: bv32, data': bv32)
      requires Valid()
      modifies ctx.rxBuffer
      ensures Valid()
      ensures !CanReceive(mode) ==>
        status == NO_DATA_AVAILABLE && data' == data && ctx.rxBuffer.Contents == old(ctx.rxBuffer.Contents)
      ensures CanReceive(mode) && old(ctx.rxBuffer.Contents) == [] ==>
        status == NO_DATA_AVAILABLE && data' == data && ctx.rxBuffer.Contents == []
      ensures CanReceive(mode) && old(ctx.rxBuffer.Contents) != [] ==>
        && Reception(status, data') == DecodeFrame(ctx.geometry, old(ctx.rxBuffer.Contents)[0])
        && ctx.rxBuffer.Contents == old(ctx.rxBuffer.Contents)[1..]
      ensures DataAvailable(status) <==> CanReceive(mode) && old(ctx.rxBuffer.Contents) != []
      ensures !DataLost(status)
    {
      if CanReceive(mode) {
        status, data' := ctx.GetRxData(data);
      } else {
        status, data' := NO_DATA_AVAILABLE, data;
      }
    }

    /** `set_tx_data`: refused (false, nothing changes) outside full duplex and TX mode. */
    method SetTxData(data: bv32) returns (r: bool)
      requires Valid()
      modifies ctx, ctx.txBuffer, ctx.txBuffer.buffer
      ensures Valid()
      ensures r <==> CanTransmit(mode) && |old(ctx.txBuffer.Contents)| < ctx.txBuffer.length
      ensures !r ==> unchanged(ctx) && ctx.txBuffer.Contents == old(ctx.txBuffer.Contents)
      ensures ctx.bitRate == old(ctx.bitRate) && ctx.geometry == old(ctx.geometry) && ctx.rx == old(ctx.rx)
      ensures r ==> ctx.tx.status == Sending && ctx.timerRunning
      ensures r && old(ctx.tx.status) == Idle ==>
        && ctx.tx == old(ctx.tx).(status := Sending, data := EncodeFrame(ctx.geometry, data), bitCounter := 0, interruptCounter := 0)
        && ctx.txBuffer.Contents == []
      ensures r && old(ctx.tx.status) == Sending ==>
        ctx.tx == old(ctx.tx) && ctx.txBuffer.Contents == old(ctx.txBuffer.Contents) + [EncodeFrame(ctx.geometry, data)]
    {
      if CanTransmit(mode) {
        r := ctx.SetTxData(data);
      } else {
        r := false;
      }
    }

    /** `is_tx_full`: false outside full duplex and TX mode. */
    function IsTxFull(): (full: bool)
      reads this, ctx, ctx.rxBuffer, ctx.rxBuffer.buffer, ctx.txBuffer, ctx.txBuffer.buffer
      requires Valid()
      ensures full <==> CanTransmit(mode) && |ctx.txBuffer.Contents| == ctx.txBuffer.length
    {
      if CanTransmit(mode) then ctx.IsTxFull() else false
    }

    /** `available_for_write`, declared `bool`: the context's free count converted
        to a truth value, so true exactly when one more frame would be accepted. */
    function AvailableForWrite(): (b: bool)
      reads this, ctx, ctx.rxBuffer, ctx.rxBuffer.buffer, ctx.txBuffer, ctx.txBuffer.buffer
      requires Valid()
      ensures b <==> CanTransmit(mode) && |ctx.txBuffer.Contents| < ctx.txBuffer.length
      ensures CanTransmit(mode) ==> (b <==> !IsTxFull())
    {
      if CanTransmit(mode) then ctx.AvailableForWrite() != 0 else false
    }

    /** `available`: not gated by the mode. */
    function Available(): (n: int)
      reads this, ctx, ctx.rxBuffer, ctx.rxBuffer.buffer, ctx.txBuffer, ctx.txBuffer.buffer
      requires Valid()
      ensures n == |ctx.rxBuffer.Contents|
    {
      ctx.Available()
    }

    /** `flush_rx`: not gated by the mode. */
    method FlushRx()
      requires Valid()
      modifies ctx.rxBuffer
      ensures Valid()
      ensures ctx.rxBuffer.Contents == [] && ctx.txBuffer.Contents == old(ctx.txBuffer.Contents)
    {
      ctx.FlushRx();
    }
  }
}
