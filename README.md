# soft_uart in Dafny

A model of the software (bit-banged) UART of `soft_uart.h` and of the fixed-capacity
queue of `fifo.h` it is built on, with proofs of what the code promises.

- `fifo.dfy` (module `Fifo`): `basic_fifo<T,LENGTH,IS_CIRCULAR>` as the class
  `BasicFifo`, an array with the cursors `first`, `last` and the count `items`, and
  a ghost sequence `Contents` (oldest first) as its meaning. `fifo` rejects a push
  when full; `circular_fifo` overwrites the oldest element. The abstract push
  functions `RejectPush`/`OverwritePush` and the lemmas about pushing many
  elements state what each policy keeps.
- `frame.dfy` (module `Frame`): the frame codec on `bv32`, the source's
  `uint32_t`. It covers:
  - the geometry `config` derives (frame lengths, parity and stop-bit positions,
    data mask);
  - `get_even_parity` as a loop, proved against the recursive `OddOnes`, the
    parity of the number of ones;
  - the encoding half of `set_tx_data`;
  - the checks and packing of `get_rx_data`;
  - the status-word predicates;
  - the round trip: a frame built by `set_tx_data` is decoded by `get_rx_data`
    to its data bits with exactly `DATA_AVAILABLE`.
- `wire.dfy` (module `Wire`): the receiver's bit-by-bit assembly
  (`get_incoming_bit`, including the second fold with two stop bits). A receiver
  that starts from the empty `rx_data` set by `rx_interrupt` and folds bit `k`
  of an encoded frame at position `k`, one bit period after another, pushes
  exactly that frame, and it decodes to the data sent. The levels it samples
  are taken to be the frame's bits: timing on the line is not modelled.
- `engine.dfy` (module `Engine`): `uart::_uart_ctx_` as the class `UartContext`.
  - Its receive-side and transmit-side fields are the records `rx` and `tx`.
  - Its two buffers are a circular `BasicFifo` for reception and a rejecting one
    for transmission.
  - The bit timer is the flag `timerRunning`, and the TX pin is the level
    `tx.line`.
  - Each interrupt handler (`rx_interrupt`, `tc_interrupt`) and each API call
    (`config`'s resets, `get_rx_data`, `set_tx_data`, `flush_rx`, the buffer
    queries) is one atomic method.
  - Every method keeps the invariant `Valid`: phase counters in `0..3`, bit
    counters inside the frame, and the timer running exactly while RX is
    receiving or TX is sending.
- `uart.dfy` (module `SoftUart`): the mode controller `uart` as the class
  `Uart`. Its `mode` is set by `config` and `half_duplex_config` and switched by
  `set_rx_mode` and `set_tx_mode`, and it gates the calls forwarded to the
  context.

The file has two near-identical copies of `uart`: one for the Arduino Due
(soft_uart.h:238-1241) and one for ChibiOS (soft_uart.h:1275-2063). They differ
in hardware calls and in where the critical sections sit. One model covers both.
The table cites the Due copy; the ChibiOS counterparts are:

| Due | ChibiOS |
|---|---|
| `config` 257-297 | 1295-1349 |
| `half_duplex_config` 299-341 | 1351-1408 |
| `set_rx_mode` 345-360 | 1412-1439 |
| `set_tx_mode` 362-380 | 1441-1463 |
| `get_rx_data` gate 400-412 | 1478-1490 |
| `is_tx_full` 433-441 | 1511-1519 |
| `available_for_write` 444-452 | 1522-1530 |
| `set_tx_data` gate 455-463 | 1533-1541 |
| `flush_rx` 564-568 | 1650 |
| `get_even_parity` 572-578 | 1658-1664 |
| `get_incoming_bit` 651-652 | 1666 |
| `update_rx_data_buffer` 654-661 | 1669 |
| `set_outgoing_bit` 663-668 | 1678 |
| `_uart_ctx_::config` 915-1018 | 1770-1833 |
| `tc_interrupt` 1028-1083 | 1843-1893 |
| `rx_interrupt` 1093-1116 | 1903-1931 |
| `get_rx_data` 1126-1182 | 1941-1997 |
| `set_tx_data` 1192-1241 | 2007-2063 |

The model follows the code where it differs from what its names suggest:

- The circular `push` returns `true` exactly when it overwrote an element. So
  `update_rx_data_buffer` stores `DATA_AVAILABLE` after an overwrite and
  `DATA_LOST` otherwise. `rx_data_status` is never read, and `get_rx_data` never
  reports `DATA_LOST`.
- With two stop bits, the receiver folds the same level a second time, one
  position up, in the same tick.
- Only the first stop bit is checked.
- `uart::available_for_write` is declared `bool`.

## Model

| member | source | states |
|---|---|---|
| Fifo.BasicFifo.constructor | fifo.h:47-52 | a new queue is empty, with `first == 0` and `last == LENGTH - 1`, and satisfies the ring invariant |
| Fifo.BasicFifo.LastCursor | fifo.h:94-112 | the ring invariant gives the cursor relation `last == (first + items + LENGTH - 1) % LENGTH` with `0 <= items <= LENGTH` and both cursors in `[0, LENGTH)` |
| Fifo.BasicFifo.IsEmpty | fifo.h:71 | true exactly when the contents are empty |
| Fifo.BasicFifo.IsFull | fifo.h:73 | true exactly when the queue holds `LENGTH` elements |
| Fifo.BasicFifo.Items | fifo.h:75 | the number of queued elements, between 0 and `LENGTH` |
| Fifo.BasicFifo.Available | fifo.h:77 | `items() + available() == LENGTH`; zero exactly when full |
| Fifo.BasicFifo.Push | fifo.h:56-57 | dispatches on the policy: a `fifo` behaves as `RejectPush` and answers whether there was room; a `circular_fifo` behaves as `OverwritePush` and answers whether it was full |
| Fifo.BasicFifo.PushRejecting | fifo.h:90-99 | full: returns false and changes nothing (contents, cursors, array); otherwise returns true, appends the element as the newest and advances `last` |
| Fifo.BasicFifo.PushOverwriting | fifo.h:103-116 | the element always becomes the newest; if the queue was full the oldest is dropped, `first` advances and the result is true, otherwise the count grows and the result is false; `last` always advances |
| Fifo.BasicFifo.Pop | fifo.h:59-69 | empty: returns false and hands back the caller's value untouched; otherwise returns the oldest element, removes it, keeps the rest in order, advances `first` |
| Fifo.BasicFifo.Reset | fifo.h:79 | empties the queue and restores the initial cursors |
| Fifo.RejectPush | fifo.h:90-99 | the abstract push of a `fifo`: the queue keeps what it had, never exceeds `LENGTH`, and takes the element (growing by one) exactly when there was room |
| Fifo.OverwritePush | fifo.h:103-116 | the abstract push of a `circular_fifo`: the element always becomes the newest, the queue never exceeds `LENGTH`, and it grows exactly when there was room |
| Fifo.RejectKeepsFirst | fifo.h:90-99 | pushing a sequence into a `fifo` keeps the first elements that fit, in order |
| Fifo.OverwriteKeepsLast | fifo.h:103-116 | pushing a sequence into a `circular_fifo` keeps the last elements that fit, in order |
| Fifo.RejectOverflowFromEmpty | fifo.h:90-99 | `LENGTH + 1` pushes into an empty `fifo` keep the first `LENGTH` elements |
| Fifo.OverwriteOverflowFromEmpty | fifo.h:103-116 | `LENGTH + 1` pushes into an empty `circular_fifo` keep the last `LENGTH` elements |
| Frame.Derive | soft_uart.h:941-965 | the derived geometry keeps the caller's choices and is well formed: `first_stop_bit_pos == rx_frame_bits - 1`, `tx_frame_bits` is `rx_frame_bits` or one more, `data_mask == 2^data_bits - 1`, and `7 <= rx_frame_bits <= tx_frame_bits <= 13` |
| Frame.ComputeGeometry | soft_uart.h:924-965 | refused with `BAD_BIT_RATE_ERROR` exactly when the bit rate is outside `[75, 115200]`; otherwise the derived, well-formed geometry |
| Frame.GetEvenParity | soft_uart.h:572-578 | the loop's result is 1 exactly when bit 0 and bits `1..bits-1` hold an odd number of ones |
| Frame.OddOnesCounts | soft_uart.h:572-578 | that parity is the count of ones modulo 2 |
| Frame.OddOnesStep | soft_uart.h:575-576 | one more loop iteration flips the parity exactly when the next bit is set |
| Frame.OddOnesLowBits | soft_uart.h:572-578 | the parity over `bits` bits depends on the low `bits` bits only |
| Frame.ParityBit | soft_uart.h:1202-1208 | the parity bit is 0 or 1 |
| Frame.ParityBitCountsOnes | soft_uart.h:1202-1208 | with even parity the data ones plus the parity bit are even; with odd parity they are odd |
| Frame.EncodeFrame | soft_uart.h:1197-1219 | the frame `set_tx_data` builds; its layout is stated by EncodeStartAndData, EncodeParity, EncodeStopBit, EncodeSecondStopBit and EncodeWidth, and RoundTrip inverts it |
| Frame.EncodeStartAndData | soft_uart.h:1197-1213 | bit 0 of the frame is 0 and the bits above it are `data & data_mask`, least significant first |
| Frame.EncodeParity | soft_uart.h:1200-1211 | with parity configured, the bit at `parity_bit_pos` is the configured parity of the data |
| Frame.MaskedParityBit | soft_uart.h:1197-1205 | masking the data to `data_mask` first does not change its parity bit |
| Frame.EncodeStopBit | soft_uart.h:1215-1219 | the bit at `first_stop_bit_pos` is 1 |
| Frame.EncodeSecondStopBit | soft_uart.h:1218-1219 | with two stop bits, the next bit is 1 too |
| Frame.EncodeWidth | soft_uart.h:1197-1219 | nothing is set at or above `tx_frame_bits` |
| Frame.CheckFrame | soft_uart.h:1144-1173 | the three checks of `get_rx_data` in order; CheckFrameFlags states which flags it sets |
| Frame.PackStatus | soft_uart.h:1175-1177 | the raw frame is ORed into the upper half when a check failed; PackedFlags and PackedWord state what the packed word reports |
| Frame.DecodeFrame | soft_uart.h:1144-1179 | `get_rx_data` on one buffered frame: the checked and packed status and the data bits; DecodeFlags, DecodeClean, DecodeKeepsRaw and RoundTrip state what it returns |
| Frame.MarkedFlags | soft_uart.h:1144-1173 | setting or clearing each check's flag in turn, from `DATA_AVAILABLE`, leaves exactly the failed checks' flags; a parity check not made leaves its flag clear |
| Frame.CheckFrameFlags | soft_uart.h:1144-1173 | the checked status has `BAD_START_BIT`, `BAD_PARITY`, `BAD_STOP_BIT` set exactly for the failed checks (parity only when configured, first stop bit only) |
| Frame.PackedFlags | soft_uart.h:1177 | packing the raw frame keeps every flag as it was, with data available and no `DATA_LOST` |
| Frame.PackedWord | soft_uart.h:1175-1177 | with no failed check the status is exactly `DATA_AVAILABLE`; otherwise its upper half is the raw frame's low sixteen bits |
| Frame.DecodedStatus | soft_uart.h:1144-1177 | the decoded status is the packed word of the failed checks' flags |
| Frame.DecodeFlags | soft_uart.h:1144-1177 | each error flag of the decoded status is set if and only if its check fails; the status always reports data and never `DATA_LOST` |
| Frame.DecodeClean | soft_uart.h:1144-1179 | a frame passing every check decodes to exactly `DATA_AVAILABLE` with its data bits |
| Frame.DecodeCleanStatus | soft_uart.h:1144-1177 | a frame passing every check gets the status `DATA_AVAILABLE` and nothing else |
| Frame.DecodeKeepsRaw | soft_uart.h:1175-1177 | a frame failing a check keeps its low sixteen bits in the status word's upper half |
| Frame.DataAvailable | soft_uart.h:507-515 | true exactly when `DATA_AVAILABLE` or `DATA_LOST` is set |
| Frame.BadStatus | soft_uart.h:520-529 | true exactly when one of `BAD_START_BIT`, `BAD_PARITY`, `BAD_STOP_BIT` is set |
| Frame.DataLost | soft_uart.h:517-518 | tests `DATA_LOST`; by DecodeFlags it never holds of a status `get_rx_data` returns, and by PushStatus it is what `update_rx_data_buffer` stores when nothing was overwritten |
| Frame.BadStartBit | soft_uart.h:531-532 | tests `BAD_START_BIT`; by DecodeFlags it holds of a decoded status exactly when the start bit is 1 |
| Frame.BadParity | soft_uart.h:534-535 | tests `BAD_PARITY`; by DecodeFlags it holds exactly when parity is configured and the parity bit is wrong |
| Frame.BadStopBit | soft_uart.h:537-538 | tests `BAD_STOP_BIT`; by DecodeFlags it holds exactly when the first stop bit is 0 |
| Frame.EncodeParityPasses | soft_uart.h:1149-1167 | the parity bit of an encoded frame passes the parity check |
| Frame.EncodePassesChecks | soft_uart.h:1144-1173 | an encoded frame passes the start-bit, parity and stop-bit checks |
| Frame.RoundTrip | soft_uart.h:1144-1179 | decoding an encoded frame gives exactly `DATA_AVAILABLE` and `data & data_mask` |
| Wire.FoldBit | soft_uart.h:651-652 | `get_incoming_bit`: the sampled level ORed in at `rx_bit_counter`; FoldStep and FoldAllLowBits state what repeated folds build |
| Wire.FoldAll | soft_uart.h:1036-1054 | `rx_data` after the first `k` bit periods of a reception, from the 0 set by `rx_interrupt` (soft_uart.h:1104), bit `j` of the frame folded at position `j` |
| Wire.FoldAllLowBits | soft_uart.h:1038-1041 | after `k` folds the receiver holds exactly the low `k` bits of the frame |
| Wire.Completed | soft_uart.h:1038-1049 | the frame pushed when a reception completes: the last fold and, with two stop bits, a second fold of the same level one position up; CompletedFrame states that it rebuilds the frame |
| Wire.FoldStep | soft_uart.h:651-652 | folding bit `j` of a frame into its low `j` bits gives its low `j + 1` bits |
| Wire.CompletedFrame | soft_uart.h:1038-1049 | a receiver holding all but the last bit of a frame whose stop bits are set, sampling the last one (and folding it twice with two stop bits), pushes exactly that frame |
| Wire.EncodeStopBitsSet | soft_uart.h:1215-1219 | every encoded frame fits in `tx_frame_bits` bits and has its stop bits set |
| Wire.CompletedLoopback | soft_uart.h:1036-1054 | a receiver starting from an empty `rx_data` that folds bits `0 .. rx_frame_bits - 2` of an encoded frame and then samples its first stop bit reassembles exactly that frame |
| Wire.CompletedDecodes | soft_uart.h:1036-1054 | the frame so reassembled decodes to `DATA_AVAILABLE` and the data sent, masked |
| Engine.PushStatus | soft_uart.h:654-661 | the status `update_rx_data_buffer` stores reports `DATA_LOST` exactly when nothing was overwritten, and always reports data |
| Engine.LineLevel | soft_uart.h:663-668 | the level `set_outgoing_bit` drives for bit `k` of a frame; SendBit, TxTick and TcInterrupt state that the bits are driven in order at phase 0 |
| Engine.LevelBit | soft_uart.h:1095-1113 | the 0/1 value the sampled level is latched as in `rx_bit` (RxInterrupt) |
| Engine.NextPhase | soft_uart.h:1054 | the phase counter stays in `0..3`, counting 0, 1, 2, 3, 0 |
| Engine.UartContext.constructor | soft_uart.h:670-716 | an idle context with empty buffers of the template's lengths and the timer stopped |
| Engine.UartContext.Config | soft_uart.h:915-1018 | a bad bit rate yields `BAD_BIT_RATE_ERROR` and changes nothing; otherwise the geometry is derived, RX listens with no data, TX is idle, both buffers are empty, both phase counters are 0 and the timer is stopped |
| Engine.UartContext.ResetRx | soft_uart.h:970-973 | RX listening, status `NO_DATA_AVAILABLE`, buffer emptied, phase 0; nothing else changes |
| Engine.UartContext.ResetTx | soft_uart.h:987-989 | TX idle, buffer emptied, phase 0; nothing else changes |
| Engine.UartContext.RxInterrupt | soft_uart.h:1093-1116 | listening: a high level changes nothing, a low level starts a reception with cleared registers, and starts the timer with phase 1 only if TX is idle (phase 0 otherwise); receiving: the level is latched into `rx_bit`; the invariant is kept |
| Engine.UartContext.TcInterrupt | soft_uart.h:1028-1083 | a whole tick, case by case: RX folds the latched bit at phase 1 and on the last bit pushes the completed frame with the overwrite policy and the inverted status and listens again; TX drives bit `tx_bit_counter` at phase 0, or after the last bit pops the next frame and drives its bit 0 in the same tick, or goes idle with an empty buffer; both phase counters advance; a stopped timer changes nothing; the timer runs exactly while RX receives or TX sends |
| Engine.UartContext.RxTick | soft_uart.h:1036-1055 | folds the latched bit only at phase 1; the last bit completes the frame, pushes it into the circular buffer, sets the (inverted) push status, listens again and stops the timer exactly when TX is idle |
| Engine.UartContext.SampleBit | soft_uart.h:1038-1053 | folds `rx_bit` at `rx_bit_counter` and advances it; at `rx_frame_bits` the frame completes |
| Engine.UartContext.CompleteFrame | soft_uart.h:1042-1052 | the completed frame (second fold with two stop bits) is pushed as `circular_fifo` does, RX listens, and the timer runs exactly while TX sends |
| Engine.UartContext.UpdateRxDataBuffer | soft_uart.h:654-661 | pushes `rx_data` with the overwrite policy and stores the push status |
| Engine.UartContext.AdvanceRxPhase | soft_uart.h:1054 | advances the RX phase and nothing else |
| Engine.UartContext.TxTick | soft_uart.h:1058-1081 | drives a bit only at phase 0: the next bit of the frame, or else the next queued frame's bit 0 in the same tick, or else TX goes idle and the timer stops exactly when RX listens; the buffer changes only by that pop |
| Engine.UartContext.SendingTick | soft_uart.h:1060-1080 | the same, for a sending TX |
| Engine.UartContext.DriveBit | soft_uart.h:1062-1078 | phase 0: bit `tx_bit_counter` of `tx_data` is driven, or the next frame is popped and its bit 0 driven, or TX stops |
| Engine.UartContext.AdvanceTxPhase | soft_uart.h:1080 | advances the TX phase and nothing else |
| Engine.UartContext.SendBit | soft_uart.h:1078 | the line takes bit `tx_bit_counter` of `tx_data` and the counter advances |
| Engine.UartContext.NextFrame | soft_uart.h:1062-1077 | pops the next frame into `tx_data` and drives its bit 0, or with nothing queued goes idle and stops the timer exactly when RX listens |
| Engine.UartContext.StartFrame | soft_uart.h:1065-1069 | the popped frame becomes `tx_data` with its bit 0 driven |
| Engine.UartContext.StopSending | soft_uart.h:1070-1076 | TX idle, timer running exactly while RX receives |
| Engine.UartContext.GetRxData | soft_uart.h:1126-1182 | empty buffer: `NO_DATA_AVAILABLE`, the caller's data untouched; otherwise the oldest frame is popped and decoded; the status reports data exactly when a frame was popped, and never `DATA_LOST` |
| Engine.UartContext.SetTxData | soft_uart.h:1192-1241 | refused exactly when the transmit buffer is full, changing nothing; if TX was idle the encoded frame goes straight to `tx_data` with both counters 0 and the buffer unchanged, otherwise it is appended to the buffer; on success TX sends and the timer runs |
| Engine.UartContext.StartSending | soft_uart.h:1226-1238 | the frame just queued is popped into `tx_data`, the counters cleared, the timer started and TX sending |
| Engine.UartContext.FlushRx | soft_uart.h:564-568 | the receive buffer is emptied |
| Engine.UartContext.Available | soft_uart.h:501-505 | the number of received frames waiting |
| Engine.UartContext.IsTxFull | soft_uart.h:541-545 | true exactly when the transmit buffer is full |
| Engine.UartContext.AvailableForWrite | soft_uart.h:547-551 | the free slots of the transmit buffer; zero exactly when it is full |
| SoftUart.FullDuplexCheck | soft_uart.h:266-284 | `EVERYTHING_OK` exactly when both pins are in range and the bit rate is valid; `BAD_RX_PIN` exactly when the RX pin is out of range; `BAD_TX_PIN` exactly when only the TX pin is |
| SoftUart.HalfDuplexCheck | soft_uart.h:308-323 | `EVERYTHING_OK` exactly when the pin is in range and the bit rate valid; `BAD_HALF_DUPLEX_PIN` exactly when the pin is out of range |
| SoftUart.SwitchOutcome | soft_uart.h:345-380 | a mode switch is accepted exactly in RX or TX mode and then reaches its target; a refused one changes nothing |
| SoftUart.SwitchIdempotent | soft_uart.h:345-380 | switching twice to the same mode is switching once |
| SoftUart.Uart.constructor | soft_uart.h:248 | a new port is unconfigured |
| SoftUart.Uart.Config | soft_uart.h:257-297 | the result is the pin checks and then the bit-rate check; the mode is full duplex on success and unconfigured otherwise; an error leaves the context untouched; success sets the bit rate and the derived frame geometry, puts RX in listening with no data available and TX idle, both interrupt counters 0, empties both buffers, stops the timer and drives the TX line high, and leaves every other field of the RX and TX state as it was |
| SoftUart.Uart.HalfDuplexConfig | soft_uart.h:299-341 | the same on one pin; on success the mode is RX or TX mode as requested, the context is reset as for full duplex, and the TX line is driven high in TX mode and left as it was in RX mode |
| SoftUart.Uart.SetRxMode | soft_uart.h:345-360 | false with no change when unconfigured or full duplex; otherwise true and RX mode |
| SoftUart.Uart.SetTxMode | soft_uart.h:362-380 | false with no change when unconfigured or full duplex; otherwise true and TX mode, driving the line high when coming from RX mode |
| SoftUart.Uart.GetRxData | soft_uart.h:400-412 | outside full duplex and RX mode: `NO_DATA_AVAILABLE`, nothing popped, data untouched; otherwise the context's `get_rx_data` |
| SoftUart.Uart.SetTxData | soft_uart.h:455-463 | accepted exactly in full duplex or TX mode with room in the buffer; refused calls change nothing; the bit rate, the frame geometry and the RX state are always kept; an accepted frame starts at once, encoded in the configured geometry with both counters 0 and the line level unchanged, when TX was idle, and is queued otherwise |
| SoftUart.Uart.IsTxFull | soft_uart.h:433-441 | true exactly in a transmitting mode with a full buffer |
| SoftUart.Uart.AvailableForWrite | soft_uart.h:444-452 | true exactly in a transmitting mode with room for one more frame |
| SoftUart.Uart.Available | soft_uart.h:384 | the context's count of received frames, in any mode |
| SoftUart.Uart.FlushRx | soft_uart.h:469 | the receive buffer is emptied, in any mode |

## Left out

- Hardware access is not modelled: GPIO reads and writes, pin modes, the timer and
  interrupt controller registers, clocks. The bit timer is the flag
  `timerRunning`, the TX pin is `tx.line`, and the RX pin's level is the
  argument of `RxInterrupt`.
- The hardware gate of `tc_interrupt` (soft_uart.h:1033) is not modelled; a call
  of `TcInterrupt` is a tick that occurred.
- Attaching and detaching the RX edge interrupt is not modelled, so `RxInterrupt`
  may be called in any mode. This is an over-approximation of the edges the
  hardware delivers.
- Floating-point timing is not modelled (`tc_tick`, `bit_time`, `bit_ticks`,
  `bit_1st_half`, `bit_1st_quarter`, `frame_time`), and neither are the getters
  that return it.
- Concurrency is not modelled: `interrupt_guard`, `system_guard` and `volatile`.
  Each interrupt handler and each API call is one atomic step.
- SoftUart.Uart.SetRxMode: the busy wait of `flush` (soft_uart.h:557-562) is the
  precondition that TX is idle when switching from TX mode; re-attaching the edge
  interrupt is not modelled.
- SoftUart.Uart.SetTxMode: the busy wait (soft_uart.h:372) is the precondition
  that RX is listening when switching from RX mode; detaching the edge interrupt
  is not modelled.
- `flush` (soft_uart.h:467, 557-562) is not a member of its own: it is only a
  wait, so it is the precondition above.
- `end()` (soft_uart.h:382, 485-494) only tears down hardware.
- The `serial` wrapper (soft_uart.h:721-894) adapts `uart` to Arduino base
  classes that are not part of this model.
- `get_mode`, `get_timer`, `get_rx_buffer_length`, `get_tx_buffer_length`,
  `get_bit_rate` and `get_tx_status` are plain reads of a field.
- The static forwarders `tc_interrupt` and `rx_interrupt` of `uart` only forward.
- The status predicates of `uart` (soft_uart.h:414-431) forward to the
  context's, which are modelled.
- Pin identity is not modelled: only the range check against
  `NUM_DIGITAL_PINS` is. This includes the ChibiOS `config` passing the RX port
  as the context's TX port (soft_uart.h:1315), which only changes which GPIO is
  driven.
- Engine.UartContext.Config follows the Due copy, which stops the bit timer at
  the end of `config` (soft_uart.h:1015). The ChibiOS copy does not stop it.
- Engine.UartContext.constructor stands for the zero-initialised static context.
  Its geometry is a placeholder (the default format of `config`), which nothing
  reads while the port is unconfigured.
- Fifo.BasicFifo.constructor requires `LENGTH >= 1`, because the source computes
  `LENGTH - 1` and reduces every cursor step modulo `LENGTH`.
