/** uart.sv: the time base, the two serial FSMs and the states they share. */
module UartSerial {
  import opened Bits

  // State codes of the source: D0..D7 are 0..7.
  const STOP: nat := 8
  const IDLE: nat := 14
  const START: nat := 15

  /** The depth of both FIFOs. */
  const DEPTH: nat := 16

  /** The 1us tick generator; `clks` is NUM_1US_CLKS, `modulus` what its counter wraps at. */
  datatype Tick = Tick(pulse: bool, cnt: nat)

  function TickNext(t: Tick, clks: nat, modulus: nat): Tick {
    Tick(t.cnt + 1 == clks, if t.pulse || t.cnt + 1 == modulus then 0 else t.cnt + 1)
  }

  predicate TickOk(t: Tick, clks: nat, modulus: nat) {
    && 2 <= clks <= modulus
    && if t.pulse then t.cnt == (if clks < modulus then clks else 0) else t.cnt < clks
  }

  /** Clocks since the last pulse: 0 in the clock after a pulse, `clks` in the clock of the next one. */
  function Phase(t: Tick, clks: nat): nat {
    if t.pulse then clks else t.cnt
  }

  /** A pulse comes exactly every `clks` + 1 clocks, whether or not the counter wraps on the way. */
  lemma TickPeriod(t: Tick, clks: nat, modulus: nat)
    requires TickOk(t, clks, modulus)
    ensures TickOk(TickNext(t, clks, modulus), clks, modulus)
    ensures t.pulse <==> Phase(t, clks) == clks
    ensures Phase(TickNext(t, clks, modulus), clks) == if t.pulse then 0 else Phase(t, clks) + 1
  {
  }

  /** RX_WAIT_*: what the tick counter is loaded with on entry to state `k` (D0..D7, STOP). */
  function RxWait(k: nat): nat
    requires k <= STOP
  {
    if k == 0 then 13 else if k == 1 || k == 4 || k == 7 then 7 else 8
  }

  /** TX_WAIT_* likewise, for START, D0..D7 and STOP. */
  function TxWait(k: nat): nat
    requires k <= STOP || k == START
  {
    if k == START then 9 else if k == 0 || k == 3 || k == 6 then 7 else 8
  }

  /** A four-bit counter counting down. */
  function Dec(cnt: nat): nat {
    if cnt == 0 then 15 else cnt - 1
  }

  /** Receiver registers: the two synchroniser flops, the FSM, its tick counter and the shift register. */
  datatype Rx = Rx(ff0: bool, ff1: bool, state: nat, cnt: nat, shift: Byte)

  const RX_RESET := Rx(true, true, IDLE, 0, 0)

  /** {bit, shift[7:1]} */
  function ShiftIn(shift: Byte, bit: bool): Byte {
    (shift >> 1) | if bit then 0x80 else 0
  }

  predicate RxWe(r: Rx, tick: bool) { tick && r.cnt == 0 && r.state == STOP }

  function RxNext(r: Rx, tick: bool, line: bool): Rx {
    var s := r.(ff0 := line, ff1 := r.ff0);
    if r.state == IDLE then s.(cnt := RxWait(0), state := if r.ff1 then IDLE else 0)
    else if !tick then s
    else if r.cnt != 0 then s.(cnt := Dec(r.cnt))
    else if r.state == STOP then s.(cnt := Dec(r.cnt), state := IDLE)
    else if r.state < STOP then s.(cnt := RxWait(r.state + 1), state := r.state + 1, shift := ShiftIn(r.shift, r.ff1))
    else s.(cnt := Dec(r.cnt), shift := ShiftIn(r.shift, r.ff1))
  }

  /** Transmitter registers: the FSM, its tick counter and the line driver. */
  datatype Tx = Tx(state: nat, cnt: nat, line: bool)

  const TX_RESET := Tx(IDLE, 0, true)

  predicate TxRe(t: Tx, tick: bool) { tick && t.cnt == 0 && t.state == STOP }

  function TxNext(t: Tx, tick: bool, fifoEmpty: bool, data: Byte): Tx {
    if t.state == IDLE then Tx(if fifoEmpty then IDLE else START, TxWait(START), true)
    else if !tick then t
    else if t.cnt != 0 then t.(cnt := Dec(t.cnt), line := if t.state == START then false else t.line)
    else if t.state == START then Tx(0, TxWait(0), Bit(data, 0))
    else if t.state < 7 then Tx(t.state + 1, TxWait(t.state + 1), Bit(data, t.state + 1))
    else if t.state == 7 then Tx(STOP, TxWait(STOP), true)
    else if t.state == STOP then t.(cnt := Dec(t.cnt), state := IDLE)
    else t.(cnt := Dec(t.cnt))
  }

  class TickGen {
    const clks: nat
    const modulus: nat
    var pulse: bool
    var cnt: nat

    function View(): Tick
      reads this
    {
      Tick(pulse, cnt)
    }

    constructor (clks: nat, modulus: nat)
      ensures View() == Tick(false, 0) && this.clks == clks && this.modulus == modulus
    {
      this.clks, this.modulus := clks, modulus;
      pulse, cnt := false, 0;
    }

    method Clock()
      modifies this
      ensures View() == TickNext(old(View()), clks, modulus)
    {
      var wasPulse := pulse;
      pulse := cnt + 1 == clks;
      cnt := if wasPulse || cnt + 1 == modulus then 0 else cnt + 1;
    }
  }

  class Receiver {
    var ff0: bool
    var ff1: bool
    var state: nat
    var cnt: nat
    var shift: Byte

    function View(): Rx
      reads this
    {
      Rx(ff0, ff1, state, cnt, shift)
    }

    constructor ()
      ensures View() == RX_RESET
    {
      ff0, ff1, state, cnt, shift := true, true, IDLE, 0, 0;
    }

    /** One rising clock edge; `we` is the RX FIFO write enable during the clock that ends with it. */
    method Clock(tick: bool, line: bool) returns (we: bool)
      modifies this
      ensures View() == RxNext(old(View()), tick, line)
      ensures we == RxWe(old(View()), tick)
    {
      var sync := ff1;
      var nextBit := tick && cnt == 0;
      we := nextBit && state == STOP;
      ff0, ff1 := line, ff0;
      if tick && state != IDLE {
        cnt := Dec(cnt);
      }
      if state == IDLE {
        cnt := RxWait(0);
        if !sync {
          state := 0;
        }
      } else if state == STOP {
        if nextBit {
          state := IDLE;
        }
      } else if nextBit {
        shift := ShiftIn(shift, sync);
        if state < STOP {
          cnt := RxWait(state + 1);
          state := state + 1;
        }
      }
    }
  }

  class Transmitter {
    var state: nat
    var cnt: nat
    var line: bool

    function View(): Tx
      reads this
    {
      Tx(state, cnt, line)
    }

    constructor ()
      ensures View() == TX_RESET
    {
      state, cnt, line := IDLE, 0, true;
    }

    /** One rising clock edge; `re` is the TX FIFO read enable during the clock that ends with it. */
    method Clock(tick: bool, fifoEmpty: bool, data: Byte) returns (re: bool)
      modifies this
      ensures View() == TxNext(old(View()), tick, fifoEmpty, data)
      ensures re == TxRe(old(View()), tick)
    {
      var nextBit := tick && cnt == 0;
      re := nextBit && state == STOP;
      if tick && state != IDLE {
        cnt := Dec(cnt);
      }
      if state == IDLE {
        line, cnt := true, TxWait(START);
        if !fifoEmpty {
          state := START;
        }
      } else if state == START {
        if tick {
          line := false;
          if nextBit {
            line, cnt, state := Bit(data, 0), TxWait(0), 0;
          }
        }
      } else if nextBit {
        if state < 7 {
          line, cnt, state := Bit(data, state + 1), TxWait(state + 1), state + 1;
        } else if state == 7 {
          line, cnt, state := true, TxWait(STOP), STOP;
        } else if state == STOP {
          state := IDLE;
        }
      }
    }
  }
}

/** A transmitter with its FIFO wired to a receiver; both run from one clock, each with its own tick. */
module SerialLink {
  import opened Bits
  import opened BoundedQueue
  import opened UartSerial

  datatype Link = Link(txTick: Tick, tx: Tx, queue: Queue<Byte>, rxTick: Tick, rx: Rx)

  /** What drives one clock: the FIFO write port, and the FIFO look-ahead output while the FIFO is empty. */
  datatype Drive = Drive(we: bool, din: Byte, junk: Byte)

  function Head(l: Link, d: Drive): Byte {
    if l.queue.items == [] then d.junk else l.queue.items[0]
  }

  function Port(l: Link, d: Drive): Input<Byte> {
    Input(d.we, TxRe(l.tx, l.txTick.pulse), d.din)
  }

  function LinkNext(l: Link, clks: nat, modulus: nat, d: Drive): Link {
    Link(TickNext(l.txTick, clks, modulus),
         TxNext(l.tx, l.txTick.pulse, l.queue.items == [], Head(l, d)),
         Next(l.queue, DEPTH, Port(l, d)),
         TickNext(l.rxTick, clks, modulus),
         RxNext(l.rx, l.rxTick.pulse, l.tx.line))
  }

  /** What the receiver hands to its FIFO in this clock. */
  function Delivered(l: Link): seq<Byte> {
    if RxWe(l.rx, l.rxTick.pulse) then [l.rx.shift] else []
  }

  /** Transmit ticks since the frame was requested, by state. */
  function TxBase(k: nat): nat
    requires k <= STOP || k == START
  {
    if k == START then 0 else if k < 3 then 10 + 9 * k - (if k == 0 then 0 else 1)
    else if k < 6 then 36 + 9 * (k - 3) - (if k == 3 then 0 else 1)
    else 62 + 9 * (k - 6) - (if k == 6 then 0 else 1)
  }

  function TxAge(t: Tx): nat
    requires TxStateOk(t)
  {
    if t.state == IDLE then 0 else TxBase(t.state) + TxWait(t.state) - t.cnt
  }

  predicate TxStateOk(t: Tx) {
    t.state == IDLE || ((t.state <= STOP || t.state == START) && t.cnt <= TxWait(t.state))
  }

  /** The cell of the frame that the line is in `age` ticks after the request: 0 before START, 1 START,
      2..9 the data bits, 10 STOP. */
  function Cell(age: int): nat {
    if age < 1 then 0 else if age < 10 then 1 else if age < 18 then 2 else if age < 27 then 3 else if age < 36 then 4
    else if age < 44 then 5 else if age < 53 then 6 else if age < 62 then 7 else if age < 70 then 8
    else if age < 79 then 9 else 10
  }

  predicate Level(d: Byte, cell: nat)
    requires cell <= 10
  {
    if cell == 0 || cell == 10 then true else if cell == 1 then false else Bit(d, cell - 2)
  }

  predicate Wave(d: Byte, age: int) { Level(d, Cell(age)) }

  /** The transmitter counts its ticks from the request on; the frame, and with it the byte's stay in the
      FIFO, ends with tick 88. */
  lemma TxFollowsTicks(t: Tx, tick: bool, empty: bool, d: Byte)
    requires TxStateOk(t) && t.state != IDLE
    ensures var t' := TxNext(t, tick, empty, d);
            && TxStateOk(t') && TxAge(t) <= 87
            && (TxRe(t, tick) <==> tick && TxAge(t) == 87) && (t'.state == IDLE <==> TxRe(t, tick))
            && (t'.state != IDLE ==> TxAge(t') == if tick then TxAge(t) + 1 else TxAge(t))
  {
  }

  /** The line is a function of the ticks since the frame was requested. */
  lemma TxFollowsWave(t: Tx, tick: bool, empty: bool, d: Byte)
    requires TxStateOk(t) && t.state != IDLE && t.line == Wave(d, TxAge(t))
    ensures TxNext(t, tick, empty, d).line == Wave(d, if tick then TxAge(t) + 1 else TxAge(t))
  {
    hide Bit;
    assert Cell(TxAge(t)) == if t.state == START then (if t.cnt == 9 then 0 else 1) else t.state + 2;
    if tick {
      assert Cell(TxAge(t) + 1) == if t.state == START then (if t.cnt == 0 then 2 else 1)
                                   else if t.cnt == 0 && t.state < STOP then t.state + 3 else t.state + 2;
    }
  }

  /** Receive ticks from the start-bit detection to the entry of state `k`; `k` = 9 is the return to IDLE. */
  function RxBase(k: nat): nat
    requires k <= STOP + 1
  {
    if k == 0 then 0 else if k == 1 then 14 else if k < 5 then 4 + 9 * k else if k < 8 then 3 + 9 * k else 2 + 9 * k
  }

  predicate RxStateOk(r: Rx) {
    r.state == IDLE || (r.state <= STOP && r.cnt <= RxWait(r.state))
  }

  function RxAge(r: Rx): nat
    requires RxStateOk(r) && r.state != IDLE
  {
    RxBase(r.state) + RxWait(r.state) - r.cnt
  }

  /** The receiver counts its ticks from the detection on, samples bit `k` on tick RxBase(k + 1), and is
      back in IDLE with tick 83. */
  lemma RxFollowsTicks(r: Rx, tick: bool, line: bool)
    requires RxStateOk(r) && r.state != IDLE
    ensures var r' := RxNext(r, tick, line);
            && RxStateOk(r') && RxAge(r) <= 82
            && (RxWe(r, tick) <==> tick && RxAge(r) == 82) && (r'.state == IDLE <==> RxWe(r, tick))
            && (r'.state != IDLE ==> RxAge(r') == if tick then RxAge(r) + 1 else RxAge(r))
            && (if tick && r.cnt == 0 && r.state < STOP
                then
                  && r'.state == r.state + 1 && RxAge(r) == RxBase(r.state + 1) - 1
                  && r'.shift == ShiftIn(r.shift, r.ff1)
                else r'.shift == r.shift && (r'.state == r.state || r'.state == IDLE))
  {
  }

  /** Around the tick that samples bit `k` the line has carried that bit for a while, and still does. */
  lemma SampleInCell(d: Byte, k: nat, age: nat)
    requires k < 8 && RxBase(k + 1) - 2 <= age <= RxBase(k + 1) + 2
    ensures Wave(d, age) == Bit(d, k)
  {
  }

  /** The low `k` bits of `d` have been shifted in from the top. */
  predicate Collected(shift: Byte, k: nat, d: Byte)
    requires k <= 8
  {
    match k
    case 0 => true
    case 1 => shift >> 7 == d & 0x01
    case 2 => shift >> 6 == d & 0x03
    case 3 => shift >> 5 == d & 0x07
    case 4 => shift >> 4 == d & 0x0F
    case 5 => shift >> 3 == d & 0x1F
    case 6 => shift >> 2 == d & 0x3F
    case 7 => shift >> 1 == d & 0x7F
    case 8 => shift == d
  }

  lemma Collect(shift: Byte, k: nat, d: Byte)
    requires k < 8 && Collected(shift, k, d)
    ensures Collected(ShiftIn(shift, Bit(d, k)), k + 1, d)
  {
  }

  /** `gap` receive ticks more than transmit ticks since the line fell, with `y` and `p` clocks since the
      last tick of each: as times, the receiver is at most 3 clocks behind and less than a tick ahead. */
  predicate InStep(gap: int, period: nat, y: nat, p: nat) {
    && -2 <= gap <= 1
    && var ahead: int :=
         if gap == -2 then -2 * period else if gap == -1 then 0 - period else if gap == 0 then 0 else period;
    -3 <= ahead + y - p <= period - 4
  }

  lemma InStepNext(gap: int, period: nat, y: nat, p: nat, y': nat, p': nat)
    requires period >= 3 && y < period && p < period && InStep(gap, period, y, p)
    requires y' == (if y == period - 1 then 0 else y + 1) && p' == if p == period - 1 then 0 else p + 1
    ensures InStep(gap + (if y == period - 1 then 1 else 0) - (if p == period - 1 then 1 else 0), period, y', p')
  {
  }

  /** The frame is on the line: from the falling edge of START to the end of STOP. */
  predicate OnLine(t: Tx)
    requires TxStateOk(t)
  {
    t.state != IDLE && TxAge(t) >= 1
  }

  /** The byte being sent is already with the receiver. */
  predicate Handed(l: Link) { l.tx.state == STOP && l.rx.state == IDLE }

  /** Bytes accepted by the FIFO that the receiver has not delivered yet, oldest first. */
  function Pending(l: Link): seq<Byte> {
    if Handed(l) && l.queue.items != [] then l.queue.items[1..] else l.queue.items
  }

  predicate TxInv(l: Link, clks: nat, modulus: nat) {
    && TickOk(l.txTick, clks, modulus) && TickOk(l.rxTick, clks, modulus)
    && |l.queue.items| <= DEPTH
    && TxStateOk(l.tx) && RxStateOk(l.rx)
    && (l.tx.state != IDLE ==> l.queue.items != [])
    && l.tx.line == (l.tx.state == IDLE || Wave(l.queue.items[0], TxAge(l.tx)))
  }

  /** The synchroniser shows the line of one and two clocks ago. */
  predicate SyncInv(l: Link, clks: nat)
    requires TxStateOk(l.tx)
    requires l.tx.state != IDLE ==> l.queue.items != []
  {
    if OnLine(l.tx) then
      var d, a, p := l.queue.items[0], TxAge(l.tx), Phase(l.txTick, clks);
      && l.rx.ff0 == Wave(d, if p >= 1 then a else a - 1)
      && l.rx.ff1 == Wave(d, if p >= 2 then a else a - 1)
    else l.rx.ff0 && l.rx.ff1
  }

  predicate RxInv(l: Link, clks: nat)
    requires TxStateOk(l.tx) && RxStateOk(l.rx)
    requires l.tx.state != IDLE ==> l.queue.items != []
  {
    if !OnLine(l.tx) then l.rx.state == IDLE
    else if l.rx.state == IDLE then
      TxAge(l.tx) >= 80 || (TxAge(l.tx) == 1 && Phase(l.txTick, clks) <= 2)
    else
      && InStep(RxAge(l.rx) - TxAge(l.tx) + 1, clks + 1, Phase(l.rxTick, clks), Phase(l.txTick, clks))
      && Collected(l.rx.shift, l.rx.state, l.queue.items[0])
  }

  predicate LinkInv(l: Link, clks: nat, modulus: nat) {
    TxInv(l, clks, modulus) && SyncInv(l, clks) && RxInv(l, clks)
  }

  lemma TxStep(l: Link, clks: nat, modulus: nat, d: Drive)
    requires TxInv(l, clks, modulus)
    ensures TxInv(LinkNext(l, clks, modulus, d), clks, modulus)
  {
    TickPeriod(l.txTick, clks, modulus);
    TickPeriod(l.rxTick, clks, modulus);
    if l.tx.state != IDLE {
      TxFollowsTicks(l.tx, l.txTick.pulse, l.queue.items == [], Head(l, d));
      TxFollowsWave(l.tx, l.txTick.pulse, l.queue.items == [], Head(l, d));
    }
    if l.rx.state != IDLE {
      RxFollowsTicks(l.rx, l.rxTick.pulse, l.tx.line);
    }
  }

  /** Ticks, ages and the byte at the head of the FIFO from one clock of a frame to the next. */
  lemma FrameStep(l: Link, clks: nat, modulus: nat, d: Drive)
    requires TxInv(l, clks, modulus) && l.tx.state != IDLE
    ensures var l', p := LinkNext(l, clks, modulus, d), Phase(l.txTick, clks);
            && TxStateOk(l'.tx) && TxAge(l.tx) <= 87 && Phase(l'.txTick, clks) == (if p == clks then 0 else p + 1)
            && (l'.tx.state == IDLE <==> p == clks && TxAge(l.tx) == 87)
            && (l'.tx.state != IDLE ==>
                 && TxAge(l'.tx) == (if p == clks then TxAge(l.tx) + 1 else TxAge(l.tx))
                 && l'.queue.items != [] && l'.queue.items[0] == l.queue.items[0])
  {
    TickPeriod(l.txTick, clks, modulus);
    TxFollowsTicks(l.tx, l.txTick.pulse, l.queue.items == [], Head(l, d));
  }

  /** The wave one clock ago, and two, from one clock to the next. */
  lemma WaveDelays(d: Byte, a: nat, p: nat, a': nat, p': nat, clks: nat)
    requires p <= clks && clks >= 2
    requires if p == clks then a' == a + 1 && p' == 0 else a' == a && p' == p + 1
    ensures Wave(d, if p' >= 1 then a' else a' - 1) == Wave(d, a)
    ensures Wave(d, if p' >= 2 then a' else a' - 1) == Wave(d, if p >= 1 then a else a - 1)
  {
  }

  lemma Synchronises(r: Rx, tick: bool, line: bool)
    ensures RxNext(r, tick, line).ff0 == line && RxNext(r, tick, line).ff1 == r.ff0
  {
  }

  lemma SyncStep(l: Link, clks: nat, modulus: nat, d: Drive)
    requires TxInv(l, clks, modulus) && SyncInv(l, clks)
    requires TxInv(LinkNext(l, clks, modulus, d), clks, modulus)
    ensures SyncInv(LinkNext(l, clks, modulus, d), clks)
  {
    var l' := LinkNext(l, clks, modulus, d);
    Synchronises(l.rx, l.rxTick.pulse, l.tx.line);
    if l.tx.state == IDLE {
      assert !OnLine(l'.tx);
    } else {
      var b, a, p := l.queue.items[0], TxAge(l.tx), Phase(l.txTick, clks);
      var a', p' := if p == clks then a + 1 else a, if p == clks then 0 else p + 1;
      SyncInFrame(l, clks);
      WaveDelays(b, a, p, a', p', clks);
      FrameStep(l, clks, modulus, d);
      if l'.tx.state == IDLE {
        assert Cell(87) == 10 && Cell(86) == 10;
      } else if a' == 0 {
        assert Cell(0) == 0 && Cell(-1) == 0;
      } else {
        assert OnLine(l'.tx) && l'.queue.items[0] == b;
      }
    }
  }

  /** Before the line falls, too, the synchroniser shows the (high) line of one and two clocks ago. */
  lemma SyncInFrame(l: Link, clks: nat)
    requires TxStateOk(l.tx) && l.tx.state != IDLE && l.queue.items != []
    requires SyncInv(l, clks)
    ensures l.rx.ff0 == Wave(l.queue.items[0], if Phase(l.txTick, clks) >= 1 then TxAge(l.tx) else TxAge(l.tx) - 1)
  {
    if !OnLine(l.tx) {
      assert Cell(0) == 0 && Cell(-1) == 0;
    }
  }

  /** While a frame is being received its byte is still at the head of the FIFO. */
  lemma ReceivingIsSending(l: Link, clks: nat, modulus: nat)
    requires LinkInv(l, clks, modulus) && l.rx.state != IDLE
    ensures OnLine(l.tx) && TxAge(l.tx) <= 85
  {
    RxFollowsTicks(l.rx, l.rxTick.pulse, l.tx.line);
  }

  lemma ReceiveInStep(l: Link, clks: nat, modulus: nat, d: Drive)
    requires LinkInv(l, clks, modulus) && l.rx.state != IDLE
    ensures var l' := LinkNext(l, clks, modulus, d);
            && TxStateOk(l'.tx) && OnLine(l'.tx) && RxStateOk(l'.rx)
            && (l'.rx.state == IDLE ==> TxAge(l'.tx) >= 80)
            && (l'.rx.state != IDLE ==>
                InStep(RxAge(l'.rx) - TxAge(l'.tx) + 1, clks + 1, Phase(l'.rxTick, clks), Phase(l'.txTick, clks)))
  {
    var l' := LinkNext(l, clks, modulus, d);
    TickPeriod(l.txTick, clks, modulus);
    TickPeriod(l.rxTick, clks, modulus);
    ReceivingIsSending(l, clks, modulus);
    FrameStep(l, clks, modulus, d);
    RxFollowsTicks(l.rx, l.rxTick.pulse, l.tx.line);
    InStepNext(RxAge(l.rx) - TxAge(l.tx) + 1, clks + 1, Phase(l.rxTick, clks), Phase(l.txTick, clks),
               Phase(l'.rxTick, clks), Phase(l'.txTick, clks));
  }

  lemma ReceiveCollects(l: Link, clks: nat, modulus: nat, d: Drive)
    requires LinkInv(l, clks, modulus) && l.rx.state != IDLE
    ensures var r' := LinkNext(l, clks, modulus, d).rx;
            if r'.state == IDLE then l.rx.shift == l.queue.items[0]
            else r'.state <= STOP && Collected(r'.shift, r'.state, l.queue.items[0])
  {
    RxFollowsTicks(l.rx, l.rxTick.pulse, l.tx.line);
    ReceivingIsSending(l, clks, modulus);
    if l.rxTick.pulse && l.rx.cnt == 0 && l.rx.state < STOP {
      var a, b := TxAge(l.tx), l.queue.items[0];
      SampleInCell(b, l.rx.state, if Phase(l.txTick, clks) >= 2 then a else a - 1);
      Collect(l.rx.shift, l.rx.state, b);
    }
  }

  lemma ReceiveStep(l: Link, clks: nat, modulus: nat, d: Drive)
    requires LinkInv(l, clks, modulus) && l.rx.state != IDLE
    requires TxInv(LinkNext(l, clks, modulus, d), clks, modulus)
    ensures RxInv(LinkNext(l, clks, modulus, d), clks)
    ensures RxWe(l.rx, l.rxTick.pulse) ==> l.rx.shift == l.queue.items[0]
  {
    ReceivingIsSending(l, clks, modulus);
    FrameStep(l, clks, modulus, d);
    ReceiveInStep(l, clks, modulus, d);
    ReceiveCollects(l, clks, modulus, d);
  }

  lemma WaitStep(l: Link, clks: nat, modulus: nat, d: Drive)
    requires LinkInv(l, clks, modulus) && l.rx.state == IDLE
    requires TxInv(LinkNext(l, clks, modulus, d), clks, modulus)
    ensures RxInv(LinkNext(l, clks, modulus, d), clks)
  {
    TickPeriod(l.txTick, clks, modulus);
    TickPeriod(l.rxTick, clks, modulus);
    if l.tx.state != IDLE {
      TxFollowsTicks(l.tx, l.txTick.pulse, l.queue.items == [], Head(l, d));
    }
  }

  /** What is pending changes by what the FIFO accepts and what the receiver delivers. */
  lemma PendingStep(l: Link, clks: nat, modulus: nat, d: Drive)
    requires LinkInv(l, clks, modulus) && LinkInv(LinkNext(l, clks, modulus, d), clks, modulus)
    requires RxWe(l.rx, l.rxTick.pulse) ==> l.rx.state != IDLE && l.rx.shift == l.queue.items[0]
    ensures Pending(l) + Pushed(l.queue, DEPTH, Port(l, d)) == Delivered(l) + Pending(LinkNext(l, clks, modulus, d))
  {
    if l.rx.state != IDLE {
      ReceivingIsSending(l, clks, modulus);
    }
  }

  /** One clock keeps the invariant, and whatever the FIFO accepts is delivered later, in order, once. */
  lemma LinkStep(l: Link, clks: nat, modulus: nat, d: Drive)
    requires LinkInv(l, clks, modulus)
    ensures var l' := LinkNext(l, clks, modulus, d);
            && LinkInv(l', clks, modulus)
            && Pending(l) + Pushed(l.queue, DEPTH, Port(l, d)) == Delivered(l) + Pending(l')
  {
    TxStep(l, clks, modulus, d);
    SyncStep(l, clks, modulus, d);
    if l.rx.state == IDLE {
      WaitStep(l, clks, modulus, d);
    } else {
      ReceiveStep(l, clks, modulus, d);
    }
    hide LinkNext, Pending, Port, Delivered;
    PendingStep(l, clks, modulus, d);
  }

  /** Both ends idle and the line high, each tick generator anywhere in its period. */
  predicate Start(l: Link, clks: nat, modulus: nat) {
    && TickOk(l.txTick, clks, modulus) && TickOk(l.rxTick, clks, modulus)
    && l.tx == TX_RESET && l.queue.items == []
    && l.rx.state == IDLE && l.rx.ff0 && l.rx.ff1
  }

  function LinkRun(l: Link, clks: nat, modulus: nat, ds: seq<Drive>): Link
    decreases |ds|
  {
    if ds == [] then l else LinkRun(LinkNext(l, clks, modulus, ds[0]), clks, modulus, ds[1..])
  }

  /** The bytes the TX FIFO accepts during the clocks `ds`. */
  function Sent(l: Link, clks: nat, modulus: nat, ds: seq<Drive>): seq<Byte>
    decreases |ds|
  {
    if ds == [] then [] else
    Pushed(l.queue, DEPTH, Port(l, ds[0])) + Sent(LinkNext(l, clks, modulus, ds[0]), clks, modulus, ds[1..])
  }

  /** The bytes the receiver delivers during the clocks `ds`. */
  function Received(l: Link, clks: nat, modulus: nat, ds: seq<Drive>): seq<Byte>
    decreases |ds|
  {
    if ds == [] then [] else Delivered(l) + Received(LinkNext(l, clks, modulus, ds[0]), clks, modulus, ds[1..])
  }

  /** The serial link loses, invents and reorders nothing, whatever the phase between the two ticks. */
  lemma {:induction false} Lossless(l: Link, clks: nat, modulus: nat, ds: seq<Drive>)
    requires LinkInv(l, clks, modulus)
    ensures LinkInv(LinkRun(l, clks, modulus, ds), clks, modulus)
    ensures Pending(l) + Sent(l, clks, modulus, ds)
            == Received(l, clks, modulus, ds) + Pending(LinkRun(l, clks, modulus, ds))
    decreases |ds|
  {
    if ds == [] {
    } else {
      var l' := LinkNext(l, clks, modulus, ds[0]);
      LinkStep(l, clks, modulus, ds[0]);
      Lossless(l', clks, modulus, ds[1..]);
      Telescope(Pending(l), Pushed(l.queue, DEPTH, Port(l, ds[0])), Delivered(l), Pending(l'),
                Sent(l', clks, modulus, ds[1..]),
                Received(l', clks, modulus, ds[1..]), Pending(LinkRun(l', clks, modulus, ds[1..])));
    }
  }

  /** From reset: the receiver has delivered exactly the accepted bytes, less at most a FIFO full. */
  lemma LosslessFromReset(l: Link, clks: nat, modulus: nat, ds: seq<Drive>)
    requires Start(l, clks, modulus)
    ensures LinkInv(l, clks, modulus)
    ensures Received(l, clks, modulus, ds) <= Sent(l, clks, modulus, ds)
    ensures |Sent(l, clks, modulus, ds)| <= |Received(l, clks, modulus, ds)| + DEPTH
  {
    Lossless(l, clks, modulus, ds);
    assert Pending(l) + Sent(l, clks, modulus, ds) == Sent(l, clks, modulus, ds);
  }

  /** Clocks until a transmitter with `n` bytes in its FIFO has sent them all, `age` ticks and `phase` clocks
      into a frame, or idle. */
  function ClocksToSend(idle: bool, n: int, age: int, phase: int, period: int): int {
    var frame := 88 * period + 1;
    if idle then n * frame else (n - 1) * frame + (88 - age) * period - phase
  }

  /** Clocks until the transmitter has emptied its FIFO, if nothing more is written. */
  function Work(l: Link, clks: nat): int
    requires TxStateOk(l.tx)
  {
    ClocksToSend(l.tx.state == IDLE, |l.queue.items|, TxAge(l.tx), Phase(l.txTick, clks), clks + 1)
  }

  lemma RequestCounts(n: int, phase: nat, period: int)
    ensures ClocksToSend(false, n, 0, phase, period) < ClocksToSend(true, n, 0, 0, period)
  {
    assert n * (88 * period + 1) == (n - 1) * (88 * period + 1) + (88 * period + 1);
  }

  lemma TickCounts(n: int, age: int, period: int)
    ensures ClocksToSend(false, n, age + 1, 0, period) < ClocksToSend(false, n, age, period - 1, period)
  {
    assert (88 - age) * period == (88 - (age + 1)) * period + period;
  }

  lemma WorkStep(l: Link, clks: nat, modulus: nat, d: Drive)
    requires TxInv(l, clks, modulus) && !d.we && l.queue.items != []
    requires TxStateOk(LinkNext(l, clks, modulus, d).tx)
    ensures Work(LinkNext(l, clks, modulus, d), clks) < Work(l, clks)
  {
    var l' := LinkNext(l, clks, modulus, d);
    var n, period := |l.queue.items|, clks + 1;
    if l.tx.state == IDLE {
      RequestCounts(n, Phase(l'.txTick, clks), period);
      hide ClocksToSend;
      QueueWaits(l, clks, modulus, d);
    } else {
      FrameStep(l, clks, modulus, d);
      QueueWaits(l, clks, modulus, d);
      hide LinkNext, TxNext, Phase;
      if l'.tx.state != IDLE && Phase(l.txTick, clks) == clks {
        TickCounts(n, TxAge(l.tx), period);
      }
    }
  }

  /** Without a write the FIFO changes only when a frame ends. */
  lemma QueueWaits(l: Link, clks: nat, modulus: nat, d: Drive)
    requires TxInv(l, clks, modulus) && !d.we && l.queue.items != []
    ensures var l' := LinkNext(l, clks, modulus, d);
            if l.tx.state == IDLE then |l'.queue.items| == |l.queue.items| && l'.tx == Tx(START, TxWait(START), true)
            else |l'.queue.items| == |l.queue.items| - if l'.tx.state == IDLE then 1 else 0
  {
    if l.tx.state != IDLE {
      TxFollowsTicks(l.tx, l.txTick.pulse, l.queue.items == [], Head(l, d));
    }
  }

  lemma WorkNonNegative(l: Link, clks: nat, modulus: nat)
    requires TxInv(l, clks, modulus)
    ensures Work(l, clks) >= 0
    ensures l.queue.items != [] ==> Work(l, clks) > 0
  {
    var n, frame := |l.queue.items|, 88 * (clks + 1) + 1;
    if l.tx.state == IDLE {
      if n > 0 {
        AtLeastOnce(n, frame);
      }
    } else {
      TickPeriod(l.txTick, clks, modulus);
      TxFollowsTicks(l.tx, false, false, 0);
      if n > 1 {
        AtLeastOnce(n - 1, frame);
      }
      AtLeastOnce(88 - TxAge(l.tx), clks + 1);
    }
  }

  lemma AtLeastOnce(n: nat, x: nat)
    requires n >= 1
    ensures n * x >= x
  {
  }

  /** Every byte gets through: once writing stops, all pending bytes are delivered within Work(l) clocks. */
  lemma {:induction false} Drains(l: Link, clks: nat, modulus: nat, ds: seq<Drive>)
    requires LinkInv(l, clks, modulus) && (forall d :: d in ds ==> !d.we) && |ds| >= Work(l, clks)
    ensures LinkRun(l, clks, modulus, ds).queue.items == []
    ensures Received(l, clks, modulus, ds) == Pending(l)
    decreases |ds|
  {
    WorkNonNegative(l, clks, modulus);
    if l.queue.items == [] {
      StaysEmpty(l, clks, modulus, ds);
    } else {
      var l' := LinkNext(l, clks, modulus, ds[0]);
      LinkStep(l, clks, modulus, ds[0]);
      WorkStep(l, clks, modulus, ds[0]);
      Drains(l', clks, modulus, ds[1..]);
      assert Pending(l) + [] == Delivered(l) + Pending(l');
    }
  }

  lemma {:induction false} StaysEmpty(l: Link, clks: nat, modulus: nat, ds: seq<Drive>)
    requires LinkInv(l, clks, modulus) && (forall d :: d in ds ==> !d.we) && l.queue.items == []
    ensures LinkRun(l, clks, modulus, ds).queue.items == [] && Received(l, clks, modulus, ds) == []
    decreases |ds|
  {
    if ds == [] {
    } else {
      LinkStep(l, clks, modulus, ds[0]);
      StaysEmpty(LinkNext(l, clks, modulus, ds[0]), clks, modulus, ds[1..]);
    }
  }

  lemma {:induction false} LinkExtend(l: Link, clks: nat, modulus: nat, ds: seq<Drive>, d: Drive)
    ensures var m := LinkRun(l, clks, modulus, ds);
            && LinkRun(l, clks, modulus, ds + [d]) == LinkNext(m, clks, modulus, d)
            && Sent(l, clks, modulus, ds + [d]) == Sent(l, clks, modulus, ds) + Pushed(m.queue, DEPTH, Port(m, d))
            && Received(l, clks, modulus, ds + [d]) == Received(l, clks, modulus, ds) + Delivered(m)
    decreases |ds|
  {
    hide LinkNext, Pushed, Port, Delivered;
    if ds == [] {
      assert [d][1..] == [];
    } else {
      var l' := LinkNext(l, clks, modulus, ds[0]);
      assert (ds + [d])[1..] == ds[1..] + [d];
      LinkExtend(l', clks, modulus, ds[1..], d);
    }
  }
}

/** The modules of the transmit path wired to those of a receiver, as between two boards. */
module SerialLinkDevices {
  import opened Bits
  import opened BoundedQueue
  import opened FifoRamModel
  import opened UartSerial
  import opened SerialLink

  class Wiring {
    const clks: nat
    const modulus: nat
    const txTick: TickGen
    const tx: Transmitter
    const fifo: FifoRam<Byte>
    const rxTick: TickGen
    const rx: Receiver

    ghost predicate Valid()
      reads this, txTick, tx, fifo, fifo.mem, rxTick, rx
    {
      && txTick != rxTick
      && txTick.clks == rxTick.clks == clks && txTick.modulus == rxTick.modulus == modulus
      && fifo.Valid() && fifo.depth == DEPTH
    }

    ghost function View(): Link
      requires Valid()
      reads this, txTick, tx, fifo, fifo.mem, rxTick, rx
    {
      Link(txTick.View(), tx.View(), fifo.View(), rxTick.View(), rx.View())
    }

    /** The receiving board left reset `skew` clocks before the sending one. */
    constructor (clks: nat, modulus: nat, skew: nat)
      requires 2 <= clks <= modulus
      ensures Valid() && this.clks == clks && this.modulus == modulus && Start(View(), clks, modulus)
      ensures fresh(txTick) && fresh(tx) && fresh(fifo) && fresh(fifo.mem) && fresh(rxTick) && fresh(rx)
    {
      var early := new TickGen(clks, modulus);
      var ear := new Receiver();
      for k := 0 to skew
        invariant TickOk(early.View(), clks, modulus) && early.clks == clks && early.modulus == modulus
        invariant ear.state == IDLE && ear.ff0 && ear.ff1
        invariant fresh(ear) && fresh(early)
      {
        TickPeriod(early.View(), clks, modulus);
        var _ := ear.Clock(early.pulse, true);
        early.Clock();
      }
      this.clks, this.modulus, rxTick, rx := clks, modulus, early, ear;
      txTick := new TickGen(clks, modulus);
      tx := new Transmitter();
      fifo := new FifoRam<Byte>(4);
      assert Pow2(4) == 2 * Pow2(3) == 4 * Pow2(2);
    }

    method ClockSender(d: Drive) returns (sent: seq<Byte>)
      requires Valid()
      modifies txTick, tx, fifo, fifo.mem
      ensures Valid()
      ensures var l := old(View());
              && txTick.View() == TickNext(l.txTick, clks, modulus)
              && tx.View() == TxNext(l.tx, l.txTick.pulse, l.queue.items == [], Head(l, d))
              && fifo.View() == Next(l.queue, DEPTH, Port(l, d))
              && sent == Pushed(l.queue, DEPTH, Port(l, d))
    {
      fifo.Outputs();
      var data := if fifo.empty then d.junk else fifo.mem[fifo.rdAddr];
      sent := if d.we && !fifo.Full() then [d.din] else [];
      var re := tx.Clock(txTick.pulse, fifo.empty, data);
      fifo.Clock(d.we, re, d.din);
      txTick.Clock();
    }

    method ClockReceiver(line: bool) returns (received: seq<Byte>)
      requires Valid()
      modifies rxTick, rx
      ensures Valid()
      ensures var l := old(View());
              && rxTick.View() == TickNext(l.rxTick, clks, modulus)
              && rx.View() == RxNext(l.rx, l.rxTick.pulse, line)
              && received == Delivered(l)
    {
      received := [rx.shift];
      var we := rx.Clock(rxTick.pulse, line);
      if !we {
        received := [];
      }
      rxTick.Clock();
    }

    /** One clock of everything; `sent` and `received` are what it put into the FIFO and what the
        receiver pushed. */
    method Clock(d: Drive) returns (sent: seq<Byte>, received: seq<Byte>)
      requires Valid()
      modifies txTick, tx, fifo, fifo.mem, rxTick, rx
      ensures Valid()
      ensures View() == LinkNext(old(View()), clks, modulus, d)
      ensures sent == Pushed(old(View()).queue, DEPTH, Port(old(View()), d))
      ensures received == Delivered(old(View()))
    {
      received := ClockReceiver(tx.line);
      sent := ClockSender(d);
    }
  }

  /** Everything the sending board accepted arrives, in order, but for what is still in its FIFO. */
  method Transfer(clks: nat, modulus: nat, skew: nat, trace: seq<Drive>)
    returns (sent: seq<Byte>, received: seq<Byte>)
    requires 2 <= clks <= modulus
    ensures received <= sent && |sent| <= |received| + 16
  {
    var w := new Wiring(clks, modulus, skew);
    sent, received := [], [];
    ghost var l0 := w.View();
    assert LinkRun(l0, clks, modulus, []) == l0 && Sent(l0, clks, modulus, []) == [] == Received(l0, clks, modulus, []);
    hide LinkNext, LinkInv, Port, Delivered, Pushed, LinkRun, Sent, Received;
    assert trace[..0] == [];
    for k := 0 to |trace|
      invariant fresh(w.txTick) && fresh(w.tx) && fresh(w.fifo) && fresh(w.fifo.mem) && fresh(w.rxTick) && fresh(w.rx)
      invariant w.Valid() && w.clks == clks && w.modulus == modulus
      invariant w.View() == LinkRun(l0, clks, modulus, trace[..k])
      invariant sent == Sent(l0, clks, modulus, trace[..k])
      invariant received == Received(l0, clks, modulus, trace[..k])
    {
      LinkExtend(l0, clks, modulus, trace[..k], trace[k]);
      assert trace[..k + 1] == trace[..k] + [trace[k]];
      var s, r := w.Clock(trace[k]);
      sent, received := sent + s, received + r;
    }
    assert trace[..|trace|] == trace;
    LosslessFromReset(l0, clks, modulus, trace);
  }
}
