/** uart.sv as a whole: the serial FSMs, both FIFOs, the overflow flag and the command FSM. */
module UartTop {
  import opened Bits
  import opened BoundedQueue
  import opened FifoRamModel
  import opened UartSerial
  import opened CommandEngine

  datatype Top = Top(tick: Tick, rx: Rx, oflow: bool, rxQueue: Queue<Byte>, tx: Tx, txQueue: Queue<Byte>, eng: Regs)

  /** The outside world in one clock: the serial input, the CPU's register accesses (a read of the RX data
      register, a write of the TX one), the bus reply, and what the empty TX RAM happens to show. */
  datatype World = World(line: bool, cpuRead: bool, cpuWrite: bool, cpuData: Byte, busRdy: bool, busRdat: Word,
                         junk: Byte)

  /** Out of reset. */
  const POWER_UP: Top := Top(Tick(false, 0), RX_RESET, false, Queue([], None), TX_RESET, Queue([], None), RESET)

  predicate RxFull(t: Top) { |t.rxQueue.items| == DEPTH }

  predicate Arrives(t: Top) { RxWe(t.rx, t.tick.pulse) }

  /** The RX FIFO's ports: it is written only while the bus is not mastered. */
  function RxPort(t: Top, w: World): Input<Byte> {
    Input(!t.eng.busVld && Arrives(t), w.cpuRead, t.rx.shift)
  }

  /** The TX FIFO's ports: the command FSM takes them over while it masters the bus. */
  function TxPort(t: Top, w: World): Input<Byte> {
    Input(if t.eng.busVld then t.eng.txValid else w.cpuWrite, TxRe(t.tx, t.tick.pulse),
          if t.eng.busVld then t.eng.txData else w.cpuData)
  }

  function EngineIn(t: Top, w: World): In {
    In(Arrives(t), t.rx.shift, t.tick.pulse, w.busRdy, w.busRdat)
  }

  /** The hardware set wins over the clear-on-read. */
  function OverflowNext(t: Top, w: World): bool {
    if Arrives(t) && RxFull(t) then true else if w.cpuRead then false else t.oflow
  }

  function TxData(t: Top, w: World): Byte {
    if t.txQueue.items == [] then w.junk else t.txQueue.items[0]
  }

  function TopNext(t: Top, clks: nat, modulus: nat, w: World): Top {
    Top(TickNext(t.tick, clks, modulus), RxNext(t.rx, t.tick.pulse, w.line), OverflowNext(t, w),
        Next(t.rxQueue, DEPTH, RxPort(t, w)), TxNext(t.tx, t.tick.pulse, t.txQueue.items == [], TxData(t, w)),
        Next(t.txQueue, DEPTH, TxPort(t, w)), EngineNext(t.eng, EngineIn(t, w)))
  }

  class Uart {
    const clks: nat
    const modulus: nat
    const tickGen: TickGen
    const receiver: Receiver
    const transmitter: Transmitter
    const rxFifo: FifoRam<Byte>
    const txFifo: FifoRam<Byte>
    const engine: Engine
    var rxOflow: bool

    ghost predicate Valid()
      reads this, tickGen, receiver, transmitter, engine, rxFifo, rxFifo.mem, txFifo, txFifo.mem
    {
      && tickGen.clks == clks && tickGen.modulus == modulus
      && rxFifo.Valid() && rxFifo.depth == DEPTH && txFifo.Valid() && txFifo.depth == DEPTH
      && rxFifo != txFifo && rxFifo.mem != txFifo.mem
    }

    ghost function View(): Top
      requires Valid()
      reads this, tickGen, receiver, transmitter, engine, rxFifo, rxFifo.mem, txFifo, txFifo.mem
    {
      Top(tickGen.View(), receiver.View(), rxOflow, rxFifo.View(), transmitter.View(), txFifo.View(), engine.View())
    }

    constructor (clks: nat, modulus: nat)
      ensures Valid() && this.clks == clks && this.modulus == modulus
      ensures View() == POWER_UP
    {
      this.clks, this.modulus := clks, modulus;
      tickGen := new TickGen(clks, modulus);
      receiver := new Receiver();
      transmitter := new Transmitter();
      rxFifo := new FifoRam<Byte>(4);
      txFifo := new FifoRam<Byte>(4);
      engine := new Engine();
      rxOflow := false;
      assert Pow2(4) == 2 * Pow2(3) == 4 * Pow2(2);
    }

    /** The RX FIFO and the overflow flag; both look at the receiver before its own edge. */
    method ClockRxFifo(w: World)
      requires Valid()
      modifies rxFifo, rxFifo.mem, `rxOflow
      ensures Valid()
      ensures rxFifo.View() == Next(old(View()).rxQueue, DEPTH, RxPort(old(View()), w))
      ensures rxOflow == OverflowNext(old(View()), w)
    {
      hide Next, RxNext, Window;
      rxFifo.Outputs();
      var arrives := RxWe(receiver.View(), tickGen.pulse);
      if arrives && rxFifo.Full() {
        rxOflow := true;
      } else if w.cpuRead {
        rxOflow := false;
      }
      rxFifo.Clock(!engine.busVld && arrives, w.cpuRead, receiver.shift);
    }

    method ClockTx(w: World)
      requires Valid()
      modifies transmitter, txFifo, txFifo.mem
      ensures Valid()
      ensures var t := old(View());
              && transmitter.View() == TxNext(t.tx, t.tick.pulse, t.txQueue.items == [], TxData(t, w))
              && txFifo.View() == Next(t.txQueue, DEPTH, TxPort(t, w))
    {
      hide TxNext, Next;
      txFifo.Outputs();
      var open := engine.busVld;
      var data := if txFifo.empty then w.junk else txFifo.mem[txFifo.rdAddr];
      var re := transmitter.Clock(tickGen.pulse, txFifo.empty, data);
      txFifo.Clock(if open then engine.txValid else w.cpuWrite, re, if open then engine.txData else w.cpuData);
    }

    /** One rising clock edge. */
    method Clock(w: World)
      requires Valid()
      modifies this, tickGen, receiver, transmitter, engine, rxFifo, rxFifo.mem, txFifo, txFifo.mem
      ensures Valid()
      ensures View() == TopNext(old(View()), clks, modulus, w)
    {
      hide EngineNext, RxNext, TxNext, Next;
      var byte := receiver.shift;
      ClockTx(w);
      ClockRxFifo(w);
      var arrives := receiver.Clock(tickGen.pulse, w.line);
      engine.Clock(In(arrives, byte, tickGen.pulse, w.busRdy, w.busRdat));
      tickGen.Clock();
    }
  }
}

/** What becomes of every byte that arrives on the serial line. */
module RxPath {
  import opened Bits
  import opened BoundedQueue
  import opened UartSerial
  import opened CommandEngine
  import opened UartTop
  import opened Protocol

  function TopRun(t: Top, clks: nat, modulus: nat, ws: seq<World>): Top
    decreases |ws|
  {
    if ws == [] then t else TopRun(TopNext(t, clks, modulus, ws[0]), clks, modulus, ws[1..])
  }

  function Arriving(t: Top): seq<Byte> { if Arrives(t) then [t.rx.shift] else [] }

  /** Offered to the RX FIFO, and not taken by it. */
  function Offering(t: Top): seq<Byte> { if t.eng.busVld then [] else Arriving(t) }

  function Dropping(t: Top): seq<Byte> { if RxFull(t) then Offering(t) else [] }

  /** A CPU read clears the overflow flag unless the hardware sets it in the same clock. */
  predicate Clears(t: Top, w: World) { w.cpuRead && !(Arrives(t) && RxFull(t)) }

  /** The bytes dropped since the flag was last cleared, `lost` being those before the clocks `ws`. */
  function DroppedSinceClear(t: Top, clks: nat, modulus: nat, ws: seq<World>, lost: seq<Byte>): seq<Byte>
    decreases |ws|
  {
    if ws == [] then lost
    else DroppedSinceClear(TopNext(t, clks, modulus, ws[0]), clks, modulus, ws[1..],
                           if Clears(t, ws[0]) then [] else lost + Dropping(t))
  }

  /** No received byte is lost silently: with the flag down, nothing was dropped since it was last cleared. */
  lemma {:induction false} NoSilentLoss(t: Top, clks: nat, modulus: nat, ws: seq<World>, lost: seq<Byte>)
    requires lost != [] ==> t.oflow
    ensures !TopRun(t, clks, modulus, ws).oflow ==> DroppedSinceClear(t, clks, modulus, ws, lost) == []
    decreases |ws|
  {
    if ws == [] {
    } else {
      var t' := TopNext(t, clks, modulus, ws[0]);
      assert t'.oflow == OverflowNext(t, ws[0]);
      hide TopNext;
      NoSilentLoss(t', clks, modulus, ws[1..], if Clears(t, ws[0]) then [] else lost + Dropping(t));
    }
  }

  /** A byte that arrives, and whether a command session is open then. */
  datatype Arrival = Arrival(byte: Byte, open: bool)

  /** An arrival that finds the RX FIFO full. */
  function AtFull(t: Top): seq<Arrival> {
    if Arrives(t) && RxFull(t) then [Arrival(t.rx.shift, t.eng.busVld)] else []
  }

  /** All of them since the flag was last cleared, `found` being those before the clocks `ws`. */
  function FullSinceClear(t: Top, clks: nat, modulus: nat, ws: seq<World>, found: seq<Arrival>): seq<Arrival>
    decreases |ws|
  {
    if ws == [] then found
    else FullSinceClear(TopNext(t, clks, modulus, ws[0]), clks, modulus, ws[1..],
                        if Clears(t, ws[0]) then [] else found + AtFull(t))
  }

  /** The overflow flag is up if and only if a byte has found the FIFO full since the flag was last cleared. */
  lemma {:induction false} OverflowIff(t: Top, clks: nat, modulus: nat, ws: seq<World>, found: seq<Arrival>)
    requires t.oflow <==> found != []
    ensures TopRun(t, clks, modulus, ws).oflow <==> FullSinceClear(t, clks, modulus, ws, found) != []
    decreases |ws|
  {
    if ws == [] {
    } else {
      var t' := TopNext(t, clks, modulus, ws[0]);
      assert t'.oflow == OverflowNext(t, ws[0]);
      hide TopNext;
      OverflowIff(t', clks, modulus, ws[1..], if Clears(t, ws[0]) then [] else found + AtFull(t));
    }
  }

  /** The bytes that arrived with no session open. */
  function Outside(xs: seq<Arrival>): seq<Byte> {
    if xs == [] then [] else (if xs[0].open then [] else [xs[0].byte]) + Outside(xs[1..])
  }

  lemma {:induction false} OutsideJoin(a: seq<Arrival>, b: seq<Arrival>)
    ensures Outside(a + b) == Outside(a) + Outside(b)
    decreases |a|
  {
    if a == [] {
      assert a + b == b;
    } else {
      assert (a + b)[1..] == a[1..] + b;
      OutsideJoin(a[1..], b);
    }
  }

  lemma {:induction false} OutsideIff(xs: seq<Arrival>)
    ensures Outside(xs) != [] <==> exists k :: 0 <= k < |xs| && !xs[k].open
    decreases |xs|
  {
    if xs != [] {
      OutsideIff(xs[1..]);
      assert forall k :: 0 < k < |xs| ==> xs[k] == xs[1..][k - 1];
      if k :| 0 <= k < |xs[1..]| && !xs[1..][k].open {
        assert !xs[k + 1].open;
      }
    }
  }

  /** The bytes dropped are those among them that came outside a session. */
  lemma {:induction false} DroppedAreOutside(t: Top, clks: nat, modulus: nat, ws: seq<World>, found: seq<Arrival>)
    ensures DroppedSinceClear(t, clks, modulus, ws, Outside(found))
            == Outside(FullSinceClear(t, clks, modulus, ws, found))
    decreases |ws|
  {
    if ws == [] {
    } else {
      hide TopNext, Clears;
      OutsideJoin(found, AtFull(t));
      assert Outside(AtFull(t)) == Dropping(t);
      DroppedAreOutside(TopNext(t, clks, modulus, ws[0]), clks, modulus, ws[1..],
                        if Clears(t, ws[0]) then [] else found + AtFull(t));
    }
  }

  /** The flag says "something was dropped" truthfully, unless since it was last cleared bytes have found the FIFO
      full, but all of them during command sessions. */
  lemma TruthfulIff(t: Top, clks: nat, modulus: nat, ws: seq<World>, found: seq<Arrival>)
    requires t.oflow <==> found != []
    ensures var full := FullSinceClear(t, clks, modulus, ws, found);
            (TopRun(t, clks, modulus, ws).oflow <==> DroppedSinceClear(t, clks, modulus, ws, Outside(found)) != [])
            <==> (full == [] || exists k :: 0 <= k < |full| && !full[k].open)
  {
    OverflowIff(t, clks, modulus, ws, found);
    DroppedAreOutside(t, clks, modulus, ws, found);
    OutsideIff(FullSinceClear(t, clks, modulus, ws, found));
  }

  function Arrived(t: Top, clks: nat, modulus: nat, ws: seq<World>): seq<Byte>
    decreases |ws|
  {
    if ws == [] then [] else Arriving(t) + Arrived(TopNext(t, clks, modulus, ws[0]), clks, modulus, ws[1..])
  }

  function Offered(t: Top, clks: nat, modulus: nat, ws: seq<World>): seq<Byte>
    decreases |ws|
  {
    if ws == [] then [] else Offering(t) + Offered(TopNext(t, clks, modulus, ws[0]), clks, modulus, ws[1..])
  }

  function Dropped(t: Top, clks: nat, modulus: nat, ws: seq<World>): seq<Byte>
    decreases |ws|
  {
    if ws == [] then [] else Dropping(t) + Dropped(TopNext(t, clks, modulus, ws[0]), clks, modulus, ws[1..])
  }

  /** Where the conversation is after the clocks `ws`, told from arriving bytes, ticks and the bus's ready alone. */
  function DialogRun(t: Top, clks: nat, modulus: nat, ws: seq<World>, p: Dialog): Dialog
    decreases |ws|
  {
    if ws == [] then p else DialogRun(TopNext(t, clks, modulus, ws[0]), clks, modulus, ws[1..],
                                      Step(p, EngineIn(t, ws[0])))
  }

  function ArrivalNow(t: Top, open: bool): seq<Arrival> { if Arrives(t) then [Arrival(t.rx.shift, open)] else [] }

  /** Every arriving byte, and whether a session is open then by the rules of the protocol. */
  function Arrivals(t: Top, clks: nat, modulus: nat, ws: seq<World>, p: Dialog): seq<Arrival>
    decreases |ws|
  {
    if ws == [] then []
    else
      ArrivalNow(t, Open(p))
      + Arrivals(TopNext(t, clks, modulus, ws[0]), clks, modulus, ws[1..], Step(p, EngineIn(t, ws[0])))
  }

  /** The bytes that the command FSM has to do with: those of sessions, and each 0x12 that opens one. */
  function Inside(xs: seq<Arrival>): seq<Byte> {
    if xs == [] then [] else (if xs[0].open || xs[0].byte == C_SOP then [xs[0].byte] else []) + Inside(xs[1..])
  }

  function Bytes(xs: seq<Arrival>): seq<Byte> {
    if xs == [] then [] else [xs[0].byte] + Bytes(xs[1..])
  }

  /** One more arrival, or none, in front. */
  lemma InFront(t: Top, open: bool, xs: seq<Arrival>)
    ensures var x := ArrivalNow(t, open);
            && Bytes(x + xs) == Arriving(t) + Bytes(xs)
            && Outside(x + xs) == (if open then [] else Arriving(t)) + Outside(xs)
            && Inside(x + xs) == (if open || t.rx.shift == C_SOP then Arriving(t) else []) + Inside(xs)
  {
    var x := ArrivalNow(t, open);
    if x == [] {
      assert x + xs == xs;
    } else {
      assert (x + xs)[0] == x[0] && (x + xs)[1..] == xs;
    }
  }

  /** A byte that makes a difference to the command FSM, or may make one. */
  function Commanding(t: Top): seq<Byte> {
    if Arrives(t) && (t.eng.state != WaitSop || t.rx.shift == C_SOP) then [t.rx.shift] else []
  }

  function Commanded(t: Top, clks: nat, modulus: nat, ws: seq<World>): seq<Byte>
    decreases |ws|
  {
    if ws == [] then [] else Commanding(t) + Commanded(TopNext(t, clks, modulus, ws[0]), clks, modulus, ws[1..])
  }

  /** All other bytes leave it as it is. */
  lemma OthersIgnored(t: Top, w: World)
    requires Arrives(t) && Commanding(t) == []
    ensures EngineNext(t.eng, EngineIn(t, w)) == t.eng
  {
  }

  /** What the CPU takes out of the RX FIFO. */
  function ReadOut(t: Top, clks: nat, modulus: nat, ws: seq<World>): seq<Byte>
    decreases |ws|
  {
    if ws == [] then [] else
    Popped(t.rxQueue, RxPort(t, ws[0])) + ReadOut(TopNext(t, clks, modulus, ws[0]), clks, modulus, ws[1..])
  }

  lemma OpenStep(t: Top, w: World, p: Dialog)
    requires Session(t.eng) && Matches(p, t.eng)
    ensures var r, p' := EngineNext(t.eng, EngineIn(t, w)), Step(p, EngineIn(t, w));
            Session(r) && Matches(p', r) && (r.busVld <==> Open(p'))
  {
    FollowsStep(p, t.eng, EngineIn(t, w));
    SessionStep(t.eng, EngineIn(t, w));
    OpenIsRequested(Step(p, EngineIn(t, w)), EngineNext(t.eng, EngineIn(t, w)));
    hide EngineNext, Step;
  }

  /** Over any run, in order: the RX FIFO is offered the bytes that arrive with no session open, the opening 0x12
      included; the command FSM has to do with those that arrive in one, and that 0x12. What is a session is told by
      the protocol, from the bytes and their times; Protocol.FollowsFromReset: every reachable state matches it. */
  lemma {:induction false} Partitioned(t: Top, clks: nat, modulus: nat, ws: seq<World>, p: Dialog)
    requires Session(t.eng) && Matches(p, t.eng)
    ensures var xs := Arrivals(t, clks, modulus, ws, p);
            && Arrived(t, clks, modulus, ws) == Bytes(xs)
            && Offered(t, clks, modulus, ws) == Outside(xs)
            && Commanded(t, clks, modulus, ws) == Inside(xs)
    ensures var e, p' := TopRun(t, clks, modulus, ws).eng, DialogRun(t, clks, modulus, ws, p);
            Matches(p', e) && (e.busVld <==> Open(p'))
    decreases |ws|
  {
    OpenIsRequested(p, t.eng);
    if ws != [] {
      var t', p' := TopNext(t, clks, modulus, ws[0]), Step(p, EngineIn(t, ws[0]));
      OpenStep(t, ws[0], p);
      assert t'.eng == EngineNext(t.eng, EngineIn(t, ws[0]));
      assert Commanding(t) == if t.eng.busVld || t.rx.shift == C_SOP then Arriving(t) else [];
      hide TopNext, EngineNext, EngineIn, Step, Matches, Session;
      Partitioned(t', clks, modulus, ws[1..], p');
      InFront(t, Open(p), Arrivals(t', clks, modulus, ws[1..], p'));
      hide ArrivalNow, Commanding, Arriving, Outside, Inside, Bytes;
    }
  }

  /** What becomes of a byte that is offered to the RX FIFO: there is room for it, or it is dropped. */
  datatype Fate = Fate(byte: Byte, room: bool)

  function FateNow(t: Top): seq<Fate> {
    if !t.eng.busVld && Arrives(t) then [Fate(t.rx.shift, !RxFull(t))] else []
  }

  function Fates(t: Top, clks: nat, modulus: nat, ws: seq<World>): seq<Fate>
    decreases |ws|
  {
    if ws == [] then [] else FateNow(t) + Fates(TopNext(t, clks, modulus, ws[0]), clks, modulus, ws[1..])
  }

  function All(fs: seq<Fate>): seq<Byte> {
    if fs == [] then [] else [fs[0].byte] + All(fs[1..])
  }

  /** Those with room, and those without, each in order. */
  function Stored(fs: seq<Fate>): seq<Byte> {
    if fs == [] then [] else (if fs[0].room then [fs[0].byte] else []) + Stored(fs[1..])
  }

  function Lost(fs: seq<Fate>): seq<Byte> {
    if fs == [] then [] else (if fs[0].room then [] else [fs[0].byte]) + Lost(fs[1..])
  }

  lemma FateInFront(t: Top, fs: seq<Fate>)
    ensures All(FateNow(t) + fs) == Offering(t) + All(fs)
    ensures Lost(FateNow(t) + fs) == Dropping(t) + Lost(fs)
    ensures Stored(FateNow(t) + fs) == (if RxFull(t) then [] else Offering(t)) + Stored(fs)
  {
    var f := FateNow(t);
    if f == [] {
      assert f + fs == fs;
    } else {
      assert (f + fs)[0] == f[0] && (f + fs)[1..] == fs;
    }
  }

  /** Every byte offered to the RX FIFO is dropped, read by the CPU, or still there: in order, over any run, the CPU
      reads exactly the offered bytes that found room,
          less those still there. AllStored: without drops these are all. */
  lemma {:induction false} ReadInOrder(t: Top, clks: nat, modulus: nat, ws: seq<World>)
    requires |t.rxQueue.items| <= DEPTH
    ensures var fs := Fates(t, clks, modulus, ws);
            && Offered(t, clks, modulus, ws) == All(fs) && Dropped(t, clks, modulus, ws) == Lost(fs)
            && t.rxQueue.items + Stored(fs)
               == ReadOut(t, clks, modulus, ws) + TopRun(t, clks, modulus, ws).rxQueue.items
    decreases |ws|
  {
    if ws != [] {
      var t' := TopNext(t, clks, modulus, ws[0]);
      var fs, now := Fates(t', clks, modulus, ws[1..]), if RxFull(t) then [] else Offering(t);
      QueueClock(t, clks, modulus, ws[0]);
      FateInFront(t, fs);
      hide TopNext, Offering, Dropping, Popped, FateNow, All, Stored, Lost, RxPort;
      ReadInOrder(t', clks, modulus, ws[1..]);
      Telescope(t.rxQueue.items, now, Popped(t.rxQueue, RxPort(t, ws[0])), t'.rxQueue.items, Stored(fs),
                ReadOut(t', clks, modulus, ws[1..]), TopRun(t', clks, modulus, ws[1..]).rxQueue.items);
    }
  }

  lemma QueueClock(t: Top, clks: nat, modulus: nat, w: World)
    requires |t.rxQueue.items| <= DEPTH
    ensures var t', pop := TopNext(t, clks, modulus, w), Popped(t.rxQueue, RxPort(t, w));
            && |t'.rxQueue.items| <= DEPTH
            && t.rxQueue.items + (if RxFull(t) then [] else Offering(t)) == pop + t'.rxQueue.items
  {
    var t' := TopNext(t, clks, modulus, w);
    var q, i := t.rxQueue, RxPort(t, w);
    assert t'.rxQueue == Next(q, DEPTH, i);
    assert Pushed(q, DEPTH, i) == if RxFull(t) then [] else Offering(t);
    StepConserves(q, DEPTH, i);
  }

  /** Where none is dropped, those with room are all. */
  lemma {:induction false} AllStored(fs: seq<Fate>)
    requires Lost(fs) == []
    ensures Stored(fs) == All(fs)
    decreases |fs|
  {
    if fs != [] {
      AllStored(fs[1..]);
    }
  }

  /** ... and as a balance: none is dropped and kept, or neither. */
  lemma Balanced(t: Top, clks: nat, modulus: nat, ws: seq<World>)
    requires |t.rxQueue.items| <= DEPTH
    ensures multiset(t.rxQueue.items) + multiset(Offered(t, clks, modulus, ws))
            == multiset(ReadOut(t, clks, modulus, ws)) + multiset(Dropped(t, clks, modulus, ws))
               + multiset(TopRun(t, clks, modulus, ws).rxQueue.items)
  {
    var fs := Fates(t, clks, modulus, ws);
    ReadInOrder(t, clks, modulus, ws);
    EachOnce(fs);
    hide *;
    Multisets(t.rxQueue.items, Stored(fs), ReadOut(t, clks, modulus, ws), TopRun(t, clks, modulus, ws).rxQueue.items);
    Shares(multiset(t.rxQueue.items), multiset(All(fs)), multiset(Stored(fs)), multiset(ReadOut(t, clks, modulus, ws)),
           multiset(Lost(fs)), multiset(TopRun(t, clks, modulus, ws).rxQueue.items));
  }

  lemma {:induction false} EachOnce(fs: seq<Fate>)
    ensures multiset(All(fs)) == multiset(Stored(fs)) + multiset(Lost(fs))
    decreases |fs|
  {
    if fs != [] {
      EachOnce(fs[1..]);
    }
  }

  lemma Shares(a: multiset<Byte>, o: multiset<Byte>, u: multiset<Byte>, p: multiset<Byte>, d: multiset<Byte>,
               b: multiset<Byte>)
    requires a + u == p + b && o == u + d
    ensures a + o == p + d + b
  {
    assert a + o == (a + u) + d;
    assert p + d + b == (p + b) + d;
  }

  lemma Multisets(a: seq<Byte>, b: seq<Byte>, c: seq<Byte>, d: seq<Byte>)
    requires a + b == c + d
    ensures multiset(a) + multiset(b) == multiset(c) + multiset(d)
  {
    assert multiset(a + b) == multiset(c + d);
  }

  /** A session opens with an arriving 0x12, which the RX FIFO is still offered, and closes with an arriving
      0x14 between commands or with a timeout. */
  lemma SessionEdges(r: Regs, i: In)
    requires Session(r)
    ensures !r.busVld && EngineNext(r, i).busVld <==> r.state == WaitSop && i.rxValid && i.rxData == C_SOP
    ensures r.busVld && !EngineNext(r, i).busVld <==>
            r.state == Timeout || (r.state == WaitCmd && i.rxValid && i.rxData == C_EOP)
  {
  }
}
