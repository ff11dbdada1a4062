/** Two whole UARTs, the serial output of one wired to the serial input of the other. */
module TwoBoards {
  import opened Bits
  import opened BoundedQueue
  import opened UartSerial
  import opened SerialLink
  import opened CommandEngine
  import Top = UartTop
  import Rx = RxPath

  /** The transmit path of `a` and the receive path of `b`. */
  function Between(a: Top.Top, b: Top.Top): Link { Link(a.tick, a.tx, a.txQueue, b.tick, b.rx) }

  /** What drives the transmit path of `a` in one clock. */
  function DriveOf(a: Top.Top, w: Top.World): Drive { Drive(Top.TxPort(a, w).we, Top.TxPort(a, w).din, w.junk) }

  function Drives(a: Top.Top, clks: nat, modulus: nat, ws: seq<Top.World>): seq<Drive>
    decreases |ws|
  {
    if ws == [] then [] else [DriveOf(a, ws[0])] + Drives(Top.TopNext(a, clks, modulus, ws[0]), clks, modulus, ws[1..])
  }

  /** The clocks `others` of `b`, with the line driven by `a` in its clocks `ws`. */
  function FedBy(a: Top.Top, clks: nat, modulus: nat, ws: seq<Top.World>, others: seq<Top.World>): (fed: seq<Top.World>)
    requires |others| == |ws|
    ensures |fed| == |ws|
    decreases |ws|
  {
    if ws == [] then []
    else
      [others[0].(line := a.tx.line)]
      + FedBy(Top.TopNext(a, clks, modulus, ws[0]), clks, modulus, ws[1..], others[1..])
  }

  /** The bytes that the TX FIFO of `a` accepts. */
  function TakenToSend(a: Top.Top, clks: nat, modulus: nat, ws: seq<Top.World>): seq<Byte>
    decreases |ws|
  {
    if ws == [] then []
    else
      Pushed(a.txQueue, DEPTH, Top.TxPort(a, ws[0]))
      + TakenToSend(Top.TopNext(a, clks, modulus, ws[0]), clks, modulus, ws[1..])
  }

  lemma OneClock(a: Top.Top, b: Top.Top, clks: nat, modulus: nat, w: Top.World, v: Top.World)
    requires v.line == a.tx.line
    ensures Between(Top.TopNext(a, clks, modulus, w), Top.TopNext(b, clks, modulus, v))
            == LinkNext(Between(a, b), clks, modulus, DriveOf(a, w))
    ensures Pushed(Between(a, b).queue, DEPTH, Port(Between(a, b), DriveOf(a, w)))
            == Pushed(a.txQueue, DEPTH, Top.TxPort(a, w))
    ensures Delivered(Between(a, b)) == Rx.Arriving(b)
  {
    hide EngineNext, TickNext, RxNext, TxNext, Next;
  }

  /** The two modules contain the serial link. */
  lemma {:induction false} Contains(a: Top.Top, b: Top.Top, clks: nat, modulus: nat, ws: seq<Top.World>,
                                    others: seq<Top.World>)
    requires |others| == |ws|
    ensures var l, ds, fed := Between(a, b), Drives(a, clks, modulus, ws), FedBy(a, clks, modulus, ws, others);
            && LinkRun(l, clks, modulus, ds)
                 == Between(Rx.TopRun(a, clks, modulus, ws), Rx.TopRun(b, clks, modulus, fed))
            && Sent(l, clks, modulus, ds) == TakenToSend(a, clks, modulus, ws)
            && Received(l, clks, modulus, ds) == Rx.Arrived(b, clks, modulus, fed)
    decreases |ws|
  {
    if ws != [] {
      var fed, ds := FedBy(a, clks, modulus, ws, others), Drives(a, clks, modulus, ws);
      OneClock(a, b, clks, modulus, ws[0], fed[0]);
      var a', b' := Top.TopNext(a, clks, modulus, ws[0]), Top.TopNext(b, clks, modulus, fed[0]);
      assert fed[1..] == FedBy(a', clks, modulus, ws[1..], others[1..])
          && ds[1..] == Drives(a', clks, modulus, ws[1..]);
      hide Top.TopNext, LinkNext, Between, DriveOf, Port, Pushed, Delivered;
      Contains(a', b', clks, modulus, ws[1..], others[1..]);
    }
  }

  /** Whatever board `a` accepts for sending arrives at board `b`, in order, but for what is still on its way. */
  lemma AcrossTheLine(a: Top.Top, b: Top.Top, clks: nat, modulus: nat, ws: seq<Top.World>, others: seq<Top.World>)
    requires |others| == |ws| && LinkInv(Between(a, b), clks, modulus)
    ensures var fed := FedBy(a, clks, modulus, ws, others);
            var after := Between(Rx.TopRun(a, clks, modulus, ws), Rx.TopRun(b, clks, modulus, fed));
            && LinkInv(after, clks, modulus)
            && Pending(Between(a, b)) + TakenToSend(a, clks, modulus, ws)
                 == Rx.Arrived(b, clks, modulus, fed) + Pending(after)
  {
    hide *;
    Contains(a, b, clks, modulus, ws, others);
    Lossless(Between(a, b), clks, modulus, Drives(a, clks, modulus, ws));
  }

  /** Out of reset, whenever each board left it, the link is in order. */
  lemma FromPowerUp(a: Top.Top, b: Top.Top, clks: nat, modulus: nat)
    requires 2 <= clks <= modulus && TickOk(a.tick, clks, modulus) && TickOk(b.tick, clks, modulus)
    requires a.tx == Top.POWER_UP.tx && a.txQueue == Top.POWER_UP.txQueue && b.rx == Top.POWER_UP.rx
    ensures LinkInv(Between(a, b), clks, modulus) && Pending(Between(a, b)) == []
  {
    LosslessFromReset(Between(a, b), clks, modulus, []);
  }

  /** The bytes that the CPU of `a` writes and the TX FIFO takes, outside command sessions. */
  function WrittenByCpu(a: Top.Top, clks: nat, modulus: nat, ws: seq<Top.World>): seq<Byte>
    decreases |ws|
  {
    if ws == [] then []
    else (if ws[0].cpuWrite && !a.eng.busVld && |a.txQueue.items| < DEPTH then [ws[0].cpuData] else [])
         + WrittenByCpu(Top.TopNext(a, clks, modulus, ws[0]), clks, modulus, ws[1..])
  }

  /** With no 0x12 arriving no session opens, and all that arrives is the CPU's. */
  lemma {:induction false} NoSession(t: Top.Top, clks: nat, modulus: nat, ws: seq<Top.World>)
    requires Session(t.eng) && !t.eng.busVld && C_SOP !in Rx.Arrived(t, clks, modulus, ws)
    ensures Rx.Offered(t, clks, modulus, ws) == Rx.Arrived(t, clks, modulus, ws)
    ensures TakenToSend(t, clks, modulus, ws) == WrittenByCpu(t, clks, modulus, ws)
    decreases |ws|
  {
    if ws != [] {
      var t' := Top.TopNext(t, clks, modulus, ws[0]);
      assert t'.eng == EngineNext(t.eng, Top.EngineIn(t, ws[0]));
      var now := Rx.Arriving(t);
      assert now != [] ==> now[0] in Rx.Arrived(t, clks, modulus, ws);
      assert t'.eng == t.eng;
      assert forall b :: b in Rx.Arrived(t', clks, modulus, ws[1..]) ==> b in Rx.Arrived(t, clks, modulus, ws);
      assert Rx.Offering(t) == now;
      hide Top.TopNext, EngineNext, Rx.Arriving, Rx.Offering, Session;
      NoSession(t', clks, modulus, ws[1..]);
    }
  }

  /** From CPU to CPU, with no 0x12 among the bytes: what the CPU of `a` has written arrives at the RX FIFO of `b`, in
      order, but for what is still on its way; and what the CPU of `b` has read is, in order, what has found room there,
      but for what is still in the FIFO. */
  lemma FromCpuToCpu(a: Top.Top, b: Top.Top, clks: nat, modulus: nat, ws: seq<Top.World>, others: seq<Top.World>)
    requires |others| == |ws| && LinkInv(Between(a, b), clks, modulus)
    requires Session(a.eng) && Session(b.eng) && !a.eng.busVld && !b.eng.busVld
    requires a.txQueue.items == [] && b.rxQueue.items == []
    requires C_SOP !in Rx.Arrived(a, clks, modulus, ws) && C_SOP !in WrittenByCpu(a, clks, modulus, ws)
    ensures var fed := FedBy(a, clks, modulus, ws, others);
            var a', b' := Rx.TopRun(a, clks, modulus, ws), Rx.TopRun(b, clks, modulus, fed);
            var fates := Rx.Fates(b, clks, modulus, fed);
            && WrittenByCpu(a, clks, modulus, ws) == Rx.All(fates) + Pending(Between(a', b'))
            && Rx.Stored(fates) == Rx.ReadOut(b, clks, modulus, fed) + b'.rxQueue.items
            && (Rx.Dropped(b, clks, modulus, fed) == [] ==> Rx.Stored(fates) == Rx.All(fates))
  {
    var fed := FedBy(a, clks, modulus, ws, others);
    assert Pending(Between(a, b)) == [];
    hide *;
    NoSession(a, clks, modulus, ws);
    AcrossTheLine(a, b, clks, modulus, ws, others);
    var sent, heard := WrittenByCpu(a, clks, modulus, ws), Rx.Arrived(b, clks, modulus, fed);
    assert [] + sent == sent;
    assert forall k :: 0 <= k < |heard| ==> heard[k] == sent[k];
    NoSession(b, clks, modulus, fed);
    Rx.ReadInOrder(b, clks, modulus, fed);
    var stored := Rx.Stored(Rx.Fates(b, clks, modulus, fed));
    assert [] + stored == stored;
    if Rx.Dropped(b, clks, modulus, fed) == [] {
      Rx.AllStored(Rx.Fates(b, clks, modulus, fed));
    }
  }
}
