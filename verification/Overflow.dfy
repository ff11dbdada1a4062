/** A run from reset in which the overflow flag comes up although nothing is dropped. */
module OverflowFromReset {
  import opened Bits
  import opened BoundedQueue
  import opened UartSerial
  import opened CommandEngine
  import opened UartTop
  import opened RxPath
  import Line = RxTiming
  import RxBounds
  import Wire = WireToMemory

  const CLKS: nat := Line.NUM_1US_CLKS
  const MODULUS: nat := Line.CNT_MODULUS

  predicate Unread(ws: seq<World>) { forall w :: w in ws ==> !w.cpuRead }

  /** The receiver of the whole module is that of RxTiming. */
  lemma {:induction false} Heard(t: Top, ws: seq<World>)
    ensures Arrived(t, CLKS, MODULUS, ws) == Line.Heard(Wire.Ear(t), Wire.Lines(ws))
    ensures Wire.Ear(TopRun(t, CLKS, MODULUS, ws)) == Line.SysRun(Wire.Ear(t), Wire.Lines(ws))
    decreases |ws|
  {
    if ws != [] {
      hide EngineNext, RxNext, TxNext, TickNext;
      assert Wire.Lines(ws)[1..] == Wire.Lines(ws[1..]);
      Heard(TopNext(t, CLKS, MODULUS, ws[0]), ws[1..]);
    }
  }

  lemma {:induction false} Split(t: Top, a: seq<World>, b: seq<World>, found: seq<Arrival>)
    ensures var m := TopRun(t, CLKS, MODULUS, a);
            && TopRun(t, CLKS, MODULUS, a + b) == TopRun(m, CLKS, MODULUS, b)
            && Arrived(t, CLKS, MODULUS, a + b) == Arrived(t, CLKS, MODULUS, a) + Arrived(m, CLKS, MODULUS, b)
            && FullSinceClear(t, CLKS, MODULUS, a + b, found)
               == FullSinceClear(m, CLKS, MODULUS, b, FullSinceClear(t, CLKS, MODULUS, a, found))
    decreases |a|
  {
    hide TopNext, AtFull, Clears;
    if a == [] {
      assert a + b == b;
    } else {
      assert (a + b)[1..] == a[1..] + b;
      Split(TopNext(t, CLKS, MODULUS, a[0]), a[1..], b, if Clears(t, a[0]) then [] else found + AtFull(t));
    }
  }

  /** One clock without a CPU read. */
  lemma UnreadClock(t: Top, w: World)
    requires !w.cpuRead && |t.rxQueue.items| <= DEPTH
    ensures var t' := TopNext(t, CLKS, MODULUS, w);
            && t'.rxQueue.items == t.rxQueue.items + (if RxFull(t) then [] else Offering(t))
            && (t'.oflow <==> t.oflow || AtFull(t) != []) && !Clears(t, w)
  {
    hide EngineNext, RxNext, TxNext, TickNext;
  }

  lemma EngineClock(t: Top, w: World)
    ensures TopNext(t, CLKS, MODULUS, w).eng == EngineNext(t.eng, EngineIn(t, w))
  {
    hide EngineNext, RxNext, TxNext, TickNext, Next;
  }

  /** Nothing arrives. */
  lemma {:induction false} Silence(t: Top, ws: seq<World>, found: seq<Arrival>)
    requires Unread(ws) && Arrived(t, CLKS, MODULUS, ws) == [] && |t.rxQueue.items| <= DEPTH
    ensures var e := TopRun(t, CLKS, MODULUS, ws);
            && e.oflow == t.oflow && e.rxQueue.items == t.rxQueue.items
            && FullSinceClear(t, CLKS, MODULUS, ws, found) == found
            && (t.eng.state == WaitCmd && t.eng.busVld ==> e.eng == t.eng)
    decreases |ws|
  {
    if ws != [] {
      UnreadClock(t, ws[0]);
      EngineClock(t, ws[0]);
      assert t.eng.state == WaitCmd ==> EngineNext(t.eng, EngineIn(t, ws[0])) == t.eng;
      hide TopNext, EngineNext;
      assert found + [] == found;
      Silence(TopNext(t, CLKS, MODULUS, ws[0]), ws[1..], found);
    }
  }

  /** With no session open, and room for them, bytes other than 0x12 pile up in the RX FIFO. */
  lemma {:induction false} Piling(t: Top, ws: seq<World>, found: seq<Arrival>)
    requires Unread(ws) && Session(t.eng) && t.eng.state == WaitSop
    requires C_SOP !in Arrived(t, CLKS, MODULUS, ws)
    requires |t.rxQueue.items| + |Arrived(t, CLKS, MODULUS, ws)| <= DEPTH
    ensures var e := TopRun(t, CLKS, MODULUS, ws);
            && e.eng == t.eng && e.oflow == t.oflow && FullSinceClear(t, CLKS, MODULUS, ws, found) == found
            && e.rxQueue.items == t.rxQueue.items + Arrived(t, CLKS, MODULUS, ws)
    decreases |ws|
  {
    if ws != [] {
      var t' := TopNext(t, CLKS, MODULUS, ws[0]);
      UnreadClock(t, ws[0]);
      EngineClock(t, ws[0]);
      var now := Arriving(t);
      assert now != [] ==> now[0] in Arrived(t, CLKS, MODULUS, ws);
      assert EngineNext(t.eng, EngineIn(t, ws[0])) == t.eng;
      assert AtFull(t) == [] && Offering(t) == now;
      hide TopNext, EngineNext, Offering, AtFull, Clears, Session, Arriving;
      assert found + [] == found;
      Piling(t', ws[1..], found);
      Bits.Regroup(t.rxQueue.items, now, Arrived(t', CLKS, MODULUS, ws[1..]));
    }
  }

  /** A 0x12 opens a session, and takes the last place in the FIFO. */
  lemma {:induction false} Opening(t: Top, ws: seq<World>, found: seq<Arrival>)
    requires Unread(ws) && Session(t.eng) && t.eng.state == WaitSop && |t.rxQueue.items| == DEPTH - 1
    requires Arrived(t, CLKS, MODULUS, ws) == [C_SOP]
    ensures var e := TopRun(t, CLKS, MODULUS, ws);
            && e.eng.state == WaitCmd && e.eng.busVld && RxFull(e) && e.oflow == t.oflow
            && FullSinceClear(t, CLKS, MODULUS, ws, found) == found
    decreases |ws|
  {
    var t' := TopNext(t, CLKS, MODULUS, ws[0]);
    UnreadClock(t, ws[0]);
    EngineClock(t, ws[0]);
    assert found + [] == found && AtFull(t) == [];
    if Arrives(t) {
      assert Arrived(t, CLKS, MODULUS, ws) == [t.rx.shift] + Arrived(t', CLKS, MODULUS, ws[1..]);
      assert Arrived(t, CLKS, MODULUS, ws)[0] == t.rx.shift;
      assert t'.eng.state == WaitCmd && t'.eng.busVld;
      hide TopNext, EngineNext, Clears, Session;
      Silence(t', ws[1..], found);
    } else {
      assert t'.eng == t.eng;
      hide TopNext, EngineNext, Clears, Session;
      Opening(t', ws[1..], found);
    }
  }

  /** The next byte finds the FIFO full. */
  lemma {:induction false} OneTooMany(t: Top, ws: seq<World>, found: seq<Arrival>, b: Byte)
    requires Unread(ws) && t.eng.state == WaitCmd && t.eng.busVld && RxFull(t) && Arrived(t, CLKS, MODULUS, ws) == [b]
    ensures TopRun(t, CLKS, MODULUS, ws).oflow
    ensures FullSinceClear(t, CLKS, MODULUS, ws, found) == found + [Arrival(b, true)]
    decreases |ws|
  {
    var t' := TopNext(t, CLKS, MODULUS, ws[0]);
    UnreadClock(t, ws[0]);
    EngineClock(t, ws[0]);
    if Arrives(t) {
      assert Arrived(t, CLKS, MODULUS, ws) == [t.rx.shift] + Arrived(t', CLKS, MODULUS, ws[1..]);
      assert Arrived(t, CLKS, MODULUS, ws)[0] == t.rx.shift;
      hide TopNext, EngineNext, Clears;
      Silence(t', ws[1..], found + [Arrival(b, true)]);
    } else {
      assert t'.eng == t.eng;
      hide TopNext, EngineNext, Clears;
      assert found + [] == found;
      OneTooMany(t', ws[1..], found, b);
    }
  }

  /** Bytes on the line at 694.4 clocks a bit (115200 baud at 80 MHz), while the CPU does nothing. */
  function Sending(bs: seq<Byte>): (xs: seq<Line.Sending>)
    ensures (forall x :: x in xs ==> Line.InTolerance(x)) && Line.Payload(xs) == bs
    ensures forall x :: x in xs ==> x.quiet == 0 && |x.frame| == 6944
  {
    if bs == [] then []
    else
      var frame := RxBounds.FrameOf(bs[0], 694.4, 0.0);
      Line.FrameIsLegible(frame, bs[0], 694.4, 0.0);
      [Line.Sending(frame, bs[0], 0)] + Sending(bs[1..])
  }

  function Idle(line: seq<bool>): (ws: seq<World>)
    ensures Unread(ws) && Wire.Lines(ws) == line
  {
    seq(|line|, k requires 0 <= k < |line| => World(line[k], false, false, 0, false, ZERO, 0))
  }

  lemma Receives(t: Top, bs: seq<Byte>) returns (ws: seq<World>)
    requires Line.Listening(Wire.Ear(t))
    ensures Unread(ws) && Arrived(t, CLKS, MODULUS, ws) == bs
    ensures Line.Listening(Wire.Ear(TopRun(t, CLKS, MODULUS, ws)))
  {
    var xs := Sending(bs);
    ws := Idle(Line.OnWire(xs));
    Heard(t, ws);
    Line.StreamHeard(Wire.Ear(t), xs);
  }

  /** From reset: any fifteen bytes that the CPU leaves unread, a 0x12, and one more byte. The flag is up, and nothing
      has been dropped. */
  lemma FlagWithoutLoss(unread: seq<Byte>, b: Byte) returns (ws: seq<World>)
    requires |unread| == DEPTH - 1 && C_SOP !in unread
    ensures Arrived(POWER_UP, CLKS, MODULUS, ws) == unread + [C_SOP] + [b]
    ensures TopRun(POWER_UP, CLKS, MODULUS, ws).oflow && DroppedSinceClear(POWER_UP, CLKS, MODULUS, ws, []) == []
  {
    hide TopNext, TopRun, Arrived, FullSinceClear, EngineNext;
    SessionFromReset();
    var ws1 := Receives(POWER_UP, unread);
    Piling(POWER_UP, ws1, []);
    var t1 := TopRun(POWER_UP, CLKS, MODULUS, ws1);
    assert [] + unread == unread;
    var ws2 := Receives(t1, [C_SOP]);
    Opening(t1, ws2, []);
    var t2 := TopRun(t1, CLKS, MODULUS, ws2);
    var ws3 := Receives(t2, [b]);
    OneTooMany(t2, ws3, [], b);
    Split(POWER_UP, ws1, ws2, []);
    Split(POWER_UP, ws1 + ws2, ws3, []);
    ws := ws1 + ws2 + ws3;
    DroppedAreOutside(POWER_UP, CLKS, MODULUS, ws, []);
    assert [] + [Arrival(b, true)] == [Arrival(b, true)];
  }
}
