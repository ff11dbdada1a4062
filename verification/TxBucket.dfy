/** The TX FIFO with the transmitter behind it: a leaky bucket that holds sixteen frames' worth of clocks. */
module TxBucket {
  import opened Bits
  import opened BoundedQueue
  import opened UartSerial
  import opened SerialLink
  import opened CommandEngine
  import opened UartTop
  import opened RxPath
  import Boards = TwoBoards
  import Line = RxTiming

  const CLKS: nat := Line.NUM_1US_CLKS
  const MODULUS: nat := Line.CNT_MODULUS

  /** Clocks from the end of one frame to the end of the next: 88 ticks. */
  const FRAME: nat := 7040

  /** The transmit path alone, as half of a link. */
  function Own(t: Top): Link { Link(t.tick, t.tx, t.txQueue, t.tick, RX_RESET) }

  /** A transmitter that is idle between two bytes is so right after a tick. */
  predicate Sends(t: Top) {
    && TxInv(Own(t), CLKS, MODULUS)
    && (t.tx.state == IDLE && |t.txQueue.items| >= 2 ==> Phase(t.tick, CLKS) == 0)
  }

  /** Clocks until a byte that finds an idle transmitter has left. */
  function Fresh(phase: nat): int { if phase == CLKS then FRAME + 1 else FRAME - phase }

  /** Clocks until the first byte in the FIFO has left, and until all have, if nothing more is written. */
  function FirstLeaves(t: Top): int
    requires TxStateOk(t.tx)
  {
    if t.tx.state == IDLE then Fresh(Phase(t.tick, CLKS)) else Line.PERIOD * (88 - TxAge(t.tx)) - Phase(t.tick, CLKS)
  }

  function Drain(t: Top): int
    requires TxStateOk(t.tx)
  {
    if t.txQueue.items == [] then 0 else FRAME * (|t.txQueue.items| - 1) + FirstLeaves(t)
  }

  /** A byte is taken exactly if the bucket is not above fifteen frames. */
  const BRIM: int := 15 * FRAME

  /** The bucket leaks one clock a clock; `phase` is that of the ticks, `offer` says that a byte is offered. */
  function LevelNext(b: int, phase: nat, offer: bool): int {
    if offer && b <= BRIM then (if b == 0 then Fresh(PhaseNext(phase)) else b - 1 + FRAME)
    else if b > 0 then b - 1
    else 0
  }

  function PhaseNext(phase: nat): nat { if phase == CLKS then 0 else phase + 1 }

  lemma LevelsOfQueue(t: Top)
    requires Sends(t)
    ensures Drain(t) >= 0 && (Drain(t) == 0 <==> t.txQueue.items == [])
    ensures |t.txQueue.items| < DEPTH <==> Drain(t) <= BRIM
  {
    TickPeriod(t.tick, CLKS, MODULUS);
    if t.tx.state != IDLE {
      TxFollowsTicks(t.tx, false, false, 0);
    }
  }

  lemma TickClock(t: Top, w: World)
    requires Sends(t)
    ensures var t' := TopNext(t, CLKS, MODULUS, w);
            && Phase(t'.tick, CLKS) == PhaseNext(Phase(t.tick, CLKS)) && (t.tick.pulse <==> Phase(t.tick, CLKS) == CLKS)
            && TxInv(Own(t'), CLKS, MODULUS) && Phase(t.tick, CLKS) <= CLKS
  {
    TickPeriod(t.tick, CLKS, MODULUS);
    TxStep(Own(t), CLKS, MODULUS, Boards.DriveOf(t, w));
    hide EngineNext, TxNext, Next, RxNext, TickNext;
  }

  /** What one clock does to the transmitter and to the number of bytes. */
  lemma TxClock(t: Top, w: World)
    requires Sends(t)
    ensures var t', n := TopNext(t, CLKS, MODULUS, w), |t.txQueue.items|;
            var n' := n + if TxPort(t, w).we && n < DEPTH then 1 else 0;
            && TxStateOk(t'.tx)
            && (t.tx.state == IDLE ==> |t'.txQueue.items| == n' && (t'.tx.state == IDLE <==> n == 0))
            && (t.tx.state == IDLE && n > 0 ==> TxAge(t'.tx) == 0)
            && (t.tx.state != IDLE ==>
                 && n > 0 && TxAge(t.tx) <= 87
                 && (t'.tx.state == IDLE <==> t.tick.pulse && TxAge(t.tx) == 87)
                 && |t'.txQueue.items| == n' - (if t'.tx.state == IDLE then 1 else 0)
                 && (t'.tx.state != IDLE ==> TxAge(t'.tx) == if t.tick.pulse then TxAge(t.tx) + 1 else TxAge(t.tx)))
  {
    if t.tx.state != IDLE {
      TxFollowsTicks(t.tx, t.tick.pulse, t.txQueue.items == [], TxData(t, w));
    }
    hide EngineNext, RxNext, TickNext;
  }

  /** One clock of the hardware is one clock of the bucket. */
  lemma DrainStep(t: Top, w: World)
    requires Sends(t)
    ensures var t' := TopNext(t, CLKS, MODULUS, w);
            Sends(t') && Drain(t') == LevelNext(Drain(t), Phase(t.tick, CLKS), TxPort(t, w).we)
  {
    TickClock(t, w);
    TxClock(t, w);
    LevelsOfQueue(t);
    hide TopNext, TxPort, TxAge, TxInv, TickOk;
  }

  /** The clocks in which a byte is offered to the TX FIFO, and the bytes. */
  function Offers(t: Top, ws: seq<World>): (os: seq<bool>)
    ensures |os| == |ws|
    decreases |ws|
  {
    if ws == [] then [] else [TxPort(t, ws[0]).we] + Offers(TopNext(t, CLKS, MODULUS, ws[0]), ws[1..])
  }

  function OfferedToSend(t: Top, ws: seq<World>): seq<Byte>
    decreases |ws|
  {
    if ws == [] then []
    else
      (if TxPort(t, ws[0]).we then [TxPort(t, ws[0]).din] else [])
      + OfferedToSend(TopNext(t, CLKS, MODULUS, ws[0]), ws[1..])
  }

  function Level(b: int, phase: nat, os: seq<bool>): int
    decreases |os|
  {
    if os == [] then b else Level(LevelNext(b, phase, os[0]), PhaseNext(phase), os[1..])
  }

  /** The bucket takes all that is offered. */
  predicate Holds(b: int, phase: nat, os: seq<bool>)
    decreases |os|
  {
    os == [] || ((os[0] ==> b <= BRIM) && Holds(LevelNext(b, phase, os[0]), PhaseNext(phase), os[1..]))
  }

  lemma {:induction false} TakenAtMost(t: Top, ws: seq<World>)
    ensures |Boards.TakenToSend(t, CLKS, MODULUS, ws)| <= |OfferedToSend(t, ws)|
    decreases |ws|
  {
    if ws != [] {
      hide TopNext;
      TakenAtMost(TopNext(t, CLKS, MODULUS, ws[0]), ws[1..]);
    }
  }

  /** Over any run, replies and CPU writes alike: every byte offered to the TX FIFO is taken if and only if the bucket
      holds them, told from the clocks in which they are offered alone. */
  lemma {:induction false} AllTakenIff(t: Top, ws: seq<World>)
    requires Sends(t)
    ensures Boards.TakenToSend(t, CLKS, MODULUS, ws) == OfferedToSend(t, ws)
            <==> Holds(Drain(t), Phase(t.tick, CLKS), Offers(t, ws))
    ensures var e := TopRun(t, CLKS, MODULUS, ws);
            Sends(e) && Drain(e) == Level(Drain(t), Phase(t.tick, CLKS), Offers(t, ws))
    decreases |ws|
  {
    if ws != [] {
      var t' := TopNext(t, CLKS, MODULUS, ws[0]);
      DrainStep(t, ws[0]);
      TickClock(t, ws[0]);
      LevelsOfQueue(t);
      TakenAtMost(t', ws[1..]);
      var rest, offered := Boards.TakenToSend(t', CLKS, MODULUS, ws[1..]), OfferedToSend(t', ws[1..]);
      var x := if TxPort(t, ws[0]).we then [TxPort(t, ws[0]).din] else [];
      assert Pushed(t.txQueue, DEPTH, TxPort(t, ws[0])) == if Drain(t) <= BRIM then x else [];
      var os := Offers(t, ws);
      assert os[0] == TxPort(t, ws[0]).we && os[1..] == Offers(t', ws[1..]);
      hide TopNext, Sends, Drain, LevelNext, PhaseNext, TxPort;
      AllTakenIff(t', ws[1..]);
      SameTail(x, rest, offered);
      assert Boards.TakenToSend(t, CLKS, MODULUS, ws) == (if Drain(t) <= BRIM then x else []) + rest;
      assert OfferedToSend(t, ws) == x + offered;
    }
  }

  lemma SameTail(x: seq<Byte>, a: seq<Byte>, b: seq<Byte>)
    ensures x + a == x + b <==> a == b
  {
    assert (x + a)[|x|..] == a && (x + b)[|x|..] == b;
  }

  /** The first byte of a bus read's reply is offered in this clock, the others in the next four. */
  lemma ReplyClock(t: Top, w: World)
    requires Session(t.eng) && Replying(t.eng.state)
    ensures TxPort(t, w).we
    ensures var r := TopNext(t, CLKS, MODULUS, w).eng;
            && Session(r)
            && (Busr(t.eng.state) ==>
                r.state == match t.eng.state
                           case BusrData1 => BusrData2
                           case BusrData2 => BusrData3
                           case BusrData3 => BusrChecksum
                           case BusrChecksum => BusrDone
                           case _ => WaitCmd)
  {
    SessionStep(t.eng, EngineIn(t, w));
    hide RxNext, TxNext, Next, TickNext, Plus, HalfValue, Idling, OnCommand, OnByte;
  }

  function Times(n: nat, offer: bool): seq<bool> { seq(n, _ => offer) }

  /** The replies still to be offered in the states of a bus read that offer one. */
  function Left(s: State): nat {
    match s case BusrData1 => 5 case BusrData2 => 4 case BusrData3 => 3 case BusrChecksum => 2 case BusrDone => 1
            case _ => 0
  }

  lemma {:induction false} ReplyClocks(t: Top, ws: seq<World>)
    requires Session(t.eng) && |ws| == Left(t.eng.state)
    ensures Offers(t, ws) == Times(|ws|, true)
    decreases |ws|
  {
    if ws != [] {
      ReplyClock(t, ws[0]);
      hide TopNext, TxPort, Session;
      ReplyClocks(TopNext(t, CLKS, MODULUS, ws[0]), ws[1..]);
    }
  }

  lemma {:induction false} HoldsJoin(b: int, phase: nat, a: seq<bool>, c: seq<bool>)
    requires phase <= CLKS
    ensures var p := (phase + |a|) % Line.PERIOD;
            && Level(b, phase, a + c) == Level(Level(b, phase, a), p, c)
            && (Holds(b, phase, a + c) <==> Holds(b, phase, a) && Holds(Level(b, phase, a), p, c))
    decreases |a|
  {
    hide LevelNext;
    if a == [] {
      assert a + c == c;
    } else {
      assert (a + c)[0] == a[0] && (a + c)[1..] == a[1..] + c;
      HoldsJoin(LevelNext(b, phase, a[0]), PhaseNext(phase), a[1..], c);
      assert (PhaseNext(phase) + |a[1..]|) % Line.PERIOD == (phase + |a|) % Line.PERIOD;
    }
  }

  lemma {:induction false} Leaks(b: int, phase: nat, n: nat)
    requires b >= 0
    ensures Holds(b, phase, Times(n, false)) && Level(b, phase, Times(n, false)) == if b > n then b - n else 0
    decreases n
  {
    if n > 0 {
      assert Times(n, false)[1..] == Times(n - 1, false);
      Leaks(LevelNext(b, phase, false), PhaseNext(phase), n - 1);
    }
  }

  /** What five bytes in five clocks make of the level. */
  function Filled(b: int, phase: nat): int {
    if b == 0 then Fresh(PhaseNext(phase)) + 4 * (FRAME - 1) else b + 5 * (FRAME - 1)
  }

  lemma FiveBytes(b: int, phase: nat)
    requires b >= 0 && phase <= CLKS
    ensures Holds(b, phase, Times(5, true)) <==> b <= 11 * FRAME + 4
    ensures b <= 11 * FRAME + 4 ==> Level(b, phase, Times(5, true)) == Filled(b, phase)
  {
    var b1, p1 := LevelNext(b, phase, true), PhaseNext(phase);
    var b2, p2 := LevelNext(b1, p1, true), PhaseNext(p1);
    var b3, p3 := LevelNext(b2, p2, true), PhaseNext(p2);
    var b4, p4 := LevelNext(b3, p3, true), PhaseNext(p3);
    OneByte(b, phase, 4);
    OneByte(b1, p1, 3);
    OneByte(b2, p2, 2);
    OneByte(b3, p3, 1);
    OneByte(b4, p4, 0);
    assert Times(0, true) == [];
    hide PhaseNext, Fresh;
    assert b1 > 0;
  }

  lemma OneByte(b: int, phase: nat, n: nat)
    ensures var os, b', p' := Times(n + 1, true), LevelNext(b, phase, true), PhaseNext(phase);
            && Level(b, phase, os) == Level(b', p', Times(n, true))
            && (Holds(b, phase, os) <==> b <= BRIM && Holds(b', p', Times(n, true)))
  {
    assert Times(n + 1, true)[1..] == Times(n, true);
  }

  /** The five bytes of a bus read's reply are all taken if and only if at most eleven frames and four clocks are still
      to be sent when the first is offered. */
  lemma ReadTakenIff(t: Top, ws: seq<World>)
    requires Sends(t) && Session(t.eng) && t.eng.state == BusrData1 && |ws| == 5
    ensures |OfferedToSend(t, ws)| == 5
    ensures Boards.TakenToSend(t, CLKS, MODULUS, ws) == OfferedToSend(t, ws) <==> Drain(t) <= 11 * FRAME + 4
  {
    TickPeriod(t.tick, CLKS, MODULUS);
    ReplyClocks(t, ws);
    LevelsOfQueue(t);
    AllTakenIff(t, ws);
    FiveBytes(Drain(t), Phase(t.tick, CLKS));
    OfferCount(t, ws);
  }

  lemma {:induction false} OfferCount(t: Top, ws: seq<World>)
    requires Offers(t, ws) == Times(|ws|, true)
    ensures |OfferedToSend(t, ws)| == |ws|
    decreases |ws|
  {
    if ws != [] {
      assert Offers(t, ws)[0] && Offers(t, ws)[1..] == Times(|ws| - 1, true);
      hide TopNext;
      OfferCount(TopNext(t, CLKS, MODULUS, ws[0]), ws[1..]);
    }
  }

  /** Replies to reads: `ds` are the clocks from each read's first reply byte to that of the next. */
  predicate Spacing(ds: seq<nat>) { forall k :: 0 <= k < |ds| ==> ds[k] >= 5 }

  function ReadReplies(ds: seq<nat>): seq<bool>
    requires Spacing(ds)
  {
    if ds == [] then [] else Times(5, true) + Times(ds[0] - 5, false) + ReadReplies(ds[1..])
  }

  /** The level when the next read's reply begins. */
  function AfterRead(b: int, phase: nat, d: nat): int {
    if Filled(b, phase) > d - 5 then Filled(b, phase) - (d - 5) else 0
  }

  /** Every read finds room. */
  predicate Room(b: int, phase: nat, ds: seq<nat>)
    decreases |ds|
  {
    ds == []
    || (b <= 11 * FRAME + 4 && Room(AfterRead(b, phase, ds[0]), (phase + ds[0]) % Line.PERIOD, ds[1..]))
  }

  lemma {:induction false} RoomIff(b: int, phase: nat, ds: seq<nat>)
    requires b >= 0 && phase <= CLKS && Spacing(ds)
    ensures Holds(b, phase, ReadReplies(ds)) <==> Room(b, phase, ds)
    decreases |ds|
  {
    if ds != [] {
      var five, quiet, rest := Times(5, true), Times(ds[0] - 5, false), ReadReplies(ds[1..]);
      FiveBytes(b, phase);
      HoldsJoin(b, phase, five + quiet, rest);
      HoldsJoin(b, phase, five, quiet);
      if b <= 11 * FRAME + 4 {
        assert Filled(b, phase) >= 0;
        Leaks(Filled(b, phase), (phase + 5) % Line.PERIOD, ds[0] - 5);
        hide Holds, Level, Filled;
        RoomIff(AfterRead(b, phase, ds[0]), (phase + ds[0]) % Line.PERIOD, ds[1..]);
      }
    }
  }

  /** For any number of bus reads, told from their spacing alone: no reply byte is lost if and only if every read
      finds room, the level being that of the one before, plus five frames, less the clocks in between. */
  lemma ReadsTakenIff(t: Top, ws: seq<World>, ds: seq<nat>)
    requires Sends(t) && Spacing(ds) && Offers(t, ws) == ReadReplies(ds)
    ensures Boards.TakenToSend(t, CLKS, MODULUS, ws) == OfferedToSend(t, ws)
            <==> Room(Drain(t), Phase(t.tick, CLKS), ds)
  {
    TickPeriod(t.tick, CLKS, MODULUS);
    LevelsOfQueue(t);
    AllTakenIff(t, ws);
    RoomIff(Drain(t), Phase(t.tick, CLKS), ds);
  }

  /** How far the current frame is. */
  function Progress(t: Top): int
    requires TxStateOk(t.tx)
  {
    Phase(t.tick, CLKS) + if t.tx.state == IDLE then 0 else Line.PERIOD * TxAge(t.tx)
  }

  lemma ProgressStep(t: Top, w: World)
    requires Sends(t)
    ensures var t' := TopNext(t, CLKS, MODULUS, w);
            && Sends(t') && 0 <= Progress(t) < FRAME && |t.txQueue.items| <= DEPTH
            && FRAME * |Pushed(t.txQueue, DEPTH, TxPort(t, w))| + Progress(t')
               <= FRAME * (|t'.txQueue.items| - |t.txQueue.items|) + Progress(t) + 1
  {
    DrainStep(t, w);
    TickClock(t, w);
    TxClock(t, w);
    hide TopNext, TxPort, TxAge, TxInv, TickOk, LevelNext;
  }

  /** In any time no more bytes are taken than fit into the FIFO and leave: one a frame. */
  lemma {:induction false} TakenBound(t: Top, ws: seq<World>)
    requires Sends(t)
    ensures FRAME * |Boards.TakenToSend(t, CLKS, MODULUS,
                                        ws)| <= FRAME * (DEPTH - |t.txQueue.items|) + Progress(t) + |ws|
    ensures Progress(t) < FRAME
    decreases |ws|
  {
    hide TopNext, Sends, Progress, Pushed, TxPort;
    if ws == [] {
      ProgressStep(t, World(true, false, false, 0, false, ZERO, 0));
      assert Boards.TakenToSend(t, CLKS, MODULUS, ws) == [];
    } else {
      ProgressStep(t, ws[0]);
      TakenFirst(t, ws);
      TakenBound(TopNext(t, CLKS, MODULUS, ws[0]), ws[1..]);
    }
  }

  lemma TakenFirst(t: Top, ws: seq<World>)
    requires Sends(t) && ws != []
    requires var t' := TopNext(t, CLKS, MODULUS, ws[0]);
             && Sends(t')
             && FRAME * |Pushed(t.txQueue, DEPTH, TxPort(t, ws[0]))| + Progress(t')
                <= FRAME * (|t'.txQueue.items| - |t.txQueue.items|) + Progress(t) + 1
    ensures var t' := TopNext(t, CLKS, MODULUS, ws[0]);
            FRAME * |Boards.TakenToSend(t', CLKS, MODULUS, ws[1..])|
            <= FRAME * (DEPTH - |t'.txQueue.items|) + Progress(t') + |ws[1..]|
            ==> FRAME * |Boards.TakenToSend(t, CLKS, MODULUS, ws)|
                <= FRAME * (DEPTH - |t.txQueue.items|) + Progress(t) + |ws|
  {
    var t' := TopNext(t, CLKS, MODULUS, ws[0]);
    hide TopNext, Sends, Progress, Pushed, TxPort;
    var now, later := Pushed(t.txQueue, DEPTH, TxPort(t, ws[0])), Boards.TakenToSend(t', CLKS, MODULUS, ws[1..]);
    assert Boards.TakenToSend(t, CLKS, MODULUS, ws) == now + later;
    hide *;
    if FRAME * |later| <= FRAME * (DEPTH - |t'.txQueue.items|) + Progress(t') + |ws[1..]| {
      Frames(|now|, |later|, |now + later|, Progress(t), Progress(t'), |t.txQueue.items|, |t'.txQueue.items|, |ws|);
    }
  }

  lemma Frames(now: int, later: int, all: int, p: int, p': int, n: int, n': int, clocks: int)
    requires all == now + later && FRAME * later <= FRAME * (DEPTH - n') + p' + (clocks - 1)
    requires FRAME * now + p' <= FRAME * (n' - n) + p + 1
    ensures FRAME * all <= FRAME * (DEPTH - n) + p + clocks
  {
  }
}
