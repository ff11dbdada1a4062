/** The replies to commands: when none is dropped, and that all leave on the wire. */
module Answers {
  import opened Bits
  import opened BoundedQueue
  import opened UartSerial
  import opened SerialLink
  import opened CommandEngine
  import opened ProgramLoad
  import opened TwoBoards
  import opened TxBucket
  import Protocol
  import Top = UartTop
  import Rx = RxPath
  import Line = RxTiming
  import Wire = WireToMemory

  /** The fewest clocks from one arriving byte to the next. */
  const SPACING: nat := 82 * Line.PERIOD + 2

  /** Clocks until a byte can arrive at the earliest, whatever the line does. */
  function Earliest(t: Top.Top): int
    requires RxStateOk(t.rx)
  {
    if t.rx.state == IDLE then SPACING - 1 else Line.PERIOD * (82 - RxAge(t.rx)) + (CLKS - Phase(t.tick, CLKS))
  }

  predicate Running(t: Top.Top) { Sends(t) && RxStateOk(t.rx) }

  lemma EarliestStep(t: Top.Top, w: Top.World)
    requires Running(t)
    ensures var t' := Top.TopNext(t, CLKS, MODULUS, w);
            && RxStateOk(t'.rx) && Earliest(t) >= 0
            && (Top.Arrives(t) <==> t.rx.state != IDLE && Earliest(t) == 0)
            && Earliest(t') >= if Top.Arrives(t) then SPACING - 1 else Earliest(t) - 1
  {
    TickPeriod(t.tick, CLKS, MODULUS);
    hide EngineNext, TxNext, Next;
    if t.rx.state != IDLE {
      RxFollowsTicks(t.rx, t.tick.pulse, w.line);
    }
  }

  /** A byte pushed adds a frame at most; otherwise what is left to send shrinks clock by clock. */
  lemma DrainBound(t: Top.Top, w: Top.World)
    requires Running(t)
    ensures var t' := Top.TopNext(t, CLKS, MODULUS, w);
            && Sends(t') && Drain(t') >= 0
            && Drain(t') <= if Top.TxPort(t, w).we then Drain(t) + FRAME + 1
                            else if Drain(t) > 0 then Drain(t) - 1 else 0
  {
    DrainStep(t, w);
    LevelsOfQueue(t);
    LevelsOfQueue(Top.TopNext(t, CLKS, MODULUS, w));
    hide Top.TopNext, Top.TxPort, Drain, Sends;
  }

  /** How many bytes must arrive before the next reply is due, as far as that matters (bus reads do not). */
  function Needed(s: State): nat {
    match s
    case WaitSop | Timeout => 8
    case ImprWaitLenLb | ImwrWaitAddr0 | BuswWaitAddr0 | BuswWaitAddr1 | BuswWaitAddr2 | BuswWaitAddr3 => 6
    case ImprWaitLenHb | ImwrWaitAddr1 | BuswWaitData0 => 5
    case ImprWaitData0 | ImwrWaitData0 | BuswWaitData1 => 4
    case ImprWaitData1 | ImwrWaitData1 | BuswWaitData2 => 3
    case ImprWaitData2 | ImwrWaitData2 | BuswWaitData3 => 2
    case ImprWaitData3 | ImwrWaitData3 | BuswWaitWe => 1
    case _ => 7
  }

  /** The states that end a command whose last byte has just arrived. */
  predicate Ends(s: State) { s == ImprChecksum || s == BuswChecksum || s == ImwrChecksum }

  /** Those of a bus read up to its first reply byte. */
  predicate Reads(s: State) {
    match s
    case BusrWaitAddr0 | BusrWaitAddr1 | BusrWaitAddr2 | BusrWaitAddr3 | BusrWaitData | BusrData0 | BusrData1 => true
    case _ => false
  }

  /** Those of replies that follow one another. */
  function Sent(s: State): nat {
    match s
    case ImprDone | BuswDone | ImwrDone | BusrData2 => 1
    case BusrData3 => 2
    case BusrChecksum => 3
    case BusrDone => 4
    case _ => 0
  }

  /** What one clock of the command FSM does to that. */
  predicate Moves(s: State, arrives: bool, s': State) {
    if Ends(s) then s' == ImprWaitData0 || s' == ImprDone || s' == BuswDone || s' == ImwrDone
    else if s == BusrData1 then s' == BusrData2
    else if Reads(s) then Reads(s') || s' == Timeout
    else if Sent(s) > 0 then s' == WaitCmd || (Sent(s) < 4 && Sent(s') == Sent(s) + 1)
    else if s == Timeout then s' == WaitSop
    else
      && Sent(s') == 0
      && (s' == Timeout ==> Needed(s) <= 6)
      && (Ends(s') ==> Needed(s) == 1 && arrives)
      && (Reads(s') ==> s == WaitCmd && s' == BusrWaitAddr0 && arrives)
      && (!Ends(s') && !Reads(s') && s' != Timeout ==> Needed(s') >= Needed(s) - if arrives then 1 else 0)
  }

  lemma EngineMoves(r: Regs, i: In)
    ensures Moves(r.state, i.rxValid, EngineNext(r, i).state)
  {
    hide OnByte, Idling, Act, Moves;
    if AwaitsByte(r.state) {
      if i.rxValid {
        MovesOnByte(r, i.rxData);
      } else {
        IdlingStays(r, i);
        MovesIdling(r.state, Idling(r, i).state);
      }
    } else if r.state == BusrWaitData {
      MovesAsking(r, i);
    } else if Busr(r.state) {
      Protocol.SendsBack(r, i);
      MovesReading(r.state);
    } else if Ends(r.state) || Sent(r.state) > 0 {
      MovesEnding(r, i);
    } else {
      MovesBetween(r, i);
    }
  }

  lemma MovesAsking(r: Regs, i: In)
    requires r.state == BusrWaitData
    ensures Moves(r.state, i.rxValid, Act(r, i).state)
  {
    IdlingStays(r, i);
    hide Idling;
  }

  lemma MovesReading(s: State)
    requires Busr(s) && !AwaitsByte(s) && s != BusrWaitData
    ensures Moves(s, false, Protocol.AfterBusy(s)) && Moves(s, true, Protocol.AfterBusy(s))
  {
  }

  lemma MovesEnding(r: Regs, i: In)
    requires !Busr(r.state) && (Ends(r.state) || Sent(r.state) > 0)
    ensures Moves(r.state, i.rxValid, Act(r, i).state)
  {
    hide Plus, HalfValue, Idling, OnCommand;
  }

  lemma MovesBetween(r: Regs, i: In)
    requires !AwaitsByte(r.state) && !Busr(r.state) && !Ends(r.state) && Sent(r.state) == 0
    ensures Moves(r.state, i.rxValid, Act(r, i).state)
  {
    BetweenSessions(r, i);
    if r.state == WaitCmd {
      CommandsLead(r, i.rxData);
    } else if r.state == Timeout {
      OnTimeout(r, i);
    } else {
      assert r.state == WaitSop;
    }
    hide Act, OnCommand;
  }

  lemma CommandsLead(r: Regs, b: Byte)
    requires r.state == WaitCmd
    ensures Moves(WaitCmd, true, OnCommand(r, b).state)
    ensures OnCommand(r, b).state == BusrWaitAddr0 ==> b == C_BUSR
  {
  }

  lemma MovesIdling(s: State, s': State)
    requires AwaitsByte(s) && (s' == s || s' == Timeout)
    ensures Moves(s, false, s')
  {
  }

  lemma IdlingStays(r: Regs, i: In)
    ensures Idling(r, i).state == r.state || Idling(r, i).state == Timeout
  {
  }

  lemma MovesOnByte(r: Regs, b: Byte)
    requires AwaitsByte(r.state)
    ensures Moves(r.state, true, OnByte(r, b).state)
  {
    NextState(r, b);
    hide OnByte;
  }

  /** In state `s`, with `e` clocks at least until a byte arrives, `b` clocks of sending are not too many: they will be
      over before the next reply is due. */
  predicate Fits(s: State, b: int, e: int) {
    if Ends(s) || Reads(s) then b == 0
    else if Sent(s) > 0 then b <= Sent(s) * (FRAME + 1)
    else if s == Timeout then b + FRAME + 3 <= e + 7 * SPACING
    else b <= 0 || b + 1 <= e + (Needed(s) - 1) * SPACING
  }

  predicate Prompt(t: Top.Top) {
    Running(t) && Session(t.eng) && Fits(t.eng.state, Drain(t), Earliest(t))
  }

  lemma PromptIsShort(t: Top.Top)
    requires Prompt(t)
    ensures |t.txQueue.items| < DEPTH
  {
    TickPeriod(t.tick, CLKS, MODULUS);
    if t.rx.state != IDLE {
      RxFollowsTicks(t.rx, false, true);
    }
    assert Earliest(t) <= SPACING + 77;
    LevelsOfQueue(t);
    hide Drain, Sends, Session, RxAge, Earliest;
    ShortTime(t.eng.state, Drain(t), Earliest(t));
  }

  lemma ShortTime(s: State, b: int, e: int)
    requires Fits(s, b, e) && e <= SPACING + 77
    ensures b <= BRIM
  {
  }

  lemma PortIdle(t: Top.Top, w: Top.World)
    requires Session(t.eng) && !w.cpuWrite
    ensures Top.TxPort(t, w).we <==> Replying(t.eng.state)
    ensures Replying(t.eng.state) ==> t.eng.busVld
  {
  }

  /** A bus read's opcode arrives. */
  predicate ReadBegins(t: Top.Top) { t.eng.state == WaitCmd && Top.Arrives(t) && t.rx.shift == C_BUSR }

  lemma OnlyThenReads(t: Top.Top, w: Top.World)
    requires t.eng.state == WaitCmd && EngineNext(t.eng, Top.EngineIn(t, w)).state == BusrWaitAddr0
    ensures ReadBegins(t)
  {
    hide OnCommand;
    CommandsLead(t.eng, t.rx.shift);
  }

  /** The arithmetic of one clock. */
  lemma OnTime(s: State, s': State, arrives: bool, b: int, b': int, e: int, e': int)
    requires Moves(s, arrives, s') && b >= 0 && b' >= 0 && e >= 0 && Fits(s, b, e)
    requires s == WaitCmd && s' == BusrWaitAddr0 ==> b == 0
    requires arrives ==> e == 0
    requires e' >= if arrives then SPACING - 1 else e - 1
    requires b' <= if Replying(s) then b + FRAME + 1 else if b > 0 then b - 1 else 0
    ensures Fits(s', b', e')
  {
    hide Fits, Moves, Replying, Ends, Reads, Sent;
    if Ends(s) {
      OnTimeEnding(s, s', arrives, b, b', e, e');
    } else if Reads(s) {
      OnTimeReading(s, s', arrives, b, b', e, e');
    } else if Sent(s) > 0 {
      OnTimeSending(s, s', arrives, b, b', e, e');
    } else if s == Timeout {
      OnTimeOut(s, s', arrives, b, b', e, e');
    } else {
      OnTimeWaiting(s, s', arrives, b, b', e, e');
    }
  }

  lemma OnTimeEnding(s: State, s': State, arrives: bool, b: int, b': int, e: int, e': int)
    requires Ends(s)
    requires Moves(s, arrives, s') && b >= 0 && b' >= 0 && e >= 0 && Fits(s, b, e)
    requires arrives ==> e == 0
    requires e' >= if arrives then SPACING - 1 else e - 1
    requires b' <= if Replying(s) then b + FRAME + 1 else if b > 0 then b - 1 else 0
    ensures Fits(s', b', e')
  {
    NeededAtLeast(s');
    hide Needed;
  }

  lemma OnTimeReading(s: State, s': State, arrives: bool, b: int, b': int, e: int, e': int)
    requires Reads(s)
    requires Moves(s, arrives, s') && b >= 0 && b' >= 0 && e >= 0 && Fits(s, b, e)
    requires arrives ==> e == 0
    requires e' >= if arrives then SPACING - 1 else e - 1
    requires b' <= if Replying(s) then b + FRAME + 1 else if b > 0 then b - 1 else 0
    ensures Fits(s', b', e')
  {
    NeededAtLeast(s');
    hide Needed;
  }

  lemma OnTimeSending(s: State, s': State, arrives: bool, b: int, b': int, e: int, e': int)
    requires Sent(s) > 0 && !Ends(s) && !Reads(s)
    requires Moves(s, arrives, s') && b >= 0 && b' >= 0 && e >= 0 && Fits(s, b, e)
    requires arrives ==> e == 0
    requires e' >= if arrives then SPACING - 1 else e - 1
    requires b' <= if Replying(s) then b + FRAME + 1 else if b > 0 then b - 1 else 0
    ensures Fits(s', b', e')
  {
    NeededAtLeast(s');
    hide Needed;
  }

  lemma OnTimeOut(s: State, s': State, arrives: bool, b: int, b': int, e: int, e': int)
    requires s == Timeout
    requires Moves(s, arrives, s') && b >= 0 && b' >= 0 && e >= 0 && Fits(s, b, e)
    requires arrives ==> e == 0
    requires e' >= if arrives then SPACING - 1 else e - 1
    requires b' <= if Replying(s) then b + FRAME + 1 else if b > 0 then b - 1 else 0
    ensures Fits(s', b', e')
  {
    assert s' == WaitSop && Replying(s);
    NeededAtLeast(s');
    hide Needed, Moves, Replying;
  }

  lemma NeededAtLeast(s: State)
    ensures Sent(s) <= 4 && (s == WaitSop ==> Needed(s) == 8) && (s == WaitCmd ==> Needed(s) == 7)
    ensures s == ImprWaitData0 ==> Needed(s) == 4
  {
  }

  lemma OnTimeWaiting(s: State, s': State, arrives: bool, b: int, b': int, e: int, e': int)
    requires !Ends(s) && !Reads(s) && Sent(s) == 0 && s != Timeout
    requires Moves(s, arrives, s') && b >= 0 && b' >= 0 && e >= 0 && Fits(s, b, e)
    requires s == WaitCmd && s' == BusrWaitAddr0 ==> b == 0
    requires arrives ==> e == 0
    requires e' >= if arrives then SPACING - 1 else e - 1
    requires b' <= if Replying(s) then b + FRAME + 1 else if b > 0 then b - 1 else 0
    ensures Fits(s', b', e')
  {
    assert !Replying(s) && s != BusrData1;
    hide Replying, Needed, Ends, Reads, Sent;
  }

  lemma PromptStep(t: Top.Top, w: Top.World)
    requires Prompt(t) && !w.cpuWrite && (ReadBegins(t) ==> t.txQueue.items == [])
    ensures Prompt(Top.TopNext(t, CLKS, MODULUS, w))
  {
    var t', i := Top.TopNext(t, CLKS, MODULUS, w), Top.EngineIn(t, w);
    DrainBound(t, w);
    LevelsOfQueue(t);
    EarliestStep(t, w);
    SessionStep(t.eng, i);
    EngineMoves(t.eng, i);
    PortIdle(t, w);
    assert t'.eng == EngineNext(t.eng, i);
    if t.eng.state == WaitCmd && t'.eng.state == BusrWaitAddr0 {
      OnlyThenReads(t, w);
    }
    hide Top.TopNext, EngineNext, Session, Drain, Earliest, Sends, Moves, Replying, Fits;
    OnTime(t.eng.state, t'.eng.state, Top.Arrives(t), Drain(t), Drain(t'), Earliest(t), Earliest(t'));
  }

  /** Whoever reads the bus waits for all replies before. */
  predicate ReadsAwait(t: Top.Top, ws: seq<Top.World>)
    decreases |ws|
  {
    || ws == []
    || ((ReadBegins(t) ==> t.txQueue.items == []) && ReadsAwait(Top.TopNext(t, CLKS, MODULUS, ws[0]), ws[1..]))
  }

  predicate Unwritten(ws: seq<Top.World>) { forall w :: w in ws ==> !w.cpuWrite }

  /** With no CPU writes, the TX FIFO accepts every reply to every command, however many there are, however fast,
      complete or not, whatever else is on the line; only a bus read must await the replies before it. */
  lemma {:induction false} NoReplyDropped(t: Top.Top, ws: seq<Top.World>)
    requires Prompt(t) && Unwritten(ws) && ReadsAwait(t, ws)
    ensures TakenToSend(t, CLKS, MODULUS, ws) == Wire.SessionReplies(t, ws)
    ensures Prompt(Rx.TopRun(t, CLKS, MODULUS, ws))
    decreases |ws|
  {
    if ws != [] {
      var t', w := Top.TopNext(t, CLKS, MODULUS, ws[0]), ws[0];
      PromptIsShort(t);
      PromptStep(t, w);
      PortIdle(t, w);
      hide Top.TopNext, Top.TxPort, Prompt, Session;
      NoReplyDropped(t', ws[1..]);
    }
  }

  /** Program loads read nothing. */
  lemma {:induction false} LoadsAwait(t: Top.Top, ws: seq<Top.World>)
    requires OnlyLoads(t.eng, Wire.Strobes(Wire.Ear(t), Wire.Lines(ws), Wire.Answers(ws)))
    ensures ReadsAwait(t, ws)
    decreases |ws|
  {
    if ws != [] {
      hide RxNext, TxNext, TickNext, Next;
      var t', i := Top.TopNext(t, CLKS, MODULUS, ws[0]), Top.EngineIn(t, ws[0]);
      var ins := Wire.Strobes(Wire.Ear(t), Wire.Lines(ws), Wire.Answers(ws));
      var rest := Wire.Strobes(Wire.Ear(t'), Wire.Lines(ws[1..]), Wire.Answers(ws[1..]));
      assert Wire.Lines(ws)[1..] == Wire.Lines(ws[1..]) && Wire.Answers(ws)[1..] == Wire.Answers(ws[1..]);
      assert ins == [i] + rest && ins[1..] == rest;
      assert t'.eng == EngineNext(t.eng, i);
      assert ReadBegins(t) ==> EngineNext(t.eng, i).state == BusrWaitAddr0;
      hide EngineNext, Top.TopNext;
      assert OnlyLoads(t'.eng, rest) && Loading(t'.eng.state);
      LoadsAwait(t', ws[1..]);
    }
  }

  /** An idle transmit path, between sessions. */
  predicate Ready(t: Top.Top) {
    && TickOk(t.tick, CLKS, MODULUS) && Line.Listening(Wire.Ear(t)) && Session(t.eng) && t.eng.state == WaitSop
    && t.tx == TX_RESET && t.txQueue.items == []
  }

  lemma ReadyIsPrompt(t: Top.Top)
    requires Ready(t)
    ensures Prompt(t)
  {
  }

  /** A program sent over the line to `t` is answered: of the replies, one ACK a word and then the checksum, none is
      dropped, and another board `b` on the line receives them in order, but for what is still on its way. */
  lemma ProgramIsAnswered(t: Top.Top, b: Top.Top, ws: seq<Top.World>, others: seq<Top.World>, xs: seq<Line.Sending>,
                          len: Half, data: seq<Byte>)
    requires Ready(t) && Unwritten(ws) && |others| == |ws| && LinkInv(Between(t, b), CLKS, MODULUS)
    requires Wire.Lines(ws) == Line.OnWire(xs)
             && (forall x :: x in xs ==> Line.InTolerance(x) && x.quiet <= Wire.MAX_PAUSE)
    requires Line.Payload(xs) == [C_SOP, C_IMPR, len.lo, len.hi] + data && |data| == 4 * WordCount(len)
    requires xs[|xs| - 1].quiet >= 2
    ensures var fed := FedBy(t, CLKS, MODULUS, ws, others);
            var after := Between(Rx.TopRun(t, CLKS, MODULUS, ws), Rx.TopRun(b, CLKS, MODULUS, fed));
            Acks(WordCount(len)) + [Checksum(0, [len.lo, len.hi] + data)]
                == Rx.Arrived(b, CLKS, MODULUS, fed) + Pending(after)
  {
    assert Pending(Between(t, b)) == [];
    ReadyIsPrompt(t);
    assert Line.Listening(Wire.Ear(t)) && Session(t.eng) && t.eng.state == WaitSop;
    hide *;
    Wire.ProgramOverTheWire(t, ws, xs, len, data);
    LoadsAwait(t, ws);
    NoReplyDropped(t, ws);
    AcrossTheLine(t, b, CLKS, MODULUS, ws, others);
    var sent := TakenToSend(t, CLKS, MODULUS, ws);
    assert [] + sent == sent;
  }
}
