/** However a command is abandoned, the FSM finds its way back. */
module Recovery {
  import opened CommandEngine
  import opened ProgramLoad

  /** Ready for a new session or command, with the CPU running. */
  predicate Home(r: Regs) { (r.state == WaitSop || r.state == WaitCmd) && r.cpuRstn }

  /** How many ticks the FSM can still spend waiting. */
  function TicksLeft(r: Regs): int {
    if AwaitsByte(r.state) || r.state == BusrWaitData then TIMEOUT_TICKS - r.timeout
    else if r.state == ImprChecksum then TIMEOUT_TICKS + 1
    else 0
  }

  /** How many clocks it needs beyond the wait. */
  function ClocksLeft(r: Regs): nat {
    match r.state
    case WaitSop | WaitCmd => 0
    case BusrWaitData => 7
    case BusrData0 => 6
    case BusrData1 => 5
    case BusrData2 => 4
    case BusrData3 | ImprChecksum => 3
    case BusrChecksum | BuswChecksum | ImwrChecksum => 2
    case BusrDone | BuswDone | ImwrDone | ImprDone | Timeout => 1
    case _ => 2
  }

  lemma Bounds(r: Regs)
    requires Session(r)
    ensures 0 <= TicksLeft(r) <= TIMEOUT_TICKS + 1 && ClocksLeft(r) <= 7
    ensures Home(r) <==> ClocksLeft(r) == 0
  {
  }

  /** The clock from `r` to `r'` uses up a tick if it has one, or else, when no wait is left, a clock. */
  predicate Progress(r: Regs, tick: bool, r': Regs) {
    && TicksLeft(r') <= TicksLeft(r) && ClocksLeft(r') <= ClocksLeft(r)
    && (tick && TicksLeft(r) > 0 ==> TicksLeft(r') < TicksLeft(r))
    && (TicksLeft(r) == 0 ==> ClocksLeft(r') < ClocksLeft(r))
  }

  lemma QuietStep(r: Regs, i: In)
    requires Session(r) && !Home(r) && !i.rxValid
    ensures Progress(r, i.tick, EngineNext(r, i))
  {
    hide EngineNext, Progress, TicksLeft, ClocksLeft, Session, Home;
    if AwaitsByte(r.state) || r.state == BusrWaitData {
      QuietWait(r, i);
    } else {
      QuietWork(r, i);
    }
  }

  lemma QuietWork(r: Regs, i: In)
    requires Session(r) && !Home(r) && !i.rxValid && !AwaitsByte(r.state) && r.state != BusrWaitData
    ensures Progress(r, i.tick, EngineNext(r, i))
  {
  }

  lemma QuietWait(r: Regs, i: In)
    requires Session(r) && !i.rxValid && (AwaitsByte(r.state) || r.state == BusrWaitData)
    ensures Progress(r, i.tick, EngineNext(r, i))
  {
    IdleOrAnswered(r, i);
    hide EngineNext, Session;
    if r.state == BusrWaitData {
      assert TicksLeft(r) == TIMEOUT_TICKS - r.timeout;
    } else {
      assert ClocksLeft(r) == 2;
    }
  }

  lemma IdleOrAnswered(r: Regs, i: In)
    requires AwaitsByte(r.state) || r.state == BusrWaitData
    requires !i.rxValid
    ensures EngineNext(r, i) ==
              if r.state == BusrWaitData && i.busRdy then r.(busRdat := i.busRdat, timeout := 0, state := BusrData0)
                                else Idling(r, i)
  {
  }

  lemma OneMore(r: Regs, ins: seq<In>, k: nat)
    requires ins != [] && k < |ins|
    ensures EngineRun(r, ins[..k + 1]) == EngineRun(EngineNext(r, ins[0]), ins[1..][..k])
  {
    hide EngineNext;
    assert ins[..k + 1][0] == ins[0] && ins[..k + 1][1..] == ins[1..][..k];
  }

  /** With no byte arriving, `a` bringing enough ticks (2^21 + 1 always are) and `b` enough further clocks (7
      always are), the FSM is back home, with the CPU out of reset, by the end of `a + b`. */
  lemma {:induction false} Recovers(r: Regs, a: seq<In>, b: seq<In>) returns (i: nat)
    requires Session(r) && Quiet(a) && Quiet(b)
    requires Ticks(a) >= TicksLeft(r) && |b| >= ClocksLeft(r)
    ensures i <= |a| + |b| && Home(EngineRun(r, (a + b)[..i]))
    decreases |a| + |b|
  {
    hide EngineNext, TicksLeft, ClocksLeft, Session, Home;
    Bounds(r);
    i := 0;
    if !Home(r) {
      var ins := a + b;
      var r' := EngineNext(r, ins[0]);
      SessionStep(r, ins[0]);
      QuietStep(r, ins[0]);
      hide EngineRun;
      assert ins[0] == if a != [] then a[0] else b[0];
      var k;
      if a != [] {
        k := Recovers(r', a[1..], b);
        assert ins[1..] == a[1..] + b;
      } else {
        k := Recovers(r', [], b[1..]);
        assert ins[1..] == [] + b[1..];
      }
      i := k + 1;
      OneMore(r, ins, k);
    }
  }
}
