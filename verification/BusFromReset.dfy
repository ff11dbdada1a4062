/** Runs from reset: when the CPU is served after a command session, and a bus write that is lost. */
module BusFromReset {
  import opened Bits
  import opened CommandEngine
  import opened ProgramLoad
  import opened Commands
  import opened Protocol
  import opened BusSession
  import Ram
  import Fabric

  /** Out of reset. */
  predicate PowerUp(x: Soc) { Built(x) && x.eng == RESET && !x.sys.busy }

  predicate Mapped(addr: nat) { Fabric.InDmem(addr) || Fabric.InCsr(addr) }

  /** The CPU's access is ready in some clock. */
  predicate Served(x: Soc, ins: seq<SocIn>)
    requires Built(x)
    decreases |ins|
  {
    ins != [] && (Fabric.CpuRdy(x.sys, BothMasters(x, ins[0])) || Served(SocNext(x, ins[0]), ins[1..]))
  }

  predicate Asks(ins: seq<SocIn>, q: Ram.Req) { forall i :: i in ins ==> i.cpu == q }

  /** What the fabric sees of a run. */
  function MastersOf(x: Soc, ins: seq<SocIn>): (ms: seq<Fabric.Masters>)
    requires Built(x)
    ensures |ms| == |ins|
    decreases |ins|
  {
    if ins == [] then [] else [BothMasters(x, ins[0])] + MastersOf(SocNext(x, ins[0]), ins[1..])
  }

  lemma {:induction false} ServedOnBus(x: Soc, ins: seq<SocIn>)
    requires Built(x)
    ensures var ms := MastersOf(x, ins);
            Served(x, ins) <==> exists k :: 0 <= k < |ms| && Fabric.CpuRdy(Fabric.BusRun(x.sys, ms[..k]), ms[k])
    decreases |ins|
  {
    if ins != [] {
      var x', ms := SocNext(x, ins[0]), MastersOf(x, ins);
      var rest := MastersOf(x', ins[1..]);
      assert x'.sys == Fabric.SysNext(x.sys, ms[0]);
      hide SocNext, Fabric.SysNext, Fabric.CpuRdy, BothMasters;
      ServedOnBus(x', ins[1..]);
      assert ms[1..] == rest;
      forall k | 0 < k < |ms|
        ensures Fabric.BusRun(x.sys, ms[..k]) == Fabric.BusRun(x'.sys, rest[..k - 1]) && ms[k] == rest[k - 1]
      {
        assert ms[..k][1..] == rest[..k - 1];
      }
      assert Fabric.BusRun(x.sys, ms[..0]) == x.sys;
      if k :| 0 <= k < |rest| && Fabric.CpuRdy(Fabric.BusRun(x'.sys, rest[..k]), rest[k]) {
        assert Fabric.CpuRdy(Fabric.BusRun(x.sys, ms[..k + 1]), ms[k + 1]);
      }
    }
  }

  /** Between sessions the command FSM's request is down and constant. */
  lemma {:induction false} MastersClosed(x: Soc, ins: seq<SocIn>, q: Ram.Req)
    requires Built(x) && Session(x.eng) && StaysClosed(x, ins) && Asks(ins, q) && q.vld
    ensures forall m :: m in MastersOf(x, ins) ==>
              m.uart == Ram.Req(false, WordAddress(x.eng.busAddr), 0, x.eng.busWdat) && Fabric.CpuAlone(m, q)
    decreases |ins|
  {
    hide EngineNext, WordAddress;
    if ins != [] {
      ClosedClock(x.eng, EngineIn(x, ins[0]));
      MastersClosed(SocNext(x, ins[0]), ins[1..], q);
    }
  }

  /** After a session: exactly if the UART does not have the bus, or its address is mapped. */
  lemma ServedClosed(x: Soc, ins: seq<SocIn>, q: Ram.Req)
    requires Built(x) && Session(x.eng) && StaysClosed(x, ins) && Asks(ins, q) && q.vld && Mapped(q.addr) && |ins| >= 4
    ensures Served(x, ins) <==> !x.sys.busy || Mapped(WordAddress(x.eng.busAddr))
  {
    var ms, u := MastersOf(x, ins), Ram.Req(false, WordAddress(x.eng.busAddr), 0, x.eng.busWdat);
    ServedOnBus(x, ins);
    MastersClosed(x, ins, q);
    hide WordAddress, Served, StaysClosed, Session, MastersOf, Fabric.CpuAlone, Fabric.BusRun, Fabric.CpuRdy;
    Fabric.ServedIff(x.sys, ms, q, u);
  }

  /** The registers of the command FSM over a run. */
  lemma {:induction false} EngineOf(x: Soc, ins: seq<SocIn>)
    requires Built(x)
    ensures SocRun(x, ins).eng == EngineRun(x.eng, EngineIns(x, ins))
    decreases |ins|
  {
    hide EngineNext, EngineIn;
    if ins != [] {
      NextEngine(x, ins[0]);
      assert EngineIns(x, ins)[1..] == EngineIns(SocNext(x, ins[0]), ins[1..]);
      hide SocNext;
      EngineOf(SocNext(x, ins[0]), ins[1..]);
    }
  }

  lemma {:induction false} Then(x: Soc, a: seq<SocIn>, b: seq<SocIn>)
    requires Built(x)
    ensures SocRun(x, a + b) == SocRun(SocRun(x, a), b)
    ensures EngineIns(x, a + b) == EngineIns(x, a) + EngineIns(SocRun(x, a), b)
    ensures |EngineIns(x, a)| == |a|
    decreases |a|
  {
    hide SocNext, EngineIn;
    if a == [] {
      assert a + b == b;
    } else {
      assert (a + b)[1..] == a[1..] + b;
      Then(SocNext(x, a[0]), a[1..], b);
    }
  }

  /** A session, from the clock after its 0x12 to the one that ends it. */
  predicate OneSession(o: Soc, session: seq<SocIn>)
    requires Built(o)
  {
    && session != [] && StaysOpen(o.eng, EngineIns(o, session[..|session| - 1])) && !SocRun(o, session).eng.busVld
  }

  /** The UART has the bus after it, if it had not before, exactly if there was a clock without a CPU request. */
  lemma BusyAfter(o: Soc, session: seq<SocIn>)
    requires Built(o) && OneSession(o, session)
    ensures SocRun(o, session).sys.busy <==> o.sys.busy || exists i :: i in session && !i.cpu.vld
  {
    var n := |session| - 1;
    var front, last := session[..n], session[n];
    assert session == front + [last];
    Then(o, front, [last]);
    EngineOf(o, front);
    EndsOpen(o.eng, EngineIns(o, front));
    SessionWrites(o, front);
    var x := SocRun(o, front);
    GrantStep(x, last);
    hide SocNext;
    assert SocRun(x, [last]) == SocNext(x, last) by {
      assert [last][1..] == [];
    }
    if j :| 0 <= j < |front| && !front[j].cpu.vld {
      assert front[j] in session;
    }
    if i :| i in session && !i.cpu.vld {
      var j :| 0 <= j < |session| && session[j] == i;
      if j < n {
        assert !front[j].cpu.vld;
      }
    }
  }

  /** From any clock between sessions in which the UART does not have the bus (as out of reset, or when the CPU is
      ready): after one session, with no new one, the CPU is served if and only if it has requested in every clock of
      the session or the last address commanded is mapped. */
  lemma ServedAfterSessionIff(start: Soc, idle: seq<SocIn>, open: SocIn, session: seq<SocIn>, after: seq<SocIn>,
                              q: Ram.Req, p: Dialog)
    requires Built(start) && Session(start.eng) && Matches(p, start.eng) && !start.sys.busy && StaysClosed(start, idle)
    requires OneSession(SocNext(SocRun(start, idle), open), session)
    requires StaysClosed(SocRun(start, idle + [open] + session), after) && |after| >= 4
    requires Asks(after, q) && q.vld && Mapped(q.addr)
    ensures var all := idle + [open] + session;
            var last := DialogAfter(p, EngineIns(start, all)).addr;
            Served(SocRun(start, all), after) <==>
              (forall i :: i in session ==> i.cpu.vld) || Mapped(WordAddress(last))
  {
    var all, x := idle + [open] + session, SocRun(start, idle);
    var o := SocNext(x, open);
    StaysFree(start, idle);
    OpensFree(x, open);
    Then(start, idle + [open], session);
    Then(start, idle, [open]);
    assert SocRun(x, [open]) == o by {
      assert [open][1..] == [];
    }
    BusyAfter(o, session);
    EngineOf(start, all);
    Follows(p, start.eng, EngineIns(start, all));
    SessionRun(start.eng, EngineIns(start, all));
    hide *;
    ServedClosed(SocRun(start, all), after, q);
  }

  /** The same from reset. */
  lemma ServedFromResetIff(start: Soc, idle: seq<SocIn>, open: SocIn, session: seq<SocIn>, after: seq<SocIn>,
                           q: Ram.Req)
    requires PowerUp(start) && StaysClosed(start, idle)
    requires OneSession(SocNext(SocRun(start, idle), open), session)
    requires StaysClosed(SocRun(start, idle + [open] + session), after) && |after| >= 4
    requires Asks(after, q) && q.vld && Mapped(q.addr)
    ensures var all := idle + [open] + session;
            Served(SocRun(start, all), after) <==>
              || (forall i :: i in session ==> i.cpu.vld)
              || Mapped(WordAddress(DialogAfter(START, EngineIns(start, all)).addr))
  {
    SessionFromReset();
    assert Matches(START, RESET);
    hide Matches, Session, SocNext, Served, StaysClosed, OneSession, Asks;
    ServedAfterSessionIff(start, idle, open, session, after, q, START);
  }

  function QuietClock(cpu: Ram.Req): SocIn { SocIn(false, 0, false, cpu, ZERO) }

  function Pause(n: nat, cpu: Ram.Req): seq<SocIn> { seq(n, _ => QuietClock(cpu)) }

  function ByteClock(b: Byte, cpu: Ram.Req): SocIn { SocIn(true, b, false, cpu, ZERO) }

  /** Bytes that arrive one by one, each with a pause after it, the CPU doing the same all the time. */
  function Typing(bs: seq<Byte>, pause: nat, cpu: Ram.Req): seq<SocIn> {
    if bs == [] then [] else [ByteClock(bs[0], cpu)] + Pause(pause, cpu) + Typing(bs[1..], pause, cpu)
  }

  lemma {:induction false} TypingAsks(bs: seq<Byte>, pause: nat, cpu: Ram.Req)
    ensures Asks(Typing(bs, pause, cpu), cpu)
    decreases |bs|
  {
    if bs != [] {
      TypingAsks(bs[1..], pause, cpu);
    }
  }

  lemma {:induction false} Paused(x: Soc, n: nat, cpu: Ram.Req)
    requires Built(x)
    ensures var gap := EngineIns(x, Pause(n, cpu)); |gap| == n && Quiet(gap) && forall i :: i in gap ==> !i.tick
    decreases n
  {
    hide SocNext;
    if n > 0 {
      assert Pause(n, cpu)[1..] == Pause(n - 1, cpu);
      Paused(SocNext(x, QuietClock(cpu)), n - 1, cpu);
    }
  }

  lemma {:induction false} NoTicks(gap: seq<In>)
    requires forall i :: i in gap ==> !i.tick
    ensures Ticks(gap) == 0
    decreases |gap|
  {
    if gap != [] {
      assert gap[0] in gap;
      NoTicks(gap[1..]);
    }
  }

  /** The command FSM sees them as deliveries. */
  lemma {:induction false} Typed(x: Soc, bs: seq<Byte>, pause: nat, cpu: Ram.Req) returns (xs: seq<Delivery>)
    requires Built(x) && pause >= 2
    ensures EngineIns(x, Typing(bs, pause, cpu)) == Flat(xs) && Paced(xs) && Payload(xs) == bs
    decreases |bs|
  {
    if bs == [] {
      xs := [];
    } else {
      var c, gap, rest := [ByteClock(bs[0], cpu)], Pause(pause, cpu), Typing(bs[1..], pause, cpu);
      var d, y := OneTyped(x, bs[0], pause, cpu);
      Then(x, c + gap, rest);
      hide *;
      var ds := Typed(y, bs[1..], pause, cpu);
      xs := [d] + ds;
      InFront(d, ds);
    }
  }

  lemma InFront(d: Delivery, ds: seq<Delivery>)
    requires Spaced(d) && InTime(d) && Paced(ds)
    ensures Flat([d] + ds) == Clocks(d) + Flat(ds) && Paced([d] + ds)
    ensures Payload([d] + ds) == [d.first.rxData] + Payload(ds)
  {
    hide Spaced, InTime;
    assert ([d] + ds)[1..] == ds;
  }

  lemma OneTyped(x: Soc, b: Byte, pause: nat, cpu: Ram.Req) returns (d: Delivery, y: Soc)
    requires Built(x) && pause >= 2
    ensures var ins := [ByteClock(b, cpu)] + Pause(pause, cpu);
            EngineIns(x, ins) == Clocks(d) && d.first.rxData == b && y == SocRun(x, ins)
    ensures Built(y) && Spaced(d) && InTime(d)
  {
    var c, gap := [ByteClock(b, cpu)], Pause(pause, cpu);
    var x1 := SocRun(x, c);
    y := SocRun(x, c + gap);
    Then(x, c, gap);
    Paused(x1, pause, cpu);
    d := Delivery(EngineIn(x, c[0]), EngineIns(x1, gap));
    assert EngineIns(x, c) == [d.first] by {
      assert c[1..] == [];
    }
    NoTicks(d.gap[..pause - 1]);
    hide SocNext, EngineIns;
  }

  /** 0x12 and a bus write, from reset: what the command FSM does up to the end of the command. */
  lemma OpenAndWrite(xs: seq<Delivery>, addr: Word, data: Word, we: Byte)
    requires Paced(xs) && Payload(xs) == [C_SOP] + ([C_BUSW] + (BytesOf(addr) + BytesOf(data) + [we])) && xs != []
    ensures var m, rest := EngineNext(RESET, xs[0].first), xs[0].gap + Flat(xs[1..]);
            && m.busVld && StaysOpen(m, rest) && Finished(EngineRun(m, rest)) && EngineRun(m, rest).busAddr == addr
            && Flat(xs) == [xs[0].first] + rest
    ensures Writes(RESET, Flat(xs)) == if LowNibble(we) == 0 then [] else [OntoBus(addr, LowNibble(we), data)]
  {
    SessionFromReset();
    hide *;
    HeadOf(xs, [C_BUSW] + (BytesOf(addr) + BytesOf(data) + [we]));
    OpenClock(xs[0]);
    var m := OpenSession(RESET, xs);
    BetweenCommands(m, xs[0].gap);
    BusWriteCommand(m, xs[1..], addr, data, we);
    Join(m, xs[0].gap, Flat(xs[1..]));
    Onwards(xs, m);
  }

  lemma HeadOf(xs: seq<Delivery>, cmd: seq<Byte>)
    requires Paced(xs) && Payload(xs) == [C_SOP] + cmd
    ensures xs != [] && Spaced(xs[0]) && xs[0].first.rxData == C_SOP && Paced(xs[1..]) && Payload(xs[1..]) == cmd
  {
    assert |Payload(xs)| > 0 && Payload(xs)[0] == C_SOP;
    assert Payload(xs)[1..] == cmd && Payload(xs[1..]) == Payload(xs)[1..];
  }

  lemma OpenClock(d: Delivery)
    requires Spaced(d) && d.first.rxData == C_SOP
    ensures var m := RESET.(busVld := true, state := WaitCmd);
            EngineNext(RESET, d.first) == m && Finished(m) && m.state == WaitCmd && m.busVld && Silent(m)
    ensures Quiet(d.gap) && RESET.state == WaitSop
  {
  }

  lemma Onwards(xs: seq<Delivery>, m: Regs)
    requires xs != [] && Reaches(RESET, xs, m, 1)
    ensures Writes(RESET, Flat(xs)) == Writes(m, Flat(xs[1..]))
    ensures Flat(xs) == [xs[0].first] + (xs[0].gap + Flat(xs[1..]))
  {
    hide Writes, EngineRun, Replies, OnlyLoads;
  }

  /** A CPU that requests in every clock keeps the UART off the bus: no write of the command FSM takes place. */
  lemma {:induction false} AlwaysAsking(x: Soc, ins: seq<SocIn>)
    requires Built(x) && !x.sys.busy && forall i :: i in ins ==> i.cpu.vld
    ensures AllDone(x, ins) == []
    decreases |ins|
  {
    hide EngineNext, Tried;
    if ins != [] {
      assert ins[0] in ins;
      AlwaysAsking(SocNext(x, ins[0]), ins[1..]);
    }
  }

  /** A run from reset in which a commanded bus write is tried, and lost. */
  lemma WriteLostFromReset(start: Soc, addr: Word, data: Word, we: Byte, pause: nat, q: Ram.Req)
    requires PowerUp(start) && LowNibble(we) != 0 && pause >= 2 && q.vld
    ensures var ins := Typing([C_SOP] + ([C_BUSW] + (BytesOf(addr) + BytesOf(data) + [we])), pause, q);
            && AllTried(start, ins) == [OntoBus(addr, LowNibble(we), data)]
            && AllDone(start, ins) == []
  {
    var bs := [C_SOP] + ([C_BUSW] + (BytesOf(addr) + BytesOf(data) + [we]));
    var ins := Typing(bs, pause, q);
    TypingAsks(bs, pause, q);
    AlwaysAsking(start, ins);
    var w := OntoBus(addr, LowNibble(we), data);
    assert OnlyBus([w]) == [w];
    hide SocNext, EngineNext, LowNibble, Paced, Payload, Flat, Writes, Typing, AllTried, AllDone, EngineIns;
    var xs := Typed(start, bs, pause, q);
    OpenAndWrite(xs, addr, data, we);
    TriedIsWritten(start, ins);
  }

  const NOTHING: Ram.Req := Ram.Req(false, 0, 0, ZERO)

  lemma {:induction false} QuietCloses(x: Soc, ins: seq<SocIn>)
    requires Built(x) && Session(x.eng) && !x.eng.busVld && forall i :: i in ins ==> !i.rxValid
    ensures StaysClosed(x, ins)
    decreases |ins|
  {
    if ins != [] {
      assert ins[0] in ins;
      assert EngineNext(x.eng, EngineIn(x, ins[0])) == x.eng;
      hide EngineNext, Session;
      QuietCloses(SocNext(x, ins[0]), ins[1..]);
    }
  }

  /** The first clock, and the rest. */
  lemma FirstClock(x: Soc, ins: seq<SocIn>)
    requires Built(x) && ins != []
    ensures EngineIns(x, ins) == [EngineIn(x, ins[0])] + EngineIns(SocNext(x, ins[0]), ins[1..])
    ensures SocRun(x, ins) == SocRun(SocNext(x, ins[0]), ins[1..])
    ensures SocNext(x, ins[0]).eng == EngineNext(x.eng, EngineIn(x, ins[0]))
  {
    hide EngineIn, EngineNext;
  }

  lemma EndClock(x: Soc, i: SocIn)
    requires Built(x) && Finished(x.eng) && i.rxValid && i.rxData == C_EOP
    ensures var e := SocRun(x, [i]).eng; !e.busVld && e.busAddr == x.eng.busAddr
  {
    FirstClock(x, [i]);
    assert [i][1..] == [];
    hide SocNext, EngineIns;
  }

  /** The rest of a session that began with 0x12: a bus write, and 0x14. */
  lemma WriteAndClose(o: Soc, rest: seq<SocIn>, eop: SocIn)
    requires Built(o) && StaysOpen(o.eng, EngineIns(o, rest)) && Finished(EngineRun(o.eng, EngineIns(o, rest)))
    requires eop.rxValid && eop.rxData == C_EOP && !eop.cpu.vld
    ensures var e := SocRun(o, rest + [eop]);
            !e.eng.busVld && e.sys.busy && e.eng.busAddr == EngineRun(o.eng, EngineIns(o, rest)).busAddr
  {
    EngineOf(o, rest);
    EndClock(SocRun(o, rest), eop);
    Then(o, rest, [eop]);
    var session := rest + [eop];
    assert session[..|session| - 1] == rest && eop in session;
    hide EngineNext, EngineRun, StaysOpen, Finished, EngineIns, SocRun;
    BusyAfter(o, session);
  }

  /** Runs from reset after which the CPU is never served: while it does nothing, a 0x12, a bus write to any address
      that no peripheral has, and a 0x14. */
  lemma StarvedFromReset(start: Soc, addr: Word, data: Word, we: Byte, pause: nat, after: seq<SocIn>, q: Ram.Req)
    requires PowerUp(start) && pause >= 2 && !Mapped(WordAddress(addr))
    requires Asks(after, q) && q.vld && Mapped(q.addr) && |after| >= 4 && forall i :: i in after ==> !i.rxValid
    ensures var bs := [C_SOP] + ([C_BUSW] + (BytesOf(addr) + BytesOf(data) + [we]));
            !Served(SocRun(start, Typing(bs, pause, NOTHING) + [ByteClock(C_EOP, NOTHING)]), after)
  {
    var bs := [C_SOP] + ([C_BUSW] + (BytesOf(addr) + BytesOf(data) + [we]));
    var typed, eop := Typing(bs, pause, NOTHING), ByteClock(C_EOP, NOTHING);
    assert start.eng == RESET && typed != [];
    assert eop.rxValid && eop.rxData == C_EOP && !eop.cpu.vld;
    hide *;
    var o, rest := SocNext(start, typed[0]), typed[1..];
    var xs := Typed(start, bs, pause, NOTHING);
    assert xs != [] by {
      assert |Payload(xs)| > 0;
    }
    OpenAndWrite(xs, addr, data, we);
    FirstClock(start, typed);
    assert EngineIns(start, typed)[0] == xs[0].first && EngineIns(start, typed)[1..] == xs[0].gap + Flat(xs[1..]);
    WriteAndClose(o, rest, eop);
    Rest(start, typed, eop);
    var e := SocRun(start, typed + [eop]);
    EngineOf(start, typed + [eop]);
    SessionAlways(EngineIns(start, typed + [eop]));
    QuietCloses(e, after);
    ServedClosed(e, after, q);
  }

  lemma Rest(x: Soc, typed: seq<SocIn>, eop: SocIn)
    requires Built(x) && typed != []
    ensures SocRun(x, typed + [eop]) == SocRun(SocNext(x, typed[0]), typed[1..] + [eop])
  {
    hide SocNext, EngineNext, EngineIns, EngineIn;
    assert (typed + [eop])[1..] == typed[1..] + [eop] && (typed + [eop])[0] == typed[0];
    FirstClock(x, typed + [eop]);
  }
}
