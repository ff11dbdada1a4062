/** The command FSM over the fabric: what becomes of its bus writes while the CPU uses the bus. */
module BusSession {
  import opened Bits
  import opened CommandEngine
  import opened ProgramLoad
  import opened Commands
  import Ram
  import Fabric

  datatype Soc = Soc(eng: Regs, sys: Fabric.Sys)

  /** One clock's inputs: what the receiver and the tick generator say, the CPU's request, the register read data. */
  datatype SocIn = SocIn(rxValid: bool, rxData: Byte, tick: bool, cpu: Ram.Req, csrRdat: Word)

  /** Bits 31 to 2 of a byte address. */
  function WordAddress(a: Word): nat { LowBits(a) + 0x40_0000 * Value(a.b3) }

  /** Bits 23 to 2. */
  function LowBits(a: Word): nat { Value(a.b0 >> 2) + 0x40 * Value(a.b1) + 0x4000 * Value(a.b2) }

  lemma WordAddressIs(a: Word)
    ensures WordAddress(a)
            == (Value(a.b0) + 0x100 * Value(a.b1) + 0x1_0000 * Value(a.b2) + 0x100_0000 * Value(a.b3)) / 4
  {
  }

  function BothMasters(x: Soc, i: SocIn): Fabric.Masters {
    Fabric.Masters(i.cpu, Ram.Req(x.eng.busVld, WordAddress(x.eng.busAddr), x.eng.busWe, x.eng.busWdat), i.csrRdat)
  }

  function EngineIn(x: Soc, i: SocIn): In {
    var m := BothMasters(x, i);
    In(i.rxValid, i.rxData, i.tick, Fabric.UartRdy(x.sys, m), Fabric.SelRdat(x.sys, m))
  }

  predicate Built(x: Soc) { |x.sys.ram.mem| > 0 }

  function SocNext(x: Soc, i: SocIn): (x': Soc)
    requires Built(x)
    ensures Built(x')
  {
    Soc(EngineNext(x.eng, EngineIn(x, i)), Fabric.SysNext(x.sys, BothMasters(x, i)))
  }

  function SocRun(x: Soc, ins: seq<SocIn>): (x': Soc)
    requires Built(x)
    ensures Built(x')
    decreases |ins|
  {
    if ins == [] then x else SocRun(SocNext(x, ins[0]), ins[1..])
  }

  /** The command FSM's inputs over a run. */
  function EngineIns(x: Soc, ins: seq<SocIn>): seq<In>
    requires Built(x)
    decreases |ins|
  {
    if ins == [] then [] else [EngineIn(x, ins[0])] + EngineIns(SocNext(x, ins[0]), ins[1..])
  }

  /** The bus write that the command FSM tries in this clock, and whether it takes place. */
  function Tried(r: Regs): seq<Write> {
    if r.busVld && r.busWe != 0 then [OntoBus(r.busAddr, r.busWe, r.busWdat)] else []
  }

  function Done(x: Soc, i: SocIn): seq<Write> {
    if Fabric.CpuAck(x.sys, BothMasters(x, i)) then [] else Tried(x.eng)
  }

  /** A write that takes place is what a peripheral gets; one that does not has no effect at all. */
  lemma DoneIsDone(x: Soc, i: SocIn)
    requires Built(x) && Tried(x.eng) != []
    ensures var m := BothMasters(x, i);
            && (Done(x, i) != [] ==>
                 && Fabric.DmemReq(x.sys, m) == m.uart.(vld := Fabric.InDmem(m.uart.addr))
                 && Fabric.CsrReq(x.sys, m) == m.uart.(vld := Fabric.InCsr(m.uart.addr)))
            && (Done(x, i) == [] ==>
                 var without := m.(uart := m.uart.(we := 0));
                 && Fabric.SysNext(x.sys, m) == Fabric.SysNext(x.sys, without)
                 && Fabric.CsrReq(x.sys, m) == Fabric.CsrReq(x.sys, without))
  {
    Fabric.UartWriteNeedsTheBus(x.sys, BothMasters(x, i));
  }

  /** All writes that take place during a run. */
  function AllDone(x: Soc, ins: seq<SocIn>): seq<Write>
    requires Built(x)
    decreases |ins|
  {
    if ins == [] then [] else Done(x, ins[0]) + AllDone(SocNext(x, ins[0]), ins[1..])
  }

  /** All that are tried from the first clock on in which the CPU has no request; `free` says that there has been
      one already. */
  function TriedOnceFree(x: Soc, ins: seq<SocIn>, free: bool): seq<Write>
    requires Built(x)
    decreases |ins|
  {
    if ins == [] then []
    else
      var free' := free || !ins[0].cpu.vld;
      (if free' then Tried(x.eng) else []) + TriedOnceFree(SocNext(x, ins[0]), ins[1..], free')
  }

  lemma GrantStep(x: Soc, i: SocIn)
    requires Built(x) && x.eng.busVld
    ensures SocNext(x, i).sys.busy == (x.sys.busy || !i.cpu.vld)
    ensures Done(x, i) == if x.sys.busy || !i.cpu.vld then Tried(x.eng) else []
  {
    hide EngineNext, Tried, WordAddress;
  }

  /** During a session the UART has the bus from the first clock on in which the CPU does not ask for it, so exactly the
      writes tried before that are lost. */
  lemma {:induction false} SessionWrites(x: Soc, ins: seq<SocIn>)
    requires Built(x) && StaysOpen(x.eng, EngineIns(x, ins))
    ensures AllDone(x, ins) == TriedOnceFree(x, ins, x.sys.busy)
    ensures SocRun(x, ins).sys.busy <==> x.sys.busy || exists j :: 0 <= j < |ins| && !ins[j].cpu.vld
    decreases |ins|
  {
    hide EngineNext, EngineIn, Tried, Done;
    if ins == [] {
    } else {
      var x' := SocNext(x, ins[0]);
      GrantStep(x, ins[0]);
      NextEngine(x, ins[0]);
      assert EngineIns(x, ins)[1..] == EngineIns(x', ins[1..]);
      hide SocNext;
      SessionWrites(x', ins[1..]);
      assert forall j :: 0 < j < |ins| ==> ins[j] == ins[1..][j - 1];
      if j :| 0 <= j < |ins[1..]| && !ins[1..][j].cpu.vld {
        assert !ins[j + 1].cpu.vld;
      }
    }
  }

  lemma NextEngine(x: Soc, i: SocIn)
    requires Built(x)
    ensures SocNext(x, i).eng == EngineNext(x.eng, EngineIn(x, i))
  {
  }

  /** All writes tried during a run. */
  function AllTried(x: Soc, ins: seq<SocIn>): seq<Write>
    requires Built(x)
    decreases |ins|
  {
    if ins == [] then [] else Tried(x.eng) + AllTried(SocNext(x, ins[0]), ins[1..])
  }

  function OnlyBus(log: seq<Write>): seq<Write> {
    if log == [] then [] else (if log[0].OntoBus? then [log[0]] else []) + OnlyBus(log[1..])
  }

  lemma {:induction false} OnlyBusJoin(a: seq<Write>, b: seq<Write>)
    ensures OnlyBus(a + b) == OnlyBus(a) + OnlyBus(b)
    decreases |a|
  {
    if a == [] {
      assert a + b == b;
    } else {
      var now := if a[0].OntoBus? then [a[0]] else [];
      assert (a + b)[0] == a[0] && (a + b)[1..] == a[1..] + b;
      assert OnlyBus(a + b) == now + OnlyBus(a[1..] + b) && OnlyBus(a) == now + OnlyBus(a[1..]);
      hide OnlyBus;
      OnlyBusJoin(a[1..], b);
      Regroup(now, OnlyBus(a[1..]), OnlyBus(b));
    }
  }

  lemma TriedNow(r: Regs)
    ensures OnlyBus(WritesNow(r)) == Tried(r)
  {
    var load := if r.ramWen then [Write(r.ramAddr, r.ramData, !r.cpuRstn)] else [];
    OnlyBusJoin(load, Tried(r));
    assert OnlyBus(load) == [] && OnlyBus(Tried(r)) == Tried(r);
  }

  lemma {:induction false} TriedIsWritten(x: Soc, ins: seq<SocIn>)
    requires Built(x)
    ensures AllTried(x, ins) == OnlyBus(Writes(x.eng, EngineIns(x, ins)))
    decreases |ins|
  {
    hide EngineNext, EngineIn, Tried, WritesNow;
    if ins != [] {
      var x' := SocNext(x, ins[0]);
      NextEngine(x, ins[0]);
      assert EngineIns(x, ins)[1..] == EngineIns(x', ins[1..]);
      hide SocNext;
      TriedIsWritten(x', ins[1..]);
      TriedNow(x.eng);
      OnlyBusJoin(WritesNow(x.eng), Writes(x'.eng, EngineIns(x', ins[1..])));
    }
  }

  lemma {:induction false} NothingTried(x: Soc, ins: seq<SocIn>, free: bool)
    requires Built(x) && AllTried(x, ins) == []
    ensures TriedOnceFree(x, ins, free) == []
    decreases |ins|
  {
    hide SocNext, Tried;
    if ins != [] {
      NothingTried(SocNext(x, ins[0]), ins[1..], free || !ins[0].cpu.vld);
    }
  }

  /** The CPU requests in every clock up to and including that of the next write tried. */
  predicate CpuAsksUntilWrite(x: Soc, ins: seq<SocIn>)
    requires Built(x)
    decreases |ins|
  {
    ins != [] && ins[0].cpu.vld && (Tried(x.eng) != [] || CpuAsksUntilWrite(SocNext(x, ins[0]), ins[1..]))
  }

  lemma {:induction false} OneWrite(x: Soc, ins: seq<SocIn>, free: bool, w: Write)
    requires Built(x) && AllTried(x, ins) == [w]
    ensures TriedOnceFree(x, ins, free) == if !free && CpuAsksUntilWrite(x, ins) then [] else [w]
    decreases |ins|
  {
    hide SocNext;
    var x', free' := SocNext(x, ins[0]), free || !ins[0].cpu.vld;
    if Tried(x.eng) != [] {
      assert AllTried(x, ins)[1..] == AllTried(x', ins[1..]);
      NothingTried(x', ins[1..], free');
    } else {
      assert AllTried(x, ins) == AllTried(x', ins[1..]);
      OneWrite(x', ins[1..], free', w);
    }
  }

  /** A 0x0E command, `before` being the clocks of the session until it begins: its write is lost if and only if the
      CPU has asked for the bus in every clock since the session opened, the UART not having it from before. */
  lemma BusWriteLostIff(o: Soc, before: seq<SocIn>, ins: seq<SocIn>, xs: seq<Delivery>, addr: Word, data: Word,
                        we: Byte)
    requires Built(o) && StaysOpen(o.eng, EngineIns(o, before)) && LowNibble(we) != 0
    requires var x := SocRun(o, before); Finished(x.eng) && EngineIns(x, ins) == Flat(xs)
    requires Paced(xs) && Payload(xs) == [C_BUSW] + (BytesOf(addr) + BytesOf(data) + [we])
    ensures var x := SocRun(o, before);
            var asked := (forall j :: 0 <= j < |before| ==> before[j].cpu.vld) && CpuAsksUntilWrite(x, ins);
            AllDone(x, ins) == if !o.sys.busy && asked then [] else [OntoBus(addr, LowNibble(we), data)]
  {
    var x := SocRun(o, before);
    var w := OntoBus(addr, LowNibble(we), data);
    assert OnlyBus([w]) == [w];
    hide SocNext, EngineNext, Finished, Payload, Paced, Flat, Writes, Replies, LowNibble, TriedOnceFree,
        CpuAsksUntilWrite, AllDone;
    hide AllTried, OnlyBus;
    SessionWrites(o, before);
    BusWriteCommand(x.eng, xs, addr, data, we);
    TriedIsWritten(x, ins);
    SessionWrites(x, ins);
    OneWrite(x, ins, x.sys.busy, w);
  }

  /** No session is open before, during and after the clocks `ins`. */
  predicate StaysClosed(x: Soc, ins: seq<SocIn>)
    requires Built(x)
    decreases |ins|
  {
    !x.eng.busVld && (ins == [] || StaysClosed(SocNext(x, ins[0]), ins[1..]))
  }

  lemma {:induction false} StaysFree(x: Soc, ins: seq<SocIn>)
    requires Built(x) && StaysClosed(x, ins) && !x.sys.busy
    ensures !SocRun(x, ins).sys.busy && !SocRun(x, ins).eng.busVld
    decreases |ins|
  {
    hide EngineNext;
    if ins != [] {
      StaysFree(SocNext(x, ins[0]), ins[1..]);
    }
  }

  /** The first session after reset, which the clock `open` opens, finds the bus free: there the condition is one on the
      CPU's requests alone. */
  lemma FirstSessionLosesIff(start: Soc, idle: seq<SocIn>, open: SocIn, before: seq<SocIn>, ins: seq<SocIn>,
                             xs: seq<Delivery>,
                             addr: Word, data: Word, we: Byte)
    requires Built(start) && !start.sys.busy && StaysClosed(start, idle) && LowNibble(we) != 0
    requires var o := SocNext(SocRun(start, idle), open);
             && StaysOpen(o.eng, EngineIns(o, before)) && Finished(SocRun(o, before).eng)
             && EngineIns(SocRun(o, before), ins) == Flat(xs)
    requires Paced(xs) && Payload(xs) == [C_BUSW] + (BytesOf(addr) + BytesOf(data) + [we])
    ensures var o := SocNext(SocRun(start, idle), open);
            var x := SocRun(o, before);
            AllDone(x, ins) == if (forall j :: 0 <= j < |before| ==> before[j].cpu.vld) && CpuAsksUntilWrite(x, ins)
                               then [] else [OntoBus(addr, LowNibble(we), data)]
  {
    StaysFree(start, idle);
    var o := SocNext(SocRun(start, idle), open);
    OpensFree(SocRun(start, idle), open);
    hide *;
    BusWriteLostIff(o, before, ins, xs, addr, data, we);
  }

  lemma OpensFree(x: Soc, i: SocIn)
    requires Built(x) && !x.eng.busVld && !x.sys.busy
    ensures !SocNext(x, i).sys.busy
  {
    hide EngineNext;
  }

  /** After a session the UART lets go of the bus, if its address is mapped, as soon as the CPU asks for it for two
      clocks. */
  lemma LetsGo(x: Soc, i0: SocIn, i1: SocIn)
    requires Built(x) && Session(x.eng) && !x.eng.busVld && !SocNext(x, i0).eng.busVld && i0.cpu.vld && i1.cpu.vld
    requires Fabric.InDmem(WordAddress(x.eng.busAddr)) || Fabric.InCsr(WordAddress(x.eng.busAddr))
    ensures !SocNext(SocNext(x, i0), i1).sys.busy
  {
    var x1 := SocNext(x, i0);
    ClosedClock(x.eng, EngineIn(x, i0));
    assert x1.eng == x.eng;
    hide EngineNext, WordAddress, Ram.Cell, Merge;
  }

  lemma ClosedClock(r: Regs, i: In)
    requires Session(r) && !r.busVld && !EngineNext(r, i).busVld
    ensures EngineNext(r, i) == r
  {
  }

  /** The word address without its top eight bits. */
  lemma LowAddress(a: Word, b: Word, n: nat)
    requires a.b0 == b.b0 && a.b1 == b.b1 && a.b2 == b.b2 && n > 0 && 0x40_0000 % n == 0
    ensures WordAddress(a) % n == WordAddress(b) % n
  {
    assert LowBits(a) == LowBits(b);
    hide Value, LowBits;
    SameModulo(Value(a.b3), 0x40_0000, LowBits(a), n);
    SameModulo(Value(b.b3), 0x40_0000, LowBits(a), n);
  }

  /** The clock before one in which a read waits for its answer: the read has been waiting already, or the last byte of
      its address has just arrived. */
  lemma BeforeWaiting(r: Regs, i: In)
    requires Session(r) && EngineNext(r, i).state == BusrWaitData
    ensures r.busVld && r.busWe == 0
    ensures var a, b := r.busAddr, EngineNext(r, i).busAddr; a.b0 == b.b0 && a.b1 == b.b1 && a.b2 == b.b2
  {
    hide EngineNext;
    if r.state == BusrWaitAddr3 {
      LastAddressByte(r, i);
    } else if r.state == BusrWaitData {
      StillWaiting(r, i);
    } else if AwaitsByte(r.state) {
      NoWait(r, i);
    } else {
      NotThere(r, i);
    }
  }

  lemma LastAddressByte(r: Regs, i: In)
    requires r.state == BusrWaitAddr3
    ensures var a, b := r.busAddr, EngineNext(r, i).busAddr; a.b0 == b.b0 && a.b1 == b.b1 && a.b2 == b.b2
  {
    hide OnByte, Idling, Act, Plus;
    assert EngineNext(r, i) == if i.rxValid then OnByte(r, i.rxData) else Idling(r, i);
    hide EngineNext;
    OnBusReadAddress(r, i.rxData);
    IdlingKeeps(r, i);
  }

  lemma IdlingKeeps(r: Regs, i: In)
    ensures Idling(r, i).busAddr == r.busAddr
  {
  }

  lemma StillWaiting(r: Regs, i: In)
    requires r.state == BusrWaitData
    ensures EngineNext(r, i).busAddr == r.busAddr
  {
    hide OnByte;
  }

  lemma NoWait(r: Regs, i: In)
    requires AwaitsByte(r.state) && r.state != BusrWaitAddr3
    ensures EngineNext(r, i).state != BusrWaitData
  {
    NextState(r, i.rxData);
    hide OnByte, Act;
  }

  lemma NotThere(r: Regs, i: In)
    requires !AwaitsByte(r.state) && r.state != BusrWaitData
    ensures EngineNext(r, i).state != BusrWaitData
  {
    hide OnCommand, OnByte, Plus, HalfValue, Idling;
    if r.state == WaitCmd {
      NoReadYet(r, i.rxData);
    }
  }

  lemma NoReadYet(r: Regs, b: Byte)
    requires r.state == WaitCmd
    ensures OnCommand(r, b).state != BusrWaitData
  {
  }

  /** The answer that a bus read takes is the word of data memory at its address, for any memory whose size divides 2^22
      words, or what the control registers return; it comes in a clock in which the UART has the bus. */
  lemma UartReadsWord(x: Soc, i0: SocIn, i1: SocIn)
    requires Built(x) && Session(x.eng) && 0x40_0000 % |x.sys.ram.mem| == 0
    requires var y := SocNext(x, i0); y.eng.state == BusrWaitData && EngineIn(y, i1).busRdy
    ensures var y := SocNext(x, i0);
            var a := WordAddress(y.eng.busAddr);
            && y.sys.busy
            && (0x1000_0000 <= 4 * a < 0x2000_0000 || 0x2000_0000 <= 4 * a < 0x4000_0000)
            && EngineIn(y, i1).busRdat
               == if 4 * a < 0x2000_0000 then y.sys.ram.mem[a % |y.sys.ram.mem|] else i1.csrRdat
  {
    var y := SocNext(x, i0);
    NextEngine(x, i0);
    BeforeWaiting(x.eng, EngineIn(x, i0));
    LowAddress(x.eng.busAddr, y.eng.busAddr, |x.sys.ram.mem|);
    SessionStep(x.eng, EngineIn(x, i0));
    assert y.eng.busWe == 0;
    hide EngineNext, WordAddress;
    var m := BothMasters(x, i0);
    Fabric.NoEnables(x.sys.ram.mem, Ram.Cell(m.uart.addr, |x.sys.ram.mem|), m.uart.wdat);
  }
}
