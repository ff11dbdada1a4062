/** soc_ram.sv: byte-enabled synchronous memory with a ready handshake. */
module Ram {
  import opened Bits

  /** A bus request; `addr` counts 32-bit words. */
  datatype Req = Req(vld: bool, addr: nat, we: bv4, wdat: Word)

  datatype RamState = RamState(mem: seq<Word>, rdat: Word, rdyRd: bool)

  /** The cell that an address selects; the memory repeats throughout its region. */
  function Cell(addr: nat, words: nat): (i: nat)
    requires words > 0
    ensures i < words
  {
    addr % words
  }

  /** Writes are ready at once, reads one clock after the request. */
  predicate RamRdy(r: RamState, q: Req) { q.we != 0 || r.rdyRd }

  function RamNext(r: RamState, q: Req): (r': RamState)
    requires |r.mem| > 0
    ensures |r'.mem| == |r.mem|
  {
    var a := Cell(q.addr, |r.mem|);
    RamState(if q.vld then r.mem[a := Merge(r.mem[a], q.we, q.wdat)] else r.mem, r.mem[a],
             q.vld && q.we == 0 && !RamRdy(r, q))
  }

  class SocRam {
    const mem: array<Word>
    var rdat: Word
    var rdyRd: bool

    ghost function View(): RamState
      reads this, mem
    {
      RamState(mem[..], rdat, rdyRd)
    }

    constructor (words: nat)
      requires words > 0
      ensures fresh(mem) && mem.Length == words && !rdyRd
    {
      mem := new Word[words];
      rdat, rdyRd := ZERO, false;
    }

    /** One rising clock edge; `rdat` gets the old contents of the cell it writes. */
    method Clock(q: Req)
      requires mem.Length > 0
      modifies this, mem
      ensures View() == RamNext(old(View()), q)
    {
      var a := Cell(q.addr, mem.Length);
      rdat, rdyRd := mem[a], q.vld && q.we == 0 && !(q.we != 0 || rdyRd);
      if q.vld {
        mem[a] := Merge(mem[a], q.we, q.wdat);
      }
    }
  }
}

/** soc_fabric.sv: two masters, the CPU and the UART, over data memory and control registers. */
module Fabric {
  import opened Bits
  import opened Ram

  // Word addresses: 0x1000_0000 - 0x1FFF_FFFF and 0x2000_0000 - 0x3FFF_FFFF in bytes.
  predicate InDmem(addr: nat) { 0x0400_0000 <= addr < 0x0800_0000 }
  predicate InCsr(addr: nat) { 0x0800_0000 <= addr < 0x1000_0000 }

  datatype Sys = Sys(busy: bool, ram: RamState)

  /** Both masters' requests in one clock, and what the control registers return. */
  datatype Masters = Masters(cpu: Req, uart: Req, csrRdat: Word)

  predicate CpuAck(s: Sys, m: Masters) { m.cpu.vld && !s.busy }

  /** The request that reaches the peripherals, before address decoding. */
  function Granted(s: Sys, m: Masters): Req {
    (if CpuAck(s, m) then m.cpu else m.uart).(vld := m.uart.vld || m.cpu.vld)
  }

  function DmemReq(s: Sys, m: Masters): Req {
    var g := Granted(s, m);
    g.(vld := g.vld && InDmem(g.addr))
  }

  function CsrReq(s: Sys, m: Masters): Req {
    var g := Granted(s, m);
    g.(vld := g.vld && InCsr(g.addr))
  }

  /** Ready and data of the selected peripheral; the control registers are always ready. */
  predicate SelRdy(s: Sys, m: Masters) {
    var g := Granted(s, m);
    if InDmem(g.addr) then RamRdy(s.ram, g) else InCsr(g.addr)
  }

  function SelRdat(s: Sys, m: Masters): Word {
    var g := Granted(s, m);
    if InDmem(g.addr) then s.ram.rdat else if InCsr(g.addr) then m.csrRdat else ZERO
  }

  predicate CpuRdy(s: Sys, m: Masters) { SelRdy(s, m) && !s.busy }
  predicate UartRdy(s: Sys, m: Masters) { SelRdy(s, m) && s.busy }

  function BusyNext(s: Sys, m: Masters): bool {
    if s.busy then !SelRdy(s, m) || m.uart.vld else !m.cpu.vld && m.uart.vld
  }

  function SysNext(s: Sys, m: Masters): (s': Sys)
    requires |s.ram.mem| > 0
    ensures |s'.ram.mem| == |s.ram.mem|
  {
    Sys(BusyNext(s, m), RamNext(s.ram, DmemReq(s, m)))
  }

  /** The arbiter register. */
  class Arbiter {
    var uartBusy: bool

    constructor ()
      ensures !uartBusy
    {
      uartBusy := false;
    }

    method Clock(cpuVld: bool, uartVld: bool, uartDone: bool)
      modifies this
      ensures uartBusy == if old(uartBusy) then !uartDone || uartVld else !cpuVld && uartVld
    {
      if uartBusy {
        uartBusy := !uartDone || uartVld;
      } else {
        uartBusy := !cpuVld && uartVld;
      }
    }
  }

  /** The arbiter over the memory; the outputs are those of the clock that ends with the edge. */
  class Interconnect {
    const arbiter: Arbiter
    const dmem: SocRam

    ghost predicate Valid()
      reads this
    {
      dmem.mem.Length > 0
    }

    ghost function View(): Sys
      reads this, arbiter, dmem, dmem.mem
    {
      Sys(arbiter.uartBusy, dmem.View())
    }

    constructor (words: nat)
      requires words > 0
      ensures Valid() && !View().busy && !View().ram.rdyRd && |View().ram.mem| == words
      ensures fresh(arbiter) && fresh(dmem) && fresh(dmem.mem)
    {
      arbiter := new Arbiter();
      dmem := new SocRam(words);
    }

    method Clock(m: Masters) returns (cpuRdy: bool, cpuRdat: Word, uartRdy: bool)
      requires Valid()
      modifies arbiter, dmem, dmem.mem
      ensures Valid()
      ensures View() == SysNext(old(View()), m)
      ensures cpuRdy == CpuRdy(old(View()), m) && uartRdy == UartRdy(old(View()), m)
              && cpuRdat == SelRdat(old(View()), m)
    {
      var busy := arbiter.uartBusy;
      var cpuAck := m.cpu.vld && !busy;
      var addr := if cpuAck then m.cpu.addr else m.uart.addr;
      var we := if cpuAck then m.cpu.we else m.uart.we;
      var wdat := if cpuAck then m.cpu.wdat else m.uart.wdat;
      var vld := m.uart.vld || m.cpu.vld;
      var rdy := if InDmem(addr) then we != 0 || dmem.rdyRd else InCsr(addr);
      cpuRdy, uartRdy := rdy && !busy, rdy && busy;
      cpuRdat := if InDmem(addr) then dmem.rdat else if InCsr(addr) then m.csrRdat else ZERO;
      arbiter.Clock(m.cpu.vld, m.uart.vld, rdy);
      dmem.Clock(Req(vld && InDmem(addr), addr, we, wdat));
    }
  }

  /** What a completed access did, as its master sees it. */
  datatype Event = Read(addr: nat, data: Word) | Write(addr: nat, we: bv4, data: Word)

  /** The accesses to data memory that this clock completes: the CPU's, when it sees ready, or else a write
      of the UART's. */
  function Events(s: Sys, m: Masters): seq<Event> {
    if m.cpu.vld && CpuRdy(s, m) && InDmem(m.cpu.addr) then
      [if m.cpu.we == 0 then Read(m.cpu.addr, SelRdat(s, m)) else Write(m.cpu.addr, m.cpu.we, m.cpu.wdat)]
    else if !CpuAck(s, m) && DmemReq(s, m).vld && m.uart.we != 0 then
      [Write(m.uart.addr, m.uart.we, m.uart.wdat)]
    else []
  }

  /** Plain memory: what the events do to it, and whether the reads among them return what it holds. */
  function Apply(mem: seq<Word>, e: Event): (mem': seq<Word>)
    requires |mem| > 0
    ensures |mem'| == |mem|
  {
    match e
    case Read(_, _) => mem
    case Write(addr, we, data) => mem[Cell(addr, |mem|) := Merge(mem[Cell(addr, |mem|)], we, data)]
  }

  function Replay(mem: seq<Word>, es: seq<Event>): (mem': seq<Word>)
    requires |mem| > 0
    ensures |mem'| == |mem|
    decreases |es|
  {
    if es == [] then mem else Replay(Apply(mem, es[0]), es[1..])
  }

  predicate Exact(mem: seq<Word>, es: seq<Event>)
    requires |mem| > 0
    decreases |es|
  {
    es == [] || ((es[0].Read? ==> es[0].data == mem[Cell(es[0].addr, |mem|)]) && Exact(Apply(mem, es[0]), es[1..]))
  }

  /** The CPU's request of the last clock, if it was not ready then. */
  function Held(s: Sys, m: Masters): Option<Req> {
    if m.cpu.vld && !CpuRdy(s, m) then Some(m.cpu) else None
  }

  /** The one thing asked of the CPU: a request stays up, unchanged, until it is ready. */
  predicate Obeys(held: Option<Req>, m: Masters) { held.Some? ==> m.cpu == held.value }

  /** Ready data in the RAM belongs to the CPU's own held request, unless the UART has the bus. */
  predicate Inv(s: Sys, held: Option<Req>) {
    && |s.ram.mem| > 0
    && (s.ram.rdyRd && !s.busy ==>
         && held.Some? && held.value.vld && held.value.we == 0 && InDmem(held.value.addr)
         && s.ram.rdat == s.ram.mem[Cell(held.value.addr, |s.ram.mem|)])
  }

  lemma NoEnables(mem: seq<Word>, a: nat, w: Word)
    requires a < |mem|
    ensures mem[a := Merge(mem[a], 0, w)] == mem
  {
  }

  lemma BusStep(s: Sys, held: Option<Req>, m: Masters)
    requires Inv(s, held) && Obeys(held, m)
    ensures Inv(SysNext(s, m), Held(s, m))
    ensures Exact(s.ram.mem, Events(s, m))
    ensures SysNext(s, m).ram.mem == Replay(s.ram.mem, Events(s, m))
  {
    hide Cell;
    var g := DmemReq(s, m);
    NoEnables(s.ram.mem, Cell(g.addr, |s.ram.mem|), g.wdat);
  }

  /** A trace in which the CPU obeys the handshake throughout. */
  predicate Handshakes(s: Sys, held: Option<Req>, ms: seq<Masters>)
    requires |s.ram.mem| > 0
    decreases |ms|
  {
    ms == [] || (Obeys(held, ms[0]) && Handshakes(SysNext(s, ms[0]), Held(s, ms[0]), ms[1..]))
  }

  function BusRun(s: Sys, ms: seq<Masters>): (s': Sys)
    requires |s.ram.mem| > 0
    ensures |s'.ram.mem| == |s.ram.mem|
    decreases |ms|
  {
    if ms == [] then s else BusRun(SysNext(s, ms[0]), ms[1..])
  }

  function History(s: Sys, ms: seq<Masters>): seq<Event>
    requires |s.ram.mem| > 0
    decreases |ms|
  {
    if ms == [] then [] else Events(s, ms[0]) + History(SysNext(s, ms[0]), ms[1..])
  }

  lemma {:induction false} ReplayJoin(mem: seq<Word>, a: seq<Event>, b: seq<Event>)
    requires |mem| > 0
    ensures Replay(mem, a + b) == Replay(Replay(mem, a), b)
    ensures Exact(mem, a + b) <==> Exact(mem, a) && Exact(Replay(mem, a), b)
    decreases |a|
  {
    if a == [] {
      assert a + b == b;
    } else {
      assert (a + b)[1..] == a[1..] + b;
      ReplayJoin(Apply(mem, a[0]), a[1..], b);
    }
  }

  /** Whatever the UART master does, the memory that the CPU sees is one plain memory: every read that it
      sees ready returns the word at its own address after all writes completed before, CPU and UART writes
      having changed exactly their enabled bytes, and nothing else changes the memory. */
  lemma {:induction false} SequentiallyConsistent(s: Sys, held: Option<Req>, ms: seq<Masters>)
    requires Inv(s, held) && Handshakes(s, held, ms)
    ensures Exact(s.ram.mem, History(s, ms))
    ensures BusRun(s, ms).ram.mem == Replay(s.ram.mem, History(s, ms))
    decreases |ms|
  {
    if ms == [] {
    } else {
      BusStep(s, held, ms[0]);
      var s' := SysNext(s, ms[0]);
      hide SysNext, Events, Inv;
      SequentiallyConsistent(s', Held(s, ms[0]), ms[1..]);
      ReplayJoin(s.ram.mem, Events(s, ms[0]), History(s', ms[1..]));
    }
  }

  /** What a byte lane of word `i`, of `n`, holds after an event: a write to an address that is `i` modulo `n` replaces
      it,
      if the lane's enable is up. */
  function LaneNow(b: Byte, e: Event, n: nat, i: nat, lane: nat): Byte
    requires n > 0
  {
    match e
    case Read(_, _) => b
    case Write(addr, we, data) =>
      if addr % n != i then b
      else if lane == 0 then (if we & 1 != 0 then data.b0 else b)
      else if lane == 1 then (if we & 2 != 0 then data.b1 else b)
      else if lane == 2 then (if we & 4 != 0 then data.b2 else b)
      else if we & 8 != 0 then data.b3
      else b
  }

  function LaneAfter(b: Byte, es: seq<Event>, n: nat, i: nat, lane: nat): Byte
    requires n > 0
    decreases |es|
  {
    if es == [] then b else LaneAfter(LaneNow(b, es[0], n, i, lane), es[1..], n, i, lane)
  }

  /** The whole word, lane by lane. */
  function WordAfter(w: Word, es: seq<Event>, n: nat, i: nat): Word
    requires n > 0
  {
    Word(LaneAfter(w.b0, es, n, i, 0), LaneAfter(w.b1, es, n, i, 1), LaneAfter(w.b2, es, n, i, 2),
         LaneAfter(w.b3, es, n, i, 3))
  }

  /** The write, if any, that this clock stores in data memory: the CPU's, if it has the bus, else the UART's. */
  function Stored(s: Sys, m: Masters): seq<Event> {
    var cpuHasBus := m.cpu.vld && !s.busy;
    var q := if cpuHasBus then m.cpu else m.uart;
    if (m.cpu.vld || m.uart.vld) && q.we != 0 && 0x1000_0000 <= 4 * q.addr < 0x2000_0000
    then [Write(q.addr, q.we, q.wdat)] else []
  }

  function AllStored(s: Sys, ms: seq<Masters>): seq<Event>
    requires |s.ram.mem| > 0
    decreases |ms|
  {
    if ms == [] then [] else Stored(s, ms[0]) + AllStored(SysNext(s, ms[0]), ms[1..])
  }

  lemma StoredNow(s: Sys, m: Masters, i: nat)
    requires i < |s.ram.mem|
    ensures SysNext(s, m).ram.mem[i] == WordAfter(s.ram.mem[i], Stored(s, m), |s.ram.mem|, i)
  {
    var w, n, mem := s.ram.mem[i], |s.ram.mem|, s.ram.mem;
    hide Merge, LaneNow, LaneAfter;
    if Stored(s, m) == [] {
      NoEnables(mem, Cell(m.cpu.addr, n), m.cpu.wdat);
      NoEnables(mem, Cell(m.uart.addr, n), m.uart.wdat);
      Nothing(w, n, i);
    } else {
      var e := Stored(s, m)[0];
      MergeIsLanes(w, e, n, i);
      Single(w.b0, e, n, i, 0);
      Single(w.b1, e, n, i, 1);
      Single(w.b2, e, n, i, 2);
      Single(w.b3, e, n, i, 3);
    }
  }

  lemma Nothing(w: Word, n: nat, i: nat)
    requires n > 0
    ensures WordAfter(w, [], n, i) == w
  {
  }

  lemma MergeIsLanes(w: Word, e: Event, n: nat, i: nat)
    requires n > 0 && e.Write?
    ensures Word(LaneNow(w.b0, e, n, i, 0), LaneNow(w.b1, e, n, i, 1), LaneNow(w.b2, e, n, i, 2),
                 LaneNow(w.b3, e, n, i, 3))
            == if e.addr % n == i then Merge(w, e.we, e.data) else w
  {
  }

  lemma Single(b: Byte, e: Event, n: nat, i: nat, lane: nat)
    requires n > 0
    ensures LaneAfter(b, [e], n, i, lane) == LaneNow(b, e, n, i, lane)
  {
    assert [e][1..] == [];
  }

  lemma {:induction false} LaneJoin(b: Byte, es: seq<Event>, more: seq<Event>, n: nat, i: nat, lane: nat)
    requires n > 0
    ensures LaneAfter(b, es + more, n, i, lane) == LaneAfter(LaneAfter(b, es, n, i, lane), more, n, i, lane)
    decreases |es|
  {
    if es == [] {
      assert es + more == more;
    } else {
      assert (es + more)[1..] == es[1..] + more;
      LaneJoin(LaneNow(b, es[0], n, i, lane), es[1..], more, n, i, lane);
    }
  }

  lemma {:induction false} MemoryAfter(s: Sys, ms: seq<Masters>, i: nat)
    requires i < |s.ram.mem|
    ensures BusRun(s, ms).ram.mem[i] == WordAfter(s.ram.mem[i], AllStored(s, ms), |s.ram.mem|, i)
    decreases |ms|
  {
    if ms != [] {
      var s', w, n := SysNext(s, ms[0]), s.ram.mem[i], |s.ram.mem|;
      StoredNow(s, ms[0], i);
      hide SysNext, Stored;
      MemoryAfter(s', ms[1..], i);
      var es, more := Stored(s, ms[0]), AllStored(s', ms[1..]);
      LaneJoin(w.b0, es, more, n, i, 0);
      LaneJoin(w.b1, es, more, n, i, 1);
      LaneJoin(w.b2, es, more, n, i, 2);
      LaneJoin(w.b3, es, more, n, i, 3);
      hide LaneAfter;
    }
  }

  lemma {:induction false} InvRun(s: Sys, held: Option<Req>, ms: seq<Masters>, k: nat) returns (now: Option<Req>)
    requires Inv(s, held) && Handshakes(s, held, ms) && k < |ms|
    ensures Inv(BusRun(s, ms[..k]), now) && Obeys(now, ms[k])
    decreases k
  {
    if k == 0 {
      now := held;
    } else {
      BusStep(s, held, ms[0]);
      hide SysNext, Inv, Obeys;
      now := InvRun(SysNext(s, ms[0]), Held(s, ms[0]), ms[1..], k - 1);
      assert ms[..k][0] == ms[0] && ms[..k][1..] == ms[1..][..k - 1];
    }
  }

  /** The memory behind both masters, in every clock of any run: every word is made of the last bytes stored at its
      address
      modulo the size, by either master, and of nothing else; a read of the CPU that is ready
          returns the word at its own
      address; a write is ready in the clock that stores it. */
  lemma ReadsLastWrites(s: Sys, held: Option<Req>, ms: seq<Masters>, k: nat)
    requires Inv(s, held) && Handshakes(s, held, ms) && k < |ms|
    ensures var n, now, m, es := |s.ram.mem|, BusRun(s, ms[..k]), ms[k], AllStored(s, ms[..k]);
            && (forall i :: 0 <= i < n ==> now.ram.mem[i] == WordAfter(s.ram.mem[i], es, n, i))
            && (m.cpu.vld && 0x1000_0000 <= 4 * m.cpu.addr < 0x2000_0000 ==>
                 && (m.cpu.we == 0 && CpuRdy(now, m) ==>
                      SelRdat(now, m) == WordAfter(s.ram.mem[m.cpu.addr % n], es, n, m.cpu.addr % n))
                 && (m.cpu.we != 0 ==>
                      (CpuRdy(now, m) <==> Stored(now, m) == [Write(m.cpu.addr, m.cpu.we, m.cpu.wdat)] && !now.busy)))
  {
    var n, now, m := |s.ram.mem|, BusRun(s, ms[..k]), ms[k];
    var h := InvRun(s, held, ms, k);
    forall i | 0 <= i < n ensures now.ram.mem[i] == WordAfter(s.ram.mem[i], AllStored(s, ms[..k]), n, i) {
      MemoryAfter(s, ms[..k], i);
    }
    hide WordAfter, AllStored, BusRun, Handshakes;
    BusStep(now, h, m);
  }

  /** The memory map in byte addresses: bits 31 to 28, and 31 to 29. */
  lemma MemoryMap(byteAddr: nat)
    ensures InDmem(byteAddr / 4) <==> byteAddr / 0x1000_0000 == 1
    ensures InCsr(byteAddr / 4) <==> byteAddr / 0x2000_0000 == 1
  {
  }

  /** An access of the CPU that is ready was made to data memory or to a control register, and the UART did not have
      the bus; from a control register comes what that returns, and data memory stays as it is. */
  lemma WhatIsReady(s: Sys, m: Masters)
    requires |s.ram.mem| > 0 && m.cpu.vld && CpuRdy(s, m)
    ensures !s.busy && (0x1000_0000 <= 4 * m.cpu.addr < 0x2000_0000 || 0x2000_0000 <= 4 * m.cpu.addr < 0x4000_0000)
    ensures 4 * m.cpu.addr >= 0x2000_0000 ==>
              SelRdat(s, m) == m.csrRdat && CsrReq(s, m) == m.cpu && SysNext(s, m).ram.mem == s.ram.mem
  {
  }

  /** A granted UART keeps the bus while its request is up, and the CPU sees no ready meanwhile. */
  lemma UartKeepsBus(s: Sys, m: Masters)
    requires |s.ram.mem| > 0 && s.busy && m.uart.vld
    ensures SysNext(s, m).busy && !CpuRdy(s, m)
  {
  }

  /** The CPU holds the request `q` while the UART has none. */
  predicate CpuAlone(m: Masters, q: Req) { m.cpu == q && q.vld && !m.uart.vld && m.uart.we == 0 }

  /** Within two clocks the UART lets go of the bus, if its address is mapped. */
  lemma UartReleases(s: Sys, m0: Masters, m1: Masters, q: Req)
    requires |s.ram.mem| > 0 && CpuAlone(m0, q) && CpuAlone(m1, q)
    requires InDmem(m0.uart.addr) || InCsr(m0.uart.addr)
    requires InDmem(m1.uart.addr) || InCsr(m1.uart.addr)
    ensures !s.busy || !SysNext(s, m0).busy || !SysNext(SysNext(s, m0), m1).busy
  {
    hide Cell;
  }

  /** With the bus free, an access is ready at once or in the next clock. */
  lemma FreeBusServes(s: Sys, m0: Masters, m1: Masters, q: Req)
    requires |s.ram.mem| > 0 && CpuAlone(m0, q) && CpuAlone(m1, q) && !s.busy
    requires InDmem(q.addr) || InCsr(q.addr)
    ensures CpuRdy(s, m0) || CpuRdy(SysNext(s, m0), m1)
  {
    hide Cell;
  }

  /** From any arbiter and RAM state, a CPU access to a mapped address is ready within four clocks once the
      UART's request is down, its address being mapped. */
  lemma BoundedWait(s: Sys, ms: seq<Masters>, q: Req) returns (k: nat)
    requires |s.ram.mem| > 0 && |ms| >= 4 && (InDmem(q.addr) || InCsr(q.addr))
    requires forall j :: 0 <= j < |ms| ==> CpuAlone(ms[j], q) && (InDmem(ms[j].uart.addr) || InCsr(ms[j].uart.addr))
    ensures k < 4 && CpuRdy(BusRun(s, ms[..k]), ms[k])
  {
    var s1, s2 := BusRun(s, ms[..1]), BusRun(s, ms[..2]);
    RunOneMore(s, ms, 0);
    RunOneMore(s, ms, 1);
    UartReleases(s, ms[0], ms[1], q);
    var f := if !s.busy then 0 else if !s1.busy then 1 else 2;
    var sf := BusRun(s, ms[..f]);
    FreeBusServes(sf, ms[f], ms[f + 1], q);
    RunOneMore(s, ms, f);
    k := if CpuRdy(sf, ms[f]) then f else f + 1;
  }

  lemma {:induction false} RunOneMore(s: Sys, ms: seq<Masters>, k: nat)
    requires |s.ram.mem| > 0 && k < |ms|
    ensures BusRun(s, ms[..k + 1]) == SysNext(BusRun(s, ms[..k]), ms[k])
    decreases k
  {
    hide SysNext;
    if k == 0 {
      assert ms[..1][1..] == [];
    } else {
      assert ms[..k + 1][1..] == ms[1..][..k] && ms[..k][1..] == ms[1..][..k - 1];
      RunOneMore(SysNext(s, ms[0]), ms[1..], k - 1);
    }
  }

  /** If the UART lets its request go while granted at an address that is not mapped, the CPU is never served
      again, for as long as the UART's request stays as it is. */
  lemma {:induction false} Starves(s: Sys, ms: seq<Masters>, q: Req)
    requires |s.ram.mem| > 0 && s.busy
    requires forall j :: 0 <= j < |ms| ==> CpuAlone(ms[j], q) && !InDmem(ms[j].uart.addr) && !InCsr(ms[j].uart.addr)
    ensures forall k :: 0 <= k < |ms| ==> !CpuRdy(BusRun(s, ms[..k]), ms[k])
    decreases |ms|
  {
    if ms != [] {
      var s' := SysNext(s, ms[0]);
      Starves(s', ms[1..], q);
      forall k | 0 <= k < |ms| ensures !CpuRdy(BusRun(s, ms[..k]), ms[k]) {
        if k > 0 {
          assert ms[..k][1..] == ms[1..][..k - 1] && ms[..k][0] == ms[0] && ms[k] == ms[1..][k - 1];
        }
      }
    }
  }

  /** Exactly when the CPU gets through, the UART's request being down and constant: the bus is free, or the
      UART's address is mapped. */
  lemma ServedIff(s: Sys, ms: seq<Masters>, q: Req, u: Req)
    requires |s.ram.mem| > 0 && |ms| >= 4 && (InDmem(q.addr) || InCsr(q.addr))
    requires forall j :: 0 <= j < |ms| ==> CpuAlone(ms[j], q) && ms[j].uart == u
    ensures (exists k :: 0 <= k < |ms| && CpuRdy(BusRun(s, ms[..k]), ms[k]))
            <==> !s.busy || InDmem(u.addr) || InCsr(u.addr)
  {
    if InDmem(u.addr) || InCsr(u.addr) {
      var k := BoundedWait(s, ms, q);
    } else if !s.busy {
      FreeBusServes(s, ms[0], ms[1], q);
      RunOneMore(s, ms, 0);
      assert CpuRdy(BusRun(s, ms[..0]), ms[0]) || CpuRdy(BusRun(s, ms[..1]), ms[1]);
    } else {
      Starves(s, ms, q);
    }
  }

  /** The UART's write takes place if and only if the CPU does not have the bus in that clock: then the peripheral
      selected by the UART's address gets it, enabled byte by enabled byte; otherwise everything is as if the
      UART's enables were down. */
  lemma UartWriteNeedsTheBus(s: Sys, m: Masters)
    requires |s.ram.mem| > 0 && m.uart.vld && m.uart.we != 0
    ensures !CpuAck(s, m) ==>
              && DmemReq(s, m) == m.uart.(vld := InDmem(m.uart.addr))
              && CsrReq(s, m) == m.uart.(vld := InCsr(m.uart.addr))
              && SysNext(s, m).ram.mem
                 == if InDmem(m.uart.addr) then Apply(s.ram.mem, Write(m.uart.addr, m.uart.we, m.uart.wdat))
                    else s.ram.mem
    ensures CpuAck(s, m) ==>
              var without := m.(uart := m.uart.(we := 0));
              SysNext(s, m) == SysNext(s, without) && CsrReq(s, m) == CsrReq(s, without)
  {
    hide Cell, Merge;
  }
}
