/** f_VProc.v: the clocked process that plays bursts onto the bus, without delta cycles. */
module BurstEngine {
  import opened Bits

  /** A command as VSched returns it: `blk` is the burst length, 0 for a plain access; `ticks` is not negative. */
  datatype Command = Command(addr: nat, write: bool, read: bool, blk: nat, be: bv4, lbe: bv4, data: Word, ticks: nat)

  /** The bus outputs. */
  datatype Pins = Pins(addr: nat, we: bool, rd: bool, be: bv4, burstFirst: bool, burstLast: bool, dataOut: Word)

  datatype VProc = VProc(tickCount: nat, blkCount: nat, accIdx: int, lbe: bv4, pins: Pins)

  /** Inputs of one clock: the acknowledges, the data input, the command that VSched returns if it is called, and
      what VAccess returns by index. */
  datatype In = In(wrAck: bool, rdAck: bool, dataIn: Word, cmd: Command, source: int -> Word)

  /** A call of VAccess: index and data handed over. */
  datatype Access = Access(idx: int, data: Word)

  /** The access on the bus completes, or there is none and the ticks have run out. */
  predicate Proceeds(s: VProc, i: In) {
    (!s.pins.rd && !s.pins.we && s.tickCount == 0) || (s.pins.rd && i.rdAck) || (s.pins.we && i.wrAck)
  }

  predicate Schedules(s: VProc, i: In) { Proceeds(s, i) && s.blkCount <= 1 }

  /** The last word of a burst, or a plain access, is done: a new command goes out. */
  function Scheduled(s: VProc, i: In): VProc {
    var c := i.cmd;
    var seen := if s.blkCount == 1 && s.pins.rd then s.accIdx + 1 else s.accIdx;
    var idx := if c.blk == 0 then seen else if c.write then 0 else -1;
    var data := if c.blk != 0 && c.write then i.source(0) else c.data;
    VProc(if c.ticks > 0 then c.ticks - 1 else s.tickCount, c.blk, idx, c.lbe,
          Pins(c.addr, c.write, c.read, c.be, c.blk != 0, c.blk == 1, data))
  }

  /** The next word of a burst. */
  function Advanced(s: VProc, incr: nat, i: In): VProc
    requires s.blkCount > 1
  {
    s.(accIdx := s.accIdx + 1, blkCount := s.blkCount - 1,
       pins := s.pins.(burstFirst := false, burstLast := s.blkCount == 2, be := if s.blkCount == 2 then s.lbe else 0xF,
                       addr := (s.pins.addr + incr) % ADDR_SPACE, dataOut := i.source(s.accIdx + 1)))
  }

  function Next(s: VProc, incr: nat, i: In): VProc {
    if !Proceeds(s, i) then s.(tickCount := if s.tickCount > 0 then s.tickCount - 1 else 0)
    else if s.blkCount <= 1 then Scheduled(s, i)
    else Advanced(s, incr, i)
  }

  /** The VAccess calls of one clock. */
  function Accesses(s: VProc, i: In): seq<Access> {
    if !Proceeds(s, i) then []
    else if s.blkCount <= 1 then
      (if s.blkCount == 1 && s.pins.rd then [Access(s.accIdx + 1, i.dataIn)] else [])
      + (if i.cmd.blk != 0 && i.cmd.write then [Access(0, ZERO)] else [])
    else [Access(s.accIdx + 1, i.dataIn)]
  }

  /** What the bus sees when it acknowledges an access. */
  datatype Transfer = Transfer(addr: nat, be: bv4, data: Word, first: bool, last: bool)

  function Transfers(s: VProc, i: In): seq<Transfer> {
    if (s.pins.rd && i.rdAck) || (s.pins.we && i.wrAck) then
      var data := if s.pins.we then s.pins.dataOut else i.dataIn;
      [Transfer(s.pins.addr, s.pins.be, data, s.pins.burstFirst, s.pins.burstLast)]
    else []
  }

  class Engine {
    const incr: nat
    var tickCount: nat
    var blkCount: nat
    var accIdx: int
    var lbe: bv4
    var pins: Pins

    function View(): VProc
      reads this
    {
      VProc(tickCount, blkCount, accIdx, lbe, pins)
    }

    constructor (incr: nat)
      ensures tickCount == 1 && blkCount == 0 && !pins.we && !pins.rd && this.incr == incr
    {
      this.incr := incr;
      tickCount, blkCount, pins := 1, 0, Pins(0, false, false, 0, false, false, ZERO);
    }

    /** The last word of a burst, or a plain access, is done. */
    method Schedule(i: In) returns (log: seq<Access>)
      requires blkCount <= 1
      modifies this
      ensures View() == Scheduled(old(View()), i)
      ensures log == (if old(blkCount) == 1 && old(pins.rd) then [Access(old(accIdx) + 1, i.dataIn)] else [])
                     + (if i.cmd.blk != 0 && i.cmd.write then [Access(0, ZERO)] else [])
    {
      log := [];
      if blkCount == 1 && pins.rd {
        accIdx := accIdx + 1;
        log := log + [Access(accIdx, i.dataIn)];
      }
      var c := i.cmd;
      var data := c.data;
      if c.blk != 0 {
        if c.write {
          accIdx, data := 0, i.source(0);
          log := log + [Access(0, ZERO)];
        } else {
          accIdx := -1;
        }
      }
      lbe, blkCount := c.lbe, c.blk;
      pins := Pins(c.addr, c.write, c.read, c.be, c.blk != 0, c.blk == 1, data);
      if c.ticks > 0 {
        tickCount := c.ticks - 1;
      }
    }

    /** The next word of a burst. */
    method Advance(i: In) returns (log: seq<Access>)
      requires blkCount > 1
      modifies this
      ensures View() == Advanced(old(View()), incr, i)
      ensures log == [Access(old(accIdx) + 1, i.dataIn)]
    {
      accIdx := accIdx + 1;
      log := [Access(accIdx, i.dataIn)];
      blkCount := blkCount - 1;
      pins := pins.(burstFirst := false, burstLast := false, be := 0xF, dataOut := i.source(accIdx),
                    addr := (pins.addr + incr) % ADDR_SPACE);
      if blkCount == 1 {
        pins := pins.(burstLast := true, be := lbe);
      }
    }

    /** One rising clock edge; `log` are the calls of VAccess. */
    method Clock(i: In) returns (log: seq<Access>)
      modifies this
      ensures View() == Next(old(View()), incr, i)
      ensures log == Accesses(old(View()), i)
    {
      log := [];
      if (!pins.rd && !pins.we && tickCount == 0) || (pins.rd && i.rdAck) || (pins.we && i.wrAck) {
        if blkCount <= 1 {
          log := Schedule(i);
        } else {
          log := Advance(i);
        }
      } else {
        tickCount := if tickCount > 0 then tickCount - 1 else 0;
      }
    }
  }

  /** The address of word `k` of a burst. */
  function AddrAt(addr: nat, incr: nat, k: nat): nat {
    if k == 0 then addr else (AddrAt(addr, incr, k - 1) + incr) % ADDR_SPACE
  }

  /** The byte enables of word `k` of `n`: the first ones, all, or the last ones. */
  function EnablesAt(c: Command, k: nat): bv4 {
    if k == 0 then c.be else if k == c.blk - 1 then c.lbe else 0xF
  }

  predicate IsBurst(c: Command) { c.blk >= 1 && c.write != c.read }

  /** A burst of `c` is on the bus, `k` of its words acknowledged. */
  predicate InBurst(s: VProc, c: Command, incr: nat, k: nat, source: int -> Word) {
    && k < c.blk && s.pins.we == c.write && s.pins.rd == c.read
    && s.blkCount == c.blk - k && s.accIdx == (if c.write then k else k - 1)
    && s.pins.addr == AddrAt(c.addr, incr, k) && s.pins.be == EnablesAt(c, k) && s.lbe == c.lbe
    && s.pins.burstFirst == (k == 0) && s.pins.burstLast == (k == c.blk - 1)
    && (c.write ==> s.pins.dataOut == source(k))
  }

  /** The clock in which VSched returns a burst puts its first word on the bus. */
  lemma BurstBegins(s: VProc, incr: nat, i: In)
    requires Schedules(s, i) && IsBurst(i.cmd)
    ensures InBurst(Next(s, incr, i), i.cmd, incr, 0, i.source)
    ensures Accesses(s, i) == (if s.blkCount == 1 && s.pins.rd then [Access(s.accIdx + 1, i.dataIn)] else [])
                              + (if i.cmd.write then [Access(0, ZERO)] else [])
  {
  }

  /** The transfer of word `k`, given what the bus returned for it. */
  function TransferAt(c: Command, incr: nat, k: nat, data: Word): Transfer {
    Transfer(AddrAt(c.addr, incr, k), EnablesAt(c, k), data, k == 0, k == c.blk - 1)
  }

  predicate Acked(c: Command, i: In) { if c.write then i.wrAck else i.rdAck }

  lemma BurstClock(s: VProc, incr: nat, c: Command, k: nat, i: In)
    requires IsBurst(c) && InBurst(s, c, incr, k, i.source)
    ensures !Acked(c, i) ==>
              && InBurst(Next(s, incr, i), c, incr, k, i.source)
              && Transfers(s, i) == [] && Accesses(s, i) == []
    ensures Acked(c, i) ==> Transfers(s, i) == [TransferAt(c, incr, k, if c.write then i.source(k) else i.dataIn)]
    ensures Acked(c, i) && k + 1 < c.blk ==>
              && InBurst(Next(s, incr, i), c, incr, k + 1, i.source)
              && Accesses(s, i) == [if c.write then Access(k + 1, i.dataIn) else Access(k, i.dataIn)]
    ensures Acked(c, i) && k + 1 == c.blk ==>
              && Schedules(s, i) && (c.read ==> Accesses(s, i) != [] && Accesses(s, i)[0] == Access(k, i.dataIn))
  {
  }

  function BusRun(s: VProc, incr: nat, ins: seq<In>): VProc
    decreases |ins|
  {
    if ins == [] then s else BusRun(Next(s, incr, ins[0]), incr, ins[1..])
  }

  function BusLog(s: VProc, incr: nat, ins: seq<In>): seq<Transfer>
    decreases |ins|
  {
    if ins == [] then [] else Transfers(s, ins[0]) + BusLog(Next(s, incr, ins[0]), incr, ins[1..])
  }

  function AccessLog(s: VProc, incr: nat, ins: seq<In>): seq<Access>
    decreases |ins|
  {
    if ins == [] then [] else Accesses(s, ins[0]) + AccessLog(Next(s, incr, ins[0]), incr, ins[1..])
  }

  /** The data input in the acknowledged clocks. */
  function AckedData(c: Command, ins: seq<In>): seq<Word> {
    if ins == [] then [] else (if Acked(c, ins[0]) then [ins[0].dataIn] else []) + AckedData(c, ins[1..])
  }

  /** The transfers of words `k`, `k` + 1, ... of a burst, one for each entry of `data`. */
  function Expected(c: Command, incr: nat, k: nat, data: seq<Word>, source: int -> Word): seq<Transfer>
    decreases |data|
  {
    if data == [] then []
    else [TransferAt(c, incr, k, if c.write then source(k) else data[0])] + Expected(c, incr, k + 1, data[1..], source)
  }

  function ExpectedAccesses(c: Command, k: nat, data: seq<Word>): seq<Access>
    decreases |data|
  {
    if data == [] then []
    else [Access(if c.write then k + 1 else k, data[0])] + ExpectedAccesses(c, k + 1, data[1..])
  }

  /** Any pattern of stalls short of the end: the transfers and VAccess calls are those of the next words, once
      each and in order. */
  lemma {:induction false} BurstPlays(s: VProc, c: Command, incr: nat, k: nat, ins: seq<In>, source: int -> Word)
    requires IsBurst(c) && InBurst(s, c, incr, k, source) && k + |AckedData(c, ins)| < c.blk
    requires forall j :: 0 <= j < |ins| ==> ins[j].source == source
    ensures InBurst(BusRun(s, incr, ins), c, incr, k + |AckedData(c, ins)|, source)
    ensures BusLog(s, incr, ins) == Expected(c, incr, k, AckedData(c, ins), source)
    ensures AccessLog(s, incr, ins) == ExpectedAccesses(c, k, AckedData(c, ins))
    decreases |ins|
  {
    if ins == [] {
    } else {
      assert ins[0].source == source;
      BurstClock(s, incr, c, k, ins[0]);
      hide InBurst, Next, Accesses, Transfers, TransferAt;
      var rest := AckedData(c, ins[1..]);
      if Acked(c, ins[0]) {
        assert AckedData(c, ins) == [ins[0].dataIn] + rest && AckedData(c, ins)[1..] == rest;
        BurstPlays(Next(s, incr, ins[0]), c, incr, k + 1, ins[1..], source);
      } else {
        assert AckedData(c, ins) == rest;
        BurstPlays(Next(s, incr, ins[0]), c, incr, k, ins[1..], source);
      }
    }
  }

  /** A whole burst, from the clock after VSched returned it to the clock that calls VSched again: exactly
      `c.blk` transfers and no other, whatever the stalls. */
  lemma WholeBurst(s: VProc, c: Command, incr: nat, ins: seq<In>, last: In, source: int -> Word)
    requires IsBurst(c) && InBurst(s, c, incr, 0, source)
    requires |AckedData(c, ins)| == c.blk - 1 && Acked(c, last) && last.source == source
    requires forall j :: 0 <= j < |ins| ==> ins[j].source == source
    ensures Schedules(BusRun(s, incr, ins), last)
    ensures BusLog(s, incr, ins) + Transfers(BusRun(s, incr, ins), last)
            == Expected(c, incr, 0, AckedData(c, ins) + [last.dataIn], source)
    ensures forall j :: 0 <= j < |ins| ==> !Schedules(BusRun(s, incr, ins[..j]), ins[j])
    ensures c.write ==> AccessLog(s, incr, ins) == ExpectedAccesses(c, 0, AckedData(c, ins))
    ensures c.read ==> ExpectedAccesses(c, 0, AckedData(c, ins) + [last.dataIn])
                       <= AccessLog(s, incr, ins) + Accesses(BusRun(s, incr, ins), last)
  {
    BurstPlays(s, c, incr, 0, ins, source);
    var e := BusRun(s, incr, ins);
    BurstClock(e, incr, c, c.blk - 1, last);
    ExpectedLast(c, incr, 0, AckedData(c, ins), last.dataIn, source);
    forall j | 0 <= j < |ins| ensures !Schedules(BusRun(s, incr, ins[..j]), ins[j]) {
      NotYet(s, c, incr, ins, j, source);
    }
    if c.read {
      var a := Accesses(e, last);
      assert AccessLog(s, incr, ins) + a == AccessLog(s, incr, ins) + [a[0]] + a[1..];
    }
  }

  lemma {:induction false} ExpectedLast(c: Command, incr: nat, k: nat, data: seq<Word>, d: Word, source: int -> Word)
    ensures Expected(c, incr, k, data + [d], source)
            == Expected(c, incr, k, data, source)
               + [TransferAt(c, incr, k + |data|, if c.write then source(k + |data|) else d)]
    ensures ExpectedAccesses(c, k, data + [d])
            == ExpectedAccesses(c, k, data) + [Access(if c.write then k + |data| + 1 else k + |data|, d)]
    decreases |data|
  {
    hide TransferAt;
    if data == [] {
      assert [d][1..] == [];
    } else {
      assert (data + [d])[1..] == data[1..] + [d];
      ExpectedLast(c, incr, k + 1, data[1..], d, source);
    }
  }

  lemma {:induction false} AckedPrefix(c: Command, ins: seq<In>, j: nat)
    requires j < |ins|
    ensures |AckedData(c, ins[..j])| + (if Acked(c, ins[j]) then 1 else 0) <= |AckedData(c, ins)|
    decreases |ins|
  {
    if j > 0 {
      assert ins[..j][1..] == ins[1..][..j - 1] && ins[..j][0] == ins[0];
      AckedPrefix(c, ins[1..], j - 1);
    }
  }

  /** No new command is fetched in the middle of a burst. */
  lemma NotYet(s: VProc, c: Command, incr: nat, ins: seq<In>, j: nat, source: int -> Word)
    requires IsBurst(c) && InBurst(s, c, incr, 0, source) && |AckedData(c, ins)| == c.blk - 1 && j < |ins|
    requires forall j :: 0 <= j < |ins| ==> ins[j].source == source
    ensures !Schedules(BusRun(s, incr, ins[..j]), ins[j])
  {
    AckedPrefix(c, ins, j);
    BurstPlays(s, c, incr, 0, ins[..j], source);
  }

  /** A plain access of one word, and a command that only waits. */
  predicate IsPlain(c: Command) { c.blk == 0 && c.write != c.read }

  predicate IsWait(c: Command) { c.blk == 0 && !c.write && !c.read }

  /** A plain access is on the bus. */
  predicate InPlain(s: VProc, c: Command) {
    && s.pins == Pins(c.addr, c.write, c.read, c.be, false, false, c.data) && s.blkCount == 0
  }

  lemma PlainBegins(s: VProc, incr: nat, i: In)
    requires Schedules(s, i) && IsPlain(i.cmd)
    ensures InPlain(Next(s, incr, i), i.cmd)
    ensures Accesses(s, i) == if s.blkCount == 1 && s.pins.rd then [Access(s.accIdx + 1, i.dataIn)] else []
  {
  }

  lemma {:induction false} PlainWaits(s: VProc, incr: nat, c: Command, waits: seq<In>)
    requires InPlain(s, c) && IsPlain(c) && forall i :: i in waits ==> !Acked(c, i)
    ensures InPlain(BusRun(s, incr, waits), c)
    ensures BusRun(s, incr, waits).tickCount == if s.tickCount > |waits| then s.tickCount - |waits| else 0
    ensures BusLog(s, incr, waits) == [] && AccessLog(s, incr, waits) == []
    ensures forall j :: 0 <= j < |waits| ==> !Schedules(BusRun(s, incr, waits[..j]), waits[j])
    decreases |waits|
  {
    if waits != [] {
      assert waits[0] in waits;
      var s' := Next(s, incr, waits[0]);
      assert InPlain(s', c) && Transfers(s, waits[0]) == [] && Accesses(s, waits[0]) == [] && !Schedules(s, waits[0]);
      hide Next, InPlain, Acked, Schedules, Transfers, Accesses;
      PlainWaits(s', incr, c, waits[1..]);
      forall j | 0 <= j < |waits| ensures !Schedules(BusRun(s, incr, waits[..j]), waits[j]) {
        if j > 0 {
          assert waits[..j][1..] == waits[1..][..j - 1] && waits[..j][0] == waits[0] && waits[j] == waits[1..][j - 1];
        }
      }
    }
  }

  /** A plain access, from the clock `i` in which VSched returns it, under any stalls: nothing is transferred until it
      is
      acknowledged; then exactly one word is, at the command's address, with its enables, both burst flags down, the
      data being the command's own or the word read. VAccess is not called for it, and VSched is in that clock. */
  lemma PlainAccess(s: VProc, incr: nat, i: In, waits: seq<In>, last: In)
    requires Schedules(s, i) && IsPlain(i.cmd)
    requires (forall w :: w in waits ==> !Acked(i.cmd, w)) && Acked(i.cmd, last)
    ensures var c, s' := i.cmd, Next(s, incr, i);
            var e := BusRun(s', incr, waits);
            && BusLog(s', incr, waits) == []
            && Transfers(e, last) == [Transfer(c.addr, c.be, if c.write then c.data else last.dataIn, false, false)]
            && AccessLog(s', incr, waits) == []
            && Accesses(e, last) == (if last.cmd.blk != 0 && last.cmd.write then [Access(0, ZERO)] else [])
            && (forall j :: 0 <= j < |waits| ==> !Schedules(BusRun(s', incr, waits[..j]), waits[j]))
            && Schedules(e, last) && (c.ticks == 0 && s.tickCount == 0 ==> e.tickCount == 0)
  {
    PlainBegins(s, incr, i);
    PlainWaits(Next(s, incr, i), incr, i.cmd, waits);
  }

  /** Without an access, time runs until VSched is called. */
  lemma {:induction false} TimePasses(s: VProc, incr: nat, waits: seq<In>, next: In)
    requires !s.pins.we && !s.pins.rd && s.blkCount == 0 && |waits| == s.tickCount
    ensures Schedules(BusRun(s, incr, waits), next)
    ensures BusLog(s, incr, waits) == [] && AccessLog(s, incr, waits) == []
    ensures forall j :: 0 <= j < |waits| ==> !Schedules(BusRun(s, incr, waits[..j]), waits[j])
    decreases |waits|
  {
    if waits != [] {
      var s' := Next(s, incr, waits[0]);
      assert s' == s.(tickCount := s.tickCount - 1) && !Schedules(s, waits[0]);
      assert Transfers(s, waits[0]) == [] && Accesses(s, waits[0]) == [];
      hide Next, Schedules, Transfers, Accesses;
      TimePasses(s', incr, waits[1..], next);
      forall j | 0 <= j < |waits| ensures !Schedules(BusRun(s, incr, waits[..j]), waits[j]) {
        if j > 0 {
          assert waits[..j][1..] == waits[1..][..j - 1] && waits[..j][0] == waits[0] && waits[j] == waits[1..][j - 1];
        }
      }
    }
  }

  /** A command that only waits: VSched is called again after exactly the number of clocks asked for (if none is, when
      the
      time of an earlier command has run out), and nothing happens on the bus until then. */
  lemma WaitCommand(s: VProc, incr: nat, i: In, waits: seq<In>, next: In)
    requires Schedules(s, i) && IsWait(i.cmd)
    requires |waits| == if i.cmd.ticks > 0 then i.cmd.ticks - 1 else s.tickCount
    ensures var s' := Next(s, incr, i);
            && Schedules(BusRun(s', incr, waits), next)
            && BusLog(s', incr, waits) == [] && AccessLog(s', incr, waits) == []
            && (forall j :: 0 <= j < |waits| ==> !Schedules(BusRun(s', incr, waits[..j]), waits[j]))
  {
    TimePasses(Next(s, incr, i), incr, waits, next);
  }
}
