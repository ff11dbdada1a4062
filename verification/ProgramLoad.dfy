/** The program-load command as a decoder of a byte stream. */
module ProgramLoad {
  import opened Bits
  import opened CommandEngine

  /** A write to instruction memory (byte address, data, and whether the CPU was held in reset), or onto the bus. */
  datatype Write = Write(addr: nat, data: Word, held: bool) | OntoBus(busAddr: Word, we: bv4, data: Word)

  /** The writes of one clock, and the byte that it offers to the TX FIFO. */
  function WritesNow(r: Regs): seq<Write> {
    (if r.ramWen then [Write(r.ramAddr, r.ramData, !r.cpuRstn)] else [])
    + (if r.busVld && r.busWe != 0 then [OntoBus(r.busAddr, r.busWe, r.busWdat)] else [])
  }

  function ReplyNow(r: Regs): seq<Byte> { if r.busVld && r.txValid then [r.txData] else [] }

  predicate Silent(r: Regs) { !r.ramWen && r.busWe == 0 && !r.txValid }

  /** The writes during the clocks `ins`. */
  function Writes(r: Regs, ins: seq<In>): seq<Write>
    decreases |ins|
  {
    if ins == [] then [] else
    WritesNow(r) + Writes(EngineNext(r, ins[0]), ins[1..])
  }

  /** The bytes offered to the TX FIFO during the clocks `ins`. */
  function Replies(r: Regs, ins: seq<In>): seq<Byte>
    decreases |ins|
  {
    if ins == [] then [] else
    ReplyNow(r) + Replies(EngineNext(r, ins[0]), ins[1..])
  }

  /** The bus is requested before, during and after the clocks `ins`. */
  predicate StaysOpen(r: Regs, ins: seq<In>)
    decreases |ins|
  {
    r.busVld && (ins == [] || StaysOpen(EngineNext(r, ins[0]), ins[1..]))
  }

  /** The states of program loads, and between them. */
  predicate Loading(s: State) { Impr(s) || s == WaitSop || s == WaitCmd || s == Timeout }

  /** No other command is in progress before, during and after the clocks `ins`. */
  predicate OnlyLoads(r: Regs, ins: seq<In>)
    decreases |ins|
  {
    Loading(r.state) && (ins == [] || OnlyLoads(EngineNext(r, ins[0]), ins[1..]))
  }

  lemma {:induction false} Join(r: Regs, a: seq<In>, b: seq<In>)
    ensures OnlyLoads(r, a + b) <==> OnlyLoads(r, a) && OnlyLoads(EngineRun(r, a), b)
    ensures StaysOpen(r, a + b) <==> StaysOpen(r, a) && StaysOpen(EngineRun(r, a), b)
    ensures EngineRun(r, a + b) == EngineRun(EngineRun(r, a), b)
    ensures Writes(r, a + b) == Writes(r, a) + Writes(EngineRun(r, a), b)
    ensures Replies(r, a + b) == Replies(r, a) + Replies(EngineRun(r, a), b)
    decreases |a|
  {
    hide EngineNext, WritesNow, ReplyNow, Loading;
    if a == [] {
      assert a + b == b;
    } else {
      assert (a + b)[0] == a[0] && (a + b)[1..] == a[1..] + b;
      var m := EngineNext(r, a[0]);
      Join(m, a[1..], b);
      Regroup(WritesNow(r), Writes(m, a[1..]), Writes(EngineRun(r, a), b));
      Regroup(ReplyNow(r), Replies(m, a[1..]), Replies(EngineRun(r, a), b));
    }
  }

  lemma {:induction false} EndsOpen(r: Regs, ins: seq<In>)
    requires StaysOpen(r, ins)
    ensures EngineRun(r, ins).busVld
    decreases |ins|
  {
    hide EngineNext;
    if ins != [] {
      EndsOpen(EngineNext(r, ins[0]), ins[1..]);
    }
  }

  /** One byte arriving, and the clocks until the next one. */
  datatype Delivery = Delivery(first: In, gap: seq<In>)

  predicate Quiet(ins: seq<In>) { forall i :: i in ins ==> !i.rxValid }

  function Ticks(ins: seq<In>): nat {
    if ins == [] then 0 else (if ins[0].tick then 1 else 0) + Ticks(ins[1..])
  }

  /** The serial line spaces bytes by far more than two clocks. */
  predicate Spaced(x: Delivery) { x.first.rxValid && Quiet(x.gap) && |x.gap| >= 2 }

  /** The next byte is there before the timeout: fewer than 2^21 ticks before the last clock of the gap. */
  predicate InTime(x: Delivery) { |x.gap| > 0 && Ticks(x.gap[..|x.gap| - 1]) < TIMEOUT_TICKS }

  function Clocks(x: Delivery): seq<In> { [x.first] + x.gap }

  function Flat(xs: seq<Delivery>): seq<In> {
    if xs == [] then [] else Clocks(xs[0]) + Flat(xs[1..])
  }

  function Payload(xs: seq<Delivery>): seq<Byte> {
    seq(|xs|, j requires 0 <= j < |xs| => xs[j].first.rxData)
  }

  /** The running checksum `sum`, continued over `bs`; addition modulo 256. */
  function Checksum(sum: Byte, bs: seq<Byte>): Byte
    decreases |bs|
  {
    if bs == [] then sum else Checksum(Plus(sum, bs[0]), bs[1..])
  }

  /** Nothing happens that the state `s` waits for. */
  predicate Uneventful(s: State, gap: seq<In>) {
    if s == BusrWaitData then forall i :: i in gap ==> !i.busRdy else AwaitsByte(s) && Quiet(gap)
  }

  lemma WaitingClock(r: Regs, i: In)
    requires Uneventful(r.state, [i]) && r.timeout < TIMEOUT_TICKS
    ensures EngineNext(r, i) == r.(timeout := r.timeout + if i.tick then 1 else 0)
  {
    assert i in [i];
  }

  /** A waiting state sits through an uneventful time that is short of the timeout. */
  lemma {:induction false} SitsThrough(r: Regs, gap: seq<In>)
    requires Uneventful(r.state, gap) && Silent(r)
    requires gap != [] ==> r.timeout + Ticks(gap[..|gap| - 1]) < TIMEOUT_TICKS
    ensures EngineRun(r, gap) == r.(timeout := r.timeout + Ticks(gap))
    ensures OnlyLoads(r, gap) <==> Loading(r.state)
    ensures StaysOpen(r, gap) <==> r.busVld
    ensures Writes(r, gap) == [] && Replies(r, gap) == []
    decreases |gap|
  {
    hide EngineNext;
    if gap == [] {
    } else {
      var g := gap[..|gap| - 1];
      var r' := EngineNext(r, gap[0]);
      if |gap| > 1 {
        assert g[1..] == gap[1..][..|gap[1..]| - 1] && g[0] == gap[0];
      } else {
        assert gap[1..] == [];
      }
      WaitingClock(r, gap[0]);
      SitsThrough(r', gap[1..]);
    }
  }

  /** A byte that leads to another waiting state, with the quiet time after it. */
  lemma TakesByte(r: Regs, x: Delivery)
    requires AwaitsByte(r.state) && AwaitsByte(After(r.state)) && Silent(r)
    requires Spaced(x) && InTime(x)
    ensures EngineRun(r, Clocks(x)) == OnByte(r, x.first.rxData).(timeout := Ticks(x.gap))
    ensures OnlyLoads(r, Clocks(x)) <==> Loading(r.state)
    ensures StaysOpen(r, Clocks(x)) <==> r.busVld
    ensures Writes(r, Clocks(x)) == [] && Replies(r, Clocks(x)) == []
  {
    var all := Clocks(x);
    assert all[0] == x.first && all[1..] == x.gap;
    SitsThrough(OnByte(r, x.first.rxData), x.gap);
  }

  /** Between commands a quiet line changes nothing. */
  lemma {:induction false} BetweenCommands(r: Regs, gap: seq<In>)
    requires r.state == WaitCmd && Silent(r) && Quiet(gap)
    ensures EngineRun(r, gap) == r && Writes(r, gap) == [] && Replies(r, gap) == []
    ensures OnlyLoads(r, gap)
    ensures StaysOpen(r, gap) <==> r.busVld
    decreases |gap|
  {
    if gap != [] {
      assert EngineNext(r, gap[0]) == r;
      BetweenCommands(r, gap[1..]);
    }
  }

  /** The byte of lane `j` of word `k` is awaited, in a program of length `len`; `sum` is the checksum so far
      and the lower lanes hold those of `w`. */
  predicate AtByte(r: Regs, j: nat, k: nat, len: Half, sum: Byte, w: Word) {
    && r.state == (match j case 0 => ImprWaitData0 case 1 => ImprWaitData1 case 2 => ImprWaitData2
                   case _ => ImprWaitData3)
    && r.busVld && !r.cpuRstn && Silent(r)
    && r.dataCnt == k && r.dataLength == len && r.checksum == sum
    && (j > 0 ==> r.ramData.b0 == w.b0) && (j > 1 ==> r.ramData.b1 == w.b1) && (j > 2 ==> r.ramData.b2 == w.b2)
  }

  predicate Finished(r: Regs) {
    r.state == WaitCmd && r.busVld && r.cpuRstn && Silent(r)
  }

  lemma LogOne(r: Regs, ins: seq<In>)
    requires ins != []
    ensures var r' := EngineNext(r, ins[0]);
            && EngineRun(r, ins) == EngineRun(r', ins[1..])
            && Writes(r, ins) == WritesNow(r) + Writes(r', ins[1..])
            && Replies(r, ins) == ReplyNow(r) + Replies(r', ins[1..])
            && (StaysOpen(r, ins) <==> r.busVld && StaysOpen(r', ins[1..]))
            && (OnlyLoads(r, ins) <==> Loading(r.state) && OnlyLoads(r', ins[1..]))
  {
    hide EngineNext;
  }

  /** Two busy clocks, then none until the end of the quiet time. */
  lemma TwoClocks(r: Regs, r1: Regs, r2: Regs, gap: seq<In>)
    requires |gap| >= 2 && Quiet(gap) && r1 == EngineNext(r, gap[0]) && r2 == EngineNext(r1, gap[1])
    requires r2.state == WaitCmd && Silent(r2)
    ensures EngineRun(r, gap) == r2
    ensures OnlyLoads(r, gap) <==> Loading(r.state) && Loading(r1.state)
    ensures StaysOpen(r, gap) <==> r.busVld && r1.busVld && r2.busVld
    ensures Writes(r, gap) == WritesNow(r) + WritesNow(r1) && Replies(r, gap) == ReplyNow(r) + ReplyNow(r1)
  {
    hide EngineNext, WritesNow, ReplyNow, Silent;
    LogOne(r, gap);
    LogOne(r1, gap[1..]);
    BetweenCommands(r2, gap[1..][1..]);
    assert WritesNow(r) + (WritesNow(r1) + []) == WritesNow(r) + WritesNow(r1);
    assert ReplyNow(r) + (ReplyNow(r1) + []) == ReplyNow(r) + ReplyNow(r1);
  }

  function ChecksumDue(r: Regs): seq<Byte> {
    if r.dataCnt == HalfValue(r.dataLength) then [r.checksum] else []
  }

  /** A word is complete: it is written and acknowledged, then comes the checksum or the next word. */
  lemma AfterWord(r: Regs, gap: seq<In>)
    requires r.state == ImprChecksum && r.busVld && !r.cpuRstn && r.ramWen && r.txValid && r.busWe == 0
    requires Quiet(gap) && |gap| >= 2 && Ticks(gap[..|gap| - 1]) < TIMEOUT_TICKS
    ensures Writes(r, gap) == [Write(r.ramAddr, r.ramData, true)]
    ensures Replies(r, gap) == [r.txData] + ChecksumDue(r)
    ensures if r.dataCnt == HalfValue(r.dataLength) then Finished(EngineRun(r, gap))
            else AtByte(EngineRun(r, gap), 0, r.dataCnt, r.dataLength, r.checksum, r.ramData)
    ensures EngineRun(r, gap).ramAddr == r.ramAddr && OnlyLoads(r, gap)
  {
    var r2 := ChecksumClock(r, gap[0]);
    var g := gap[1..];
    hide EngineNext, HalfValue, Ticks;
    if r.dataCnt == HalfValue(r.dataLength) {
      var r3 := DoneClock(r2, g[0]);
      TwoClocks(r, r2, r3, gap);
    } else {
      LogOne(r, gap);
      assert gap[..|gap| - 1][1..] == g[..|g| - 1];
      SitsThrough(r2, g);
    }
  }

  lemma ChecksumClock(r: Regs, i: In) returns (r': Regs)
    requires r.state == ImprChecksum
    ensures r' == EngineNext(r, i)
    ensures r' == if r.dataCnt == HalfValue(r.dataLength)
                  then r.(txData := r.checksum, txValid := true, ramWen := false, state := ImprDone)
                  else r.(ramWen := false, txValid := false, timeout := 0, state := ImprWaitData0)
  {
    r' := EngineNext(r, i);
  }

  lemma DoneClock(r: Regs, i: In) returns (r': Regs)
    requires r.state == ImprDone
    ensures r' == EngineNext(r, i) == r.(cpuRstn := true, txValid := false, state := WaitCmd)
  {
    r' := EngineNext(r, i);
  }

  /** The effect of the clocks of `x` followed by those of `xs`, delivery by delivery. */
  lemma First(r: Regs, xs: seq<Delivery>)
    requires xs != []
    ensures var m := EngineRun(r, Clocks(xs[0]));
            && EngineRun(r, Flat(xs)) == EngineRun(m, Flat(xs[1..]))
            && Writes(r, Flat(xs)) == Writes(r, Clocks(xs[0])) + Writes(m, Flat(xs[1..]))
            && Replies(r, Flat(xs)) == Replies(r, Clocks(xs[0])) + Replies(m, Flat(xs[1..]))
            && (StaysOpen(r, Flat(xs)) <==> StaysOpen(r, Clocks(xs[0])) && StaysOpen(m, Flat(xs[1..])))
            && (OnlyLoads(r, Flat(xs)) <==> OnlyLoads(r, Clocks(xs[0])) && OnlyLoads(m, Flat(xs[1..])))
  {
    Join(r, Clocks(xs[0]), Flat(xs[1..]));
  }

  /** `r` at the start of `xs` and `m` after its first `j` deliveries are the same for what follows. */
  predicate Reaches(r: Regs, xs: seq<Delivery>, m: Regs, j: nat)
    requires j <= |xs|
  {
    && EngineRun(r, Flat(xs)) == EngineRun(m, Flat(xs[j..]))
    && Writes(r, Flat(xs)) == Writes(m, Flat(xs[j..])) && Replies(r, Flat(xs)) == Replies(m, Flat(xs[j..]))
    && (OnlyLoads(m, Flat(xs[j..])) ==> OnlyLoads(r, Flat(xs)))
  }

  /** ... and the session stays open in between. */
  predicate Onward(r: Regs, xs: seq<Delivery>, m: Regs, j: nat)
    requires j <= |xs|
  {
    Reaches(r, xs, m, j) && (StaysOpen(m, Flat(xs[j..])) ==> StaysOpen(r, Flat(xs)))
  }

  lemma ReachesThrough(r: Regs, xs: seq<Delivery>, m: Regs, j: nat, n: Regs)
    requires j < |xs| && Reaches(r, xs, m, j) && Reaches(m, xs[j..], n, 1)
    ensures Reaches(r, xs, n, j + 1)
  {
    assert xs[j..][1..] == xs[j + 1..];
  }

  /** A byte that only moves the FSM on to the next waiting state. */
  lemma MovesOn(r: Regs, xs: seq<Delivery>) returns (m: Regs)
    requires xs != [] && Spaced(xs[0]) && InTime(xs[0])
    requires AwaitsByte(r.state) && AwaitsByte(After(r.state)) && Silent(r)
    ensures m == OnByte(r, xs[0].first.rxData).(timeout := Ticks(xs[0].gap))
    ensures Onward(r, xs, m, 1)
  {
    hide EngineNext;
    m := EngineRun(r, Clocks(xs[0]));
    First(r, xs);
    TakesByte(r, xs[0]);
  }

  lemma LaneByte(r: Regs, j: nat, k: nat, len: Half, sum: Byte, w: Word)
    requires AtByte(r, j, k, len, sum, w) && j < 3
    ensures AtByte(OnByte(r, Lane(w, j)), j + 1, k, len, Plus(sum, Lane(w, j)), w)
    ensures AwaitsByte(r.state) && AwaitsByte(After(r.state))
  {
    if j == 0 {
    } else if j == 1 {
    } else {
    }
  }

  lemma LastLane(r: Regs, k: nat, len: Half, sum: Byte, w: Word, i: In)
    requires AtByte(r, 3, k, len, sum, w) && i.rxValid && i.rxData == w.b3
    ensures var c := EngineNext(r, i);
            && c.state == ImprChecksum && c.busVld && !c.cpuRstn && c.ramWen && c.txValid && c.txData == C_ACK
            && c.busWe == 0
            && c.ramAddr == 4 * k && c.ramData == w && c.dataLength == len && c.checksum == Plus(sum, w.b3)
            && c.dataCnt == (k + 1) % 0x1_0000
  {
  }

  predicate Paced(xs: seq<Delivery>) { forall j :: 0 <= j < |xs| ==> Spaced(xs[j]) && InTime(xs[j]) }

  /** One of the first three bytes of a word. */
  lemma NextLane(r: Regs, xs: seq<Delivery>, j: nat, k: nat, len: Half, sum: Byte, w: Word) returns (m: Regs)
    requires AtByte(r, j, k, len, sum, w) && j < 3
    requires xs != [] && Paced(xs) && xs[0].first.rxData == Lane(w, j)
    ensures AtByte(m, j + 1, k, len, Plus(sum, Lane(w, j)), w)
    ensures Reaches(r, xs, m, 1)
  {
    hide EngineNext, OnByte;
    LaneByte(r, j, k, len, sum, w);
    m := MovesOn(r, xs);
  }

  /** The last byte of word `k`, and the quiet time after it. */
  lemma LastClocks(r: Regs, x: Delivery, k: nat, len: Half, sum: Byte, w: Word)
    requires AtByte(r, 3, k, len, sum, w) && Spaced(x) && InTime(x) && x.first.rxData == w.b3
    ensures var m, done := EngineRun(r, Clocks(x)), (k + 1) % 0x1_0000 == HalfValue(len);
            && (if done then Finished(m) else AtByte(m, 0, (k + 1) % 0x1_0000, len, Plus(sum, w.b3), w))
            && m.ramAddr == 4 * k && OnlyLoads(r, Clocks(x))
            && Writes(r, Clocks(x)) == [Write(4 * k, w, true)]
            && Replies(r, Clocks(x)) == [C_ACK] + if done then [Plus(sum, w.b3)] else []
  {
    LastLane(r, k, len, sum, w, x.first);
    assert Silent(r);
    hide EngineNext, OnByte, HalfValue, Plus, Flat, Ticks, AtByte, Finished;
    LogOne(r, Clocks(x));
    assert Clocks(x)[1..] == x.gap;
    AfterWord(EngineNext(r, x.first), x.gap);
  }

  /** The last byte of word `k`. */
  lemma LastByte(r: Regs, xs: seq<Delivery>, k: nat, len: Half, sum: Byte, w: Word) returns (m: Regs)
    requires AtByte(r, 3, k, len, sum, w) && xs != [] && Paced(xs) && xs[0].first.rxData == w.b3
    ensures var done := (k + 1) % 0x1_0000 == HalfValue(len);
            && (if done then Finished(m) else AtByte(m, 0, (k + 1) % 0x1_0000, len, Plus(sum, w.b3), w))
            && m.ramAddr == 4 * k && (OnlyLoads(m, Flat(xs[1..])) ==> OnlyLoads(r, Flat(xs)))
            && EngineRun(r, Flat(xs)) == EngineRun(m, Flat(xs[1..]))
            && Writes(r, Flat(xs)) == [Write(4 * k, w, true)] + Writes(m, Flat(xs[1..]))
            && Replies(r, Flat(xs)) == [C_ACK] + (if done then [Plus(sum, w.b3)] else []) + Replies(m, Flat(xs[1..]))
  {
    m := EngineRun(r, Clocks(xs[0]));
    LastClocks(r, xs[0], k, len, sum, w);
    hide *;
    First(r, xs);
  }

  /** The first word of `bs`, little-endian. */
  function WordOf(bs: seq<Byte>): Word
    requires |bs| >= 4
  {
    Word(bs[0], bs[1], bs[2], bs[3])
  }

  function AddWord(sum: Byte, w: Word): Byte {
    Plus(Plus(Plus(Plus(sum, Lane(w, 0)), Lane(w, 1)), Lane(w, 2)), w.b3)
  }

  lemma ThreeLanes(r: Regs, xs: seq<Delivery>, k: nat, len: Half, sum: Byte, w: Word) returns (m: Regs)
    requires |xs| >= 4 && Paced(xs) && w == WordOf(Payload(xs)) && AtByte(r, 0, k, len, sum, w)
    ensures AtByte(m, 3, k, len, Plus(Plus(Plus(sum, Lane(w, 0)), Lane(w, 1)), Lane(w, 2)), w)
    ensures Reaches(r, xs, m, 3)
  {
    hide EngineNext, AtByte, Plus, Reaches;
    var m1 := NextLane(r, xs, 0, k, len, sum, w);
    var s1 := Plus(sum, Lane(w, 0));
    var m2 := NextLane(m1, xs[1..], 1, k, len, s1, w);
    ReachesThrough(r, xs, m1, 1, m2);
    var s2 := Plus(s1, Lane(w, 1));
    m := NextLane(m2, xs[2..], 2, k, len, s2, w);
    ReachesThrough(r, xs, m2, 2, m);
  }

  /** The whole of word `k`, and what follows it. */
  lemma OneWord(r: Regs, xs: seq<Delivery>, k: nat, len: Half, sum: Byte, w: Word) returns (m: Regs)
    requires |xs| >= 4 && Paced(xs) && w == WordOf(Payload(xs)) && AtByte(r, 0, k, len, sum, w)
    ensures var done := (k + 1) % 0x1_0000 == HalfValue(len);
            && (if done then Finished(m) else AtByte(m, 0, (k + 1) % 0x1_0000, len, AddWord(sum, w), w))
            && m.ramAddr == 4 * k && (OnlyLoads(m, Flat(xs[4..])) ==> OnlyLoads(r, Flat(xs)))
            && EngineRun(r, Flat(xs)) == EngineRun(m, Flat(xs[4..]))
            && Writes(r, Flat(xs)) == [Write(4 * k, w, true)] + Writes(m, Flat(xs[4..]))
            && Replies(r, Flat(xs)) == [C_ACK] + (if done then [AddWord(sum, w)] else []) + Replies(m, Flat(xs[4..]))
  {
    hide EngineNext, AtByte, Plus;
    var t := ThreeLanes(r, xs, k, len, sum, w);
    m := LastByte(t, xs[3..], k, len, Plus(Plus(Plus(sum, Lane(w, 0)), Lane(w, 1)), Lane(w, 2)), w);
    assert xs[3..][1..] == xs[4..];
  }

  /** What loading `bs` from word `k` on writes: one word to each four byte addresses, the CPU in reset. */
  function Image(k: nat, bs: seq<Byte>): seq<Write>
    decreases |bs|
  {
    if |bs| < 4 then [] else [Write(4 * k, WordOf(bs), true)] + Image(k + 1, bs[4..])
  }

  function Acks(n: nat): seq<Byte> {
    if n == 0 then [] else [C_ACK] + Acks(n - 1)
  }

  lemma ChecksumOfWord(sum: Byte, bs: seq<Byte>)
    requires |bs| >= 4
    ensures Checksum(sum, bs) == Checksum(AddWord(sum, WordOf(bs)), bs[4..])
  {
    hide Plus;
    assert bs[1..][1..] == bs[2..] && bs[2..][1..] == bs[3..] && bs[3..][1..] == bs[4..];
    var s1 := Plus(sum, bs[0]);
    var s2 := Plus(s1, bs[1]);
    assert Checksum(sum, bs) == Checksum(s2, bs[2..]) == Checksum(Plus(Plus(s2, bs[2]), bs[3]), bs[4..]);
  }

  /** The last `n` words of a program. */
  lemma {:induction false} LoadWords(r: Regs, xs: seq<Delivery>, k: nat, n: nat, len: Half, sum: Byte, w: Word)
    requires AtByte(r, 0, k, len, sum, w) && Paced(xs) && |xs| == 4 * n
    requires n >= 1 && k + n <= 0x1_0000 && HalfValue(len) == (k + n) % 0x1_0000
    ensures Finished(EngineRun(r, Flat(xs))) && EngineRun(r, Flat(xs)).ramAddr == 4 * (k + n - 1)
    ensures OnlyLoads(r, Flat(xs))
    ensures Writes(r, Flat(xs)) == Image(k, Payload(xs))
    ensures Replies(r, Flat(xs)) == Acks(n) + [Checksum(sum, Payload(xs))]
    decreases n
  {
    hide EngineNext, EngineRun, Writes, Replies, Flat, Plus, AddWord, AtByte, Spaced, InTime, HalfValue, Finished,
        OnlyLoads, Loading;
    var bs := Payload(xs);
    var w1 := WordOf(bs);
    AtAnyWord(r, k, len, sum, w, w1);
    var m := OneWord(r, xs, k, len, sum, w1);
    ChecksumOfWord(sum, bs);
    assert bs[4..] == Payload(xs[4..]);
    if n == 1 {
      Nothing(m);
      FinishedLoading(m);
      assert xs[4..] == [];
      assert Acks(1) == [C_ACK] + Acks(0);
    } else {
      var sum' := AddWord(sum, w1);
      var rest := [Checksum(sum', bs[4..])];
      LoadWords(m, xs[4..], k + 1, n - 1, len, sum', w1);
      assert Replies(r, Flat(xs)) == [C_ACK] + Replies(m, Flat(xs[4..]));
      Regroup([C_ACK], Acks(n - 1), rest);
    }
  }

  lemma Nothing(m: Regs)
    ensures EngineRun(m, Flat([])) == m && Writes(m, Flat([])) == [] && Replies(m, Flat([])) == []
    ensures (StaysOpen(m, Flat([])) <==> m.busVld) && (OnlyLoads(m, Flat([])) <==> Loading(m.state))
  {
  }

  lemma FinishedLoading(m: Regs)
    ensures Finished(m) ==> Loading(m.state)
  {
  }

  lemma AtAnyWord(r: Regs, k: nat, len: Half, sum: Byte, w: Word, w': Word)
    requires AtByte(r, 0, k, len, sum, w)
    ensures AtByte(r, 0, k, len, sum, w')
  {
  }

  /** The four bytes that open a program load, each delivered between commands or in time. */
  lemma Opening(r: Regs, xs: seq<Delivery>) returns (m: Regs)
    requires Session(r) && r.state == WaitSop && |xs| >= 4
    requires Spaced(xs[0]) && Paced(xs[1..])
    requires xs[0].first.rxData == C_SOP && xs[1].first.rxData == C_IMPR
    ensures var lo, hi := xs[2].first.rxData, xs[3].first.rxData;
            && AtByte(m, 0, 0, Half(lo, hi), Plus(Plus(0, lo), hi), ZERO)
            && Reaches(r, xs, m, 4)
  {
    hide EngineNext, OnByte, Plus, Reaches;
    assert xs[2..][0] == xs[2] && xs[2..][1] == xs[3];
    var m1 := OpenSession(r, xs);
    var m2 := OpenLoad(m1, xs[1..]);
    ReachesThrough(r, xs, m1, 1, m2);
    LengthByte(m2, xs[2].first.rxData);
    var m3 := MovesOn(m2, xs[2..]);
    ReachesThrough(r, xs, m2, 2, m3);
    LengthByte(m3, xs[3].first.rxData);
    m := MovesOn(m3, xs[3..]);
    ReachesThrough(r, xs, m3, 3, m);
  }

  lemma LengthByte(r: Regs, b: Byte)
    ensures r.state == ImprWaitLenLb ==>
      OnByte(r, b) == r.(state := ImprWaitLenHb, checksum := Plus(r.checksum, b), timeout := 0,
                         dataLength := r.dataLength.(lo := b))
    ensures r.state == ImprWaitLenHb ==>
      OnByte(r, b) == r.(state := ImprWaitData0, checksum := Plus(r.checksum, b), timeout := 0,
                         dataLength := r.dataLength.(hi := b))
  {
  }

  lemma OpenSession(r: Regs, xs: seq<Delivery>) returns (m: Regs)
    requires Session(r) && r.state == WaitSop && xs != [] && Spaced(xs[0]) && xs[0].first.rxData == C_SOP
    ensures m == r.(busVld := true, state := WaitCmd)
    ensures Reaches(r, xs, m, 1)
  {
    m := EngineNext(r, xs[0].first);
    assert m == r.(busVld := true, state := WaitCmd);
    hide EngineNext;
    First(r, xs);
    LogOne(r, Clocks(xs[0]));
    assert Clocks(xs[0])[1..] == xs[0].gap;
    BetweenCommands(m, xs[0].gap);
  }

  lemma OpenLoad(r: Regs, xs: seq<Delivery>) returns (m: Regs)
    requires r.state == WaitCmd && r.busVld && Silent(r)
    requires xs != [] && Spaced(xs[0]) && InTime(xs[0]) && xs[0].first.rxData == C_IMPR
    ensures m == r.(cpuRstn := false, dataCnt := 0, checksum := 0, timeout := Ticks(xs[0].gap), state := ImprWaitLenLb)
    ensures Reaches(r, xs, m, 1)
  {
    var s := EngineNext(r, xs[0].first);
    LoadClock(r, xs[0].first);
    QuietLoad(r, s, xs[0]);
    hide EngineNext, Flat, EngineRun, Writes, Replies, OnlyLoads, Clocks, Ticks, Spaced, InTime, Silent;
    First(r, xs);
    m := s.(timeout := Ticks(xs[0].gap));
  }

  lemma QuietLoad(r: Regs, s: Regs, x: Delivery)
    requires r.state == WaitCmd && Silent(r) && s == EngineNext(r, x.first) && s.state == ImprWaitLenLb && Silent(s)
    requires s.timeout == 0 && Spaced(x) && InTime(x)
    ensures EngineRun(r, Clocks(x)) == s.(timeout := Ticks(x.gap)) && OnlyLoads(r, Clocks(x))
    ensures Writes(r, Clocks(x)) == [] && Replies(r, Clocks(x)) == []
  {
    hide EngineNext, Ticks;
    LogOne(r, Clocks(x));
    assert Clocks(x)[1..] == x.gap;
    SitsThrough(s, x.gap);
  }

  lemma LoadClock(r: Regs, i: In)
    requires r.state == WaitCmd && r.busVld && Silent(r) && i.rxValid && i.rxData == C_IMPR
    ensures var s := EngineNext(r, i);
            && s == r.(cpuRstn := false, dataCnt := 0, checksum := 0, timeout := 0, state := ImprWaitLenLb)
            && Silent(s) && AwaitsByte(s.state)
  {
  }

  /** The number of words that a length field asks for. */
  function WordCount(len: Half): (n: nat)
    ensures 1 <= n <= 0x1_0000
  {
    if HalfValue(len) == 0 then 0x1_0000 else HalfValue(len)
  }

  lemma WordCountWraps(len: Half)
    ensures HalfValue(len) == WordCount(len) % 0x1_0000
  {
  }

  /** Program load decodes the byte stream 0x12, 0x05, length, data. */
  lemma {:induction false} ProgramIsLoaded(r: Regs, xs: seq<Delivery>, len: Half, data: seq<Byte>)
    requires Session(r) && r.state == WaitSop
    requires Payload(xs) == [C_SOP, C_IMPR, len.lo, len.hi] + data && |data| == 4 * WordCount(len)
    requires Spaced(xs[0]) && Paced(xs[1..])
    ensures Writes(r, Flat(xs)) == Image(0, data)
    ensures Replies(r, Flat(xs)) == Acks(WordCount(len)) + [Checksum(0, [len.lo, len.hi] + data)]
    ensures Finished(EngineRun(r, Flat(xs))) && EngineRun(r, Flat(xs)).ramAddr == 4 * (WordCount(len) - 1)
    ensures OnlyLoads(r, Flat(xs))
  {
    hide EngineNext, EngineRun, Writes, Replies, Flat, Plus, AtByte, Value, Finished, Image, Acks, OnlyLoads, Checksum;
    var sum := Plus(Plus(0, len.lo), len.hi);
    Header(xs, len, data);
    var m := Opening(r, xs);
    WordCountWraps(len);
    hide *;
    LoadWords(m, xs[4..], 0, WordCount(len), len, sum, ZERO);
    ChecksumOfHeader(len, data);
  }

  lemma Header(xs: seq<Delivery>, len: Half, data: seq<Byte>)
    requires Payload(xs) == [C_SOP, C_IMPR, len.lo, len.hi] + data && Paced(xs[1..])
    ensures |xs| == 4 + |data|
    ensures xs[0].first.rxData == C_SOP && xs[1].first.rxData == C_IMPR
    ensures xs[2].first.rxData == len.lo && xs[3].first.rxData == len.hi
    ensures Payload(xs[4..]) == data && Paced(xs[4..])
  {
    var bs := [C_SOP, C_IMPR, len.lo, len.hi] + data;
    assert bs[0] == C_SOP && bs[1] == C_IMPR && bs[2] == len.lo && bs[3] == len.hi && bs[4..] == data;
    assert Payload(xs)[4..] == Payload(xs[4..]);
    assert xs[4..] == xs[1..][3..];
  }

  lemma ChecksumOfHeader(len: Half, data: seq<Byte>)
    ensures Checksum(0, [len.lo, len.hi] + data) == Checksum(Plus(Plus(0, len.lo), len.hi), data)
  {
    hide Plus;
    var all := [len.lo, len.hi] + data;
    assert all[1..] == [len.hi] + data && all[1..][1..] == data;
    assert Checksum(0, all) == Checksum(Plus(0, len.lo), all[1..]);
  }
}
