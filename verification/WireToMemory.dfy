/** End to end: a program sent as serial frames ends up in instruction memory. */
module WireToMemory {
  import opened Bits
  import opened UartSerial
  import opened CommandEngine
  import opened ProgramLoad
  import opened UartTop
  import opened RxPath
  import Line = RxTiming

  /** What the bus answers in one clock. */
  datatype Answer = Answer(rdy: bool, rdat: Word)

  function Strobe(m: Line.Sys, a: Answer): In {
    In(RxWe(m.rx, m.tick.pulse), m.rx.shift, m.tick.pulse, a.rdy, a.rdat)
  }

  /** The command FSM's inputs while the receiver sees `line`. */
  function Strobes(m: Line.Sys, line: seq<bool>, bus: seq<Answer>): seq<In>
    requires |bus| == |line|
    decreases |line|
  {
    if line == [] then [] else [Strobe(m, bus[0])] + Strobes(Line.SysNext(m, line[0]), line[1..], bus[1..])
  }

  lemma {:induction false} StrobesCount(m: Line.Sys, line: seq<bool>, bus: seq<Answer>)
    requires |bus| == |line|
    ensures |Strobes(m, line, bus)| == |line|
    decreases |line|
  {
    if line != [] {
      StrobesCount(Line.SysNext(m, line[0]), line[1..], bus[1..]);
    }
  }

  lemma {:induction false} StrobesJoin(m: Line.Sys, a: seq<bool>, b: seq<bool>, bus: seq<Answer>)
    requires |bus| == |a| + |b|
    ensures Strobes(m, a + b, bus) == Strobes(m, a, bus[..|a|]) + Strobes(Line.SysRun(m, a), b, bus[|a|..])
    decreases |a|
  {
    hide Line.SysNext;
    if a == [] {
      assert a + b == b && bus[0..] == bus;
    } else {
      assert (a + b)[1..] == a[1..] + b;
      assert bus[1..][..|a| - 1] == bus[..|a|][1..] && bus[1..][|a| - 1..] == bus[|a|..];
      StrobesJoin(Line.SysNext(m, a[0]), a[1..], b, bus[1..]);
    }
  }

  lemma {:induction false} NothingHeard(m: Line.Sys, line: seq<bool>, bus: seq<Answer>)
    requires |bus| == |line| && Line.Heard(m, line) == []
    ensures Quiet(Strobes(m, line, bus))
    decreases |line|
  {
    hide Line.SysNext;
    if line != [] {
      NothingHeard(Line.SysNext(m, line[0]), line[1..], bus[1..]);
    }
  }

  lemma {:induction false} OneHeard(m: Line.Sys, line: seq<bool>, bus: seq<Answer>, d: Byte)
    returns (pre: seq<In>, hit: In, post: seq<In>)
    requires |bus| == |line| && Line.Heard(m, line) == [d]
    ensures Strobes(m, line, bus) == pre + [hit] + post
    ensures Quiet(pre) && Quiet(post) && hit.rxValid && hit.rxData == d
    decreases |line|
  {
    hide Line.SysNext;
    var s, m' := Strobe(m, bus[0]), Line.SysNext(m, line[0]);
    var rest := Strobes(m', line[1..], bus[1..]);
    if s.rxValid {
      assert Line.Heard(m, line) == [s.rxData] + Line.Heard(m', line[1..]);
      assert Line.Heard(m, line)[0] == s.rxData;
      NothingHeard(m', line[1..], bus[1..]);
      pre, hit, post := [], s, rest;
    } else {
      pre, hit, post := OneHeard(m', line[1..], bus[1..], d);
      pre := [s] + pre;
    }
  }

  /** At the very least so many clocks of a frame pass before its byte is there. */
  const LULL: nat := 8

  /** The states that a receiver has to go through before it pushes. */
  function Ahead(r: Rx): nat
    requires r.state == IDLE || r.state <= STOP
  {
    if r.state == IDLE then STOP + 1 else STOP - r.state
  }

  /** Each takes one clock at least. */
  lemma {:induction false} QuietStart(m: Line.Sys, line: seq<bool>, bus: seq<Answer>, n: nat)
    requires (m.rx.state == IDLE || m.rx.state <= STOP) && |bus| == |line| >= n && n <= Ahead(m.rx)
    ensures |Strobes(m, line, bus)| == |line| && forall j :: 0 <= j < n ==> !Strobes(m, line, bus)[j].rxValid
    decreases n
  {
    StrobesCount(m, line, bus);
    if n > 0 {
      var m1 := Line.SysNext(m, line[0]);
      assert (m1.rx.state == IDLE || m1.rx.state <= STOP) && Ahead(m1.rx) >= n - 1 && !Strobe(m, bus[0]).rxValid;
      hide Line.SysNext, Ahead, Strobe;
      QuietStart(m1, line[1..], bus[1..], n - 1);
      assert Strobes(m, line, bus)[1..] == Strobes(m1, line[1..], bus[1..]);
      assert forall j :: 0 < j < n ==> Strobes(m, line, bus)[j] == Strobes(m1, line[1..], bus[1..])[j - 1];
    }
  }

  /** Ticks come every 80 clocks, the next one after 79 - `phase` clocks. */
  predicate Beats(ins: seq<In>, phase: nat)
    decreases |ins|
  {
    ins == [] || (ins[0].tick == (phase == 79) && Beats(ins[1..], if phase == 79 then 0 else phase + 1))
  }

  lemma {:induction false} StrobesBeat(m: Line.Sys, line: seq<bool>, bus: seq<Answer>)
    requires |bus| == |line| && TickOk(m.tick, Line.NUM_1US_CLKS, Line.CNT_MODULUS)
    ensures Beats(Strobes(m, line, bus), Phase(m.tick, Line.NUM_1US_CLKS))
    decreases |line|
  {
    if line != [] {
      TickPeriod(m.tick, Line.NUM_1US_CLKS, Line.CNT_MODULUS);
      StrobesBeat(Line.SysNext(m, line[0]), line[1..], bus[1..]);
    }
  }

  lemma {:induction false} FewTicks(ins: seq<In>, phase: nat)
    requires Beats(ins, phase) && phase < 80
    ensures 80 * Ticks(ins) <= phase + |ins|
    decreases |ins|
  {
    if ins != [] {
      FewTicks(ins[1..], if phase == 79 then 0 else phase + 1);
    }
  }

  lemma {:induction false} FewTicksWithin(a: seq<In>, b: seq<In>, c: seq<In>, phase: nat)
    requires Beats(a + b + c, phase) && phase < 80
    ensures 80 * Ticks(b) <= 79 + |b|
    decreases |a| + |b|
  {
    if a != [] {
      assert (a + b + c)[1..] == a[1..] + b + c;
      FewTicksWithin(a[1..], b, c, if phase == 79 then 0 else phase + 1);
    } else if c != [] {
      BeatsPrefix(b, c, phase, a + b + c);
      FewTicks(b, phase);
    } else {
      assert a + b + c == b;
      FewTicks(b, phase);
    }
  }

  lemma {:induction false} BeatsPrefix(b: seq<In>, c: seq<In>, phase: nat, bc: seq<In>)
    requires Beats(bc, phase) && bc == b + c
    ensures Beats(b, phase)
    decreases |b|
  {
    if b != [] {
      assert bc[1..] == b[1..] + c;
      BeatsPrefix(b[1..], c, if phase == 79 then 0 else phase + 1, bc[1..]);
    }
  }

  /** What is known of the delivery that `x` makes; `last` says that no frame follows it. */
  predicate Made(d: Delivery, x: Line.Sending, last: bool) {
    && d.first.rxValid && d.first.rxData == x.byte && Quiet(d.gap)
    && x.quiet <= |d.gap| <= x.quiet + 2 * Line.LONGEST_FRAME
    && (last || |d.gap| >= LULL)
    && 80 * Ticks(d.gap) <= 79 + |d.gap|
  }

  /** The deliveries that a stream of frames makes, after the clocks `pre` up to the first. */
  predicate Delivers(ins: seq<In>, pre: seq<In>, ds: seq<Delivery>, xs: seq<Line.Sending>) {
    && ins == pre + Flat(ds) && Quiet(pre) && |pre| <= Line.LONGEST_FRAME && (xs != [] ==> |pre| >= LULL)
    && |ds| == |xs| && forall j :: 0 <= j < |ds| ==> Made(ds[j], xs[j], j == |xs| - 1)
  }

  /** A frame and the quiet after it, as the command FSM sees them. */
  lemma OneSending(m: Line.Sys, x: Line.Sending, bus: seq<Answer>) returns (pre: seq<In>, hit: In, post: seq<In>)
    requires Line.Listening(m) && Line.InTolerance(x) && |bus| == |x.frame| + x.quiet
    ensures var wire := x.frame + Line.Quiet(x.quiet);
            && Line.Listening(Line.SysRun(m, wire))
            && Strobes(m, wire, bus) == pre + [hit] + post
    ensures Quiet(pre) && Quiet(post) && hit.rxValid && hit.rxData == x.byte
    ensures LULL <= |pre| <= Line.LONGEST_FRAME && x.quiet <= |post| <= Line.LONGEST_FRAME + x.quiet
  {
    hide Strobes, Line.SysRun, Line.SysNext, Line.Heard;
    var q := Line.Quiet(x.quiet);
    Line.LegibleHeard(m, x.frame, x.byte);
    var m1 := Line.SysRun(m, x.frame);
    Line.QuietHeard(m1, x.quiet);
    Line.Join(m, x.frame, q);
    StrobesJoin(m, x.frame, q, bus);
    var b1, b2 := bus[..|x.frame|], bus[|x.frame|..];
    QuietStart(m, x.frame, b1, LULL);
    StrobesCount(m1, q, b2);
    NothingHeard(m1, q, b2);
    var after;
    pre, hit, after := OneHeard(m, x.frame, b1, x.byte);
    post := after + Strobes(m1, q, b2);
    FirstHit(pre, hit, after);
  }

  lemma FirstHit(pre: seq<In>, hit: In, post: seq<In>)
    requires var all := pre + [hit] + post;
             hit.rxValid && |all| >= LULL && forall j :: 0 <= j < LULL ==> !all[j].rxValid
    ensures |pre| >= LULL
  {
    var all := pre + [hit] + post;
    assert all[|pre|] == hit;
  }

  lemma {:induction false} ToDeliveries(m: Line.Sys, xs: seq<Line.Sending>, bus: seq<Answer>)
    returns (pre: seq<In>, ds: seq<Delivery>)
    requires Line.Listening(m) && (forall x :: x in xs ==> Line.InTolerance(x)) && |bus| == |Line.OnWire(xs)|
    ensures Delivers(Strobes(m, Line.OnWire(xs), bus), pre, ds, xs)
    decreases |xs|
  {
    if xs == [] {
      pre, ds := [], [];
    } else {
      var x := xs[0];
      var wire, rest := x.frame + Line.Quiet(x.quiet), Line.OnWire(xs[1..]);
      var b1, b2 := bus[..|wire|], bus[|wire|..];
      assert Line.InTolerance(x);
      StrobesJoin(m, wire, rest, bus);
      var p, hit, q := OneSending(m, x, b1);
      var pre', ds' := ToDeliveries(Line.SysRun(m, wire), xs[1..], b2);
      var d := Delivery(hit, q + pre');
      pre, ds := p, [d] + ds';
      StrobesBeat(m, Line.OnWire(xs), bus);
      hide Strobes, Line.SysRun, Line.SysNext, Line.InTolerance, Line.Listening, Beats, Made;
      Stitch(p, hit, q, pre', ds');
      assert Strobes(m, Line.OnWire(xs), bus) == (p + [hit]) + d.gap + Flat(ds');
      FewTicksWithin(p + [hit], d.gap, Flat(ds'), Phase(m.tick, Line.NUM_1US_CLKS));
      MadeFrom(d, x, q, pre', |xs| == 1);
      forall j | 0 <= j < |ds|
        ensures Made(ds[j], xs[j], j == |xs| - 1)
      {
        if j > 0 {
          assert ds[j] == ds'[j - 1] && xs[j] == xs[1..][j - 1];
        }
      }
    }
  }

  lemma Stitch(p: seq<In>, hit: In, q: seq<In>, pre: seq<In>, ds: seq<Delivery>)
    ensures (p + [hit] + q) + (pre + Flat(ds)) == (p + [hit]) + (q + pre) + Flat(ds)
    ensures (p + [hit] + q) + (pre + Flat(ds)) == p + Flat([Delivery(hit, q + pre)] + ds)
  {
    assert ([Delivery(hit, q + pre)] + ds)[1..] == ds;
  }

  lemma MadeFrom(d: Delivery, x: Line.Sending, q: seq<In>, pre: seq<In>, last: bool)
    requires d.gap == q + pre && Quiet(q) && Quiet(pre) && d.first.rxValid && d.first.rxData == x.byte
    requires x.quiet <= |q| <= Line.LONGEST_FRAME + x.quiet && |pre| <= Line.LONGEST_FRAME && (last || |pre| >= LULL)
    requires 80 * Ticks(d.gap) <= 79 + |d.gap|
    ensures Made(d, x, last)
  {
  }

  /** Pauses between frames, in clocks, that stay clear of the command timeout: up to 2.09 s. */
  const MAX_PAUSE: nat := 80 * TIMEOUT_TICKS - 2 * Line.LONGEST_FRAME - 80

  lemma {:induction false} TicksGrow(gap: seq<In>, n: nat)
    requires n <= |gap|
    ensures Ticks(gap[..n]) <= Ticks(gap)
    decreases |gap|
  {
    if n > 0 {
      assert gap[..n][1..] == gap[1..][..n - 1];
      TicksGrow(gap[1..], n - 1);
    }
  }

  lemma MadeIsPaced(d: Delivery, x: Line.Sending, last: bool)
    requires Made(d, x, last) && x.quiet <= MAX_PAUSE && (last ==> x.quiet >= 2)
    ensures Spaced(d) && InTime(d)
  {
    TicksGrow(d.gap, |d.gap| - 1);
  }

  lemma {:induction false} Ignored(r: Regs, pre: seq<In>)
    requires Session(r) && r.state == WaitSop && Quiet(pre)
    ensures EngineRun(r, pre) == r && Writes(r, pre) == [] && Replies(r, pre) == [] && OnlyLoads(r, pre)
    decreases |pre|
  {
    if pre != [] {
      assert EngineNext(r, pre[0]) == r;
      Ignored(r, pre[1..]);
    }
  }

  /** The lines of a module's inputs that matter here. */
  function Lines(ws: seq<World>): seq<bool> { seq(|ws|, k requires 0 <= k < |ws| => ws[k].line) }

  function Answers(ws: seq<World>): seq<Answer> {
    seq(|ws|, k requires 0 <= k < |ws| => Answer(ws[k].busRdy, ws[k].busRdat))
  }

  function Ear(t: Top): Line.Sys { Line.Sys(t.tick, t.rx) }

  /** What the whole module writes to instruction memory and the bus during `ws`, and offers to its TX FIFO. */
  function AllWrites(t: Top, ws: seq<World>): seq<Write>
    decreases |ws|
  {
    if ws == [] then [] else
    WritesNow(t.eng) + AllWrites(TopNext(t, Line.NUM_1US_CLKS, Line.CNT_MODULUS, ws[0]), ws[1..])
  }

  function SessionReplies(t: Top, ws: seq<World>): seq<Byte>
    decreases |ws|
  {
    if ws == [] then [] else
    (if t.eng.busVld && TxPort(t, ws[0]).we then [TxPort(t, ws[0]).din] else [])
    + SessionReplies(TopNext(t, Line.NUM_1US_CLKS, Line.CNT_MODULUS, ws[0]), ws[1..])
  }

  /** The module contains a receiver and a command FSM fed by it. */
  lemma {:induction false} Contains(t: Top, ws: seq<World>)
    ensures AllWrites(t, ws) == Writes(t.eng, Strobes(Ear(t), Lines(ws), Answers(ws)))
    ensures SessionReplies(t, ws) == Replies(t.eng, Strobes(Ear(t), Lines(ws), Answers(ws)))
    ensures TopRun(t, Line.NUM_1US_CLKS, Line.CNT_MODULUS, ws).eng
            == EngineRun(t.eng, Strobes(Ear(t), Lines(ws), Answers(ws)))
    decreases |ws|
  {
    if ws != [] {
      hide EngineNext, RxNext, TxNext, TickNext;
      var t' := TopNext(t, Line.NUM_1US_CLKS, Line.CNT_MODULUS, ws[0]);
      var ins := Strobes(Ear(t), Lines(ws), Answers(ws));
      assert Lines(ws)[1..] == Lines(ws[1..]) && Answers(ws)[1..] == Answers(ws[1..]);
      assert ins == [EngineIn(t, ws[0])] + Strobes(Ear(t'), Lines(ws[1..]), Answers(ws[1..]));
      assert ins[1..] == Strobes(Ear(t'), Lines(ws[1..]), Answers(ws[1..]));
      Contains(t', ws[1..]);
    }
  }

  /** A program sent over the serial line at any bit period in tolerance, from any tick phase and whatever
      the CPU and the bus do meanwhile, is written to instruction memory word for word. */
  lemma ProgramOverTheWire(t: Top, ws: seq<World>, xs: seq<Line.Sending>, len: Half, data: seq<Byte>)
    requires Line.Listening(Ear(t)) && Session(t.eng) && t.eng.state == WaitSop
    requires Lines(ws) == Line.OnWire(xs) && (forall x :: x in xs ==> Line.InTolerance(x) && x.quiet <= MAX_PAUSE)
    requires Line.Payload(xs) == [C_SOP, C_IMPR, len.lo, len.hi] + data && |data| == 4 * WordCount(len)
    requires xs[|xs| - 1].quiet >= 2
    ensures AllWrites(t, ws) == Image(0, data)
    ensures SessionReplies(t, ws) == Acks(WordCount(len)) + [Checksum(0, [len.lo, len.hi] + data)]
    ensures Finished(TopRun(t, Line.NUM_1US_CLKS, Line.CNT_MODULUS, ws).eng)
    ensures OnlyLoads(t.eng, Strobes(Ear(t), Lines(ws), Answers(ws)))
  {
    hide EngineNext, Strobes, EngineRun, Writes, Replies, AllWrites, SessionReplies, Line.InTolerance, Line.Listening,
        Flat, Made;
    var ins := Strobes(Ear(t), Lines(ws), Answers(ws));
    forall x | x in xs ensures Line.InTolerance(x) { }
    var pre, ds := ToDeliveries(Ear(t), xs, Answers(ws));
    Contains(t, ws);
    Join(t.eng, pre, Flat(ds));
    Ignored(t.eng, pre);
    AllPaced(ds, xs);
    SamePayload(ds, xs);
    PacedTail(ds);
    ProgramIsLoaded(t.eng, ds, len, data);
  }

  lemma PacedTail(ds: seq<Delivery>)
    requires ds != [] && Paced(ds)
    ensures Spaced(ds[0]) && Paced(ds[1..])
  {
  }

  lemma AllPaced(ds: seq<Delivery>, xs: seq<Line.Sending>)
    requires |ds| == |xs| > 0 && xs[|xs| - 1].quiet >= 2 && forall x :: x in xs ==> x.quiet <= MAX_PAUSE
    requires forall j :: 0 <= j < |ds| ==> Made(ds[j], xs[j], j == |xs| - 1)
    ensures Paced(ds) && forall j :: 0 <= j < |ds| ==> ds[j].first.rxData == xs[j].byte
  {
    forall j | 0 <= j < |ds| ensures Spaced(ds[j]) && InTime(ds[j]) {
      assert xs[j] in xs;
      MadeIsPaced(ds[j], xs[j], j == |xs| - 1);
    }
  }

  lemma {:induction false} SamePayload(ds: seq<Delivery>, xs: seq<Line.Sending>)
    requires |ds| == |xs| && forall j :: 0 <= j < |ds| ==> ds[j].first.rxData == xs[j].byte
    ensures Payload(ds) == Line.Payload(xs)
    decreases |xs|
  {
    if xs == [] {
    } else {
      SamePayload(ds[1..], xs[1..]);
      assert Payload(ds) == [ds[0].first.rxData] + Payload(ds[1..]);
    }
  }
}
