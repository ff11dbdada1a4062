/** Two boards that do not share a clock: what the receiver of one hears of the transmitter of the other. */
module TwoClocks {
  import opened Bits
  import opened BoundedQueue
  import opened UartSerial
  import opened SerialLink
  import opened RxTiming

  /** The line in each clock of the sending board, and the bytes whose frames have ended. */
  function LineOf(l: Link, ds: seq<Drive>): (line: seq<bool>)
    ensures |line| == |ds|
    decreases |ds|
  {
    if ds == [] then [] else [l.tx.line] + LineOf(LinkNext(l, NUM_1US_CLKS, CNT_MODULUS, ds[0]), ds[1..])
  }

  function SentOut(l: Link, ds: seq<Drive>): seq<Byte>
    decreases |ds|
  {
    if ds == [] then []
    else Popped(l.queue, Port(l, ds[0])) + SentOut(LinkNext(l, NUM_1US_CLKS, CNT_MODULUS, ds[0]), ds[1..])
  }

  /** A frame from the falling edge of START to the end of STOP. */
  const FRAME_CLOCKS: nat := 6960

  function WaveLine(d: Byte): (line: seq<bool>)
    ensures |line| == FRAME_CLOCKS
  {
    seq(FRAME_CLOCKS, u requires 0 <= u < FRAME_CLOCKS => Wave(d, 1 + u / PERIOD))
  }

  /** What a transmitter puts on the line: quiet time and frames in turn. */
  datatype OnTheLine = OnTheLine(quiet: nat, byte: Byte)

  function LineFor(xs: seq<OnTheLine>): seq<bool> {
    if xs == [] then [] else Quiet(xs[0].quiet) + WaveLine(xs[0].byte) + LineFor(xs[1..])
  }

  function BytesFor(xs: seq<OnTheLine>): seq<Byte> {
    if xs == [] then [] else [xs[0].byte] + BytesFor(xs[1..])
  }

  predicate Transmits(l: Link) { TxInv(l, NUM_1US_CLKS, CNT_MODULUS) }

  /** `u` clocks into a frame for `d`. */
  predicate At(l: Link, u: int, d: Byte)
    requires TxStateOk(l.tx)
  {
    && OnLine(l.tx) && l.queue.items != [] && l.queue.items[0] == d
    && u == PERIOD * (TxAge(l.tx) - 1) + Phase(l.txTick, NUM_1US_CLKS)
  }

  lemma FrameClock(l: Link, d: Drive, u: int, b: Byte)
    requires Transmits(l) && At(l, u, b)
    ensures 0 <= u < FRAME_CLOCKS && l.tx.line == WaveLine(b)[u]
    ensures var l' := LinkNext(l, NUM_1US_CLKS, CNT_MODULUS, d);
            && Transmits(l')
            && Popped(l.queue, Port(l, d)) == (if u == FRAME_CLOCKS - 1 then [b] else [])
            && if u == FRAME_CLOCKS - 1 then !OnLine(l'.tx) else At(l', u + 1, b)
  {
    TxStep(l, NUM_1US_CLKS, CNT_MODULUS, d);
    FrameStep(l, NUM_1US_CLKS, CNT_MODULUS, d);
    TickPeriod(l.txTick, NUM_1US_CLKS, CNT_MODULUS);
    TxFollowsTicks(l.tx, l.txTick.pulse, l.queue.items == [], Head(l, d));
    hide TxNext, RxNext, Next, Wave, TickNext, TxAge;
    assert u / PERIOD == TxAge(l.tx) - 1;
  }

  lemma QuietClock(l: Link, d: Drive)
    requires Transmits(l) && !OnLine(l.tx)
    ensures var l' := LinkNext(l, NUM_1US_CLKS, CNT_MODULUS, d);
            && l.tx.line && Transmits(l') && Popped(l.queue, Port(l, d)) == []
            && (OnLine(l'.tx) ==> l'.queue.items != [] && At(l', 0, l'.queue.items[0]))
  {
    TxStep(l, NUM_1US_CLKS, CNT_MODULUS, d);
    TickPeriod(l.txTick, NUM_1US_CLKS, CNT_MODULUS);
    if l.tx.state != IDLE {
      FrameStep(l, NUM_1US_CLKS, CNT_MODULUS, d);
      TxFollowsTicks(l.tx, l.txTick.pulse, l.queue.items == [], Head(l, d));
      assert Cell(0) == 0;
    }
  }

  function After(l: Link, ds: seq<Drive>): Link { LinkRun(l, NUM_1US_CLKS, CNT_MODULUS, ds) }

  /** After `n` clocks, with `wave` on the line and then `b` gone from the FIFO, the line is quiet again. */
  predicate FrameTo(l: Link, ds: seq<Drive>, n: nat, wave: seq<bool>, b: Byte, m: Link) {
    && |ds| >= n && Transmits(m) && !OnLine(m.tx) && After(l, ds) == After(m, ds[n..])
    && LineOf(l, ds) == wave + LineOf(m, ds[n..]) && SentOut(l, ds) == [b] + SentOut(m, ds[n..])
  }

  lemma OneClockMore(l: Link, ds: seq<Drive>, n: nat, now: bool, later: seq<bool>, b: Byte, m: Link)
    requires ds != []
    requires var l' := LinkNext(l, NUM_1US_CLKS, CNT_MODULUS, ds[0]);
             && FrameTo(l', ds[1..], n, later, b, m) && LineOf(l, ds) == [now] + LineOf(l', ds[1..])
             && SentOut(l, ds) == SentOut(l', ds[1..]) && After(l, ds) == After(l', ds[1..])
    ensures FrameTo(l, ds, n + 1, [now] + later, b, m)
  {
    hide LinkNext, LineOf, SentOut, After, TxInv, OnLine;
    assert ds[1..][n..] == ds[n + 1..];
    Regroup([now], later, LineOf(m, ds[n + 1..]));
  }

  /** The rest of a frame, or as much of it as there is time for. */
  lemma {:induction false} FrameRuns(l: Link, ds: seq<Drive>, u: nat, b: Byte) returns (m: Link)
    requires Transmits(l) && At(l, u, b)
    ensures if |ds| < FRAME_CLOCKS - u then TxStateOk(After(l, ds).tx) && OnLine(After(l, ds).tx)
            else FrameTo(l, ds, FRAME_CLOCKS - u, WaveLine(b)[u..], b, m)
    decreases |ds|
  {
    if ds == [] {
      m := l;
      FrameClock(l, Drive(false, 0, 0), u, b);
    } else {
      var l', n := LinkNext(l, NUM_1US_CLKS, CNT_MODULUS, ds[0]), FRAME_CLOCKS - u;
      FrameClock(l, ds[0], u, b);
      hide LinkNext, TxInv, OnLine, At, WaveLine, Port, Popped;
      var now, later := WaveLine(b)[u], WaveLine(b)[u + 1..];
      assert WaveLine(b)[u..] == [now] + later;
      assert LineOf(l, ds) == [now] + LineOf(l', ds[1..]) && After(l, ds) == After(l', ds[1..]);
      if n == 1 {
        m := l';
        assert later == [] && [now] + later == [now];
      } else {
        assert SentOut(l, ds) == SentOut(l', ds[1..]);
        hide *;
        m := FrameRuns(l', ds[1..], u + 1, b);
        if |ds| >= n {
          OneClockMore(l, ds, n - 1, now, later, b, m);
        }
      }
    }
  }

  /** From quiet line to quiet line, the transmitter puts out frames, each for the byte that then leaves the FIFO. */
  lemma {:induction false} Outputs(l: Link, ds: seq<Drive>) returns (xs: seq<OnTheLine>, last: nat)
    requires Transmits(l) && !OnLine(l.tx)
    requires TxStateOk(After(l, ds).tx) && !OnLine(After(l, ds).tx)
    ensures LineOf(l, ds) == LineFor(xs) + Quiet(last) && SentOut(l, ds) == BytesFor(xs)
    decreases |ds|
  {
    if ds == [] {
      xs, last := [], 0;
    } else {
      var l', rest := LinkNext(l, NUM_1US_CLKS, CNT_MODULUS, ds[0]), ds[1..];
      QuietClock(l, ds[0]);
      assert LineOf(l, ds) == Quiet(1) + LineOf(l', rest) && SentOut(l, ds) == SentOut(l', rest);
      assert After(l, ds) == After(l', rest);
      if OnLine(l'.tx) {
        var b := l'.queue.items[0];
        var m := FrameRuns(l', rest, 0, b);
        hide LinkNext, TxInv, OnLine, At, Wave;
        var ys, n := Outputs(m, rest[FRAME_CLOCKS..]);
        xs, last := [OnTheLine(1, b)] + ys, n;
        OneFrame(b, ys, n, LineOf(l', rest), LineOf(m, rest[FRAME_CLOCKS..]));
      } else {
        hide LinkNext, TxInv, OnLine, At, Wave;
        var ys, n := Outputs(l', rest);
        xs, last := OneQuiet(ys, n);
      }
    }
  }

  lemma OneFrame(b: Byte, ys: seq<OnTheLine>, n: nat, line: seq<bool>, rest: seq<bool>)
    requires line == WaveLine(b)[0..] + rest && rest == LineFor(ys) + Quiet(n)
    ensures var xs := [OnTheLine(1, b)] + ys;
            Quiet(1) + line == LineFor(xs) + Quiet(n) && BytesFor(xs) == [b] + BytesFor(ys)
  {
    hide Wave;
    var xs := [OnTheLine(1, b)] + ys;
    assert xs[1..] == ys && WaveLine(b)[0..] == WaveLine(b);
    assert LineFor(xs) == Quiet(1) + WaveLine(b) + LineFor(ys);
  }

  /** One more quiet clock in front. */
  lemma OneQuiet(ys: seq<OnTheLine>, n: nat) returns (xs: seq<OnTheLine>, last: nat)
    ensures Quiet(1) + (LineFor(ys) + Quiet(n)) == LineFor(xs) + Quiet(last) && BytesFor(xs) == BytesFor(ys)
  {
    hide WaveLine;
    if ys == [] {
      xs, last := [], n + 1;
      assert Quiet(1) + Quiet(n) == Quiet(n + 1);
    } else {
      xs, last := [OnTheLine(ys[0].quiet + 1, ys[0].byte)] + ys[1..], n;
      assert Quiet(1) + Quiet(ys[0].quiet) == Quiet(ys[0].quiet + 1);
      assert xs[1..] == ys[1..];
    }
  }

  /** When the receiver's clock takes sample `i`, in clocks of the sender from the start of `line` on: the first is `x`
      clocks after it, and each takes `r`. */
  function Time(x: real, r: real, i: nat): real { x + i as real * r }

  /** All the samples of `line`. */
  predicate Samples(seen: seq<bool>, line: seq<bool>, x: real, r: real) {
    && 0.0 <= x && r > 0.0
    && (seen == [] || Time(x, r, |seen| - 1) < |line| as real) && |line| as real <= Time(x, r, |seen|)
    && forall i :: 0 <= i < |seen| ==> 0 <= Time(x, r, i).Floor < |line| && seen[i] == line[Time(x, r, i).Floor]
  }

  lemma Later(x: real, r: real, i: nat, j: nat)
    requires r > 0.0 && i <= j
    ensures Time(x, r, j) == Time(Time(x, r, i), r, j - i)
    ensures Time(x, r, i) <= Time(x, r, j) && (i < j ==> Time(x, r, i) + r <= Time(x, r, j))
  {
    var d := j - i;
    Distributes(i as real, d as real, r);
    Grows(0.0, d as real, r);
    if i < j {
      Grows(1.0, d as real, r);
    }
    assert j as real == i as real + d as real;
  }

  lemma Distributes(a: real, b: real, r: real)
    ensures (a + b) * r == a * r + b * r
  {
  }

  lemma Grows(a: real, b: real, r: real)
    requires a <= b && r > 0.0
    ensures a * r <= b * r && (a < b ==> a * r < b * r)
  {
    assert (b - a) * r >= 0.0 && (a < b ==> (b - a) * r > 0.0);
    Distributes(a, b - a, r);
  }

  lemma Quotient(a: real, r: real) returns (q: real)
    requires a > 0.0 && r > 0.0
    ensures q * r == a && q > 0.0
  {
    q := a / r;
    if q <= 0.0 {
      Grows(q, 0.0, r);
    }
  }

  lemma RoundedUp(q: real) returns (n: nat)
    requires q > 0.0
    ensures n > 0 && (n - 1) as real < q <= n as real
  {
    n := -(-q).Floor;
  }

  lemma TimeAtLeast(x: real, r: real, i: nat, q: real)
    requires r > 0.0 && q <= i as real
    ensures Time(x, r, i) >= x + q * r
  {
    Grows(q, i as real, r);
  }

  lemma TimeBelow(x: real, r: real, i: nat, q: real)
    requires r > 0.0 && i as real < q
    ensures Time(x, r, i) < x + q * r
  {
    Grows(i as real, q, r);
  }

  /** How many samples fall before `end`. */
  lemma Count(x: real, r: real, end: nat) returns (n: nat)
    requires 0.0 <= x && r > 0.0
    ensures end as real <= Time(x, r, n) && (n > 0 ==> Time(x, r, n - 1) < end as real)
  {
    if x >= end as real {
      n := 0;
    } else {
      var q := Quotient(end as real - x, r);
      n := RoundedUp(q);
      TimeAtLeast(x, r, n, q);
      TimeBelow(x, r, n - 1, q);
      hide Time;
    }
  }

  /** What is seen of two lines one after the other. */
  lemma Splits(seen: seq<bool>, a: seq<bool>, b: seq<bool>, x: real, r: real) returns (n: nat)
    requires Samples(seen, a + b, x, r) && x < r
    ensures n <= |seen| && Samples(seen[..n], a, x, r)
    ensures var x' := Time(x, r, n) - |a| as real; 0.0 <= x' < r && Samples(seen[n..], b, x', r)
  {
    n := Count(x, r, |a|);
    hide Time;
    if n > |seen| {
      Later(x, r, |seen|, n - 1);
    }
    TimeOf(x, r, 0);
    if n > 0 {
      NextTime(x, r, n - 1);
    }
    FrontSamples(seen, a, b, x, r, n);
    BackSamples(seen, a, b, x, r, n);
  }

  lemma TimeOf(x: real, r: real, i: nat)
    ensures Time(x, r, i) == x + i as real * r
  {
  }

  lemma NextTime(x: real, r: real, i: nat)
    ensures Time(x, r, i + 1) == Time(x, r, i) + r
  {
    assert (i + 1) as real * r == i as real * r + r;
  }

  lemma FrontSamples(seen: seq<bool>, a: seq<bool>, b: seq<bool>, x: real, r: real, n: nat)
    requires Samples(seen, a + b, x, r) && n <= |seen|
    requires |a| as real <= Time(x, r, n) && (n > 0 ==> Time(x, r, n - 1) < |a| as real)
    ensures Samples(seen[..n], a, x, r)
  {
    hide Time;
    forall i | 0 <= i < n ensures 0 <= Time(x, r, i).Floor < |a| && seen[..n][i] == a[Time(x, r, i).Floor] {
      Later(x, r, i, n - 1);
    }
  }

  lemma BackSamples(seen: seq<bool>, a: seq<bool>, b: seq<bool>, x: real, r: real, n: nat)
    requires Samples(seen, a + b, x, r) && n <= |seen| && |a| as real <= Time(x, r, n)
    ensures Samples(seen[n..], b, Time(x, r, n) - |a| as real, r)
  {
    hide Time;
    var x' := Time(x, r, n) - |a| as real;
    forall i: nat | n <= i <= |seen|
      ensures Time(x', r, i - n) == Time(x, r, i) - |a| as real && Time(x', r, i - n) >= 0.0
    {
      Later(x, r, n, i);
      Shifted(Time(x, r, n), r, |a| as real, i - n);
    }
    forall i | 0 <= i < |seen| - n
      ensures 0 <= Time(x', r, i).Floor < |b| && seen[n..][i] == b[Time(x', r, i).Floor]
    {
      var y := Time(x, r, n + i);
      assert Time(x', r, n + i - n) == y - |a| as real;
      assert (y - |a| as real).Floor == y.Floor - |a|;
      assert (a + b)[y.Floor] == b[y.Floor - |a|];
    }
    assert |seen[n..]| == |seen| - n;
    assert Time(x', r, |seen| - n) == Time(x, r, |seen|) - |a| as real;
    if |seen| > n {
      assert Time(x', r, |seen| - 1 - n) == Time(x, r, |seen| - 1) - |a| as real;
    }
  }

  lemma Shifted(x: real, r: real, c: real, i: nat)
    ensures Time(x - c, r, i) == Time(x, r, i) - c
  {
  }

  /** How many clocks of the sender one of the receiver may take: 0.9509... to 1.0452.... */
  predicate Copes(r: real) { 6562.0 * r >= 6240.0 && 5281.0 * r <= 5520.0 }

  lemma TimeBounds(x: real, r: real, i: nat, lo: nat, hi: nat)
    requires 0.0 <= x < r && lo <= i <= hi
    ensures lo as real * r <= Time(x, r, i) < (hi + 1) as real * r
  {
    TimeOf(0.0, r, lo);
    Later(0.0, r, lo, i);
    Later(0.0, r, i, hi);
    NextTime(0.0, r, hi);
    Shifted(x, r, x, i);
  }

  /** The clock of a frame in which data bit `k` begins, or (8) STOP. */
  function Edge(k: nat): nat
    requires k <= 8
  {
    match k case 0 => 720 case 1 => 1360 case 2 => 2080 case 3 => 2800 case 4 => 3440 case 5 => 4160 case 6 => 4880
            case 7 => 5520 case 8 => 6240
  }

  lemma CellFrom(u: nat)
    ensures forall k :: 0 <= k < 8 && Edge(k) <= u < Edge(k + 1) ==> Cell(1 + u / PERIOD) == k + 2
    ensures u >= Edge(8) ==> Cell(1 + u / PERIOD) == 10
    ensures u < Edge(8) ==> 1 <= Cell(1 + u / PERIOD) <= 9
    ensures u < Edge(0) ==> Cell(1 + u / PERIOD) == 1
  {
  }

  lemma WaveAt(d: Byte, u: nat)
    requires u < FRAME_CLOCKS
    ensures WaveLine(d)[u] == Level(d, Cell(1 + u / PERIOD))
  {
  }

  lemma InBit(t: real, r: real, k: nat)
    requires Copes(r) && k < 8
    requires (80 * RxBase(k + 1) - 79) as real * r <= t < (80 * RxBase(k + 1) + 1) as real * r
    ensures Edge(k) as real <= t < Edge(k + 1) as real
  {
    match k case 0 => case 1 => case 2 => case 3 => case 4 => case 5 => case 6 => case _ =>
  }

  /** A sample of data bit `k` finds it. */
  lemma BitSeen(x: real, r: real, k: nat, i: nat, d: Byte)
    requires Copes(r) && 0.0 <= x < r && k < 8 && 80 * RxBase(k + 1) - 79 <= i <= 80 * RxBase(k + 1)
    ensures 0 <= Time(x, r, i).Floor < FRAME_CLOCKS && WaveLine(d)[Time(x, r, i).Floor] == Bit(d, k)
  {
    TimeBounds(x, r, i, 80 * RxBase(k + 1) - 79, 80 * RxBase(k + 1));
    InBit(Time(x, r, i), r, k);
    var u := Time(x, r, i).Floor;
    CellFrom(u);
    WaveAt(d, u);
    hide Time, WaveLine, Cell, Bit, RxBase;
  }

  /** What the receiver sees of a whole frame. */
  lemma WaveLegible(seen: seq<bool>, d: Byte, x: real, r: real)
    requires Copes(r) && 0.0 <= x < r && Samples(seen, WaveLine(d), x, r)
    ensures Legible(seen, d) && |seen| <= LONGEST_FRAME
  {
    WaveLength(seen, d, x, r);
    hide Time, WaveLine;
    forall k, i | 0 <= k < 8 && 80 * RxBase(k + 1) - 79 <= i <= 80 * RxBase(k + 1) ensures seen[i] == Bit(d, k) {
      BitSeen(x, r, k, i, d);
    }
    forall i | 6562 <= i < |seen| ensures seen[i] {
      TimeBounds(x, r, i, 6562, i);
      CellFrom(Time(x, r, i).Floor);
      WaveAt(d, Time(x, r, i).Floor);
    }
    TimeOf(x, r, 0);
    CellFrom(Time(x, r, 0).Floor);
    WaveAt(d, Time(x, r, 0).Floor);
  }

  lemma WaveLength(seen: seq<bool>, d: Byte, x: real, r: real)
    requires Copes(r) && 0.0 <= x < r && Samples(seen, WaveLine(d), x, r)
    ensures 6643 <= |seen| <= LONGEST_FRAME
  {
    hide Time, WaveLine;
    if |seen| < 6643 {
      TimeBounds(x, r, |seen|, 0, 6642);
    } else {
      TimeBounds(x, r, |seen| - 1, |seen| - 1, |seen| - 1);
      TimeOf(0.0, r, |seen| - 1);
      if |seen| > LONGEST_FRAME {
        TimeBounds(x, r, |seen| - 1, LONGEST_FRAME, |seen| - 1);
      }
    }
  }

  lemma QuietSeen(seen: seq<bool>, n: nat, x: real, r: real)
    requires Samples(seen, Quiet(n), x, r)
    ensures seen == Quiet(|seen|)
  {
    hide Time;
  }

  /** Frames and quiet time, seen by the other clock, are heard byte for byte. */
  lemma {:induction false} AllHeard(m: Sys, seen: seq<bool>, xs: seq<OnTheLine>, last: nat, x: real, r: real)
    requires Copes(r) && 0.0 <= x < r && Samples(seen, LineFor(xs) + Quiet(last), x, r) && Listening(m)
    ensures Heard(m, seen) == BytesFor(xs) && Listening(SysRun(m, seen))
    decreases |xs|
  {
    hide Time, WaveLine, Legible, Listening, Samples;
    if xs == [] {
      assert LineFor(xs) + Quiet(last) == Quiet(last);
      QuietSeen(seen, last, x, r);
      QuietHeard(m, |seen|);
    } else {
      var quiet, wave, rest := Quiet(xs[0].quiet), WaveLine(xs[0].byte), LineFor(xs[1..]) + Quiet(last);
      assert LineFor(xs) + Quiet(last) == quiet + (wave + rest);
      var n := Splits(seen, quiet, wave + rest, x, r);
      var x1 := Time(x, r, n) - |quiet| as real;
      var k := Splits(seen[n..], wave, rest, x1, r);
      var x2 := Time(x1, r, k) - |wave| as real;
      var s1, s2, s3 := seen[..n], seen[n..][..k], seen[n..][k..];
      QuietSeen(s1, xs[0].quiet, x, r);
      QuietHeard(m, n);
      WaveLegible(s2, xs[0].byte, x1, r);
      var m1 := SysRun(m, s1);
      LegibleHeard(m1, s2, xs[0].byte);
      AllHeard(SysRun(m1, s2), s3, xs[1..], last, x2, r);
      assert seen == s1 + (s2 + s3);
      Join(m, s1, s2 + s3);
      Join(m1, s2, s3);
    }
  }

  lemma {:induction false} Leaves(l: Link, ds: seq<Drive>)
    ensures l.queue.items + Sent(l, NUM_1US_CLKS, CNT_MODULUS, ds) == SentOut(l, ds) + After(l, ds).queue.items
    decreases |ds|
  {
    if ds != [] {
      var l', i := LinkNext(l, NUM_1US_CLKS, CNT_MODULUS, ds[0]), Port(l, ds[0]);
      StepConserves(l.queue, DEPTH, i);
      assert l'.queue == Next(l.queue, DEPTH, i);
      hide LinkNext, Pushed, Popped, Next;
      Leaves(l', ds[1..]);
      Telescope(l.queue.items, Pushed(l.queue, DEPTH, i), Popped(l.queue, i), l'.queue.items,
                Sent(l', NUM_1US_CLKS, CNT_MODULUS, ds[1..]), SentOut(l', ds[1..]), After(l', ds[1..]).queue.items);
    }
  }

  /** Two boards with clocks of their own, one clock of the receiver taking 0.9509... to 1.0452... of the sender's, at
      any phase and with any ticks: whenever no frame is on the line, the receiver has heard exactly the bytes that
      the sender's FIFO has accepted, in order, but for those still in it. */
  lemma LosslessTwoClocks(l: Link, ds: seq<Drive>, m: Sys, seen: seq<bool>, x: real, r: real)
    requires Transmits(l) && !OnLine(l.tx) && Listening(m)
    requires TxStateOk(After(l, ds).tx) && !OnLine(After(l, ds).tx)
    requires Copes(r) && 0.0 <= x < r && Samples(seen, LineOf(l, ds), x, r)
    ensures l.queue.items + Sent(l, NUM_1US_CLKS, CNT_MODULUS, ds) == Heard(m, seen) + After(l, ds).queue.items
    ensures Listening(SysRun(m, seen))
  {
    hide *;
    var xs, last := Outputs(l, ds);
    AllHeard(m, seen, xs, last, x, r);
    Leaves(l, ds);
  }

  /** Every frame of the transmitter is legible at every phase. */
  ghost predicate AlwaysLegible(r: real) {
    forall d: Byte, x: real, seen: seq<bool> :: 0.0 <= x < r && Samples(seen, WaveLine(d), x, r) ==> Legible(seen, d)
  }

  /** The samples of a line. */
  function Seen(line: seq<bool>, x: real, r: real, n: nat): (seen: seq<bool>)
    requires 0.0 <= x && r > 0.0 && (n > 0 ==> Time(x, r, n - 1) < |line| as real) && |line| as real <= Time(x, r, n)
    ensures Samples(seen, line, x, r) && |seen| == n
  {
    assert forall i :: 0 <= i < n ==> 0 <= Time(x, r, i).Floor < |line| by {
      forall i | 0 <= i < n ensures 0 <= Time(x, r, i).Floor < |line| {
        Later(x, r, i, n - 1);
        Later(x, r, 0, i);
      }
    }
    seq(n, i requires 0 <= i < n => line[Time(x, r, i).Floor])
  }

  /** A bit that is seen as the next one: the receiver is too slow. */
  lemma TooSlow(r: real) returns (x: real, seen: seq<bool>)
    requires 5281.0 * r > 5520.0
    ensures 0.0 <= x < r && Samples(seen, WaveLine(0x40), x, r) && !Legible(seen, 0x40)
  {
    x := if 5280.0 * r >= 5520.0 then 0.0 else 5520.0 - 5280.0 * r;
    var n := Count(x, r, FRAME_CLOCKS);
    seen := Seen(WaveLine(0x40), x, r, n);
    if n >= 6643 {
      TimeOf(x, r, 5280);
      TimeOf(x, r, 6642);
      Later(x, r, 6642, n - 1);
      hide Time, WaveLine, Legible;
      NextBitSeen(seen, x, r);
    }
  }

  lemma NextBitSeen(seen: seq<bool>, x: real, r: real)
    requires Samples(seen, WaveLine(0x40), x, r) && |seen| > 5280 && 5520.0 <= Time(x, r, 5280) < 6240.0
    ensures !Legible(seen, 0x40)
  {
    hide Time, WaveLine;
    var u := Time(x, r, 5280).Floor;
    CellFrom(u);
    WaveAt(0x40, u);
    assert !seen[5280];
    assert 80 * RxBase(6 + 1) - 79 <= 5280 <= 80 * RxBase(6 + 1) && Bit(0x40, 6);
  }

  /** A last data bit that is still there when the receiver looks for the next START: it is too fast. */
  lemma TooFast(r: real) returns (x: real, seen: seq<bool>)
    requires r > 0.0 && 6562.0 * r < 6240.0
    ensures 0.0 <= x < r && Samples(seen, WaveLine(0), x, r) && !Legible(seen, 0)
  {
    x := 0.0;
    var n := Count(x, r, FRAME_CLOCKS);
    seen := Seen(WaveLine(0), x, r, n);
    TimeOf(x, r, 6562);
    if n <= 6562 {
      Later(x, r, n, 6562);
    }
    Later(x, r, 0, 6562);
    TimeOf(x, r, 0);
    hide Time, WaveLine;
    var u := Time(x, r, 6562).Floor;
    CellFrom(u);
    WaveAt(0, u);
    assert !seen[6562];
  }

  /** Exactly how far the clocks may be apart for the receiver to find every bit, and STOP, where it looks for them. */
  lemma WaveLegibleIff(r: real)
    requires r > 0.0
    ensures AlwaysLegible(r) <==> Copes(r)
  {
    if Copes(r) {
      forall d: Byte, x: real, seen: seq<bool> | 0.0 <= x < r && Samples(seen, WaveLine(d), x, r)
        ensures Legible(seen, d)
      {
        WaveLegible(seen, d, x, r);
      }
    } else if 5281.0 * r > 5520.0 {
      var x, seen := TooSlow(r);
    } else {
      var x, seen := TooFast(r);
    }
  }
}
