/** uart.sv: when the receiver samples, whatever the line does, and exactly which bit periods it can receive. */
module RxBounds {
  import opened Bits
  import opened UartSerial
  import opened SerialLink
  import opened RxTiming

  /** The clocks of a tick period that have passed when a listening receiver that finds the line low leaves IDLE. */
  function Lead(m: Sys): (y: nat)
    requires TickOk(m.tick, NUM_1US_CLKS, CNT_MODULUS)
    ensures y < PERIOD
  {
    (Phase(m.tick, NUM_1US_CLKS) + 3) % PERIOD
  }

  /** The clock, counted from the first that finds the line low, in which sample `k` is taken, or STOP left (9). */
  function SampleClock(k: nat, y: nat): int
    requires 1 <= k <= 9
  {
    PERIOD * RxBase(k) - y + 2
  }

  /** In clock `i` of a reception: three clocks of IDLE, then the ages of the FSM pass with the ticks, and the
      synchroniser shows the line of two clocks ago. */
  predicate InClock(m: Sys, line: seq<bool>, i: nat, y: nat)
    requires i <= |line|
  {
    && TickOk(m.tick, NUM_1US_CLKS, CNT_MODULUS) && RxStateOk(m.rx)
    && m.rx.ff0 == (i < 1 || line[i - 1]) && m.rx.ff1 == (i < 2 || line[i - 2])
    && if i < 3 then m.rx.state == IDLE && (Phase(m.tick, NUM_1US_CLKS) + 3 - i) % PERIOD == y
       else m.rx.state != IDLE && 80 * RxAge(m.rx) + Phase(m.tick, NUM_1US_CLKS) == i - 3 + y
  }

  lemma PhaseClock(p: nat, p': nat, i: nat, y: nat)
    requires p < PERIOD && p' == (if p == 79 then 0 else p + 1) && i < 3
    requires (p + 3 - i) % PERIOD == y
    ensures (p' + 3 - (i + 1)) % PERIOD == y && (i == 2 ==> p' == y)
  {
  }

  lemma OneClock(m: Sys, line: seq<bool>, i: nat, y: nat)
    requires i < |line| && !line[0] && InClock(m, line, i, y) && i < SampleClock(9, y)
    ensures InClock(SysNext(m, line[i]), line, i + 1, y) && !RxWe(m.rx, m.tick.pulse)
  {
    TickPeriod(m.tick, NUM_1US_CLKS, CNT_MODULUS);
    Synchronises(m.rx, m.tick.pulse, line[i]);
    if i < 3 {
      PhaseClock(Phase(m.tick, NUM_1US_CLKS), Phase(SysNext(m, line[i]).tick, NUM_1US_CLKS), i, y);
    } else {
      RxFollowsTicks(m.rx, m.tick.pulse, line[i]);
    }
  }

  /** Until STOP is left, the clocks of a reception depend on the tick phase only. */
  lemma {:induction false} Reception(m: Sys, line: seq<bool>, i: nat)
    requires Listening(m) && i <= |line| && (line != [] ==> !line[0]) && i <= SampleClock(9, Lead(m))
    ensures InClock(SysRun(m, line[..i]), line, i, Lead(m)) && Heard(m, line[..i]) == []
    decreases i
  {
    if i == 0 {
    } else {
      Reception(m, line, i - 1);
      var front, last := line[..i - 1], [line[i - 1]];
      assert line[..i] == front + last;
      Join(m, front, last);
      OneClock(SysRun(m, front), line, i - 1, Lead(m));
      assert last[1..] == [];
    }
  }

  /** A bit is shifted in. */
  predicate Shifts(r: Rx, tick: bool) { tick && r.cnt == 0 && r.state < STOP }

  /** For any bit period, well formed or not: the FSM shifts in exactly the clocks SampleClock(1..8), bit by bit, and
      the value it shifts in is that of the frame at the instant SampleInstant; it pushes in SampleClock(9). */
  lemma SamplesTaken(m: Sys, line: seq<bool>, d: Byte, beta: real, s: real, i: nat)
    requires Listening(m) && IsFrame(line, d, beta, s) && s < beta && 3 <= i < |line| && i <= SampleClock(9, Lead(m))
    ensures var r, tick := SysRun(m, line[..i]).rx, SysRun(m, line[..i]).tick.pulse;
            && (Shifts(r, tick) <==> exists k :: 1 <= k <= 8 && i == SampleClock(k, Lead(m)))
            && (forall k :: 1 <= k <= 8 && i == SampleClock(k, Lead(m)) ==>
                 r.state == k - 1 && r.ff1 == LineAt(d, beta, SampleInstant(k, s, Lead(m))))
            && (RxWe(r, tick) <==> i == SampleClock(9, Lead(m)))
  {
    Reception(m, line, i);
    var x, y := SysRun(m, line[..i]), Lead(m);
    TickPeriod(x.tick, NUM_1US_CLKS, CNT_MODULUS);
    RxFollowsTicks(x.rx, x.tick.pulse, true);
    ShiftsByAge(x.rx, x.tick.pulse, Phase(x.tick, NUM_1US_CLKS));
    hide Listening, RxAge, RxNext, RxBase;
    if Shifts(x.rx, x.tick.pulse) {
      assert i == SampleClock(x.rx.state + 1, y);
    }
    forall k | 1 <= k <= 8 && i == SampleClock(k, y)
      ensures x.rx.state == k - 1 && x.rx.ff1 == LineAt(d, beta, SampleInstant(k, s, y))
    {
      assert line[i - 2] == LineAt(d, beta, s + (i - 2) as real);
    }
  }

  lemma ShiftsByAge(r: Rx, tick: bool, phase: nat)
    requires RxStateOk(r) && r.state != IDLE && phase < PERIOD && (tick <==> phase == 79)
    ensures forall k :: 1 <= k <= 8 && 80 * RxAge(r) + phase == 80 * RxBase(k) - 1 ==>
              Shifts(r, tick) && r.state == k - 1
    ensures Shifts(r, tick) ==> 80 * RxAge(r) + phase == 80 * RxBase(r.state + 1) - 1
  {
  }

  /** Whatever arrives, with whatever phases, is received. */
  ghost predicate AlwaysReceived(beta: real) {
    forall m: Sys, line: seq<bool>, d: Byte, s: real :: Listening(m) && IsFrame(line, d, beta, s) ==>
      WellReceived(m, line, d)
  }

  predicate WellReceived(m: Sys, line: seq<bool>, d: Byte) { Heard(m, line) == [d] && Listening(SysRun(m, line)) }

  /** The frame of `d` as sampled from the offset `s` on. */
  function FrameOf(d: Byte, beta: real, s: real): (line: seq<bool>)
    requires 0.0 <= s < 1.0 && s < 10.0 * beta
    ensures IsFrame(line, d, beta, s)
  {
    var n := -(s - 10.0 * beta).Floor;
    seq(n, i requires 0 <= i < n => LineAt(d, beta, s + i as real))
  }

  /** A listening receiver with its tick `phase` clocks into a period. */
  function ListeningAt(phase: nat): (m: Sys)
    requires phase < NUM_1US_CLKS
    ensures Listening(m)
  {
    Sys(Tick(false, phase), RX_RESET)
  }

  /** A frame that is over before STOP is left. */
  lemma TooShort(beta: real) returns (m: Sys, line: seq<bool>, s: real)
    requires 0.0 < beta < 664.3
    ensures Listening(m) && IsFrame(line, 0, beta, s) && !WellReceived(m, line, 0)
  {
    m := ListeningAt(77);
    s := if 10.0 * beta <= 6642.0 then 0.0 else 10.0 * beta - 6642.0;
    line := FrameOf(0, beta, s);
    assert Lead(m) == 0 && |line| <= 6642;
    Reception(m, line, |line|);
    assert line[..|line|] == line;
  }

  lemma {:induction false} BusyOrHeard(m: Sys, line: seq<bool>)
    requires m.rx.state <= STOP
    ensures SysRun(m, line).rx.state <= STOP || Heard(m, line) != []
    decreases |line|
  {
    if line != [] && !RxWe(m.rx, m.tick.pulse) {
      BusyOrHeard(SysNext(m, line[0]), line[1..]);
    }
  }

  /** A frame whose last data bit, being 0, is still there when the FSM is back in IDLE, and taken for a start bit. */
  lemma TooLong(beta: real) returns (m: Sys, line: seq<bool>)
    requires 9.0 * beta > 6562.0
    ensures Listening(m) && IsFrame(line, 0, beta, 0.0) && !WellReceived(m, line, 0)
  {
    m := ListeningAt(76);
    line := FrameOf(0, beta, 0.0);
    assert Lead(m) == 79 && |line| > 7290 && !line[6562];
    var head, tail := line[..6565], line[6565..];
    FalseStart(m, line);
    assert line == head + tail;
    Join(m, head, tail);
    BusyOrHeard(SysRun(m, head), tail);
  }

  lemma FalseStart(m: Sys, line: seq<bool>)
    requires Listening(m) && Lead(m) == 79 && |line| > 6565 && !line[0] && !line[6562]
    ensures SysRun(m, line[..6565]).rx.state == 0 && Heard(m, line[..6565]) != []
  {
    Reception(m, line, 6563);
    var x := SysRun(m, line[..6563]);
    TickPeriod(x.tick, NUM_1US_CLKS, CNT_MODULUS);
    RxFollowsTicks(x.rx, x.tick.pulse, line[6563]);
    Synchronises(x.rx, x.tick.pulse, line[6563]);
    var two := line[6563..6565];
    assert line[..6565] == line[..6563] + two;
    Join(m, line[..6563], two);
    var x1 := SysNext(x, two[0]);
    assert x1.rx.state == IDLE && !x1.rx.ff1;
    assert SysNext(x1, two[1]).rx.state == 0;
    assert two[1..][0] == two[1] && two[1..][1..] == [];
    hide SysNext;
    assert SysRun(x, two) == SysRun(x1, two[1..]) == SysNext(x1, two[1]);
    assert Heard(x, two) == [x.rx.shift] + Heard(x1, two[1..]);
  }

  /** Exactly which bit periods the receiver can cope with: 664.3 to 6562 / 9 clocks (8.30375 us to 9.1138... us). */
  lemma ReceivedIff(beta: real)
    requires beta > 0.0
    ensures AlwaysReceived(beta) <==> 664.3 <= beta && 9.0 * beta <= 6562.0
  {
    if InRange(beta) {
      forall m: Sys, line: seq<bool>, d: Byte, s: real | Listening(m) && IsFrame(line, d, beta, s)
        ensures WellReceived(m, line, d)
      {
        FrameHeard(m, line, d, beta, s);
      }
    } else if beta < 664.3 {
      var m, line, s := TooShort(beta);
    } else {
      var m, line := TooLong(beta);
    }
  }
}
