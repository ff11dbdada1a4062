/** uart.sv at 80 MHz: what the receiver makes of an ideal line with any constant bit period. */
module RxTiming {
  import opened Bits
  import opened UartSerial
  import opened SerialLink

  const NUM_1US_CLKS: nat := 79  // soc_pkg.sv: 1_000_000 / 12_500 - 1
  const CNT_MODULUS: nat := 128  // CNT_1US_WIDTH is 7
  const PERIOD: nat := 80        // clocks from tick to tick

  /** The line `offset` clocks into a frame for `d` with `beta` clocks per bit. */
  predicate LineAt(d: Byte, beta: real, offset: real) {
    if offset < beta then false
    else if offset < 2.0 * beta then Bit(d, 0) else if offset < 3.0 * beta then Bit(d, 1)
    else if offset < 4.0 * beta then Bit(d, 2) else if offset < 5.0 * beta then Bit(d, 3)
    else if offset < 6.0 * beta then Bit(d, 4) else if offset < 7.0 * beta then Bit(d, 5)
    else if offset < 8.0 * beta then Bit(d, 6) else if offset < 9.0 * beta then Bit(d, 7)
    else true
  }

  /** The instant, in clocks from the falling edge of START, at which the receiver takes sample `k` (1..8 the
      data bits), or leaves STOP (9). The first clock that finds the line low is `s` after the edge; `y` clocks
      of a tick period have passed when the FSM leaves IDLE. The two synchroniser clocks cancel out. */
  function SampleInstant(k: nat, s: real, y: nat): real
    requires 1 <= k <= 9
  {
    s + (PERIOD * RxBase(k) - y) as real
  }

  predicate InCell(k: nat, instant: real, beta: real)
    requires 1 <= k <= 9
  {
    match k
    case 1 => beta <= instant < 2.0 * beta
    case 2 => 2.0 * beta <= instant < 3.0 * beta
    case 3 => 3.0 * beta <= instant < 4.0 * beta
    case 4 => 4.0 * beta <= instant < 5.0 * beta
    case 5 => 5.0 * beta <= instant < 6.0 * beta
    case 6 => 6.0 * beta <= instant < 7.0 * beta
    case 7 => 7.0 * beta <= instant < 8.0 * beta
    case 8 => 8.0 * beta <= instant < 9.0 * beta
    case 9 => 9.0 * beta <= instant < 10.0 * beta
  }

  /** All nine samples fall into their own bit cell, for every alignment of the ticks to the frame. */
  ghost predicate AlwaysCentred(beta: real) {
    forall k: nat, s: real, y: nat :: 1 <= k <= 9 && 0.0 <= s < 1.0 && y < PERIOD ==>
      InCell(k, SampleInstant(k, s, y), beta)
  }

  lemma InstantInCell(k: nat, s: real, y: nat, beta: real)
    requires 1 <= k <= 9 && 0.0 <= s < 1.0 && y < PERIOD
    requires 664.1 <= beta <= 729.0
    ensures InCell(k, SampleInstant(k, s, y), beta)
  {
  }

  /** The bit periods for which the sampling scheme keeps all nine instants in their cells, the last being the one
      at which STOP is left: 664.1 to 729 clocks per bit, that is 8.30125 us to 9.1125 us. */
  lemma Tolerance(beta: real)
    ensures AlwaysCentred(beta) <==> 664.1 <= beta <= 729.0
  {
    if 664.1 <= beta <= 729.0 {
      forall k: nat, s: real, y: nat | 1 <= k <= 9 && 0.0 <= s < 1.0 && y < PERIOD
        ensures InCell(k, SampleInstant(k, s, y), beta)
      {
        InstantInCell(k, s, y, beta);
      }
    }
    if AlwaysCentred(beta) {
      assert InCell(9, SampleInstant(9, 0.0, 79), beta);
      var s := if 10.0 * beta < 6640.0 then 0.0 else 10.0 * beta - 6640.0;
      if 10.0 * beta < 6641.0 {
        assert InCell(9, SampleInstant(9, s, 0), beta);
      }
    }
  }

  /** The bit periods with which every frame is received. */
  predicate InRange(beta: real) { 664.3 <= beta && 9.0 * beta <= 6562.0 }

  lemma DataInCell(k: nat, s: real, y: nat, beta: real)
    requires 1 <= k <= 8 && 0.0 <= s < 1.0 && y < PERIOD && InRange(beta)
    ensures InCell(k, SampleInstant(k, s, y), beta)
  {
  }

  datatype Sys = Sys(tick: Tick, rx: Rx)

  function SysNext(m: Sys, line: bool): Sys {
    Sys(TickNext(m.tick, NUM_1US_CLKS, CNT_MODULUS), RxNext(m.rx, m.tick.pulse, line))
  }

  function SysRun(m: Sys, line: seq<bool>): Sys
    decreases |line|
  {
    if line == [] then m else SysRun(SysNext(m, line[0]), line[1..])
  }

  /** The bytes the receiver pushes while it sees `line`, one sample a clock. */
  function Heard(m: Sys, line: seq<bool>): seq<Byte>
    decreases |line|
  {
    if line == [] then [] else
    (if RxWe(m.rx, m.tick.pulse) then [m.rx.shift] else []) + Heard(SysNext(m, line[0]), line[1..])
  }

  /** Waiting for a start bit, with a high line in the synchroniser and the tick anywhere in its period. */
  predicate Listening(m: Sys) {
    TickOk(m.tick, NUM_1US_CLKS, CNT_MODULUS) && m.rx.state == IDLE && m.rx.ff0 && m.rx.ff1
  }

  /** One frame as the receiver's clock samples it, `s` being the offset of the first sample. */
  predicate IsFrame(line: seq<bool>, d: Byte, beta: real, s: real) {
    && 0.0 <= s < 1.0
    && s + |line| as real - 1.0 < 10.0 * beta <= s + |line| as real
    && forall i :: 0 <= i < |line| ==> line[i] == LineAt(d, beta, s + i as real)
  }

  /** One sample a clock, from the first that finds the line low: low there; in the clocks in which data bit `k` may be
      sampled, that bit; and high from the first clock on in which a new start bit would be seen to the end, which is
      not before the FSM has left STOP. */
  predicate Legible(line: seq<bool>, d: Byte) {
    && |line| >= 6643 && !line[0]
    && (forall k, i :: 0 <= k < 8 && 80 * RxBase(k + 1) - 79 <= i <= 80 * RxBase(k + 1) ==> line[i] == Bit(d, k))
    && (forall i :: 6562 <= i < |line| ==> line[i])
  }

  /** The synchroniser `i` samples into a frame. */
  predicate Synced(r: Rx, i: nat, line: seq<bool>)
    requires i <= |line|
  {
    r.ff0 == (i < 1 || line[i - 1]) && r.ff1 == (i < 2 || line[i - 2])
  }

  /** The FSM `i` samples into a frame, while it collects bits. */
  predicate Receiving(m: Sys, i: nat, d: Byte)
    requires RxStateOk(m.rx) && m.rx.state != IDLE
  {
    && 0 <= 80 * RxAge(m.rx) + Phase(m.tick, NUM_1US_CLKS) - (i - 3) < 80
    && Collected(m.rx.shift, m.rx.state, d)
  }

  predicate InFrame(m: Sys, i: nat, line: seq<bool>, d: Byte)
    requires i <= |line|
  {
    && TickOk(m.tick, NUM_1US_CLKS, CNT_MODULUS) && RxStateOk(m.rx)
    && Synced(m.rx, i, line)
    && if m.rx.state == IDLE then i < 3 || i >= 6564 else i >= 3 && Receiving(m, i, d)
  }

  lemma IdleClock(m: Sys, i: nat, line: seq<bool>, d: Byte)
    requires i < |line| && InFrame(m, i, line, d) && Legible(line, d) && m.rx.state == IDLE
    ensures InFrame(SysNext(m, line[i]), i + 1, line, d)
    ensures SysNext(m, line[i]).rx.state == if i == 2 then 0 else IDLE
  {
    TickPeriod(m.tick, NUM_1US_CLKS, CNT_MODULUS);
  }

  lemma SyncClock(r: Rx, tick: bool, i: nat, line: seq<bool>)
    requires i < |line| && Synced(r, i, line)
    ensures Synced(RxNext(r, tick, line[i]), i + 1, line)
  {
    Synchronises(r, tick, line[i]);
  }

  lemma ReceiveClock(m: Sys, i: nat, line: bool, d: Byte)
    requires TickOk(m.tick, NUM_1US_CLKS, CNT_MODULUS) && RxStateOk(m.rx) && m.rx.state != IDLE
    requires Receiving(m, i, d) && i >= 3
    requires m.tick.pulse && m.rx.cnt == 0 && m.rx.state < STOP ==> m.rx.ff1 == Bit(d, m.rx.state)
    ensures var m' := SysNext(m, line);
            && RxStateOk(m'.rx)
            && (m'.rx.state == IDLE <==> RxWe(m.rx, m.tick.pulse))
            && if m'.rx.state == IDLE then i + 1 >= 6564 && m.rx.shift == d else Receiving(m', i + 1, d)
  {
    TickPeriod(m.tick, NUM_1US_CLKS, CNT_MODULUS);
    RxFollowsTicks(m.rx, m.tick.pulse, line);
    if m.tick.pulse && m.rx.cnt == 0 && m.rx.state < STOP {
      Collect(m.rx.shift, m.rx.state, d);
    }
  }

  lemma SampleIsBit(m: Sys, i: nat, line: seq<bool>, d: Byte)
    requires i < |line| && InFrame(m, i, line, d) && Legible(line, d)
    requires m.tick.pulse && m.rx.cnt == 0 && m.rx.state < STOP
    ensures m.rx.ff1 == Bit(d, m.rx.state)
  {
    RxFollowsTicks(m.rx, true, true);
    TickPeriod(m.tick, NUM_1US_CLKS, CNT_MODULUS);
    var k := m.rx.state;
    assert 80 * RxBase(k + 1) - 79 <= i - 2 <= 80 * RxBase(k + 1);
    hide RxBase, RxNext;
    assert line[i - 2] == Bit(d, k);
  }

  lemma FrameClock(m: Sys, i: nat, line: seq<bool>, d: Byte)
    requires i < |line| && InFrame(m, i, line, d) && Legible(line, d) && m.rx.state != IDLE
    ensures var m' := SysNext(m, line[i]);
            && InFrame(m', i + 1, line, d)
            && (m'.rx.state == IDLE <==> RxWe(m.rx, m.tick.pulse))
            && (RxWe(m.rx, m.tick.pulse) ==> m.rx.shift == d)
  {
    if m.tick.pulse && m.rx.cnt == 0 && m.rx.state < STOP {
      SampleIsBit(m, i, line, d);
    }
    hide Legible;
    TickPeriod(m.tick, NUM_1US_CLKS, CNT_MODULUS);
    SyncClock(m.rx, m.tick.pulse, i, line);
    ReceiveClock(m, i, line[i], d);
  }

  lemma EndOfFrame(m: Sys, line: seq<bool>, d: Byte)
    requires Legible(line, d) && InFrame(m, |line|, line, d)
    ensures Listening(m)
  {
    if m.rx.state != IDLE {
      TickPeriod(m.tick, NUM_1US_CLKS, CNT_MODULUS);
      RxFollowsTicks(m.rx, false, true);
    }
  }

  /** The rest of a frame, `i` samples into it. */
  lemma {:induction false} RestOfFrame(m: Sys, i: nat, line: seq<bool>, d: Byte)
    requires i <= |line| && InFrame(m, i, line, d) && Legible(line, d)
    ensures Listening(SysRun(m, line[i..]))
    ensures Heard(m, line[i..]) == if i >= 3 && m.rx.state == IDLE then [] else [d]
    decreases |line| - i
  {
    if i == |line| {
      EndOfFrame(m, line, d);
    } else {
      assert line[i..][0] == line[i] && line[i..][1..] == line[i + 1..];
      if m.rx.state == IDLE {
        IdleClock(m, i, line, d);
      } else {
        FrameClock(m, i, line, d);
      }
      hide InFrame, Legible, SysNext;
      RestOfFrame(SysNext(m, line[i]), i + 1, line, d);
    }
  }

  /** Any legible frame: exactly one byte, the right one, and the FSM is listening again when the frame ends. */
  lemma LegibleHeard(m: Sys, line: seq<bool>, d: Byte)
    requires Listening(m) && Legible(line, d)
    ensures Listening(SysRun(m, line)) && Heard(m, line) == [d]
  {
    assert line[0..] == line;
    RestOfFrame(m, 0, line, d);
  }

  lemma SampledBit(i: nat, k: nat, d: Byte, beta: real, s: real)
    requires k < 8 && 0.0 <= s < 1.0 && InRange(beta)
    requires 80 * RxBase(k + 1) - 79 <= i <= 80 * RxBase(k + 1)
    ensures LineAt(d, beta, s + i as real) == Bit(d, k)
  {
    DataInCell(k + 1, s, 80 * RxBase(k + 1) - i, beta);
  }

  lemma FrameIsLegible(line: seq<bool>, d: Byte, beta: real, s: real)
    requires IsFrame(line, d, beta, s) && InRange(beta)
    ensures Legible(line, d)
  {
    forall k, i | 0 <= k < 8 && 80 * RxBase(k + 1) - 79 <= i <= 80 * RxBase(k + 1) ensures line[i] == Bit(d, k) {
      SampledBit(i, k, d, beta, s);
    }
  }

  /** One frame with a constant bit period. */
  lemma FrameHeard(m: Sys, line: seq<bool>, d: Byte, beta: real, s: real)
    requires Listening(m) && IsFrame(line, d, beta, s) && InRange(beta)
    ensures Listening(SysRun(m, line)) && Heard(m, line) == [d]
  {
    FrameIsLegible(line, d, beta, s);
    LegibleHeard(m, line, d);
  }

  const LONGEST_FRAME: nat := 7320  // clocks

  /** A sender's output: frames, each followed by any time of quiet line. */
  datatype Sending = Sending(frame: seq<bool>, byte: Byte, quiet: nat)

  /** As are all frames with a constant bit period in range, and those of the transmitter itself. */
  predicate InTolerance(x: Sending) { Legible(x.frame, x.byte) && |x.frame| <= LONGEST_FRAME }

  function Quiet(n: nat): seq<bool> { seq(n, _ => true) }

  function OnWire(xs: seq<Sending>): seq<bool> {
    if xs == [] then [] else xs[0].frame + Quiet(xs[0].quiet) + OnWire(xs[1..])
  }

  function Payload(xs: seq<Sending>): seq<Byte> {
    if xs == [] then [] else [xs[0].byte] + Payload(xs[1..])
  }

  lemma {:induction false} QuietHeard(m: Sys, n: nat)
    requires Listening(m)
    ensures Listening(SysRun(m, Quiet(n))) && Heard(m, Quiet(n)) == []
    decreases n
  {
    if n > 0 {
      TickPeriod(m.tick, NUM_1US_CLKS, CNT_MODULUS);
      assert Quiet(n)[1..] == Quiet(n - 1);
      QuietHeard(SysNext(m, true), n - 1);
    }
  }

  lemma {:induction false} Join(m: Sys, a: seq<bool>, b: seq<bool>)
    ensures SysRun(m, a + b) == SysRun(SysRun(m, a), b)
    ensures Heard(m, a + b) == Heard(m, a) + Heard(SysRun(m, a), b)
    decreases |a|
  {
    if a == [] {
      assert a + b == b;
    } else {
      assert (a + b)[1..] == a[1..] + b;
      Join(SysNext(m, a[0]), a[1..], b);
    }
  }

  /** Any sequence of frames, back to back or not, each with its own bit period and alignment or none, is received
      byte for byte, with no false start in between. */
  lemma {:induction false} StreamHeard(m: Sys, xs: seq<Sending>)
    requires Listening(m) && forall x :: x in xs ==> InTolerance(x)
    ensures Heard(m, OnWire(xs)) == Payload(xs) && Listening(SysRun(m, OnWire(xs)))
    decreases |xs|
  {
    if xs == [] {
    } else {
      var x := xs[0];
      assert InTolerance(x);
      var m1 := SysRun(m, x.frame);
      LegibleHeard(m, x.frame, x.byte);
      QuietHeard(m1, x.quiet);
      StreamHeard(SysRun(m1, Quiet(x.quiet)), xs[1..]);
      Join(m, x.frame + Quiet(x.quiet), OnWire(xs[1..]));
      Join(m, x.frame, Quiet(x.quiet));
    }
  }
}
