/** A run from reset in which the reply to a bus read is lost: reads, one after the other, as fast as the line allows.
    */
module ReadStream {
  import opened Bits
  import opened CommandEngine
  import opened ProgramLoad
  import opened Commands
  import opened UartTop
  import opened TxBucket
  import Line = RxTiming
  import Wire = WireToMemory
  import Boards = TwoBoards
  import Reset = OverflowFromReset

  function Read(addr: Word): (bs: seq<Byte>)
    ensures |bs| == 5
  {
    [C_BUSR] + BytesOf(addr)
  }

  function Reads(n: nat, addr: Word): (bs: seq<Byte>)
    ensures |bs| == 5 * n
  {
    if n == 0 then [] else Read(addr) + Reads(n - 1, addr)
  }

  predicate AllReady(ins: seq<In>) { forall i :: i in ins ==> i.busRdy }

  /** A byte, and time enough for an answer. */
  predicate Unhurried(d: Delivery) { Spaced(d) && InTime(d) && |d.gap| >= 7 && AllReady(d.gap) }

  lemma {:induction false} FlatJoin(a: seq<Delivery>, b: seq<Delivery>)
    ensures Flat(a + b) == Flat(a) + Flat(b)
    decreases |a|
  {
    if a == [] {
      assert a + b == b;
    } else {
      assert (a + b)[1..] == a[1..] + b;
      FlatJoin(a[1..], b);
    }
  }

  /** One read, answered at once. */
  lemma ReadAnswered(r: Regs, xs: seq<Delivery>, addr: Word)
    requires Finished(r) && Payload(xs) == Read(addr) && forall x :: x in xs ==> Unhurried(x)
    ensures |Replies(r, Flat(xs))| == 5 && Finished(EngineRun(r, Flat(xs)))
  {
    assert |Payload(xs)| == 5;
    var gap := xs[4].gap;
    assert Unhurried(xs[4]);
    assert Paced(xs[..4]) by {
      forall j | 0 <= j < 4 ensures Spaced(xs[..4][j]) && InTime(xs[..4][j]) {
        assert Unhurried(xs[j]);
      }
    }
    assert gap == [] + [gap[0]] + gap[1..] && Ticks([]) == 0 && xs[4].first.rxValid && gap[0].busRdy;
    assert Quiet(gap[1..]);
    hide EngineNext, EngineRun, Replies, Flat, Finished, Paced, Unhurried;
    BusReadCommand(r, xs, addr, [], gap[0], gap[1..]);
  }

  lemma {:induction false} ReadsAnswered(r: Regs, ds: seq<Delivery>, n: nat, addr: Word)
    requires Finished(r) && Payload(ds) == Reads(n, addr) && forall d :: d in ds ==> Unhurried(d)
    ensures |Replies(r, Flat(ds))| == 5 * n && Finished(EngineRun(r, Flat(ds)))
    decreases n
  {
    if n == 0 {
      assert |Payload(ds)| == |ds|;
      hide *;
      assert ds == [];
      Nothing(r);
    } else {
      hide *;
      FirstRead(ds, n, addr);
      var one, rest := ds[..5], ds[5..];
      ReadAnswered(r, one, addr);
      InTwo(r, one, rest);
      ReadsAnswered(EngineRun(r, Flat(one)), rest, n - 1, addr);
    }
  }

  lemma InTwo(r: Regs, a: seq<Delivery>, b: seq<Delivery>)
    ensures var m := EngineRun(r, Flat(a));
            && EngineRun(r, Flat(a + b)) == EngineRun(m, Flat(b))
            && |Replies(r, Flat(a + b))| == |Replies(r, Flat(a))| + |Replies(m, Flat(b))|
  {
    hide *;
    FlatJoin(a, b);
    Join(r, Flat(a), Flat(b));
  }

  lemma FirstRead(ds: seq<Delivery>, n: nat, addr: Word)
    requires n > 0 && Payload(ds) == Reads(n, addr) && forall d :: d in ds ==> Unhurried(d)
    ensures |ds| >= 5 && ds == ds[..5] + ds[5..]
    ensures Payload(ds[..5]) == Read(addr) && Payload(ds[5..]) == Reads(n - 1, addr)
    ensures (forall d :: d in ds[..5] ==> Unhurried(d)) && forall d :: d in ds[5..] ==> Unhurried(d)
  {
    hide Unhurried;
    assert |Payload(ds)| == |ds| == 5 * n;
    assert Payload(ds[..5]) == Payload(ds)[..5] && Payload(ds[5..]) == Payload(ds)[5..];
  }

  lemma {:induction false} StrobesReady(m: Line.Sys, line: seq<bool>, bus: seq<Wire.Answer>)
    requires |bus| == |line| && forall a :: a in bus ==> a.rdy
    ensures AllReady(Wire.Strobes(m, line, bus))
    decreases |line|
  {
    hide Line.SysNext;
    if line != [] {
      StrobesReady(Line.SysNext(m, line[0]), line[1..], bus[1..]);
    }
  }

  lemma {:induction false} GapsReady(ds: seq<Delivery>)
    requires AllReady(Flat(ds))
    ensures forall d :: d in ds ==> AllReady(d.gap)
    decreases |ds|
  {
    if ds != [] {
      assert forall i :: i in ds[0].gap ==> i in Flat(ds);
      assert forall i :: i in Flat(ds[1..]) ==> i in Flat(ds);
      GapsReady(ds[1..]);
      assert forall d :: d in ds ==> d == ds[0] || d in ds[1..];
    }
  }

  /** Each frame takes 6944 clocks. */
  lemma {:induction false} WireTime(bs: seq<Byte>)
    ensures |Line.OnWire(Reset.Sending(bs))| == 6944 * |bs|
    ensures forall x :: x in Reset.Sending(bs) ==> x.quiet == 0
    decreases |bs|
  {
    if bs != [] {
      WireTime(bs[1..]);
    }
  }

  /** The line, and a bus that is always ready. */
  function Always(line: seq<bool>): (ws: seq<World>)
    ensures |ws| == |line| && Wire.Lines(ws) == line && forall w :: w in ws ==> !w.cpuWrite && w.busRdy
  {
    seq(|line|, k requires 0 <= k < |line| => World(line[k], false, false, 0, true, ZERO, 0))
  }

  /** 0x12, the reads, and one more byte. */
  function Stream(n: nat, addr: Word): (bs: seq<Byte>)
    ensures |bs| == 5 * n + 2
  {
    [C_SOP] + Reads(n, addr) + [C_EOP]
  }

  lemma StreamAnswered(ds: seq<Delivery>, n: nat, addr: Word)
    requires Payload(ds) == Stream(n, addr) && forall j :: 0 <= j < |ds| - 1 ==> Unhurried(ds[j])
    ensures |Replies(RESET, Flat(ds))| >= 5 * n
  {
    assert |Payload(ds)| == |ds| == 5 * n + 2;
    var mid, last := ds[1..][..5 * n], ds[1..][5 * n..];
    assert ds[1..] == mid + last;
    assert Payload(mid) == Payload(ds)[1..5 * n + 1] == Reads(n, addr);
    assert Payload(ds)[0] == C_SOP && Unhurried(ds[0]);
    assert forall j :: 0 <= j < |mid| ==> mid[j] == ds[j + 1];
    assert forall d :: d in mid ==> Unhurried(d);
    SessionFromReset();
    assert Spaced(ds[0]) && RESET.state == WaitSop;
    assert Finished(RESET.(busVld := true, state := WaitCmd));
    hide *;
    var m := OpenSession(RESET, ds);
    RepliesFrom(ds, m);
    ReadsAnswered(m, mid, n, addr);
    InTwo(m, mid, last);
  }

  lemma RepliesFrom(ds: seq<Delivery>, m: Regs)
    requires ds != [] && Reaches(RESET, ds, m, 1)
    ensures Replies(RESET, Flat(ds)) == Replies(m, Flat(ds[1..]))
  {
    hide Replies, Writes, EngineRun, Flat, OnlyLoads;
  }

  /** As the module hears it. */
  lemma StreamHeard(n: nat, addr: Word) returns (ws: seq<World>)
    ensures Wire.Lines(ws) == Line.OnWire(Reset.Sending(Stream(n, addr)))
    ensures forall w :: w in ws ==> !w.cpuWrite && w.busRdy
    ensures |Wire.SessionReplies(POWER_UP, ws)| >= 5 * n
  {
    var xs := Reset.Sending(Stream(n, addr));
    ws := Always(Line.OnWire(xs));
    var ear, bus := Wire.Ear(POWER_UP), Wire.Answers(ws);
    var ins := Wire.Strobes(ear, Line.OnWire(xs), bus);
    assert Line.Listening(ear) && POWER_UP.eng == RESET && RESET.state == WaitSop;
    WireTime(Stream(n, addr));
    StrobesReady(ear, Line.OnWire(xs), bus);
    SessionFromReset();
    hide *;
    Wire.Contains(POWER_UP, ws);
    var pre, ds := Wire.ToDeliveries(ear, xs, bus);
    Unhurriedly(ins, pre, ds, xs);
    Wire.Ignored(RESET, pre);
    Join(RESET, pre, Flat(ds));
    StreamAnswered(ds, n, addr);
    var rs := Replies(RESET, Flat(ds));
    assert [] + rs == rs;
  }

  lemma Unhurriedly(ins: seq<In>, pre: seq<In>, ds: seq<Delivery>, xs: seq<Line.Sending>)
    requires Wire.Delivers(ins, pre, ds, xs) && AllReady(ins) && forall x :: x in xs ==> x.quiet == 0
    ensures ins == pre + Flat(ds) && Quiet(pre) && Payload(ds) == Line.Payload(xs)
    ensures forall j :: 0 <= j < |ds| - 1 ==> Unhurried(ds[j])
  {
    assert AllReady(Flat(ds)) by {
      assert forall i :: i in Flat(ds) ==> i in ins;
    }
    GapsReady(ds);
    forall j | 0 <= j < |ds| - 1 ensures Unhurried(ds[j]) {
      assert Wire.Made(ds[j], xs[j], false);
      assert xs[j] in xs;
      Wire.MadeIsPaced(ds[j], xs[j], false);
    }
    Wire.SamePayload(ds, xs);
  }

  /** Any 280 bus reads or more, each sent when the one before has just been sent and answered at once by the bus: the
      TX FIFO does not take all replies. */
  lemma StreamLoses(n: nat, addr: Word) returns (ws: seq<World>)
    requires n >= 280
    ensures Wire.Lines(ws) == Line.OnWire(Reset.Sending(Stream(n, addr)))
    ensures forall w :: w in ws ==> !w.cpuWrite && w.busRdy
    ensures |Boards.TakenToSend(POWER_UP, CLKS, MODULUS, ws)| < |Wire.SessionReplies(POWER_UP, ws)|
  {
    ws := StreamHeard(n, addr);
    WireTime(Stream(n, addr));
    assert |ws| == |Wire.Lines(ws)| == 6944 * (5 * n + 2);
    assert Sends(POWER_UP);
    hide *;
    TakenBound(POWER_UP, ws);
  }
}
