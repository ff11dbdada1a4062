/** The commands that write and read the bus and write one word of instruction memory, as decoders of a byte stream. */
module Commands {
  import opened Bits
  import opened CommandEngine
  import opened ProgramLoad

  datatype Command = BusWrite | BusRead | ImemWrite {
    function Opcode(): Byte { match this case BusWrite => C_BUSW case BusRead => C_BUSR case ImemWrite => C_IMWR }

    /** How many bytes follow the opcode. */
    function Length(): nat { match this case BusWrite => 9 case BusRead => 4 case ImemWrite => 6 }

    /** The state that waits for byte `j` of them, and the state that the last one leads to. */
    function Waiting(j: nat): State
      requires j < Length()
    {
      match this
      case BusWrite =>
        (match j
         case 0 => BuswWaitAddr0 case 1 => BuswWaitAddr1 case 2 => BuswWaitAddr2 case 3 => BuswWaitAddr3
         case 4 => BuswWaitData0 case 5 => BuswWaitData1 case 6 => BuswWaitData2 case 7 => BuswWaitData3
         case _ => BuswWaitWe)
      case BusRead =>
        (match j
         case 0 => BusrWaitAddr0 case 1 => BusrWaitAddr1 case 2 => BusrWaitAddr2 case _ => BusrWaitAddr3)
      case ImemWrite =>
        (match j
         case 0 => ImwrWaitAddr0 case 1 => ImwrWaitAddr1
         case 2 => ImwrWaitData0 case 3 => ImwrWaitData1 case 4 => ImwrWaitData2 case _ => ImwrWaitData3)
    }

    function Acting(): State {
      match this case BusWrite => BuswChecksum case BusRead => BusrWaitData case ImemWrite => ImwrChecksum
    }
  }

  /** The first bytes of `w` are those of `bs`. */
  predicate Begins(w: Word, bs: seq<Byte>) {
    && (|bs| > 0 ==> w.b0 == bs[0]) && (|bs| > 1 ==> w.b1 == bs[1])
    && (|bs| > 2 ==> w.b2 == bs[2]) && (|bs| > 3 ==> w.b3 == bs[3])
  }

  function From(bs: seq<Byte>, k: nat): seq<Byte> { if |bs| < k then [] else bs[k..] }

  /** The registers that the bytes `bs` go to hold them; the instruction address keeps its bits above 15. */
  predicate Stored(r: Regs, c: Command, bs: seq<Byte>, upper: nat) {
    match c
    case BusWrite => Begins(r.busAddr, bs) && Begins(r.busWdat, From(bs, 4))
    case BusRead => Begins(r.busAddr, bs)
    case ImemWrite => AddressStored(r.ramAddr, bs, upper) && Begins(r.ramData, From(bs, 2))
  }

  predicate AddressStored(a: nat, bs: seq<Byte>, upper: nat) {
    && (|bs| > 0 ==> a % 0x100 == bs[0] as nat) && (|bs| > 1 ==> a % 0x1_0000 == bs[0] as nat + 0x100 * bs[1] as nat)
    && a / 0x1_0000 == upper
  }

  /** Some of a command's bytes are there. */
  predicate Collecting(r: Regs, c: Command, bs: seq<Byte>, upper: nat) {
    && |bs| < c.Length() && r.state == c.Waiting(|bs|)
    && r.busVld && r.cpuRstn && Silent(r)
    && r.checksum == Checksum(0, bs) && Stored(r, c, bs, upper)
  }

  /** All of them are. */
  predicate Complete(r: Regs, c: Command, bs: seq<Byte>, upper: nat) {
    && |bs| == c.Length() && r.state == c.Acting()
    && r.busVld && r.cpuRstn && !r.txValid && r.timeout == 0
    && (r.ramWen <==> c == ImemWrite) && r.busWe == (if c == BusWrite then LowNibble(bs[8]) else 0)
    && r.checksum == Checksum(0, bs) && Stored(r, c, bs, upper)
  }

  lemma {:induction false} ChecksumLast(sum: Byte, bs: seq<Byte>, b: Byte)
    ensures Checksum(sum, bs + [b]) == Plus(Checksum(sum, bs), b)
    decreases |bs|
  {
    hide Plus;
    if bs == [] {
      assert [b][1..] == [];
    } else {
      assert (bs + [b])[1..] == bs[1..] + [b];
      ChecksumLast(Plus(sum, bs[0]), bs[1..], b);
    }
  }

  /** One more byte in its place. */
  lemma BeginsMore(w: Word, bs: seq<Byte>, b: Byte)
    requires |bs| < 4 && Begins(w, bs)
    ensures Begins(match |bs| case 0 => w.(b0 := b) case 1 => w.(b1 := b) case 2 => w.(b2 := b)
                   case _ => w.(b3 := b), bs + [b])
  {
  }

  lemma BeginsStays(w: Word, bs: seq<Byte>, b: Byte)
    requires |bs| >= 4 && Begins(w, bs)
    ensures Begins(w, bs + [b])
  {
  }

  lemma FromMore(bs: seq<Byte>, k: nat, b: Byte)
    ensures |bs| >= k ==> From(bs + [b], k) == From(bs, k) + [b]
    ensures |bs| < k ==> From(bs + [b], k) == []
  {
  }

  /** A byte of a bus write's address; of its data or enables. */
  lemma BusAddressRegister(r: Regs, j: nat, b: Byte)
    requires j < 9 && r.state == BusWrite.Waiting(j)
    ensures var a := r.busAddr;
            OnByte(r, b).busAddr ==
              match j
              case 0 => a.(b0 := b) case 1 => a.(b1 := b) case 2 => a.(b2 := b) case 3 => a.(b3 := b) case _ => a
  {
    hide Plus, LowNibble;
  }

  lemma BusDataRegister(r: Regs, j: nat, b: Byte)
    requires j < 9 && r.state == BusWrite.Waiting(j)
    ensures var d := r.busWdat;
            OnByte(r, b).busWdat ==
              match j
              case 4 => d.(b0 := b) case 5 => d.(b1 := b) case 6 => d.(b2 := b) case 7 => d.(b3 := b) case _ => d
  {
    hide Plus, LowNibble;
  }

  lemma BusWriteByte(r: Regs, bs: seq<Byte>, b: Byte, upper: nat)
    requires |bs| < 9 && r.state == BusWrite.Waiting(|bs|) && Stored(r, BusWrite, bs, upper)
    ensures Stored(OnByte(r, b), BusWrite, bs + [b], upper)
  {
    hide OnByte, AddressStored;
    BusAddressRegister(r, |bs|, b);
    BusDataRegister(r, |bs|, b);
    FromMore(bs, 4, b);
    if |bs| < 4 {
      BeginsMore(r.busAddr, bs, b);
    } else {
      BeginsStays(r.busAddr, bs, b);
      if |bs| < 8 {
        BeginsMore(r.busWdat, From(bs, 4), b);
      } else {
        BeginsStays(r.busWdat, From(bs, 4), b);
      }
    }
    hide Begins, From;
  }

  lemma BusReadByte(r: Regs, bs: seq<Byte>, b: Byte, upper: nat)
    requires |bs| < 4 && r.state == BusRead.Waiting(|bs|) && Stored(r, BusRead, bs, upper)
    ensures Stored(OnByte(r, b), BusRead, bs + [b], upper)
  {
    BeginsMore(r.busAddr, bs, b);
    hide Plus, Begins;
  }

  lemma LowByte(a: nat, b: Byte, upper: nat)
    requires AddressStored(a, [], upper)
    ensures AddressStored(a / 0x100 * 0x100 + b as nat, [b], upper)
  {
    LowDigit(a, b as nat);
  }

  lemma LowDigit(a: nat, v: nat)
    requires v < 0x100
    ensures var a' := a / 0x100 * 0x100 + v; a' % 0x100 == v && a' / 0x1_0000 == a / 0x1_0000
  {
    var q := a / 0x100;
    assert a / 0x1_0000 == q / 0x100;
    assert (q * 0x100 + v) / 0x100 == q;
  }

  lemma HighByte(a: nat, bs: seq<Byte>, b: Byte, upper: nat)
    requires |bs| == 1 && AddressStored(a, bs, upper)
    ensures AddressStored(a / 0x1_0000 * 0x1_0000 + b as nat * 0x100 + a % 0x100, bs + [b], upper)
  {
    HighDigit(a, b as nat);
  }

  lemma LowDigits(q: nat, low: nat)
    ensures low < 0x100 ==> (q * 0x100 + low) % 0x100 == low
    ensures low < 0x1_0000 ==> (q * 0x1_0000 + low) / 0x1_0000 == q && (q * 0x1_0000 + low) % 0x1_0000 == low
  {
  }

  lemma HighDigit(a: nat, v: nat)
    requires v < 0x100
    ensures var a' := a / 0x1_0000 * 0x1_0000 + v * 0x100 + a % 0x100;
            a' % 0x100 == a % 0x100 && a' % 0x1_0000 == v * 0x100 + a % 0x100 && a' / 0x1_0000 == a / 0x1_0000
  {
    var q, u := a / 0x1_0000, a % 0x100;
    assert q * 0x1_0000 + v * 0x100 + u == (q * 0x100 + v) * 0x100 + u;
    LowDigits(q * 0x100 + v, u);
    LowDigits(q, v * 0x100 + u);
  }

  lemma ImemAddressByte(r: Regs, bs: seq<Byte>, b: Byte, upper: nat)
    requires |bs| < 2 && r.state == ImemWrite.Waiting(|bs|) && Stored(r, ImemWrite, bs, upper)
    ensures Stored(OnByte(r, b), ImemWrite, bs + [b], upper)
  {
    hide OnByte, AddressStored;
    OnImemAddress(r, b);
    FromMore(bs, 2, b);
    if |bs| == 0 {
      assert bs == [] && [] + [b] == [b];
      LowByte(r.ramAddr, b, upper);
    } else {
      HighByte(r.ramAddr, bs, b, upper);
    }
  }

  lemma ImemWriteByte(r: Regs, bs: seq<Byte>, b: Byte, upper: nat)
    requires |bs| < 6 && r.state == ImemWrite.Waiting(|bs|) && Stored(r, ImemWrite, bs, upper)
    ensures Stored(OnByte(r, b), ImemWrite, bs + [b], upper)
  {
    if |bs| < 2 {
      ImemAddressByte(r, bs, b, upper);
    } else {
      FromMore(bs, 2, b);
      BeginsMore(r.ramData, From(bs, 2), b);
      assert OnByte(r, b).ramAddr == r.ramAddr;
      hide Plus, Begins, From, LowNibble;
    }
  }

  /** What a byte does to the registers that do not hold it. */
  predicate Moves(r: Regs, c: Command, j: nat, b: Byte, n: Regs)
    requires j < c.Length()
  {
    var last := j + 1 == c.Length();
    && n.state == (if last then c.Acting() else c.Waiting(j + 1)) && (!last ==> AwaitsByte(n.state)) && n.timeout == 0
    && n.busVld == r.busVld && n.cpuRstn == r.cpuRstn && n.txValid == r.txValid && n.checksum == Plus(r.checksum, b)
    && n.ramWen == ((last && c == ImemWrite) || r.ramWen)
    && n.busWe == if last && c == BusWrite then LowNibble(b) else r.busWe
  }

  lemma BusWriteMoves(r: Regs, j: nat, b: Byte)
    requires j < 9 && r.state == BusWrite.Waiting(j)
    ensures AwaitsByte(r.state) && Moves(r, BusWrite, j, b, OnByte(r, b))
  {
    hide Plus, LowNibble;
    if j < 4 {
    } else if j < 8 {
    } else {
    }
  }

  lemma BusReadMoves(r: Regs, j: nat, b: Byte)
    requires j < 4 && r.state == BusRead.Waiting(j)
    ensures AwaitsByte(r.state) && Moves(r, BusRead, j, b, OnByte(r, b))
  {
    hide Plus, LowNibble;
  }

  lemma ImemWriteMoves(r: Regs, j: nat, b: Byte)
    requires j < 6 && r.state == ImemWrite.Waiting(j)
    ensures AwaitsByte(r.state) && Moves(r, ImemWrite, j, b, OnByte(r, b))
  {
    hide Plus, LowNibble;
    if j < 2 {
    } else {
    }
  }

  lemma ByteStored(r: Regs, c: Command, bs: seq<Byte>, b: Byte, upper: nat)
    requires Collecting(r, c, bs, upper)
    ensures AwaitsByte(r.state)
    ensures if |bs| + 1 < c.Length() then Collecting(OnByte(r, b), c, bs + [b], upper) && AwaitsByte(After(r.state))
            else Complete(OnByte(r, b), c, bs + [b], upper)
  {
    hide Plus, Checksum, Stored, OnByte, AwaitsByte, Command.Acting, Command.Waiting;
    match c {
      case BusWrite =>
        BusWriteByte(r, bs, b, upper);
        BusWriteMoves(r, |bs|, b);
      case BusRead =>
        BusReadByte(r, bs, b, upper);
        BusReadMoves(r, |bs|, b);
      case ImemWrite =>
        ImemWriteByte(r, bs, b, upper);
        ImemWriteMoves(r, |bs|, b);
    }
    ChecksumLast(0, bs, b);
    NextState(r, b);
  }

  /** One byte of a command, not the last, and the quiet time after it. */
  lemma CollectsOne(r: Regs, xs: seq<Delivery>, c: Command, bs: seq<Byte>, upper: nat) returns (m: Regs)
    requires Collecting(r, c, bs, upper) && |bs| + 1 < c.Length() && xs != [] && Spaced(xs[0]) && InTime(xs[0])
    ensures Collecting(m, c, bs + [xs[0].first.rxData], upper) && Onward(r, xs, m, 1)
  {
    var b := xs[0].first.rxData;
    ByteStored(r, c, bs, b, upper);
    hide EngineNext, OnByte, Plus, Stored, Spaced, InTime, Checksum, Ticks, Onward;
    m := MovesOn(r, xs);
    StoredLater(OnByte(r, b), m, c, bs + [b], upper);
  }

  /** The bytes of a command up to the last but one, each followed by quiet time. */
  lemma {:induction false} Collects(r: Regs, xs: seq<Delivery>, c: Command, bs: seq<Byte>, upper: nat, n: nat)
      returns (m: Regs)
    requires Collecting(r, c, bs, upper) && n <= |xs| && |bs| + n < c.Length() && Paced(xs[..n])
    ensures Collecting(m, c, bs + Payload(xs[..n]), upper) && Onward(r, xs, m, n)
    decreases n
  {
    hide Collecting, Payload, Command.Length, Paced;
    if n == 0 {
      m := r;
      assert xs[0..] == xs;
      PayloadNone(xs);
      assert bs + [] == bs;
    } else {
      hide Onward;
      PacedFirst(xs, n);
      var m1 := CollectsOne(r, xs, c, bs, upper);
      m := Collects(m1, xs[1..], c, bs + [xs[0].first.rxData], upper, n - 1);
      PayloadFirst(xs, n);
      Regroup(bs, [xs[0].first.rxData], Payload(xs[1..][..n - 1]));
      ReachesOn(r, xs, m1, m, n);
    }
  }

  lemma PacedFirst(xs: seq<Delivery>, n: nat)
    requires 0 < n <= |xs| && Paced(xs[..n])
    ensures Spaced(xs[0]) && InTime(xs[0]) && Paced(xs[1..][..n - 1])
  {
    hide Spaced, InTime;
    assert xs[..n][0] == xs[0] && xs[..n][1..] == xs[1..][..n - 1];
  }

  lemma PayloadNone(xs: seq<Delivery>)
    ensures Payload(xs[..0]) == []
  {
  }

  lemma StoredLater(r: Regs, m: Regs, c: Command, bs: seq<Byte>, upper: nat)
    requires Collecting(r, c, bs, upper) && m == r.(timeout := m.timeout)
    ensures Collecting(m, c, bs, upper)
  {
  }

  lemma PayloadFirst(xs: seq<Delivery>, n: nat)
    requires 0 < n <= |xs|
    ensures Payload(xs[..n]) == [xs[0].first.rxData] + Payload(xs[1..][..n - 1])
  {
  }

  lemma ReachesOn(r: Regs, xs: seq<Delivery>, m1: Regs, m: Regs, n: nat)
    requires 0 < n <= |xs| && Onward(r, xs, m1, 1) && Onward(m1, xs[1..], m, n - 1)
    ensures Onward(r, xs, m, n)
  {
    assert xs[1..][n - 1..] == xs[n..];
  }

  /** The opcode, between two commands. */
  lemma Opens(r: Regs, xs: seq<Delivery>, c: Command) returns (m: Regs)
    requires Finished(r) && xs != [] && Spaced(xs[0]) && InTime(xs[0]) && xs[0].first.rxData == c.Opcode()
    ensures Collecting(m, c, [], r.ramAddr / 0x1_0000) && Onward(r, xs, m, 1)
  {
    hide EngineNext, Ticks, Flat, Stored, HalfValue, OnByte, Checksum, LowNibble, Plus;
    var s := EngineNext(r, xs[0].first);
    OpcodeClock(r, xs[0].first, c);
    OpensQuietly(r, s, xs[0]);
    First(r, xs);
    m := s.(timeout := Ticks(xs[0].gap));
    StoredLater(s, m, c, [], r.ramAddr / 0x1_0000);
  }

  lemma OpensQuietly(r: Regs, s: Regs, x: Delivery)
    requires Finished(r) && s == EngineNext(r, x.first) && AwaitsByte(s.state) && Silent(s) && s.timeout == 0
    requires Quiet(x.gap) && InTime(x)
    ensures EngineRun(r, Clocks(x)) == s.(timeout := Ticks(x.gap))
    ensures StaysOpen(r, Clocks(x)) <==> r.busVld && s.busVld
    ensures Writes(r, Clocks(x)) == [] && Replies(r, Clocks(x)) == []
  {
    hide EngineNext, Ticks;
    LogOne(r, Clocks(x));
    assert Clocks(x)[1..] == x.gap;
    SitsThrough(s, x.gap);
  }

  lemma OpcodeClock(r: Regs, i: In, c: Command)
    requires Finished(r) && i.rxValid && i.rxData == c.Opcode()
    ensures EngineNext(r, i) == r.(checksum := 0, timeout := 0, state := c.Waiting(0))
    ensures AwaitsByte(c.Waiting(0)) && Collecting(EngineNext(r, i), c, [], r.ramAddr / 0x1_0000)
    ensures EngineNext(r, i).timeout == 0 && Silent(EngineNext(r, i))
  {
  }

  /** Everything up to the last byte. */
  lemma UpToLast(r: Regs, xs: seq<Delivery>, c: Command, bs: seq<Byte>) returns (m: Regs)
    requires Finished(r) && |bs| == c.Length() && Payload(xs) == [c.Opcode()] + bs && Paced(xs[..|bs|])
    ensures Collecting(m, c, bs[..|bs| - 1], r.ramAddr / 0x1_0000) && Onward(r, xs, m, |bs|)
    ensures xs[|bs|].first.rxData == bs[|bs| - 1] && xs[|bs|..] == [xs[|bs|]]
  {
    var n := |bs|;
    HeadAndRest(xs, c.Opcode(), bs);
    var m1 := Opens(r, xs, c);
    hide *;
    m := Collects(m1, xs[1..], c, [], r.ramAddr / 0x1_0000, n - 1);
    assert [] + Payload(xs[1..][..n - 1]) == Payload(xs[1..][..n - 1]);
    ReachesOn(r, xs, m1, m, n);
  }

  lemma HeadAndRest(xs: seq<Delivery>, op: Byte, bs: seq<Byte>)
    requires bs != [] && Payload(xs) == [op] + bs && Paced(xs[..|bs|])
    ensures var n := |bs|;
            && |xs| == n + 1 && xs[0].first.rxData == op && Spaced(xs[0]) && InTime(xs[0])
            && Paced(xs[1..][..n - 1]) && Payload(xs[1..][..n - 1]) == bs[..n - 1]
            && xs[n].first.rxData == bs[n - 1] && xs[n..] == [xs[n]]
  {
    hide Spaced, InTime;
    var n := |bs|;
    assert |Payload(xs)| == n + 1 && xs[..n][0] == xs[0];
    assert Payload(xs)[0] == op && Payload(xs)[n] == bs[n - 1] && Payload(xs)[1..n] == bs[..n - 1];
    assert xs[1..][..n - 1] == xs[..n][1..];
    assert Payload(xs[1..][..n - 1]) == Payload(xs)[1..n];
  }

  /** The last byte, and the clock that acts on the command; `g` is what is left of the quiet time. */
  lemma LastByteOf(r: Regs, x: Delivery, c: Command, bs: seq<Byte>, upper: nat) returns (n: Regs)
    requires Collecting(r, c, bs, upper) && |bs| + 1 == c.Length() && x.first.rxValid
    ensures n == OnByte(r, x.first.rxData) && Complete(n, c, bs + [x.first.rxData], upper)
    ensures EngineRun(r, Clocks(x)) == EngineRun(n, x.gap) && (StaysOpen(n, x.gap) ==> StaysOpen(r, Clocks(x)))
    ensures Writes(r, Clocks(x)) == Writes(n, x.gap) && Replies(r, Clocks(x)) == Replies(n, x.gap)
  {
    ByteStored(r, c, bs, x.first.rxData, upper);
    n := OnByte(r, x.first.rxData);
    assert EngineNext(r, x.first) == n;
    hide EngineNext, OnByte, Complete;
    LogOne(r, Clocks(x));
    assert Clocks(x)[1..] == x.gap;
  }

  /** A write command's checksum is sent in the clock after the write, and the FSM waits for a command again. */
  lemma WriteActs(n: Regs, gap: seq<In>, c: Command, bs: seq<Byte>, upper: nat)
    requires Complete(n, c, bs, upper) && c != BusRead && Quiet(gap) && |gap| >= 2
    ensures Finished(EngineRun(n, gap)) && Writes(n, gap) == WritesNow(n) && Replies(n, gap) == [Checksum(0, bs)]
    ensures StaysOpen(n, gap) && EngineRun(n, gap).busAddr == n.busAddr
  {
    ToBeActedOn(n, c, bs, upper);
    hide Checksum, Complete, EngineNext;
    var n1 := EngineNext(n, gap[0]);
    ActClock(n, gap[0]);
    var n2 := EngineNext(n1, gap[1]);
    DoneClocks(n1, gap[1]);
    TwoClocks(n, n1, n2, gap);
  }

  lemma ToBeActedOn(n: Regs, c: Command, bs: seq<Byte>, upper: nat)
    requires Complete(n, c, bs, upper) && c != BusRead
    ensures n.state == BuswChecksum || n.state == ImwrChecksum
    ensures n.busVld && n.cpuRstn && !n.txValid && n.checksum == Checksum(0, bs)
    ensures (n.state == BuswChecksum ==> !n.ramWen) && (n.state == ImwrChecksum ==> n.busWe == 0)
  {
    hide Checksum, Stored;
  }

  lemma ActClock(n: Regs, i: In)
    requires n.state == BuswChecksum || n.state == ImwrChecksum
    ensures EngineNext(n, i) == if n.state == BuswChecksum then Reply(n, n.checksum, BuswDone).(busWe := 0)
                                else Reply(n, n.checksum, ImwrDone).(ramWen := false)
  {
  }

  lemma DoneClocks(n: Regs, i: In)
    requires n.state == BuswDone || n.state == ImwrDone || n.state == BusrDone
    ensures EngineNext(n, i) == n.(txValid := false, state := WaitCmd)
  {
  }

  /** All the bytes of a command; `n` is the clock that acts on it. */
  lemma AllBytes(r: Regs, xs: seq<Delivery>, c: Command, bs: seq<Byte>) returns (n: Regs)
    requires Finished(r) && |bs| == c.Length() && Payload(xs) == [c.Opcode()] + bs
    requires Paced(xs[..|bs|]) && xs[|bs|].first.rxValid
    ensures Complete(n, c, bs, r.ramAddr / 0x1_0000)
    ensures StaysOpen(n, xs[|bs|].gap) ==> StaysOpen(r, Flat(xs))
    ensures var gap := xs[|bs|].gap;
            && EngineRun(r, Flat(xs)) == EngineRun(n, gap) && Writes(r, Flat(xs)) == Writes(n, gap)
            && Replies(r, Flat(xs)) == Replies(n, gap)
  {
    hide EngineNext, OnByte, Complete, Collecting, Checksum, EngineRun, Writes, Replies, Finished, InTime, Spaced;
    var k := |bs| - 1;
    assert |Payload(xs)| == |bs| + 1;
    var m := UpToLast(r, xs, c, bs);
    var x := xs[|bs|];
    First(m, xs[|bs|..]);
    Nothing(EngineRun(m, Clocks(x)));
    assert xs[|bs|..][1..] == [];
    Counts(m, c, bs[..k], r.ramAddr / 0x1_0000);
    n := LastByteOf(m, x, c, bs[..k], r.ramAddr / 0x1_0000);
    assert bs[..k] + [bs[k]] == bs;
    if StaysOpen(n, x.gap) {
      EndsOpen(m, Clocks(x));
    }
  }

  /** All of a write command. */
  lemma WriteCommand(r: Regs, xs: seq<Delivery>, c: Command, bs: seq<Byte>) returns (n: Regs)
    requires Finished(r) && c != BusRead && |bs| == c.Length()
    requires Payload(xs) == [c.Opcode()] + bs && Paced(xs)
    ensures Complete(n, c, bs, r.ramAddr / 0x1_0000)
    ensures Writes(r, Flat(xs)) == WritesNow(n) && Replies(r, Flat(xs)) == [Checksum(0, bs)]
    ensures Finished(EngineRun(r, Flat(xs))) && StaysOpen(r, Flat(xs)) && EngineRun(r, Flat(xs)).busAddr == n.busAddr
  {
    hide EngineNext, OnByte, Complete, Checksum, WritesNow, EngineRun, Writes, Replies, Finished, InTime;
    assert |Payload(xs)| == |bs| + 1 && Spaced(xs[|bs|]);
    n := AllBytes(r, xs, c, bs);
    WriteActs(n, xs[|bs|].gap, c, bs, r.ramAddr / 0x1_0000);
  }

  lemma Counts(m: Regs, c: Command, bs: seq<Byte>, upper: nat)
    requires Collecting(m, c, bs, upper)
    ensures |bs| < c.Length()
  {
  }

  lemma Opcodes()
    ensures BusWrite.Opcode() == C_BUSW && BusWrite.Length() == 9
    ensures BusRead.Opcode() == C_BUSR && BusRead.Length() == 4
    ensures ImemWrite.Opcode() == C_IMWR && ImemWrite.Length() == 6
  {
  }

  function BytesOf(w: Word): (bs: seq<Byte>)
    ensures |bs| == 4
  {
    [w.b0, w.b1, w.b2, w.b3]
  }

  /** 0x0E, address, data, enables: one bus write of that data at that address with the low four enables (none
      if they are zero), and the sum of the nine bytes as reply. */
  lemma BusWriteCommand(r: Regs, xs: seq<Delivery>, addr: Word, data: Word, we: Byte)
    requires Finished(r) && Paced(xs) && Payload(xs) == [C_BUSW] + (BytesOf(addr) + BytesOf(data) + [we])
    ensures var enables := LowNibble(we);
            Writes(r, Flat(xs)) == if enables == 0 then [] else [OntoBus(addr, enables, data)]
    ensures Replies(r, Flat(xs)) == [Checksum(0, BytesOf(addr) + BytesOf(data) + [we])]
    ensures Finished(EngineRun(r, Flat(xs))) && StaysOpen(r, Flat(xs)) && EngineRun(r, Flat(xs)).busAddr == addr
  {
    var bs := BytesOf(addr) + BytesOf(data) + [we];
    hide *;
    Opcodes();
    var n := WriteCommand(r, xs, BusWrite, bs);
    BusWritten(n, bs, r.ramAddr / 0x1_0000, addr, data, we);
  }

  lemma BusWritten(n: Regs, bs: seq<Byte>, upper: nat, addr: Word, data: Word, we: Byte)
    requires Complete(n, BusWrite, bs, upper)
    requires bs == BytesOf(addr) + BytesOf(data) + [we]
    ensures var enables := LowNibble(we);
            WritesNow(n) == if enables == 0 then [] else [OntoBus(addr, enables, data)]
    ensures n.busAddr == addr
  {
    hide Checksum;
    assert From(bs, 4) == BytesOf(data) + [we];
  }

  /** 0x1A, address, data: one write to instruction memory, with the CPU running, and the sum of the six bytes as
      reply. Only the low 16 address bits come from the command: it writes where it says exactly if the address
      register, which program loads leave at their last word, is below 64K. */
  lemma ImemWriteCommand(r: Regs, xs: seq<Delivery>, lo: Byte, hi: Byte, data: Word)
    requires Finished(r) && Paced(xs) && Payload(xs) == [C_IMWR] + ([lo, hi] + BytesOf(data))
    ensures var said := HalfValue(Half(lo, hi));
            var addr := r.ramAddr / 0x1_0000 * 0x1_0000 + said;
            && Writes(r, Flat(xs)) == [Write(addr, data, false)]
            && (addr == said <==> r.ramAddr < 0x1_0000)
    ensures Replies(r, Flat(xs)) == [Checksum(0, [lo, hi] + BytesOf(data))]
    ensures Finished(EngineRun(r, Flat(xs)))
  {
    var bs := [lo, hi] + BytesOf(data);
    hide *;
    Opcodes();
    var n := WriteCommand(r, xs, ImemWrite, bs);
    ImemWritten(n, bs, r.ramAddr / 0x1_0000, lo, hi, data);
    UpperBits(r.ramAddr, HalfValue(Half(lo, hi)));
  }

  lemma UpperBits(a: nat, low: nat)
    ensures a / 0x1_0000 * 0x1_0000 + low == low <==> a < 0x1_0000
  {
  }

  lemma ImemWritten(n: Regs, bs: seq<Byte>, upper: nat, lo: Byte, hi: Byte, data: Word)
    requires Complete(n, ImemWrite, bs, upper) && bs == [lo, hi] + BytesOf(data)
    ensures WritesNow(n) == [Write(upper * 0x1_0000 + HalfValue(Half(lo, hi)), data, false)]
  {
    hide Checksum;
    assert From(bs, 2) == BytesOf(data);
    assert n.ramAddr == n.ramAddr / 0x1_0000 * 0x1_0000 + n.ramAddr % 0x1_0000;
  }

  /** The state that sends byte `j` of a word read, or the checksum after byte 3. */
  function Sending(j: nat): State {
    match j case 0 => BusrData0 case 1 => BusrData1 case 2 => BusrData2 case 3 => BusrData3 case _ => BusrChecksum
  }

  function Lanes(d: Word, j: nat): seq<Byte>
    decreases 4 - j
  {
    if j >= 4 then [] else [Lane(d, j)] + Lanes(d, j + 1)
  }

  lemma DataClock(r: Regs, i: In, j: nat)
    requires j < 4 && r.state == Sending(j)
    ensures EngineNext(r, i)
            == Reply(r, Lane(r.busRdat, j), Sending(j + 1)).(checksum := Plus(r.checksum, Lane(r.busRdat, j)))
  {
    hide Plus;
    match j case 0 => case 1 => case 2 => case _ =>
  }

  lemma SumClock(r: Regs, i: In)
    requires r.state == BusrChecksum
    ensures EngineNext(r, i) == Reply(r, r.checksum, BusrDone)
  {
  }

  /** The bytes of a word read from byte `j` on, and their sum added to the checksum so far, go out one a clock. */
  lemma {:induction false} ReadsOut(r: Regs, gap: seq<In>, j: nat)
    requires j <= 4 && r.state == Sending(j) && r.busVld && r.cpuRstn && !r.ramWen && r.busWe == 0
    requires Quiet(gap) && |gap| >= 6 - j
    ensures Replies(r, gap) == ReplyNow(r) + Lanes(r.busRdat, j) + [Checksum(r.checksum, Lanes(r.busRdat, j))]
    ensures Writes(r, gap) == [] && Finished(EngineRun(r, gap))
    decreases 4 - j
  {
    hide EngineNext, Plus, HalfValue, StaysOpen, OnlyLoads;
    if j == 4 {
      SumOut(r, gap);
    } else {
      var n := EngineNext(r, gap[0]);
      LogOne(r, gap);
      DataClock(r, gap[0], j);
      ReadsOut(n, gap[1..], j + 1);
      var b, more := Lane(r.busRdat, j), Lanes(r.busRdat, j + 1);
      assert ([b] + more)[1..] == more;
      var sum := [Checksum(n.checksum, more)];
      hide Checksum, Lanes;
      Regroup([b], more, sum);
      Regroup(ReplyNow(r), [b] + more, sum);
    }
  }

  lemma SumOut(r: Regs, gap: seq<In>)
    requires r.state == BusrChecksum && r.busVld && r.cpuRstn && !r.ramWen && r.busWe == 0
    requires Quiet(gap) && |gap| >= 2
    ensures Replies(r, gap) == ReplyNow(r) + [r.checksum] && Writes(r, gap) == [] && Finished(EngineRun(r, gap))
  {
    hide EngineNext;
    var n := EngineNext(r, gap[0]);
    SumClock(r, gap[0]);
    DoneClocks(n, gap[1]);
    TwoClocks(r, n, EngineNext(n, gap[1]), gap);
  }

  /** The bus read itself: with no ready for less than the timeout, the request stands at the address; ready
      ends it. */
  lemma ReadActs(n: Regs, wait: seq<In>, hit: In, rest: seq<In>, bs: seq<Byte>, upper: nat)
    requires Complete(n, BusRead, bs, upper) && (forall i :: i in wait ==> !i.busRdy) && hit.busRdy
    requires Quiet(rest) && |rest| >= 6 && Ticks(wait) < TIMEOUT_TICKS
    ensures var gap, d := wait + [hit] + rest, Lanes(hit.busRdat, 0);
            && Replies(n, gap) == d + [Checksum(Checksum(0, bs), d)] && Writes(n, gap) == []
            && Finished(EngineRun(n, gap))
  {
    hide Checksum, Stored, Lanes, EngineNext, HalfValue, Ticks, LowNibble, Finished;
    TicksShort(wait);
    SitsThrough(n, wait);
    var n1 := EngineRun(n, wait);
    hide EngineRun, Writes, Replies, Uneventful, Silent;
    HitAndRest(n1, hit, rest);
    Join(n, wait, [hit] + rest);
    assert wait + [hit] + rest == wait + ([hit] + rest);
  }

  lemma HitAndRest(r: Regs, hit: In, rest: seq<In>)
    requires r.state == BusrWaitData && r.busVld && r.cpuRstn && !r.ramWen && r.busWe == 0 && !r.txValid && hit.busRdy
    requires Quiet(rest) && |rest| >= 6
    ensures var gap, d := [hit] + rest, Lanes(hit.busRdat, 0);
            Replies(r, gap) == d + [Checksum(r.checksum, d)] && Writes(r, gap) == [] && Finished(EngineRun(r, gap))
  {
    hide Checksum, Lanes, EngineNext, HalfValue;
    var n := EngineNext(r, hit);
    HitClock(r, hit);
    LogOne(r, [hit] + rest);
    assert ([hit] + rest)[1..] == rest;
    ReadsOut(n, rest, 0);
  }

  lemma {:induction false} TicksShort(ins: seq<In>)
    ensures ins != [] ==> Ticks(ins[..|ins| - 1]) <= Ticks(ins)
    decreases |ins|
  {
    if |ins| > 1 {
      TicksShort(ins[1..]);
      assert ins[..|ins| - 1][1..] == ins[1..][..|ins| - 2];
    }
  }

  lemma HitClock(r: Regs, i: In)
    requires r.state == BusrWaitData && i.busRdy
    ensures EngineNext(r, i) == r.(busRdat := i.busRdat, timeout := 0, state := BusrData0)
  {
  }

  lemma {:induction false} ChecksumJoin(sum: Byte, a: seq<Byte>, b: seq<Byte>)
    ensures Checksum(sum, a + b) == Checksum(Checksum(sum, a), b)
    decreases |a|
  {
    hide Plus;
    if a == [] {
      assert a + b == b;
    } else {
      assert (a + b)[1..] == a[1..] + b;
      ChecksumJoin(Plus(sum, a[0]), a[1..], b);
    }
  }

  lemma LanesAll(d: Word)
    ensures Lanes(d, 0) == BytesOf(d)
  {
    assert Lanes(d, 2) == [d.b2, d.b3] by {
      assert Lanes(d, 4) == [] && Lanes(d, 3) == [d.b3];
    }
  }

  /** 0x0F, address: while no ready comes, and no timeout, the bus is asked to read at that address. */
  lemma BusReadAsks(r: Regs, xs: seq<Delivery>, addr: Word)
    requires Finished(r) && Payload(xs) == [C_BUSR] + BytesOf(addr) && Paced(xs[..4]) && xs[4].first.rxValid
    requires Uneventful(BusrWaitData, xs[4].gap) && Ticks(xs[4].gap) < TIMEOUT_TICKS
    ensures var w := EngineRun(r, Flat(xs)); w.state == BusrWaitData && w.busVld && w.busWe == 0 && w.busAddr == addr
    ensures Writes(r, Flat(xs)) == [] && Replies(r, Flat(xs)) == []
  {
    var bs := BytesOf(addr);
    assert BusRead.Opcode() == C_BUSR && BusRead.Length() == |bs| == 4;
    hide EngineNext, EngineRun, Writes, Replies, Finished, Paced, Payload, Flat, Checksum;
    var n := AllBytes(r, xs, BusRead, bs);
    TicksShort(xs[4].gap);
    SitsThrough(n, xs[4].gap);
  }

  /** ... and the word that comes with ready is sent back by bytes, then the sum of address and data. */
  lemma BusReadCommand(r: Regs, xs: seq<Delivery>, addr: Word, wait: seq<In>, hit: In, rest: seq<In>)
    requires Finished(r) && Payload(xs) == [C_BUSR] + BytesOf(addr) && Paced(xs[..4]) && xs[4].first.rxValid
    requires xs[4].gap == wait + [hit] + rest && (forall i :: i in wait ==> !i.busRdy) && hit.busRdy
    requires Quiet(rest) && |rest| >= 6 && Ticks(wait) < TIMEOUT_TICKS
    ensures Replies(r, Flat(xs)) == BytesOf(hit.busRdat) + [Checksum(0, BytesOf(addr) + BytesOf(hit.busRdat))]
    ensures Writes(r, Flat(xs)) == [] && Finished(EngineRun(r, Flat(xs)))
  {
    var bs := BytesOf(addr);
    hide *;
    Opcodes();
    var n := AllBytes(r, xs, BusRead, bs);
    ReadActs(n, wait, hit, rest, bs, r.ramAddr / 0x1_0000);
    LanesAll(hit.busRdat);
    ChecksumJoin(0, bs, BytesOf(hit.busRdat));
  }
}
