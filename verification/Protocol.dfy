/** The command protocol as a user of the line knows it: which bytes open and close sessions, how many belong to a
    command, what is written and answered, when time runs out. The 41 states of the command FSM implement it. */
module Protocol {
  import opened Bits
  import opened CommandEngine
  import opened ProgramLoad
  import opened Commands

  /** Between two sessions or two commands; the bytes after the opcode of a program load or of another command;
      waiting for the bus to answer a read; busy, with the writes and replies of this clock and the replies of the next
      ones, before a load goes on (`resume`) or the next command; out of time. `quiet` counts ticks. */
  datatype Mode =
    | Closed | Between
    | Load(heard: seq<Byte>, quiet: nat) | Gather(c: Command, heard: seq<Byte>, quiet: nat)
    | Asking(heard: seq<Byte>, quiet: nat)
    | Busy(writes: seq<Write>, says: seq<Byte>, later: seq<Byte>, resume: Option<seq<Byte>>)
    | OutOfTime

  /** The mode, the last bus address, as far as it has arrived, and the 64K bank of the last word loaded. */
  datatype Dialog = Dialog(mode: Mode, addr: Word, bank: nat)

  const START: Dialog := Dialog(Closed, Word(0, 0, 0, 0x10), 0)

  /** Sums are sent modulo 256. */
  function Sum(bs: seq<Byte>): nat {
    if bs == [] then 0 else Value(bs[0]) + Sum(bs[1..])
  }

  function SumByte(bs: seq<Byte>): Byte { (Sum(bs) % 256) as Byte }

  /** Little-endian. */
  function WordAt(bs: seq<Byte>, k: nat): Word
    requires k + 4 <= |bs|
  {
    Word(bs[k], bs[k + 1], bs[k + 2], bs[k + 3])
  }

  /** The number of words that a load announces. */
  function Announced(heard: seq<Byte>): nat
    requires |heard| >= 2
  {
    var n := Value(heard[0]) + 256 * Value(heard[1]);
    if n == 0 then 65536 else n
  }

  function ModeAfter(b: Byte): Mode {
    if b == 0x05 then Load([], 0)
    else if b == 0x0E then Gather(BusWrite, [], 0)
    else if b == 0x0F then Gather(BusRead, [], 0)
    else if b == 0x1A then Gather(ImemWrite, [], 0)
    else if b == 0x14 then Closed
    else Between
  }

  /** A byte of a program load: two of length, then words of four. Each word is written and acknowledged by 0x06, the
      last one followed by the sum. */
  function TakesLoad(p: Dialog, heard: seq<Byte>, b: Byte): Dialog {
    var all := heard + [b];
    if |all| <= 2 || |all| % 4 != 2 then p.(mode := Load(all, 0))
    else p.(bank := 4 * ((|all| - 6) / 4) / 0x1_0000, mode := WordEnded(all, (|all| - 6) / 4))
  }

  function WordEnded(all: seq<Byte>, k: nat): Mode
    requires |all| >= 6
  {
    var last := k + 1 == Announced(all);
    Busy([Write(4 * k, WordAt(all, |all| - 4), true)], [0x06], if last then [SumByte(all)] else [],
         if last then None else Some(all))
  }

  function WithByte(w: Word, j: nat, b: Byte): Word {
    match j case 0 => w.(b0 := b) case 1 => w.(b1 := b) case 2 => w.(b2 := b) case 3 => w.(b3 := b) case _ => w
  }

  /** What a bus write command with all its bytes writes: nothing if the four enables are zero. */
  function WritesToBus(bs: seq<Byte>): seq<Write>
    requires |bs| == 9
  {
    if bs[8] % 16 == 0 then [] else [OntoBus(WordAt(bs, 0), (bs[8] % 16) as bv4, WordAt(bs, 4))]
  }

  /** With the bytes `all` of another command: four of address, four of data and the enables; four of address; two of
      address and four of data. */
  function Gathered(c: Command, all: seq<Byte>, bank: nat): Mode {
    match c
    case BusWrite =>
      if |all| != 9 then Gather(c, all, 0) else Busy(WritesToBus(all), [], [SumByte(all)], None)
    case BusRead => if |all| != 4 then Gather(c, all, 0) else Asking(all, 0)
    case ImemWrite =>
      if |all| != 6 then Gather(c, all, 0)
      else
        var low := Value(all[0]) + 256 * Value(all[1]);
        Busy([Write(bank * 0x1_0000 + low, WordAt(all, 2), false)], [], [SumByte(all)], None)
  }

  function Takes(p: Dialog, c: Command, heard: seq<Byte>, b: Byte): Dialog {
    Dialog(Gathered(c, heard + [b], p.bank), if c == ImemWrite then p.addr else WithByte(p.addr, |heard|, b), p.bank)
  }

  /** Time runs out in the clock after the tick number 2^21 without the byte, or the answer, waited for. */
  function Waits(m: Mode, tick: bool): Mode
    requires m.Load? || m.Gather? || m.Asking?
  {
    if m.quiet >= 0x20_0000 then OutOfTime else if tick then m.(quiet := m.quiet + 1) else m
  }

  /** The word read goes back byte by byte, then the sum of address and data. */
  function Answers(heard: seq<Byte>, d: Word): Mode {
    var answer := [d.b0, d.b1, d.b2, d.b3];
    Busy([], [], answer + [SumByte(heard + answer)], None)
  }

  function NextBusy(later: seq<Byte>, resume: Option<seq<Byte>>): Mode {
    if later != [] then Busy([], [later[0]], later[1..], resume)
    else if resume.Some? then Load(resume.value, 0)
    else Between
  }

  /** One clock, told from the byte that arrives, the tick and the bus's answer. */
  function Step(p: Dialog, i: In): Dialog {
    match p.mode
    case Closed => if i.rxValid && i.rxData == 0x12 then p.(mode := Between) else p
    case Between => if i.rxValid then p.(mode := ModeAfter(i.rxData)) else p
    case Load(heard, _) => if i.rxValid then TakesLoad(p, heard, i.rxData) else p.(mode := Waits(p.mode, i.tick))
    case Gather(c, heard, _) => if i.rxValid then Takes(p, c, heard, i.rxData) else p.(mode := Waits(p.mode, i.tick))
    case Asking(heard, _) => p.(mode := if i.busRdy then Answers(heard, i.busRdat) else Waits(p.mode, i.tick))
    case Busy(_, _, later, resume) => p.(mode := NextBusy(later, resume))
    case OutOfTime => p.(mode := Closed)
  }

  function DialogAfter(p: Dialog, ins: seq<In>): Dialog
    decreases |ins|
  {
    if ins == [] then p else DialogAfter(Step(p, ins[0]), ins[1..])
  }

  predicate Open(p: Dialog) { p.mode != Closed }

  /** What is written in this clock, and replied: 0x07 when time has run out. */
  function Writing(p: Dialog): seq<Write> { if p.mode.Busy? then p.mode.writes else [] }

  function Saying(p: Dialog): seq<Byte> {
    if p.mode.Busy? then p.mode.says else if p.mode.OutOfTime? then [0x07] else []
  }

  /** ... over the clocks `ins`. */
  function Written(p: Dialog, ins: seq<In>): seq<Write>
    decreases |ins|
  {
    if ins == [] then [] else Writing(p) + Written(Step(p, ins[0]), ins[1..])
  }

  function Said(p: Dialog, ins: seq<In>): seq<Byte>
    decreases |ins|
  {
    if ins == [] then [] else Saying(p) + Said(Step(p, ins[0]), ins[1..])
  }

  // What the protocol's numbers are in the registers of the FSM.

  lemma {:induction false} ChecksumIsSum(sum: Byte, bs: seq<Byte>)
    ensures Value(Checksum(sum, bs)) == (Value(sum) + Sum(bs)) % 256
    decreases |bs|
  {
    hide Plus, Value;
    if bs != [] {
      PlusIsSum(sum, bs[0]);
      ChecksumIsSum(Plus(sum, bs[0]), bs[1..]);
      Modulo(Value(sum) + Value(bs[0]), Sum(bs[1..]));
    }
  }

  lemma Modulo(a: nat, b: nat)
    ensures (a % 256 + b) % 256 == (a + b) % 256
  {
  }

  lemma ChecksumSaid(bs: seq<Byte>)
    ensures Checksum(0, bs) == SumByte(bs)
  {
    ChecksumIsSum(0, bs);
    ByteOfValue(Checksum(0, bs));
    hide Checksum, Sum;
    assert Value(0) == 0;
  }

  lemma ByteOfValue(b: Byte)
    ensures Value(b) as Byte == b
  {
  }

  lemma EnablesSaid(b: Byte)
    ensures LowNibble(b) == (b % 16) as bv4 && (LowNibble(b) == 0 <==> b % 16 == 0)
  {
  }

  lemma LengthSaid(heard: seq<Byte>)
    requires |heard| >= 2
    ensures Announced(heard) == WordCount(Half(heard[0], heard[1]))
  {
    hide Value;
  }

  /** The state of a program load that waits for byte `got`. */
  function LoadState(got: nat): State {
    if got == 0 then ImprWaitLenLb
    else if got == 1 then ImprWaitLenHb
    else
      match got % 4
      case 2 => ImprWaitData0
      case 3 => ImprWaitData1
      case 0 => ImprWaitData2
      case _ => ImprWaitData3
  }

  /** The length is there, `words` words are, and the sum. */
  predicate Counted(r: Regs, heard: seq<Byte>, words: nat)
    requires |heard| >= 2
  {
    && r.dataLength == Half(heard[0], heard[1]) && r.dataCnt == words < Announced(heard)
    && r.checksum == Checksum(0, heard)
  }

  /** The bytes `heard` of a program load have arrived. */
  predicate Loads(r: Regs, heard: seq<Byte>) {
    var n := |heard|;
    && r.state == LoadState(n)
    && if n < 2 then r.dataCnt == 0 && r.checksum == Checksum(0, heard) && (n == 1 ==> r.dataLength.lo == heard[0])
       else Counted(r, heard, (n - 2) / 4) && Begins(r.ramData, heard[n - (n - 2) % 4..])
  }

  /** A word of a load, not the last, has just been written. */
  predicate Resumes(r: Regs, heard: seq<Byte>) {
    && r.state == ImprChecksum && |heard| >= 6 && |heard| % 4 == 2
    && Counted(r, heard, (|heard| - 2) / 4) && r.dataCnt != HalfValue(r.dataLength)
  }

  /** The replies of the next clocks, in a state that acts on a command. */
  function Later(r: Regs): seq<Byte> {
    match r.state
    case ImprChecksum => ChecksumDue(r)
    case BuswChecksum | ImwrChecksum | BusrChecksum => [r.checksum]
    case BusrData0 => Lanes(r.busRdat, 0) + [Checksum(r.checksum, Lanes(r.busRdat, 0))]
    case BusrData1 => Lanes(r.busRdat, 1) + [Checksum(r.checksum, Lanes(r.busRdat, 1))]
    case BusrData2 => Lanes(r.busRdat, 2) + [Checksum(r.checksum, Lanes(r.busRdat, 2))]
    case BusrData3 => Lanes(r.busRdat, 3) + [Checksum(r.checksum, Lanes(r.busRdat, 3))]
    case _ => []
  }

  predicate Acts(s: State) {
    match s
    case ImprChecksum | ImprDone | BuswChecksum | BuswDone | ImwrChecksum | ImwrDone
      | BusrData0 | BusrData1 | BusrData2 | BusrData3 | BusrChecksum | BusrDone => true
    case _ => false
  }

  predicate Busies(r: Regs, m: Mode)
    requires m.Busy?
  {
    && Acts(r.state) && m.writes == WritesNow(r) && m.says == ReplyNow(r) && m.later == Later(r)
    && match m.resume
       case None => r.state == ImprChecksum ==> r.dataCnt == HalfValue(r.dataLength)
       case Some(heard) => Resumes(r, heard)
  }

  /** The registers of the FSM are in the mode of the protocol. */
  predicate InMode(m: Mode, r: Regs, bank: nat) {
    match m
    case Closed => r.state == WaitSop
    case Between => r.state == WaitCmd
    case Load(heard, quiet) => Loads(r, heard) && r.timeout == quiet
    case Gather(c, heard, quiet) => Collecting(r, c, heard, bank) && r.timeout == quiet
    case Asking(heard, quiet) => r.state == BusrWaitData && r.timeout == quiet && r.checksum == Checksum(0, heard)
    case Busy(_, _, _, _) => Busies(r, m)
    case OutOfTime => r.state == Timeout && r.txData == 0x07
  }

  predicate Matches(p: Dialog, r: Regs) {
    Session(r) && p.addr == r.busAddr && p.bank == r.ramAddr / 0x1_0000 && InMode(p.mode, r, p.bank)
  }

  lemma OpenIsRequested(p: Dialog, r: Regs)
    requires Matches(p, r)
    ensures r.busVld <==> Open(p)
  {
  }

  lemma OutputsNow(p: Dialog, r: Regs)
    requires Matches(p, r)
    ensures Writing(p) == WritesNow(r) && Saying(p) == ReplyNow(r)
  {
    if !p.mode.Busy? {
      NotActing(p.mode, r, p.bank);
      SaidNow(r);
    }
    hide Session, WritesNow, ReplyNow, Later, Resumes, Acts, Loads, Collecting;
  }

  lemma NotActing(m: Mode, r: Regs, bank: nat)
    requires InMode(m, r, bank) && !m.Busy?
    ensures !Acts(r.state) && (r.state == Timeout <==> m.OutOfTime?)
  {
    hide Checksum, Begins, Stored, Announced;
  }

  lemma SaidNow(r: Regs)
    requires Session(r) && !Acts(r.state)
    ensures WritesNow(r) == [] && ReplyNow(r) == if r.state == Timeout then [r.txData] else []
  {
  }

  lemma LengthByte(p: Dialog, r: Regs, b: Byte)
    requires Matches(p, r) && p.mode.Load? && |p.mode.heard| < 2
    ensures AwaitsByte(r.state) && Matches(TakesLoad(p, p.mode.heard, b), OnByte(r, b))
  {
    var heard := p.mode.heard;
    assert Loads(r, heard) && Session(r);
    assert TakesLoad(p, heard, b) == p.(mode := Load(heard + [b], 0));
    hide Session, InMode, TakesLoad, OnByte, AwaitsByte;
    SessionOnByte(r, b);
    LengthLoads(r, heard, b, p.bank);
  }

  lemma LengthLoads(r: Regs, heard: seq<Byte>, b: Byte, bank: nat)
    requires Loads(r, heard) && |heard| < 2
    ensures var n := OnByte(r, b);
            AwaitsByte(r.state) && InMode(Load(heard + [b], 0), n, bank) && n.busAddr == r.busAddr
                && n.ramAddr == r.ramAddr
  {
    ChecksumLast(0, heard, b);
    ProgramLoad.LengthByte(r, b);
    hide OnByte, Plus, Checksum, Value, Busies, Collecting;
  }

  /** One more byte of a word, but for its last. */
  lemma LaneByteTaken(r: Regs, b: Byte, j: nat)
    requires j < 3 && r.state == (match j case 0 => ImprWaitData0 case 1 => ImprWaitData1 case _ => ImprWaitData2)
    ensures var n := OnByte(r, b);
            && n.state == (match j case 0 => ImprWaitData1 case 1 => ImprWaitData2 case _ => ImprWaitData3)
            && n.ramData == WithByte(r.ramData, j, b) && n.checksum == Plus(r.checksum, b) && n.timeout == 0
            && n.dataCnt == r.dataCnt && n.dataLength == r.dataLength && n.busAddr == r.busAddr
            && n.ramAddr == r.ramAddr && AwaitsByte(r.state)
  {
    hide Plus;
  }

  /** Four bytes a word. */
  lemma Lanes4(n: nat)
    requires n >= 2 && n % 4 != 1
    ensures (n + 1 - 2) / 4 == (n - 2) / 4 && (n + 1 - 2) % 4 == (n - 2) % 4 + 1 && (n - 2) % 4 < 3
    ensures (n + 1) % 4 != 2
    ensures var j := (n - 2) % 4;
            && LoadState(n) == (match j case 0 => ImprWaitData0 case 1 => ImprWaitData1 case _ => ImprWaitData2)
            && LoadState(n + 1) == (match j case 0 => ImprWaitData1 case 1 => ImprWaitData2 case _ => ImprWaitData3)
  {
  }

  lemma WordGrows(w: Word, heard: seq<Byte>, j: nat, b: Byte)
    requires j < 3 && 2 <= |heard| - j && Begins(w, heard[|heard| - j..])
    ensures Begins(WithByte(w, j, b), (heard + [b])[|heard| + 1 - (j + 1)..])
  {
    BeginsMore(w, heard[|heard| - j..], b);
    assert (heard + [b])[|heard| + 1 - (j + 1)..] == heard[|heard| - j..] + [b];
    hide Begins;
  }

  lemma StillAnnounced(heard: seq<Byte>, b: Byte)
    requires |heard| >= 2
    ensures var all := heard + [b]; Announced(all) == Announced(heard) && all[0] == heard[0] && all[1] == heard[1]
  {
    hide Value;
  }

  lemma DataLoads(r: Regs, heard: seq<Byte>, b: Byte)
    requires Loads(r, heard) && |heard| >= 2 && |heard| % 4 != 1
    ensures Loads(OnByte(r, b), heard + [b]) && AwaitsByte(r.state)
    ensures OnByte(r, b).busAddr == r.busAddr && OnByte(r, b).ramAddr == r.ramAddr && OnByte(r, b).timeout == 0
  {
    hide OnByte, LoadState, AwaitsByte, Plus, Checksum, Begins, Announced, WithByte;
    var n := |heard|;
    var j := (n - 2) % 4;
    Lanes4(n);
    LaneByteTaken(r, b, j);
    ChecksumLast(0, heard, b);
    WordGrows(r.ramData, heard, j, b);
    StillAnnounced(heard, b);
  }

  lemma DataByte(p: Dialog, r: Regs, b: Byte)
    requires Matches(p, r) && p.mode.Load? && |p.mode.heard| >= 2 && |p.mode.heard| % 4 != 1
    ensures AwaitsByte(r.state) && Matches(TakesLoad(p, p.mode.heard, b), OnByte(r, b))
  {
    DataLoads(r, p.mode.heard, b);
    Lanes4(|p.mode.heard|);
    SessionOnByte(r, b);
    hide OnByte, Loads, AwaitsByte, Session;
  }

  /** Where the word that ends now stands. */
  lemma LastOfWord(n: nat, words: nat)
    requires n >= 2 && n % 4 == 1
    ensures (n - 2) / 4 == (n - 5) / 4 && (n - 2) % 4 == 3 && (n + 1 - 2) / 4 == (n - 5) / 4 + 1
    ensures LoadState(n) == ImprWaitData3 && n >= 5 && (n + 1) % 4 == 2
  {
  }

  lemma LengthWraps(heard: seq<Byte>, k: nat)
    requires |heard| >= 2 && k < Announced(heard)
    ensures var len := HalfValue(Half(heard[0], heard[1]));
            && ((k + 1) % 0x1_0000 == len <==> k + 1 == Announced(heard))
            && (k + 1 < Announced(heard) ==> (k + 1) % 0x1_0000 == k + 1)
  {
    hide Value;
  }

  lemma WordEnds(w: Word, heard: seq<Byte>, b: Byte)
    requires |heard| >= 3 && Begins(w, heard[|heard| - 3..])
    ensures WordAt(heard + [b], |heard| - 3) == w.(b3 := b)
  {
    assert heard[|heard| - 3..] == [heard[|heard| - 3], heard[|heard| - 2], heard[|heard| - 1]];
  }

  /** The byte that ends a word: the write and the acknowledgement of the clock that follows. */
  lemma LastByteActs(r: Regs, b: Byte)
    requires Session(r) && r.state == ImprWaitData3
    ensures var n := OnByte(r, b);
            && n.state == ImprChecksum && n.ramAddr == 4 * r.dataCnt && n.busAddr == r.busAddr
            && n.dataCnt == (r.dataCnt + 1) % 0x1_0000 && n.dataLength == r.dataLength
            && n.checksum == Plus(r.checksum, b)
            && WritesNow(n) == [Write(4 * r.dataCnt, r.ramData.(b3 := b), true)] && ReplyNow(n) == [0x06]
  {
    OnLastByte(r, b);
    hide OnByte, Plus;
  }

  lemma WordLoads(r: Regs, heard: seq<Byte>, b: Byte)
    requires Session(r) && Loads(r, heard) && |heard| >= 2 && |heard| % 4 == 1
    ensures var all, k, n := heard + [b], (|heard| - 5) / 4, OnByte(r, b);
            && n.state == ImprChecksum && n.ramAddr == 4 * k && n.busAddr == r.busAddr && AwaitsByte(r.state)
            && WritesNow(n) == [Write(4 * k, WordAt(all, |all| - 4), true)] && ReplyNow(n) == [0x06]
            && Later(n) == (if k + 1 == Announced(all) then [SumByte(all)] else [])
            && (n.dataCnt == HalfValue(n.dataLength) <==> k + 1 == Announced(all))
            && (k + 1 != Announced(all) ==> Resumes(n, all))
  {
    hide OnByte, LoadState, Plus, Checksum, Begins, Announced, HalfValue, SumByte, WordAt, Session, WritesNow, ReplyNow;
    var n, k, all := |heard|, (|heard| - 5) / 4, heard + [b];
    LastOfWord(n, k);
    LastByteActs(r, b);
    ChecksumLast(0, heard, b);
    ChecksumSaid(all);
    LengthWraps(heard, k);
    WordEnds(r.ramData, heard, b);
    StillAnnounced(heard, b);
  }

  lemma WordMode(r: Regs, heard: seq<Byte>, b: Byte, bank: nat)
    requires Session(r) && Loads(r, heard) && |heard| >= 2 && |heard| % 4 == 1
    ensures InMode(WordEnded(heard + [b], (|heard| - 5) / 4), OnByte(r, b), bank)
  {
    hide OnByte, Loads, Session, Resumes, HalfValue, Announced, WritesNow, ReplyNow, Later, SumByte, WordAt, Collecting;
    WordLoads(r, heard, b);
  }

  lemma WordByte(p: Dialog, r: Regs, b: Byte)
    requires Matches(p, r) && p.mode.Load? && |p.mode.heard| >= 2 && |p.mode.heard| % 4 == 1
    ensures AwaitsByte(r.state) && Matches(TakesLoad(p, p.mode.heard, b), OnByte(r, b))
  {
    var heard := p.mode.heard;
    var k := (|heard| - 5) / 4;
    assert Loads(r, heard) && Session(r);
    TakesWord(p, heard, b);
    hide InMode, Loads, OnByte, AwaitsByte, Session, WordEnded, WritesNow, ReplyNow, Later, Resumes, TakesLoad,
        Announced;
    WordMode(r, heard, b, 4 * k / 0x1_0000);
    WordLoads(r, heard, b);
    SessionOnByte(r, b);
  }

  lemma TakesWord(p: Dialog, heard: seq<Byte>, b: Byte)
    requires |heard| >= 2 && |heard| % 4 == 1
    ensures |heard| >= 5
    ensures var k := (|heard| - 5) / 4;
            TakesLoad(p, heard, b) == p.(bank := 4 * k / 0x1_0000, mode := WordEnded(heard + [b], k))
  {
    LastOfWord(|heard|, 0);
    hide WordEnded, LoadState;
  }

  /** What a byte of the other commands does to the address registers. */
  lemma AddressGathered(r: Regs, c: Command, j: nat, b: Byte)
    requires j < c.Length() && r.state == c.Waiting(j)
    ensures OnByte(r, b).timeout == 0
    ensures c == ImemWrite ==> OnByte(r, b).busAddr == r.busAddr
    ensures c != ImemWrite ==> OnByte(r, b).busAddr == WithByte(r.busAddr, j, b) && OnByte(r, b).ramAddr == r.ramAddr
  {
    hide Plus, LowNibble;
    match c {
      case BusWrite =>
        if j < 4 {
        } else {
        }
      case BusRead =>
      case ImemWrite =>
    }
  }

  lemma BusWriteDone(n: Regs, bs: seq<Byte>, upper: nat)
    requires Complete(n, BusWrite, bs, upper)
    ensures n.state == BuswChecksum && WritesNow(n) == WritesToBus(bs) && ReplyNow(n) == [] && Later(n) == [SumByte(bs)]
  {
    var addr, data, we := WordAt(bs, 0), WordAt(bs, 4), bs[8];
    assert bs == BytesOf(addr) + BytesOf(data) + [we];
    BusWritten(n, bs, upper, addr, data, we);
    EnablesSaid(we);
    ChecksumSaid(bs);
    hide Checksum, Stored, LowNibble, SumByte, WritesNow;
  }

  lemma ImemWriteDone(n: Regs, bs: seq<Byte>, upper: nat)
    requires Complete(n, ImemWrite, bs, upper)
    ensures var low := Value(bs[0]) + 256 * Value(bs[1]);
            WritesNow(n) == [Write(upper * 0x1_0000 + low, WordAt(bs, 2), false)]
    ensures n.state == ImwrChecksum && ReplyNow(n) == [] && Later(n) == [SumByte(bs)] && n.ramAddr / 0x1_0000 == upper
  {
    var data := WordAt(bs, 2);
    assert bs == [bs[0], bs[1]] + BytesOf(data);
    ImemWritten(n, bs, upper, bs[0], bs[1], data);
    ChecksumSaid(bs);
    hide Checksum, SumByte, WritesNow, Value;
  }

  lemma GatheredMore(r: Regs, c: Command, heard: seq<Byte>, b: Byte, bank: nat)
    requires Collecting(r, c, heard, bank) && r.ramAddr / 0x1_0000 == bank
    ensures AwaitsByte(r.state)
    ensures var n := OnByte(r, b);
            if |heard| + 1 < c.Length() then Collecting(n, c, heard + [b], bank) && n.ramAddr / 0x1_0000 == bank
            else Complete(n, c, heard + [b], bank) && n.ramAddr / 0x1_0000 == bank
  {
    ByteStored(r, c, heard, b, bank);
    AddressGathered(r, c, |heard|, b);
    hide OnByte, AwaitsByte, Checksum, Begins;
  }

  lemma GatheredAll(r: Regs, c: Command, heard: seq<Byte>, b: Byte, bank: nat)
    requires Collecting(r, c, heard, bank) && r.ramAddr / 0x1_0000 == bank && |heard| + 1 == c.Length()
    ensures AwaitsByte(r.state) && OnByte(r, b).ramAddr / 0x1_0000 == bank
    ensures InMode(Gathered(c, heard + [b], bank), OnByte(r, b), bank)
  {
    GatheredMore(r, c, heard, b, bank);
    hide OnByte, AwaitsByte, InMode, Gathered, Collecting;
    CompleteMode(OnByte(r, b), c, heard + [b], bank);
  }

  lemma CompleteMode(n: Regs, c: Command, all: seq<Byte>, bank: nat)
    requires Complete(n, c, all, bank)
    ensures InMode(Gathered(c, all, bank), n, bank)
  {
    hide Stored, Checksum, WritesNow, ReplyNow, Later, SumByte, WritesToBus, Value, WordAt, Loads, Collecting, Resumes;
    match c {
      case BusWrite => BusWriteDone(n, all, bank);
      case BusRead =>
      case ImemWrite => ImemWriteDone(n, all, bank);
    }
  }

  lemma GatheredSome(r: Regs, c: Command, heard: seq<Byte>, b: Byte, bank: nat)
    requires Collecting(r, c, heard, bank) && r.ramAddr / 0x1_0000 == bank && |heard| + 1 < c.Length()
    ensures AwaitsByte(r.state) && OnByte(r, b).ramAddr / 0x1_0000 == bank
    ensures InMode(Gathered(c, heard + [b], bank), OnByte(r, b), bank)
  {
    GatheredMore(r, c, heard, b, bank);
    AddressGathered(r, c, |heard|, b);
    hide OnByte, AwaitsByte, Collecting, Busies, Loads, Checksum, SumByte, WritesToBus, Value, WordAt, WithByte;
  }

  lemma CommandByte(p: Dialog, r: Regs, b: Byte)
    requires Matches(p, r) && p.mode.Gather?
    ensures AwaitsByte(r.state) && Matches(Takes(p, p.mode.c, p.mode.heard, b), OnByte(r, b))
  {
    var c, heard, bank := p.mode.c, p.mode.heard, r.ramAddr / 0x1_0000;
    assert Collecting(r, c, heard, bank) && |heard| < c.Length();
    hide OnByte, AwaitsByte, Session, Collecting, InMode, Gathered, WithByte;
    SessionGathers(r, c, heard, b, bank);
    AddressGathered(r, c, |heard|, b);
    if |heard| + 1 == c.Length() {
      GatheredAll(r, c, heard, b, bank);
    } else {
      GatheredSome(r, c, heard, b, bank);
    }
  }

  lemma SessionGathers(r: Regs, c: Command, heard: seq<Byte>, b: Byte, bank: nat)
    requires Session(r) && Collecting(r, c, heard, bank)
    ensures Session(OnByte(r, b)) && r.state == c.Waiting(|heard|)
  {
    SessionOnByte(r, b);
    hide OnByte, Session, Stored, Checksum;
  }

  /** A waiting state in a clock without what it waits for. */
  lemma Waiting(p: Dialog, r: Regs, i: In)
    requires Matches(p, r) && (if p.mode.Asking? then !i.busRdy else !i.rxValid && (p.mode.Load? || p.mode.Gather?))
    ensures Matches(Step(p, i), EngineNext(r, i))
  {
    var m, n := p.mode, EngineNext(r, i);
    assert Step(p, i) == p.(mode := Waits(m, i.tick));
    hide EngineNext, Session, InMode, Step, Waits;
    SessionStep(r, i);
    Unanswered(p, r, i);
    WaitsOn(m, r, n, i.tick, p.bank);
  }

  lemma WaitsOn(m: Mode, r: Regs, n: Regs, tick: bool, bank: nat)
    requires (m.Load? || m.Gather? || m.Asking?) && InMode(m, r, bank)
    requires if r.timeout >= 0x20_0000 then n.state == Timeout && n.txData == 0x07
             else n == r.(timeout := n.timeout) && n.timeout == r.timeout + if tick then 1 else 0
    ensures InMode(Waits(m, tick), n, bank)
  {
    QuietIs(m, r, bank);
    assert Waits(m, tick) == if m.quiet >= 0x20_0000 then OutOfTime else m.(quiet := n.timeout) by {
      hide InMode;
    }
    hide *;
    if r.timeout >= 0x20_0000 {
      OutOfTimeNow(n, bank);
    } else {
      LongerQuiet(m, r, n, bank);
    }
  }

  lemma QuietIs(m: Mode, r: Regs, bank: nat)
    requires (m.Load? || m.Gather? || m.Asking?) && InMode(m, r, bank)
    ensures m.quiet == r.timeout
  {
    hide Loads, Collecting, Checksum;
  }

  lemma OutOfTimeNow(n: Regs, bank: nat)
    requires n.state == Timeout && n.txData == 0x07
    ensures InMode(OutOfTime, n, bank)
  {
  }

  lemma LongerQuiet(m: Mode, r: Regs, n: Regs, bank: nat)
    requires (m.Load? || m.Gather? || m.Asking?) && InMode(m, r, bank) && n == r.(timeout := n.timeout)
    ensures InMode(m.(quiet := n.timeout), n, bank)
  {
    hide Checksum, Begins, LoadState, Announced, Collecting, Busies;
    if m.Gather? {
      StoredLater(r, n, m.c, m.heard, bank);
    }
  }

  lemma Unanswered(p: Dialog, r: Regs, i: In)
    requires Matches(p, r) && (if p.mode.Asking? then !i.busRdy else !i.rxValid && (p.mode.Load? || p.mode.Gather?))
    ensures var n := EngineNext(r, i);
            && n.busAddr == r.busAddr && n.ramAddr == r.ramAddr
            && if r.timeout >= 0x20_0000 then n.state == Timeout && n.txData == 0x07
               else n == r.(timeout := n.timeout) && n.timeout == r.timeout + if i.tick then 1 else 0
  {
    if !p.mode.Asking? {
      AwaitsIts(p, r);
    } else {
      assert r.state == BusrWaitData;
    }
    hide Matches, AwaitsByte, OnByte;
  }

  lemma AwaitsIts(p: Dialog, r: Regs)
    requires Matches(p, r) && (p.mode.Load? || p.mode.Gather?)
    ensures AwaitsByte(r.state)
  {
    hide Session, Checksum, Stored, Begins, Announced;
  }

  /** The state after one that acts on a command. */
  function AfterBusy(s: State): State {
    match s
    case ImprChecksum => ImprDone
    case BuswChecksum => BuswDone
    case ImwrChecksum => ImwrDone
    case BusrData0 => BusrData1
    case BusrData1 => BusrData2
    case BusrData2 => BusrData3
    case BusrData3 => BusrChecksum
    case BusrChecksum => BusrDone
    case _ => WaitCmd
  }

  /** What one clock of it does. */
  predicate Moved(r: Regs, n: Regs) {
    && n.state == AfterBusy(r.state) && n.busAddr == r.busAddr && n.ramAddr == r.ramAddr
    && if Later(r) == [] then n.state == WaitCmd
       else Acts(n.state) && n.state != ImprChecksum && n.txData == Later(r)[0] && Later(n) == Later(r)[1..]
  }

  lemma EndMoves(r: Regs, i: In)
    requires Acts(r.state) && !Busr(r.state) && (r.state == ImprChecksum ==> r.dataCnt == HalfValue(r.dataLength))
    ensures Moved(r, EngineNext(r, i))
  {
    hide EngineNext, HalfValue, Moved;
    if r.state == ImprChecksum {
      var c := ChecksumClock(r, i);
      ThenSum(r, c);
    } else if r.state == BuswChecksum || r.state == ImwrChecksum {
      ActClock(r, i);
      ThenSum(r, EngineNext(r, i));
    } else if r.state == ImprDone {
      var d := DoneClock(r, i);
      ThenNothing(r, d);
    } else {
      assert r.state == BuswDone || r.state == ImwrDone;
      DoneClocks(r, i);
      ThenNothing(r, EngineNext(r, i));
    }
  }

  /** The clocks that offer the sum, or return to the next command. */
  lemma ThenSum(r: Regs, n: Regs)
    requires r.state == ImprChecksum || r.state == BuswChecksum || r.state == ImwrChecksum || r.state == BusrChecksum
    requires r.state == ImprChecksum ==> r.dataCnt == HalfValue(r.dataLength)
    requires n.state == AfterBusy(r.state) && n.txData == r.checksum && n.busAddr == r.busAddr && n.ramAddr == r.ramAddr
    ensures Moved(r, n)
  {
    hide HalfValue;
  }

  lemma ThenNothing(r: Regs, n: Regs)
    requires r.state == ImprDone || r.state == BuswDone || r.state == ImwrDone || r.state == BusrDone
    requires n.state == WaitCmd && n.busAddr == r.busAddr && n.ramAddr == r.ramAddr
    ensures Moved(r, n)
  {
  }

  lemma SendsBack(r: Regs, i: In)
    requires Busr(r.state) && !AwaitsByte(r.state) && r.state != BusrWaitData
    ensures Moved(r, EngineNext(r, i))
  {
    assert r.state == BusrDone || r.state == Sending(4) || exists j: nat :: j < 4 && r.state == Sending(j) by {
      assert r.state == BusrData0 ==> r.state == Sending(0);
      assert r.state == BusrData1 ==> r.state == Sending(1);
      assert r.state == BusrData2 ==> r.state == Sending(2);
      assert r.state == BusrData3 ==> r.state == Sending(3);
    }
    hide EngineNext, Moved, Busr, AwaitsByte, Sending;
    if j: nat :| j < 4 && r.state == Sending(j) {
      DataMoves(r, i, j);
    } else if r.state == BusrDone {
      DoneClocks(r, i);
      ThenNothing(r, EngineNext(r, i));
    } else {
      SumMoves(r, i);
    }
  }

  lemma SumMoves(r: Regs, i: In)
    requires r.state == Sending(4)
    ensures Moved(r, EngineNext(r, i))
  {
    hide EngineNext, Moved;
    SumClock(r, i);
    ThenSum(r, EngineNext(r, i));
  }

  lemma LaterSending(r: Regs, j: nat)
    requires j <= 4 && r.state == Sending(j)
    ensures Later(r) == if j < 4 then Lanes(r.busRdat, j) + [Checksum(r.checksum, Lanes(r.busRdat, j))]
            else [r.checksum]
    ensures Acts(r.state) && r.state != ImprChecksum && (j < 4 ==> AfterBusy(r.state) == Sending(j + 1))
  {
    hide Plus, Lanes, Checksum;
  }

  lemma DataMoves(r: Regs, i: In, j: nat)
    requires j < 4 && r.state == Sending(j)
    ensures Moved(r, EngineNext(r, i))
  {
    var n := EngineNext(r, i);
    hide EngineNext, Plus, Lanes, Checksum, Later, Acts, AfterBusy, Sending;
    DataClock(r, i, j);
    LaneFirst(r, j);
    LaterSending(r, j);
    LaterSending(n, j + 1);
  }

  lemma LaneFirst(r: Regs, j: nat)
    requires j < 4
    ensures var b, more := Lane(r.busRdat, j), Lanes(r.busRdat, j + 1);
            && Lanes(r.busRdat, j) == [b] + more
            && Checksum(r.checksum, Lanes(r.busRdat, j)) == Checksum(Plus(r.checksum, b), more)
            && (j == 3 ==> more == [] && Checksum(Plus(r.checksum, b), more) == Plus(r.checksum, b))
  {
    hide Plus;
    var more := Lanes(r.busRdat, j + 1);
    assert ([Lane(r.busRdat, j)] + more)[1..] == more;
  }

  /** The outputs of a state that acts on a command, after its first clock. */
  lemma BusyOutputs(n: Regs)
    requires Session(n) && Acts(n.state) && n.state != ImprChecksum
    ensures n.state != BuswChecksum && n.state != ImwrChecksum ==> WritesNow(n) == []
    ensures Replying(n.state) ==> ReplyNow(n) == [n.txData]
  {
  }

  lemma BusyClock(p: Dialog, r: Regs, i: In)
    requires Matches(p, r) && p.mode.Busy? && p.mode.resume == None
    ensures Matches(Step(p, i), EngineNext(r, i))
  {
    var n := EngineNext(r, i);
    SessionStep(r, i);
    assert Busies(r, p.mode);
    hide EngineNext, Session, InMode, WritesNow, ReplyNow, Later, Moved, Resumes, HalfValue;
    if Busr(r.state) {
      assert !AwaitsByte(r.state) && r.state != BusrWaitData;
      SendsBack(r, i);
    } else {
      EndMoves(r, i);
    }
    BusyMode(r, n, p.bank);
    MovedKeeps(r, n);
  }

  lemma MovedKeeps(r: Regs, n: Regs)
    requires Moved(r, n)
    ensures n.busAddr == r.busAddr && n.ramAddr == r.ramAddr
  {
  }

  lemma BusyMode(r: Regs, n: Regs, bank: nat)
    requires Acts(r.state) && Moved(r, n) && Session(n)
    ensures InMode(NextBusy(Later(r), None), n, bank)
  {
    hide Session, WritesNow, ReplyNow, Later, Loads, Collecting;
    if Later(r) != [] {
      AfterActs(r.state);
      BusyOutputs(n);
      hide Busr, Acts, AfterBusy;
    }
  }

  lemma AfterActs(s: State)
    requires Acts(s)
    ensures var n := AfterBusy(s); n != BuswChecksum && n != ImwrChecksum && (Acts(n) ==> Replying(n))
  {
  }

  lemma NextWord(p: Dialog, r: Regs, i: In)
    requires Matches(p, r) && p.mode.Busy? && p.mode.resume != None
    ensures Matches(Step(p, i), EngineNext(r, i))
  {
    var heard := p.mode.resume.value;
    assert Later(r) == [] && Resumes(r, heard);
    SessionStep(r, i);
    var n := ChecksumClock(r, i);
    assert heard[|heard| - (|heard| - 2) % 4..] == [] && LoadState(|heard|) == ImprWaitData0;
    hide EngineNext, Session, HalfValue, Announced, LoadState, WritesNow, ReplyNow, Later, Checksum;
  }

  lemma AskingClock(p: Dialog, r: Regs, i: In)
    requires Matches(p, r) && p.mode.Asking? && i.busRdy
    ensures Matches(Step(p, i), EngineNext(r, i))
  {
    assert r.state == BusrWaitData && r.checksum == Checksum(0, p.mode.heard);
    hide EngineNext, Session, Checksum, Answers, InMode;
    SessionStep(r, i);
    HitClock(r, i);
    Answered(EngineNext(r, i), p.mode.heard, p.bank);
  }

  lemma Answered(n: Regs, heard: seq<Byte>, bank: nat)
    requires n.state == BusrData0 && n.checksum == Checksum(0, heard) && Session(n)
    ensures InMode(Answers(heard, n.busRdat), n, bank)
  {
    var answer := BytesOf(n.busRdat);
    LanesAll(n.busRdat);
    ChecksumJoin(0, heard, answer);
    ChecksumSaid(heard + answer);
    hide Checksum, SumByte, Lanes, Loads, Collecting;
  }

  lemma BetweenClock(p: Dialog, r: Regs, i: In)
    requires Matches(p, r) && (p.mode.Closed? || p.mode.OutOfTime?)
    ensures Matches(Step(p, i), EngineNext(r, i))
  {
    hide OnByte, Session, Loads, Collecting, Busies, Checksum;
    SessionStep(r, i);
    BetweenSessions(r, i);
    if p.mode.OutOfTime? {
      OnTimeout(r, i);
    }
    hide Act;
  }

  lemma CommandClock(p: Dialog, r: Regs, i: In)
    requires Matches(p, r) && p.mode.Between?
    ensures Matches(Step(p, i), EngineNext(r, i))
  {
    assert r.state == WaitCmd && r.busVld && r.cpuRstn && Silent(r);
    assert Step(p, i) == if i.rxValid then p.(mode := ModeAfter(i.rxData)) else p;
    hide Session, InMode, Step, EngineNext, ModeAfter;
    SessionStep(r, i);
    CommandMode(r, i, p.bank);
  }

  lemma CommandMode(r: Regs, i: In, bank: nat)
    requires r.state == WaitCmd && r.busVld && r.cpuRstn && Silent(r) && r.ramAddr / 0x1_0000 == bank
    ensures var n := EngineNext(r, i);
            && n.busAddr == r.busAddr && n.ramAddr == r.ramAddr
            && InMode(if i.rxValid then ModeAfter(i.rxData) else Between, n, bank)
  {
    var b := i.rxData;
    hide EngineNext, InMode, Collecting;
    if i.rxValid && b == 0x0E {
      CommandOpens(r, i, BusWrite, bank);
    } else if i.rxValid && b == 0x0F {
      CommandOpens(r, i, BusRead, bank);
    } else if i.rxValid && b == 0x1A {
      CommandOpens(r, i, ImemWrite, bank);
    } else if i.rxValid && b == 0x05 {
      LoadOpens(r, i, bank);
    } else {
      OtherByte(r, i, bank);
    }
  }

  lemma CommandOpens(r: Regs, i: In, c: Command, bank: nat)
    requires Finished(r) && i.rxValid && i.rxData == c.Opcode() && r.ramAddr / 0x1_0000 == bank
    ensures var n := EngineNext(r, i);
            n.busAddr == r.busAddr && n.ramAddr == r.ramAddr && InMode(Gather(c, [], 0), n, bank)
  {
    OpcodeClock(r, i, c);
    hide EngineNext, Collecting;
  }

  lemma LoadOpens(r: Regs, i: In, bank: nat)
    requires r.state == WaitCmd && i.rxValid && i.rxData == 0x05
    ensures var n := EngineNext(r, i); n.busAddr == r.busAddr && n.ramAddr == r.ramAddr && InMode(Load([], 0), n, bank)
  {
    var n := EngineNext(r, i);
    assert n == r.(checksum := 0, timeout := 0, cpuRstn := false, dataCnt := 0, state := ImprWaitLenLb);
    hide EngineNext;
    NothingLoaded(n, bank);
  }

  lemma NothingLoaded(n: Regs, bank: nat)
    requires n.state == ImprWaitLenLb && n.dataCnt == 0 && n.checksum == 0 && n.timeout == 0
    ensures InMode(Load([], 0), n, bank)
  {
    hide Counted, Begins;
  }

  lemma OtherByte(r: Regs, i: In, bank: nat)
    requires r.state == WaitCmd
    requires i.rxValid ==> i.rxData != 0x05 && i.rxData != 0x0E && i.rxData != 0x0F && i.rxData != 0x1A
    ensures var n, m := EngineNext(r, i), if i.rxValid then ModeAfter(i.rxData) else Between;
            && n.busAddr == r.busAddr && n.ramAddr == r.ramAddr
            && (m == Between || m == Closed) && InMode(m, n, bank)
  {
    var n := EngineNext(r, i);
    assert n == if i.rxValid && i.rxData == 0x14 then r.(busVld := false, state := WaitSop) else r;
    hide EngineNext;
    assert (n.state == WaitCmd ==> InMode(Between, n, bank)) && (n.state == WaitSop ==> InMode(Closed, n, bank)) by {
      hide Busies, Collecting, Loads;
    }
    hide InMode;
  }

  lemma FollowsStep(p: Dialog, r: Regs, i: In)
    requires Matches(p, r)
    ensures Matches(Step(p, i), EngineNext(r, i))
  {
    hide Matches, Step, EngineNext;
    if p.mode.Load? || p.mode.Gather? {
      if i.rxValid {
        ByteClock(p, r, i);
      } else {
        Waiting(p, r, i);
      }
    } else if p.mode.Busy? {
      if p.mode.resume.None? {
        BusyClock(p, r, i);
      } else {
        NextWord(p, r, i);
      }
    } else if p.mode.Asking? {
      if i.busRdy {
        AskingClock(p, r, i);
      } else {
        Waiting(p, r, i);
      }
    } else if p.mode.Between? {
      CommandClock(p, r, i);
    } else {
      BetweenClock(p, r, i);
    }
  }

  lemma ByteClock(p: Dialog, r: Regs, i: In)
    requires Matches(p, r) && (p.mode.Load? || p.mode.Gather?) && i.rxValid
    ensures Matches(Step(p, i), EngineNext(r, i))
  {
    hide Matches, OnByte, Takes, TakesLoad, AwaitsByte, Act;
    if p.mode.Gather? {
      CommandByte(p, r, i.rxData);
    } else if |p.mode.heard| < 2 {
      LengthByte(p, r, i.rxData);
    } else if |p.mode.heard| % 4 == 1 {
      WordByte(p, r, i.rxData);
    } else {
      DataByte(p, r, i.rxData);
    }
  }

  /** Whatever arrives, and whenever, the FSM follows the protocol: it writes and replies exactly what the protocol
      says,
      in order; it requests the bus exactly while a session is open, and its bus address is the last one sent. */
  lemma {:induction false} Follows(p: Dialog, r: Regs, ins: seq<In>)
    requires Matches(p, r)
    ensures Writes(r, ins) == Written(p, ins) && Replies(r, ins) == Said(p, ins)
    ensures var p', r' := DialogAfter(p, ins), EngineRun(r, ins);
            Matches(p', r') && (r'.busVld <==> Open(p')) && r'.busAddr == p'.addr
    decreases |ins|
  {
    OpenIsRequested(p, r);
    OutputsNow(p, r);
    AddressNow(p, r);
    hide EngineNext, Step, Matches, Writing, Saying, WritesNow, ReplyNow;
    if ins != [] {
      FollowsStep(p, r, ins[0]);
      Follows(Step(p, ins[0]), EngineNext(r, ins[0]), ins[1..]);
    }
  }

  lemma AddressNow(p: Dialog, r: Regs)
    requires Matches(p, r)
    ensures r.busAddr == p.addr
  {
  }

  lemma StartMatches()
    ensures Matches(START, RESET)
  {
    SessionFromReset();
    hide Session;
  }

  lemma FollowsFromReset(ins: seq<In>)
    ensures Writes(RESET, ins) == Written(START, ins) && Replies(RESET, ins) == Said(START, ins)
    ensures var p', r' := DialogAfter(START, ins), EngineRun(RESET, ins);
            Matches(p', r') && (r'.busVld <==> Open(p')) && r'.busAddr == p'.addr
  {
    StartMatches();
    Follows(START, RESET, ins);
  }

  /** Nothing comes: no byte, and no answer to a read. */
  predicate Nobody(m: Mode, ins: seq<In>) { forall i :: i in ins ==> !i.rxValid && (m.Asking? ==> !i.busRdy) }

  lemma {:induction false} NothingSaid(p: Dialog, ins: seq<In>)
    requires p.mode == Closed && Nobody(Closed, ins)
    ensures DialogAfter(p, ins) == p && Said(p, ins) == [] && Written(p, ins) == []
    decreases |ins|
  {
    if ins != [] {
      assert ins[0] in ins;
      NothingSaid(p, ins[1..]);
    }
  }

  /** Whatever is waited for, be it a byte of any command after any others or the answer to a read: if it does not come
      within 2^21 ticks, 0x07 is sent, just once, nothing is written, and the session is over. */
  lemma {:induction false} RunsOut(p: Dialog, wait: seq<In>, more: seq<In>)
    requires (p.mode.Load? || p.mode.Gather? || p.mode.Asking?) && Nobody(p.mode, wait + more)
    requires p.mode.quiet + Ticks(wait) >= 0x20_0000 && |more| >= 2
    ensures Said(p, wait + more) == [0x07] && Written(p, wait + more) == []
    ensures DialogAfter(p, wait + more) == p.(mode := Closed)
    decreases |wait|
  {
    var ins := wait + more;
    var q := Step(p, ins[0]);
    assert ins[0] in ins;
    assert q == p.(mode := Waits(p.mode, ins[0].tick));
    if p.mode.quiet >= 0x20_0000 {
      var late := ins[1..][1..];
      assert Step(q, ins[1]) == p.(mode := Closed) && ins[1..][0] == ins[1];
      NothingSaid(p.(mode := Closed), late);
    } else {
      assert wait != [] && ins[1..] == wait[1..] + more;
      hide Step;
      RunsOut(q, wait[1..], more);
    }
  }

  lemma {:induction false} DialogJoin(p: Dialog, a: seq<In>, b: seq<In>)
    ensures DialogAfter(p, a + b) == DialogAfter(DialogAfter(p, a), b)
    ensures Said(p, a + b) == Said(p, a) + Said(DialogAfter(p, a), b)
    ensures Written(p, a + b) == Written(p, a) + Written(DialogAfter(p, a), b)
    decreases |a|
  {
    hide Step, Saying, Writing;
    if a == [] {
      assert a + b == b;
    } else {
      assert (a + b)[0] == a[0] && (a + b)[1..] == a[1..] + b;
      var q := Step(p, a[0]);
      DialogJoin(q, a[1..], b);
      Regroup(Saying(p), Said(q, a[1..]), Said(DialogAfter(q, a[1..]), b));
      Regroup(Writing(p), Written(q, a[1..]), Written(DialogAfter(q, a[1..]), b));
    }
  }

  /** So does the FSM, after any run from reset that leaves it waiting. */
  lemma TimesOut(ins: seq<In>, wait: seq<In>, more: seq<In>)
    requires var p := DialogAfter(START, ins);
             && (p.mode.Load? || p.mode.Gather? || p.mode.Asking?) && Nobody(p.mode, wait + more)
             && p.mode.quiet + Ticks(wait) >= 0x20_0000 && |more| >= 2
    ensures var all := ins + (wait + more);
            && Replies(RESET, all) == Replies(RESET, ins) + [0x07] && Writes(RESET, all) == Writes(RESET, ins)
            && !EngineRun(RESET, all).busVld
  {
    hide *;
    var p, all := DialogAfter(START, ins), ins + (wait + more);
    FollowsFromReset(ins);
    FollowsFromReset(all);
    RunsOut(p, wait, more);
    DialogJoin(START, ins, wait + more);
    assert Written(START, ins) + [] == Written(START, ins);
    assert !Open(p.(mode := Closed)) by {
      NotOpen(p);
    }
  }

  lemma NotOpen(p: Dialog)
    ensures !Open(p.(mode := Closed))
  {
  }
}
