/** Where a single-word write to instruction memory lands, told from what was loaded before it. */
module ImemBank {
  import opened Bits
  import opened CommandEngine
  import opened ProgramLoad
  import opened Commands

  const BANK: nat := 0x1_0000

  function BankOf(addr: nat): nat { addr / BANK }

  /** The 64K bank of the last word that a program load has written, `bank` being the one before the writes `log`.
      Only a program load writes with the CPU held in reset. */
  function LoadedBank(log: seq<Write>, bank: nat): nat
    decreases |log|
  {
    if log == [] then bank
    else LoadedBank(log[1..], if log[0].Write? && log[0].held then BankOf(log[0].addr) else bank)
  }

  lemma {:induction false} LoadedBankJoin(a: seq<Write>, b: seq<Write>, bank: nat)
    ensures LoadedBank(a + b, bank) == LoadedBank(b, LoadedBank(a, bank))
    decreases |a|
  {
    if a == [] {
      assert a + b == b;
    } else {
      assert (a + b)[0] == a[0] && (a + b)[1..] == a[1..] + b;
      LoadedBankJoin(a[1..], b, if a[0].Write? && a[0].held then BankOf(a[0].addr) else bank);
    }
  }

  /** The address register is kept but for the bytes that set it. */
  lemma AddressKept(r: Regs, i: In)
    requires i.rxValid ==> r.state != ImwrWaitAddr0 && r.state != ImwrWaitAddr1 && r.state != ImprWaitData3
    ensures EngineNext(r, i).ramAddr == r.ramAddr && EngineNext(r, i).state != ImprChecksum
  {
    hide OnByte, Act, Idling;
    if AwaitsByte(r.state) {
      if i.rxValid {
        KeptOnByte(r, i.rxData);
      } else {
        KeptIdling(r, i);
      }
    } else {
      KeptActing(r, i);
    }
  }

  lemma KeptOnByte(r: Regs, b: Byte)
    requires AwaitsByte(r.state) && r.state != ImwrWaitAddr0 && r.state != ImwrWaitAddr1 && r.state != ImprWaitData3
    ensures OnByte(r, b).ramAddr == r.ramAddr && OnByte(r, b).state != ImprChecksum
  {
    hide Plus, LowNibble;
  }

  lemma KeptIdling(r: Regs, i: In)
    requires r.state != ImprChecksum
    ensures Idling(r, i).ramAddr == r.ramAddr && Idling(r, i).state != ImprChecksum
  {
  }

  lemma KeptActing(r: Regs, i: In)
    requires !AwaitsByte(r.state)
    ensures Act(r, i).ramAddr == r.ramAddr && Act(r, i).state != ImprChecksum
  {
    hide Plus, HalfValue, Idling, OnCommand;
    match r.state {
      case BusrWaitData => KeptIdling(r, i);
      case WaitCmd => KeptOnCommand(r, i.rxData);
      case _ =>
    }
  }

  lemma KeptOnCommand(r: Regs, b: Byte)
    requires r.state == WaitCmd
    ensures OnCommand(r, b).ramAddr == r.ramAddr && OnCommand(r, b).state != ImprChecksum
  {
  }

  lemma AddressByte(r: Regs, i: In)
    requires Session(r) && i.rxValid && (r.state == ImwrWaitAddr0 || r.state == ImwrWaitAddr1)
    ensures BankOf(EngineNext(r, i).ramAddr) == BankOf(r.ramAddr) && EngineNext(r, i).state != ImprChecksum
  {
    hide OnByte;
    OnImemAddress(r, i.rxData);
    LowDigit(r.ramAddr, i.rxData as nat);
    HighDigit(r.ramAddr, i.rxData as nat);
  }

  lemma LoadByte(r: Regs, i: In)
    requires Session(r) && i.rxValid && r.state == ImprWaitData3
    ensures var n := EngineNext(r, i); WritesNow(n) == [Write(n.ramAddr, n.ramData, true)]
  {
    hide OnByte;
    OnLastByte(r, i.rxData);
    hide Plus;
  }

  /** A clock that is not that after the last byte of a word writes nothing for a program load. */
  lemma NoLoadWrite(n: Regs, bank: nat)
    requires Session(n) && n.state != ImprChecksum
    ensures LoadedBank(WritesNow(n), bank) == bank
  {
    assert !n.ramWen || n.cpuRstn;
  }

  /** The bank of the address register changes with the writes of program loads only. */
  lemma BankStep(r: Regs, i: In)
    requires Session(r)
    ensures var n := EngineNext(r, i); BankOf(n.ramAddr) == LoadedBank(WritesNow(n), BankOf(r.ramAddr))
  {
    var n := EngineNext(r, i);
    SessionStep(r, i);
    hide EngineNext, Session;
    if r.state == ImprWaitData3 && i.rxValid {
      LoadByte(r, i);
    } else {
      if (r.state == ImwrWaitAddr0 || r.state == ImwrWaitAddr1) && i.rxValid {
        AddressByte(r, i);
      } else {
        AddressKept(r, i);
      }
      NoLoadWrite(n, BankOf(r.ramAddr));
    }
  }

  /** Over any run it is the bank of the last word loaded. */
  lemma {:induction false} BankRun(r: Regs, ins: seq<In>, bank: nat)
    requires Session(r) && BankOf(r.ramAddr) == LoadedBank(WritesNow(r), bank)
    ensures var e := EngineRun(r, ins);
            BankOf(e.ramAddr) == LoadedBank(Writes(r, ins) + WritesNow(e), bank)
    decreases |ins|
  {
    hide EngineNext, Session, WritesNow;
    if ins == [] {
      assert Writes(r, ins) + WritesNow(r) == WritesNow(r);
    } else {
      var n, e := EngineNext(r, ins[0]), EngineRun(r, ins);
      SessionStep(r, ins[0]);
      BankStep(r, ins[0]);
      BankRun(n, ins[1..], BankOf(r.ramAddr));
      var log := Writes(n, ins[1..]) + WritesNow(e);
      assert Writes(r, ins) + WritesNow(e) == WritesNow(r) + log;
      LoadedBankJoin(WritesNow(r), log, bank);
    }
  }

  /** After any run from reset: a 0x1A command writes where it says if and only if the last word that a program load
      has written, if there is one, is one of the first 0x4000 of its program. */
  lemma WritesWhereSaid(ins: seq<In>, xs: seq<Delivery>, lo: Byte, hi: Byte, data: Word)
    requires Finished(EngineRun(RESET, ins)) && Paced(xs) && Payload(xs) == [C_IMWR] + ([lo, hi] + BytesOf(data))
    ensures var said, bank := HalfValue(Half(lo, hi)), LoadedBank(Writes(RESET, ins), 0);
            && Writes(RESET, ins + Flat(xs)) == Writes(RESET, ins) + [Write(bank * BANK + said, data, false)]
            && (bank * BANK + said == said <==> bank == 0)
  {
    hide *;
    var r := EngineRun(RESET, ins);
    SilentNow(r);
    ResetBank();
    BankRun(RESET, ins, 0);
    assert Writes(RESET, ins) + [] == Writes(RESET, ins);
    Join(RESET, ins, Flat(xs));
    ThenOneWord(r, xs, lo, hi, data);
    ZeroBank(BankOf(r.ramAddr), HalfValue(Half(lo, hi)));
  }

  lemma SilentNow(r: Regs)
    requires Finished(r)
    ensures WritesNow(r) == []
  {
  }

  lemma ResetBank()
    ensures Session(RESET) && BankOf(RESET.ramAddr) == LoadedBank(WritesNow(RESET), 0)
  {
  }

  lemma ZeroBank(bank: nat, said: nat)
    ensures bank * BANK + said == said <==> bank == 0
  {
  }

  /** Right after a complete program load it does so if and only if the program has at most 0x4000 words. */
  lemma AfterLoad(r: Regs, xs: seq<Delivery>, len: Half, program: seq<Byte>, ys: seq<Delivery>, lo: Byte, hi: Byte,
                  data: Word)
    requires Session(r) && r.state == WaitSop
    requires Payload(xs) == [C_SOP, C_IMPR, len.lo, len.hi] + program && |program| == 4 * WordCount(len)
    requires Spaced(xs[0]) && Paced(xs[1..])
    requires Paced(ys) && Payload(ys) == [C_IMWR] + ([lo, hi] + BytesOf(data))
    ensures var bank := BankOf(4 * (WordCount(len) - 1));
            && Writes(r, Flat(xs) + Flat(ys))
                 == Image(0, program) + [Write(bank * BANK + HalfValue(Half(lo, hi)), data, false)]
            && (bank == 0 <==> WordCount(len) <= 0x4000)
  {
    hide *;
    LoadThenOneWord(r, xs, len, program, ys, lo, hi, data);
    LastWordsBank(WordCount(len));
  }

  lemma LoadThenOneWord(r: Regs, xs: seq<Delivery>, len: Half, program: seq<Byte>, ys: seq<Delivery>, lo: Byte,
                        hi: Byte, data: Word)
    requires Session(r) && r.state == WaitSop
    requires Payload(xs) == [C_SOP, C_IMPR, len.lo, len.hi] + program && |program| == 4 * WordCount(len)
    requires Spaced(xs[0]) && Paced(xs[1..])
    requires Paced(ys) && Payload(ys) == [C_IMWR] + ([lo, hi] + BytesOf(data))
    ensures Writes(r, Flat(xs) + Flat(ys)) ==
              Image(0, program)
              + [Write(BankOf(4 * (WordCount(len) - 1)) * BANK + HalfValue(Half(lo, hi)), data, false)]
  {
    hide EngineNext, EngineRun, Writes, Replies, Finished, Session, Paced, Flat, Payload, Image, Checksum, Acks,
        HalfValue;
    ProgramIsLoaded(r, xs, len, program);
    hide WordCount, BankOf;
    Join(r, Flat(xs), Flat(ys));
    ThenOneWord(EngineRun(r, Flat(xs)), ys, lo, hi, data);
  }

  lemma ThenOneWord(r: Regs, ys: seq<Delivery>, lo: Byte, hi: Byte, data: Word)
    requires Finished(r) && Paced(ys) && Payload(ys) == [C_IMWR] + ([lo, hi] + BytesOf(data))
    ensures Writes(r, Flat(ys)) == [Write(BankOf(r.ramAddr) * BANK + HalfValue(Half(lo, hi)), data, false)]
  {
    hide Writes, Flat, Finished, Paced, Payload, HalfValue;
    ImemWriteCommand(r, ys, lo, hi, data);
  }

  lemma LastWordsBank(n: nat)
    requires n >= 1
    ensures BankOf(4 * (n - 1)) == 0 <==> n <= 0x4000
    ensures n == 0x4001 ==> BankOf(4 * (n - 1)) == 1
  {
  }

  /** Bytes with two quiet clocks after each. */
  function Sent(bs: seq<Byte>): (xs: seq<Delivery>)
    ensures Paced(xs) && Payload(xs) == bs
  {
    var quiet := In(false, 0, false, false, ZERO);
    var xs := seq(|bs|, k requires 0 <= k < |bs| => Delivery(In(true, bs[k], false, false, ZERO), [quiet, quiet]));
    assert Ticks([quiet]) == 0 && [quiet, quiet][..1] == [quiet];
    xs
  }

  /** Inputs that fail: any program of 0x4001 words, then the command to write to address 0, writes to 0x10000. */
  lemma WritesElsewhere(program: seq<Byte>, data: Word)
    requires |program| == 4 * 0x4001
    ensures var load, write := Sent([C_SOP, C_IMPR, 0x01, 0x40] + program), Sent([C_IMWR] + ([0, 0] + BytesOf(data)));
            Writes(RESET, Flat(load) + Flat(write)) == Image(0, program) + [Write(0x1_0000, data, false)]
  {
    var len := Half(0x01, 0x40);
    assert HalfValue(len) == 0x4001 && HalfValue(Half(0, 0)) == 0 && WordCount(len) == 0x4001;
    var load := [C_SOP, C_IMPR, len.lo, len.hi] + program;
    var xs := Sent(load);
    FirstAndRest(xs, load);
    SessionFromReset();
    LastWordsBank(WordCount(len));
    hide *;
    AfterLoad(RESET, xs, len, program, Sent([C_IMWR] + ([0, 0] + BytesOf(data))), 0, 0, data);
  }

  lemma FirstAndRest(xs: seq<Delivery>, bs: seq<Byte>)
    requires bs != [] && Paced(xs) && Payload(xs) == bs
    ensures xs != [] && Spaced(xs[0]) && Paced(xs[1..])
  {
    assert |Payload(xs)| == |xs|;
    hide Spaced, InTime;
  }
}
