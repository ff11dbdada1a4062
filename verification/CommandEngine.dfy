/** uart.sv: the FSM that loads instruction memory and masters the bus from received bytes. */
module CommandEngine {
  import opened Bits

  datatype State =
    | WaitSop | WaitCmd
    | ImprWaitLenLb | ImprWaitLenHb | ImprWaitData0 | ImprWaitData1 | ImprWaitData2 | ImprWaitData3
    | ImprChecksum | ImprDone
    | BuswWaitAddr0 | BuswWaitAddr1 | BuswWaitAddr2 | BuswWaitAddr3
    | BuswWaitData0 | BuswWaitData1 | BuswWaitData2 | BuswWaitData3 | BuswWaitWe | BuswChecksum | BuswDone
    | BusrWaitAddr0 | BusrWaitAddr1 | BusrWaitAddr2 | BusrWaitAddr3 | BusrWaitData
    | BusrData0 | BusrData1 | BusrData2 | BusrData3 | BusrChecksum | BusrDone
    | ImwrWaitAddr0 | ImwrWaitAddr1 | ImwrWaitData0 | ImwrWaitData1 | ImwrWaitData2 | ImwrWaitData3
    | ImwrChecksum | ImwrDone
    | Timeout

  const C_SOP: Byte := 0x12
  const C_EOP: Byte := 0x14
  const C_IMPR: Byte := 0x05
  const C_ACK: Byte := 0x06
  const C_TOUT: Byte := 0x07
  const C_BUSW: Byte := 0x0E
  const C_BUSR: Byte := 0x0F
  const C_IMWR: Byte := 0x1A

  /** Bit 21 of the 22-bit `timeout` counter. */
  const TIMEOUT_TICKS: nat := 0x20_0000

  /** A 16-bit register by bytes. */
  datatype Half = Half(lo: Byte, hi: Byte)

  function HalfValue(h: Half): (v: nat)
    ensures v < 0x1_0000
  {
    Value(h.lo) + 256 * Value(h.hi)
  }

  datatype Regs = Regs(state: State, cpuRstn: bool, dataLength: Half, dataCnt: nat,
                       ramWen: bool, ramAddr: nat, ramData: Word,
                       busVld: bool, busWe: bv4, busAddr: Word, busRdat: Word, busWdat: Word,
                       checksum: Byte, timeout: nat, txValid: bool, txData: Byte)

  const RESET: Regs := Regs(WaitSop, true, Half(0, 0), 0, false, 0, ZERO, false, 0, Word(0, 0, 0, 0x10), ZERO, ZERO,
                            0, 0, false, 0)

  /** The FSM's inputs in one clock: the byte strobe and byte from the receiver, the tick, the bus reply. */
  datatype In = In(rxValid: bool, rxData: Byte, tick: bool, busRdy: bool, busRdat: Word)

  /** What every waiting state does in a clock without the event it waits for. */
  function Idling(r: Regs, i: In): Regs {
    if r.timeout >= TIMEOUT_TICKS then r.(txData := C_TOUT, txValid := true, state := Timeout)
    else if i.tick then r.(timeout := r.timeout + 1)
    else r
  }

  function Reply(r: Regs, b: Byte, next: State): Regs {
    r.(txData := b, txValid := true, state := next)
  }

  /** The state that a payload byte leads to. */
  function After(s: State): State {
    match s
    case ImprWaitLenLb => ImprWaitLenHb
    case ImprWaitLenHb => ImprWaitData0
    case ImprWaitData0 => ImprWaitData1
    case ImprWaitData1 => ImprWaitData2
    case ImprWaitData2 => ImprWaitData3
    case ImprWaitData3 => ImprChecksum
    case BuswWaitAddr0 => BuswWaitAddr1
    case BuswWaitAddr1 => BuswWaitAddr2
    case BuswWaitAddr2 => BuswWaitAddr3
    case BuswWaitAddr3 => BuswWaitData0
    case BuswWaitData0 => BuswWaitData1
    case BuswWaitData1 => BuswWaitData2
    case BuswWaitData2 => BuswWaitData3
    case BuswWaitData3 => BuswWaitWe
    case BuswWaitWe => BuswChecksum
    case BusrWaitAddr0 => BusrWaitAddr1
    case BusrWaitAddr1 => BusrWaitAddr2
    case BusrWaitAddr2 => BusrWaitAddr3
    case BusrWaitAddr3 => BusrWaitData
    case ImwrWaitAddr0 => ImwrWaitAddr1
    case ImwrWaitAddr1 => ImwrWaitData0
    case ImwrWaitData0 => ImwrWaitData1
    case ImwrWaitData1 => ImwrWaitData2
    case ImwrWaitData2 => ImwrWaitData3
    case ImwrWaitData3 => ImwrChecksum
    case _ => s
  }

  function LowNibble(b: Byte): bv4 { (b & 0x0F) as bv4 }

  /** The byte `b` arrives in a state that waits for one; register by register. */
  function OnByte(r: Regs, b: Byte): Regs {
    var s := r.state;
    r.(state := After(s),
       checksum := Plus(r.checksum, b),
       timeout := if s == ImprWaitData3 then r.timeout else 0,
       dataLength := (match s case ImprWaitLenLb => r.dataLength.(lo := b) case ImprWaitLenHb => r.dataLength.(hi := b)
                              case _ => r.dataLength),
       dataCnt := if s == ImprWaitData3 then (r.dataCnt + 1) % 0x1_0000 else r.dataCnt,
       ramAddr := (match s case ImprWaitData3 => 4 * r.dataCnt
                           case ImwrWaitAddr0 => r.ramAddr / 0x100 * 0x100 + b as nat
                           case ImwrWaitAddr1 => r.ramAddr / 0x1_0000 * 0x1_0000 + b as nat * 0x100 + r.ramAddr % 0x100
                           case _ => r.ramAddr),
       ramData := (match s case ImprWaitData0 | ImwrWaitData0 => r.ramData.(b0 := b)
                           case ImprWaitData1 | ImwrWaitData1 => r.ramData.(b1 := b)
                           case ImprWaitData2 | ImwrWaitData2 => r.ramData.(b2 := b)
                           case ImprWaitData3 | ImwrWaitData3 => r.ramData.(b3 := b)
                           case _ => r.ramData),
       ramWen := if s == ImprWaitData3 || s == ImwrWaitData3 then true else r.ramWen,
       busAddr := (match s case BuswWaitAddr0 | BusrWaitAddr0 => r.busAddr.(b0 := b)
                           case BuswWaitAddr1 | BusrWaitAddr1 => r.busAddr.(b1 := b)
                           case BuswWaitAddr2 | BusrWaitAddr2 => r.busAddr.(b2 := b)
                           case BuswWaitAddr3 | BusrWaitAddr3 => r.busAddr.(b3 := b)
                           case _ => r.busAddr),
       busWdat := (match s case BuswWaitData0 => r.busWdat.(b0 := b) case BuswWaitData1 => r.busWdat.(b1 := b)
                           case BuswWaitData2 => r.busWdat.(b2 := b) case BuswWaitData3 => r.busWdat.(b3 := b)
                           case _ => r.busWdat),
       busWe := if s == BuswWaitWe then LowNibble(b) else r.busWe,
       txData := if s == ImprWaitData3 then C_ACK else r.txData,
       txValid := if s == ImprWaitData3 then true else r.txValid)
  }

  lemma NextState(r: Regs, b: Byte)
    ensures OnByte(r, b).state == After(r.state)
  {
  }

  function OnCommand(r: Regs, b: Byte): Regs {
    var start := r.(checksum := 0, timeout := 0);
    if b == C_IMPR then start.(cpuRstn := false, dataCnt := 0, state := ImprWaitLenLb)
    else if b == C_BUSW then start.(state := BuswWaitAddr0)
    else if b == C_BUSR then start.(state := BusrWaitAddr0)
    else if b == C_IMWR then start.(state := ImwrWaitAddr0)
    else if b == C_EOP then r.(busVld := false, state := WaitSop)
    else r
  }

  /** The states that wait for a payload byte. */
  predicate AwaitsByte(s: State) {
    match s
    case ImprWaitLenLb | ImprWaitLenHb | ImprWaitData0 | ImprWaitData1 | ImprWaitData2 | ImprWaitData3
      | BuswWaitAddr0 | BuswWaitAddr1 | BuswWaitAddr2 | BuswWaitAddr3
      | BuswWaitData0 | BuswWaitData1 | BuswWaitData2 | BuswWaitData3 | BuswWaitWe
      | BusrWaitAddr0 | BusrWaitAddr1 | BusrWaitAddr2 | BusrWaitAddr3
      | ImwrWaitAddr0 | ImwrWaitAddr1 | ImwrWaitData0 | ImwrWaitData1 | ImwrWaitData2 | ImwrWaitData3 => true
    case _ => false
  }

  /** The combinational next-state logic. */
  function EngineNext(r: Regs, i: In): Regs {
    if AwaitsByte(r.state) then (if i.rxValid then OnByte(r, i.rxData) else Idling(r, i)) else Act(r, i)
  }

  /** The states that do not wait for a payload byte. */
  function Act(r: Regs, i: In): Regs {
    match r.state
    case WaitSop => if i.rxValid && i.rxData == C_SOP then r.(busVld := true, state := WaitCmd) else r
    case WaitCmd => if i.rxValid then OnCommand(r, i.rxData) else r
    case ImprChecksum =>
      if r.dataCnt == HalfValue(r.dataLength) then Reply(r, r.checksum, ImprDone).(ramWen := false)
      else r.(ramWen := false, txValid := false, timeout := 0, state := ImprWaitData0)
    case ImprDone => r.(cpuRstn := true, txValid := false, state := WaitCmd)
    case BuswChecksum => Reply(r, r.checksum, BuswDone).(busWe := 0)
    case BusrWaitData => if i.busRdy then r.(busRdat := i.busRdat, timeout := 0, state := BusrData0) else Idling(r, i)
    case BusrData0 => Reply(r, r.busRdat.b0, BusrData1).(checksum := Plus(r.checksum, r.busRdat.b0))
    case BusrData1 => Reply(r, r.busRdat.b1, BusrData2).(checksum := Plus(r.checksum, r.busRdat.b1))
    case BusrData2 => Reply(r, r.busRdat.b2, BusrData3).(checksum := Plus(r.checksum, r.busRdat.b2))
    case BusrData3 => Reply(r, r.busRdat.b3, BusrChecksum).(checksum := Plus(r.checksum, r.busRdat.b3))
    case BusrChecksum => Reply(r, r.checksum, BusrDone)
    case ImwrChecksum => Reply(r, r.checksum, ImwrDone).(ramWen := false)
    case BuswDone | BusrDone | ImwrDone => r.(txValid := false, state := WaitCmd)
    case Timeout => r.(txValid := false, ramWen := false, cpuRstn := true, busVld := false, state := WaitSop)
    case _ => r
  }

  // The registers that change in some of the states, for the methods below.

  lemma OnLastByte(r: Regs, b: Byte)
    requires r.state == ImprWaitData3
    ensures OnByte(r, b) == r.(state := ImprChecksum, checksum := Plus(r.checksum, b),
                               dataCnt := (r.dataCnt + 1) % 0x1_0000,
                               ramAddr := 4 * r.dataCnt, ramData := r.ramData.(b3 := b), ramWen := true,
                               txData := C_ACK, txValid := true)
  {
    hide Plus;
  }

  function Summed(r: Regs, b: Byte, next: State): Regs {
    r.(state := next, checksum := Plus(r.checksum, b), timeout := 0)
  }

  lemma OnImemData(r: Regs, b: Byte)
    requires r.state == ImwrWaitData0 || r.state == ImwrWaitData1 || r.state == ImwrWaitData2
             || r.state == ImwrWaitData3
    ensures OnByte(r, b) ==
              if r.state == ImwrWaitData0 then Summed(r, b, ImwrWaitData1).(ramData := r.ramData.(b0 := b))
              else if r.state == ImwrWaitData1 then Summed(r, b, ImwrWaitData2).(ramData := r.ramData.(b1 := b))
              else if r.state == ImwrWaitData2 then Summed(r, b, ImwrWaitData3).(ramData := r.ramData.(b2 := b))
              else Summed(r, b, ImwrChecksum).(ramData := r.ramData.(b3 := b), ramWen := true)
  {
    hide Plus;
  }

  lemma OnBusWriteData(r: Regs, b: Byte)
    requires r.state == BuswWaitData0 || r.state == BuswWaitData1 || r.state == BuswWaitData2
             || r.state == BuswWaitData3
    ensures OnByte(r, b) ==
              if r.state == BuswWaitData0 then Summed(r, b, BuswWaitData1).(busWdat := r.busWdat.(b0 := b))
              else if r.state == BuswWaitData1 then Summed(r, b, BuswWaitData2).(busWdat := r.busWdat.(b1 := b))
              else if r.state == BuswWaitData2 then Summed(r, b, BuswWaitData3).(busWdat := r.busWdat.(b2 := b))
              else Summed(r, b, BuswWaitWe).(busWdat := r.busWdat.(b3 := b))
  {
    hide Plus;
  }

  lemma OnBusWriteAddress(r: Regs, b: Byte)
    requires r.state == BuswWaitAddr0 || r.state == BuswWaitAddr1 || r.state == BuswWaitAddr2
             || r.state == BuswWaitAddr3
    ensures OnByte(r, b) ==
              if r.state == BuswWaitAddr0 then Summed(r, b, BuswWaitAddr1).(busAddr := r.busAddr.(b0 := b))
              else if r.state == BuswWaitAddr1 then Summed(r, b, BuswWaitAddr2).(busAddr := r.busAddr.(b1 := b))
              else if r.state == BuswWaitAddr2 then Summed(r, b, BuswWaitAddr3).(busAddr := r.busAddr.(b2 := b))
              else Summed(r, b, BuswWaitData0).(busAddr := r.busAddr.(b3 := b))
  {
    hide Plus;
  }

  lemma OnBusReadAddress(r: Regs, b: Byte)
    requires r.state == BusrWaitAddr0 || r.state == BusrWaitAddr1 || r.state == BusrWaitAddr2
             || r.state == BusrWaitAddr3
    ensures OnByte(r, b) ==
              if r.state == BusrWaitAddr0 then Summed(r, b, BusrWaitAddr1).(busAddr := r.busAddr.(b0 := b))
              else if r.state == BusrWaitAddr1 then Summed(r, b, BusrWaitAddr2).(busAddr := r.busAddr.(b1 := b))
              else if r.state == BusrWaitAddr2 then Summed(r, b, BusrWaitAddr3).(busAddr := r.busAddr.(b2 := b))
              else Summed(r, b, BusrWaitData).(busAddr := r.busAddr.(b3 := b))
  {
    hide Plus;
  }

  lemma OnBusWriteEnables(r: Regs, b: Byte)
    requires r.state == BuswWaitWe
    ensures OnByte(r, b) == Summed(r, b, BuswChecksum).(busWe := LowNibble(b))
  {
    hide Plus, LowNibble;
  }

  lemma OnImemAddress(r: Regs, b: Byte)
    requires r.state == ImwrWaitAddr0 || r.state == ImwrWaitAddr1
    ensures OnByte(r, b) ==
              var a := r.ramAddr;
              if r.state == ImwrWaitAddr0 then Summed(r, b, ImwrWaitAddr1).(ramAddr := a / 0x100 * 0x100 + b as nat)
              else Summed(r, b, ImwrWaitData0).(ramAddr := a / 0x1_0000 * 0x1_0000 + b as nat * 0x100 + a % 0x100)
  {
    hide Plus;
  }

  lemma OnTimeout(r: Regs, i: In)
    requires r.state == Timeout
    ensures Act(r, i) == r.(txValid := false, ramWen := false, cpuRstn := true, busVld := false, state := WaitSop)
  {
  }

  lemma BetweenSessions(r: Regs, i: In)
    ensures r.state == WaitCmd ==> Act(r, i) == if i.rxValid then OnCommand(r, i.rxData) else r
    ensures r.state == WaitSop ==>
              Act(r, i) == if i.rxValid && i.rxData == C_SOP then r.(busVld := true, state := WaitCmd) else r
  {
    hide OnCommand;
  }

  /** The registers, and the next-state process over them, state by state. */
  class Engine {
    var state: State
    var cpuRstn: bool
    var dataLength: Half
    var dataCnt: nat
    var ramWen: bool
    var ramAddr: nat
    var ramData: Word
    var busVld: bool
    var busWe: bv4
    var busAddr: Word
    var busRdat: Word
    var busWdat: Word
    var checksum: Byte
    var timeout: nat
    var txValid: bool
    var txData: Byte

    function View(): Regs
      reads this
    {
      Regs(state, cpuRstn, dataLength, dataCnt, ramWen, ramAddr, ramData, busVld, busWe, busAddr, busRdat, busWdat,
           checksum, timeout, txValid, txData)
    }

    constructor ()
      ensures View() == RESET
    {
      state, cpuRstn, busVld, ramWen, txValid := WaitSop, true, false, false, false;
      dataLength, dataCnt, ramAddr, ramData := Half(0, 0), 0, 0, ZERO;
      busWe, busAddr, busRdat, busWdat := 0, Word(0, 0, 0, 0x10), ZERO, ZERO;
      checksum, timeout, txData := 0, 0, 0;
    }

    /** A waiting state without its event: time runs out, or passes. */
    method Idle(i: In)
      modifies `state, `timeout, `txData, `txValid
      ensures View() == Idling(old(View()), i)
    {
      if timeout >= TIMEOUT_TICKS {
        SendReply(C_TOUT, Timeout);
      } else if i.tick {
        timeout := timeout + 1;
      }
    }

    method SendReply(b: Byte, next: State)
      modifies `state, `txData, `txValid
      ensures View() == Reply(old(View()), b, next)
    {
      txData, txValid, state := b, true, next;
    }

    /** A byte is summed up; the wait for the next one starts. */
    method TakeByte(b: Byte, next: State)
      modifies `state, `checksum, `timeout
      ensures View() == Summed(old(View()), b, next)
    {
      checksum, timeout, state := Plus(checksum, b), 0, next;
    }

    method Finish()
      modifies `state, `txValid
      ensures View() == old(View()).(state := WaitCmd, txValid := false)
    {
      txValid, state := false, WaitCmd;
    }

    /** The states between commands. */
    method Command(i: In)
      requires state == WaitSop || state == WaitCmd
      modifies this
      ensures View() == Act(old(View()), i)
    {
      hide Act;
      BetweenSessions(View(), i);
      if state == WaitSop {
        if i.rxValid && i.rxData == C_SOP {
          busVld, state := true, WaitCmd;
        }
      } else if i.rxValid && i.rxData == C_IMPR {
        cpuRstn, dataCnt, checksum, timeout, state := false, 0, 0, 0, ImprWaitLenLb;
      } else if i.rxValid && i.rxData == C_BUSW {
        checksum, timeout, state := 0, 0, BuswWaitAddr0;
      } else if i.rxValid && i.rxData == C_BUSR {
        checksum, timeout, state := 0, 0, BusrWaitAddr0;
      } else if i.rxValid && i.rxData == C_IMWR {
        checksum, timeout, state := 0, 0, ImwrWaitAddr0;
      } else if i.rxValid && i.rxData == C_EOP {
        busVld, state := false, WaitSop;
      }
    }

    /** The states of a program load that take a byte of the length; of the data. */
    method LengthByte(b: Byte)
      requires state == ImprWaitLenLb || state == ImprWaitLenHb
      modifies this
      ensures View() == OnByte(old(View()), b)
    {
      hide Plus;
      if state == ImprWaitLenLb {
        dataLength := dataLength.(lo := b);
        TakeByte(b, ImprWaitLenHb);
      } else {
        dataLength := dataLength.(hi := b);
        TakeByte(b, ImprWaitData0);
      }
    }

    method LoadByte(b: Byte)
      requires state == ImprWaitData0 || state == ImprWaitData1 || state == ImprWaitData2 || state == ImprWaitData3
      modifies this
      ensures View() == OnByte(old(View()), b)
    {
      hide Plus;
      if state == ImprWaitData0 {
        ramData := ramData.(b0 := b);
        TakeByte(b, ImprWaitData1);
      } else if state == ImprWaitData1 {
        ramData := ramData.(b1 := b);
        TakeByte(b, ImprWaitData2);
      } else if state == ImprWaitData2 {
        ramData := ramData.(b2 := b);
        TakeByte(b, ImprWaitData3);
      } else {
        LastByte(b);
      }
    }

    /** The byte that completes a word: it is written and acknowledged; the timeout is not reset here. */
    method LastByte(b: Byte)
      requires state == ImprWaitData3
      modifies this
      ensures View() == OnByte(old(View()), b)
    {
      hide OnByte, Plus;
      OnLastByte(View(), b);
      ramData := ramData.(b3 := b);
      checksum := Plus(checksum, b);
      ramAddr, ramWen := 4 * dataCnt, true;
      dataCnt := (dataCnt + 1) % 0x1_0000;
      SendReply(C_ACK, ImprChecksum);
    }

    method LoadEnds(i: In)
      requires state == ImprChecksum || state == ImprDone
      modifies this
      ensures View() == Act(old(View()), i)
    {
      if state == ImprDone {
        cpuRstn := true;
        Finish();
      } else if dataCnt == HalfValue(dataLength) {
        ramWen := false;
        SendReply(checksum, ImprDone);
      } else {
        ramWen, txValid, timeout, state := false, false, 0, ImprWaitData0;
      }
    }

    /** The states of a bus write that take a byte of the address; of the data; the enables. */
    method BusWriteAddress(b: Byte)
      requires state == BuswWaitAddr0 || state == BuswWaitAddr1 || state == BuswWaitAddr2 || state == BuswWaitAddr3
      modifies this
      ensures View() == OnByte(old(View()), b)
    {
      hide OnByte, Plus;
      OnBusWriteAddress(View(), b);
      if state == BuswWaitAddr0 {
        busAddr := busAddr.(b0 := b);
        TakeByte(b, BuswWaitAddr1);
      } else if state == BuswWaitAddr1 {
        busAddr := busAddr.(b1 := b);
        TakeByte(b, BuswWaitAddr2);
      } else if state == BuswWaitAddr2 {
        busAddr := busAddr.(b2 := b);
        TakeByte(b, BuswWaitAddr3);
      } else {
        busAddr := busAddr.(b3 := b);
        TakeByte(b, BuswWaitData0);
      }
    }

    method BusWriteData(b: Byte)
      requires state == BuswWaitData0 || state == BuswWaitData1 || state == BuswWaitData2 || state == BuswWaitData3
      modifies this
      ensures View() == OnByte(old(View()), b)
    {
      hide OnByte, Plus;
      OnBusWriteData(View(), b);
      if state == BuswWaitData0 {
        busWdat := busWdat.(b0 := b);
        TakeByte(b, BuswWaitData1);
      } else if state == BuswWaitData1 {
        busWdat := busWdat.(b1 := b);
        TakeByte(b, BuswWaitData2);
      } else if state == BuswWaitData2 {
        busWdat := busWdat.(b2 := b);
        TakeByte(b, BuswWaitData3);
      } else {
        busWdat := busWdat.(b3 := b);
        TakeByte(b, BuswWaitWe);
      }
    }

    method BusWriteEnables(b: Byte)
      requires state == BuswWaitWe
      modifies this
      ensures View() == OnByte(old(View()), b)
    {
      hide Plus, LowNibble, OnByte;
      OnBusWriteEnables(View(), b);
      busWe := LowNibble(b);
      TakeByte(b, BuswChecksum);
    }

    /** The states of a bus read that take a byte. */
    method BusReadAddress(b: Byte)
      requires state == BusrWaitAddr0 || state == BusrWaitAddr1 || state == BusrWaitAddr2 || state == BusrWaitAddr3
      modifies this
      ensures View() == OnByte(old(View()), b)
    {
      hide OnByte, Plus;
      OnBusReadAddress(View(), b);
      if state == BusrWaitAddr0 {
        busAddr := busAddr.(b0 := b);
        TakeByte(b, BusrWaitAddr1);
      } else if state == BusrWaitAddr1 {
        busAddr := busAddr.(b1 := b);
        TakeByte(b, BusrWaitAddr2);
      } else if state == BusrWaitAddr2 {
        busAddr := busAddr.(b2 := b);
        TakeByte(b, BusrWaitAddr3);
      } else {
        busAddr := busAddr.(b3 := b);
        TakeByte(b, BusrWaitData);
      }
    }

    /** The states of the bus commands that take none. */
    method BusWriteEnds(i: In)
      requires state == BuswChecksum || state == BuswDone
      modifies this
      ensures View() == Act(old(View()), i)
    {
      if state == BuswChecksum {
        busWe := 0;
        SendReply(checksum, BuswDone);
      } else {
        Finish();
      }
    }

    method BusReads(i: In)
      requires state == BusrWaitData
      modifies this
      ensures View() == Act(old(View()), i)
    {
      if i.busRdy {
        busRdat, timeout, state := i.busRdat, 0, BusrData0;
      } else {
        Idle(i);
      }
    }

    method BusReadEnds(i: In)
      requires Busr(state) && !AwaitsByte(state) && state != BusrWaitData
      modifies this
      ensures View() == Act(old(View()), i)
    {
      hide Plus;
      if state == BusrData0 {
        ReadBack(busRdat.b0, BusrData1);
      } else if state == BusrData1 {
        ReadBack(busRdat.b1, BusrData2);
      } else if state == BusrData2 {
        ReadBack(busRdat.b2, BusrData3);
      } else if state == BusrData3 {
        ReadBack(busRdat.b3, BusrChecksum);
      } else if state == BusrChecksum {
        SendReply(checksum, BusrDone);
      } else {
        Finish();
      }
    }

    method ReadBack(b: Byte, next: State)
      modifies `state, `txData, `txValid, `checksum
      ensures View() == Reply(old(View()), b, next).(checksum := Plus(old(checksum), b))
    {
      checksum := Plus(checksum, b);
      SendReply(b, next);
    }

    /** The states of a single-word write to instruction memory that take a byte of the address; of the data. */
    method ImemAddress(b: Byte)
      requires state == ImwrWaitAddr0 || state == ImwrWaitAddr1
      modifies this
      ensures View() == OnByte(old(View()), b)
    {
      hide OnByte, Plus;
      OnImemAddress(View(), b);
      if state == ImwrWaitAddr0 {
        ramAddr := ramAddr / 0x100 * 0x100 + b as nat;
        TakeByte(b, ImwrWaitAddr1);
      } else {
        ramAddr := ramAddr / 0x1_0000 * 0x1_0000 + b as nat * 0x100 + ramAddr % 0x100;
        TakeByte(b, ImwrWaitData0);
      }
    }

    method ImemData(b: Byte)
      requires state == ImwrWaitData0 || state == ImwrWaitData1 || state == ImwrWaitData2 || state == ImwrWaitData3
      modifies this
      ensures View() == OnByte(old(View()), b)
    {
      hide OnByte, Plus;
      OnImemData(View(), b);
      if state == ImwrWaitData0 {
        ramData := ramData.(b0 := b);
        TakeByte(b, ImwrWaitData1);
      } else if state == ImwrWaitData1 {
        ramData := ramData.(b1 := b);
        TakeByte(b, ImwrWaitData2);
      } else if state == ImwrWaitData2 {
        ramData := ramData.(b2 := b);
        TakeByte(b, ImwrWaitData3);
      } else {
        ramData := ramData.(b3 := b);
        ramWen := true;
        TakeByte(b, ImwrChecksum);
      }
    }

    method ImemEnds(i: In)
      requires Imwr(state) && !AwaitsByte(state)
      modifies this
      ensures View() == Act(old(View()), i)
    {
      if state == ImwrChecksum {
        ramWen := false;
        SendReply(checksum, ImwrDone);
      } else {
        Finish();
      }
    }

    /** A payload byte. */
    method Take(b: Byte)
      requires AwaitsByte(state)
      modifies this
      ensures View() == OnByte(old(View()), b)
    {
      hide OnByte;
      if state == ImprWaitLenLb || state == ImprWaitLenHb {
        LengthByte(b);
      } else if Impr(state) {
        LoadByte(b);
      } else if state == BuswWaitAddr0 || state == BuswWaitAddr1 || state == BuswWaitAddr2 || state == BuswWaitAddr3 {
        BusWriteAddress(b);
      } else if state == BuswWaitWe {
        BusWriteEnables(b);
      } else if Busw(state) {
        BusWriteData(b);
      } else if Busr(state) {
        BusReadAddress(b);
      } else if state == ImwrWaitAddr0 || state == ImwrWaitAddr1 {
        ImemAddress(b);
      } else {
        ImemData(b);
      }
    }

    /** One rising clock edge. */
    method Clock(i: In)
      modifies this
      ensures View() == EngineNext(old(View()), i)
    {
      hide OnByte, Idling, Act;
      if AwaitsByte(state) {
        if i.rxValid {
          Take(i.rxData);
        } else {
          Idle(i);
        }
      } else if Impr(state) {
        LoadEnds(i);
      } else if Busw(state) {
        BusWriteEnds(i);
      } else if state == BusrWaitData {
        BusReads(i);
      } else if Busr(state) {
        BusReadEnds(i);
      } else if Imwr(state) {
        ImemEnds(i);
      } else if state == Timeout {
        TimesOut(i);
      } else {
        Command(i);
      }
    }

    method TimesOut(i: In)
      requires state == Timeout
      modifies `state, `txValid, `ramWen, `cpuRstn, `busVld
      ensures View() == Act(old(View()), i)
    {
      hide Act;
      OnTimeout(View(), i);
      txValid, ramWen, cpuRstn, busVld, state := false, false, true, false, WaitSop;
    }
  }

  predicate Busw(s: State) {
    match s
    case BuswWaitAddr0 | BuswWaitAddr1 | BuswWaitAddr2 | BuswWaitAddr3 | BuswWaitData0 | BuswWaitData1 | BuswWaitData2
      | BuswWaitData3 | BuswWaitWe | BuswChecksum | BuswDone => true
    case _ => false
  }

  predicate Busr(s: State) {
    match s
    case BusrWaitAddr0 | BusrWaitAddr1 | BusrWaitAddr2 | BusrWaitAddr3 | BusrWaitData
      | BusrData0 | BusrData1 | BusrData2 | BusrData3 | BusrChecksum | BusrDone => true
    case _ => false
  }

  predicate Imwr(s: State) {
    match s
    case ImwrWaitAddr0 | ImwrWaitAddr1 | ImwrWaitData0 | ImwrWaitData1 | ImwrWaitData2 | ImwrWaitData3 | ImwrChecksum
      | ImwrDone => true
    case _ => false
  }

  predicate Impr(s: State) {
    match s
    case ImprWaitLenLb | ImprWaitLenHb | ImprWaitData0 | ImprWaitData1 | ImprWaitData2 | ImprWaitData3
      | ImprChecksum | ImprDone => true
    case _ => false
  }

  /** The states in which a reply byte is offered to the TX FIFO. */
  predicate Replying(s: State) {
    match s
    case ImprChecksum | ImprDone | BuswDone | BusrData1 | BusrData2 | BusrData3 | BusrChecksum | BusrDone
      | ImwrDone | Timeout => true
    case _ => false
  }

  /** What holds of the registers in every clock. */
  predicate Session(r: Regs) {
    && (r.busVld <==> r.state != WaitSop)
    && (r.ramWen <==> r.state == ImprChecksum || r.state == ImwrChecksum)
    && (r.busWe != 0 ==> r.state == BuswChecksum)
    && (Impr(r.state) ==> !r.cpuRstn) && (!r.cpuRstn ==> Impr(r.state) || r.state == Timeout)
    && (r.txValid <==> Replying(r.state))
    && r.timeout <= TIMEOUT_TICKS
    && r.dataCnt < 0x1_0000
  }

  lemma SessionOnByte(r: Regs, b: Byte)
    requires Session(r) && AwaitsByte(r.state)
    ensures Session(OnByte(r, b)) && OnByte(r, b).state != Timeout
  {
  }

  lemma SessionOnCommand(r: Regs, b: Byte)
    requires Session(r) && r.state == WaitCmd
    ensures Session(OnCommand(r, b))
  {
  }

  lemma SessionAct(r: Regs, i: In)
    requires Session(r) && !AwaitsByte(r.state)
    ensures Session(Act(r, i))
  {
    hide OnCommand, Idling, Plus, HalfValue;
    match r.state {
      case WaitCmd => SessionOnCommand(r, i.rxData);
      case BusrWaitData => SessionIdling(r, i);
      case BusrData0 | BusrData1 | BusrData2 | BusrData3 | BusrChecksum | BusrDone => SessionReadBack(r, i);
      case _ =>
    }
  }

  lemma SessionReadBack(r: Regs, i: In)
    requires Session(r)
    requires Busr(r.state) && !AwaitsByte(r.state) && r.state != BusrWaitData
    ensures Session(Act(r, i))
  {
    hide Plus;
  }

  lemma SessionIdling(r: Regs, i: In)
    requires Session(r) && (AwaitsByte(r.state) || r.state == BusrWaitData)
    ensures Session(Idling(r, i))
  {
  }

  lemma SessionStep(r: Regs, i: In)
    requires Session(r)
    ensures Session(EngineNext(r, i))
  {
    if !AwaitsByte(r.state) {
      SessionAct(r, i);
    } else if i.rxValid {
      SessionOnByte(r, i.rxData);
    } else {
      SessionIdling(r, i);
    }
  }

  /** The CPU is in reset in the TIMEOUT state exactly when a program load has just timed out. */
  lemma TimeoutKeepsReset(r: Regs, i: In)
    requires Session(r) && EngineNext(r, i).state == Timeout
    ensures EngineNext(r, i).cpuRstn == r.cpuRstn && (r.cpuRstn <==> !Impr(r.state))
  {
  }

  /** A state that offers a reply byte lasts one clock, so no byte is pushed twice. */
  lemma RepliesOnce(r: Regs, i: In)
    requires Replying(r.state)
    ensures EngineNext(r, i).state != r.state
  {
    hide Plus, HalfValue, Idling, OnCommand, OnByte;
  }

  function EngineRun(r: Regs, ins: seq<In>): Regs
    decreases |ins|
  {
    if ins == [] then r else EngineRun(EngineNext(r, ins[0]), ins[1..])
  }

  lemma {:induction false} SessionRun(r: Regs, ins: seq<In>)
    requires Session(r)
    ensures Session(EngineRun(r, ins))
    decreases |ins|
  {
    if ins == [] {
    } else {
      SessionStep(r, ins[0]);
      SessionRun(EngineNext(r, ins[0]), ins[1..]);
    }
  }

  lemma SessionFromReset()
    ensures Session(RESET)
  {
  }

  /** The session invariant holds after any input from reset. */
  lemma SessionAlways(ins: seq<In>)
    ensures Session(EngineRun(RESET, ins))
  {
    SessionFromReset();
    SessionRun(RESET, ins);
  }
}
