/** f_mem_model.v: the burst read port, without stalls and without the read queue. */
module BurstRead {
  import opened Bits

  /** The registers after a whole clock, both edges. `wait` and `nextWait` are the wait request and its next
      value; a word moves from `fetched` through `dataInt` to `data`. */
  datatype Port = Port(rxCount: nat, rdAddr: nat, validInt: bool, valid: bool, dataInt: Word, data: Word, fetched: Word,
                       wait: bool, nextWait: bool)

  /** One clock: the read command, if the write port is idle, and what the memory returns if it is read. */
  datatype In = In(read: bool, burst: nat, addr: nat, txIdle: bool, memory: Word)

  predicate Accepts(s: Port, i: In) { i.read && !s.nextWait }

  /** Count and address once a new command has been latched. */
  function Count(s: Port, i: In): nat { if Accepts(s, i) then i.burst + 1 else s.rxCount }
  function Address(s: Port, i: In): nat { if Accepts(s, i) then i.addr else s.rdAddr }

  function Next(s: Port, i: In): Port {
    var c := Count(s, i);
    Port(if c > 0 then c - 1 else 0, if c > 0 then (Address(s, i) + 4) % ADDR_SPACE else Address(s, i),
         s.rxCount != 0, s.validInt, s.fetched, s.dataInt, if c > 0 then i.memory else s.fetched,
         s.nextWait, !(i.txIdle && c <= 1))
  }

  class ReadPort {
    var rxCount: nat
    var rdAddr: nat
    var validInt: bool
    var valid: bool
    var dataInt: Word
    var data: Word
    var fetched: Word
    var wait: bool
    var nextWait: bool

    function View(): Port
      reads this
    {
      Port(rxCount, rdAddr, validInt, valid, dataInt, data, fetched, wait, nextWait)
    }

    constructor ()
      ensures rxCount == 0 && !validInt && !valid && !wait && !nextWait
    {
      rxCount, rdAddr, validInt, valid, wait, nextWait := 0, 0, false, false, false, false;
      dataInt, data, fetched := ZERO, ZERO, ZERO;
    }

    /** The rising edge moves the pipeline on. */
    method RisingEdge()
      modifies `validInt, `valid, `dataInt, `data, `wait
      ensures valid == old(validInt) && data == old(dataInt) && dataInt == fetched
      ensures validInt == (rxCount != 0) && wait == nextWait
    {
      valid := validInt;
      validInt := rxCount != 0;
      data := dataInt;
      dataInt := fetched;
      wait := nextWait;
    }

    /** The falling edge latches a command and fetches. */
    method FallingEdge(i: In)
      modifies `rxCount, `rdAddr, `fetched, `nextWait
      ensures var c := if i.read && !wait then i.burst + 1 else old(rxCount);
              var a := if i.read && !wait then i.addr else old(rdAddr);
              && rxCount == (if c > 0 then c - 1 else 0) && rdAddr == (if c > 0 then (a + 4) % ADDR_SPACE else a)
              && fetched == (if c > 0 then i.memory else old(fetched)) && nextWait == !(i.txIdle && c <= 1)
    {
      if i.read && !wait {
        rxCount := i.burst + 1;
        rdAddr := i.addr;
      }
      nextWait := !(i.txIdle && rxCount <= 1);
      if rxCount != 0 {
        fetched := i.memory;
        rxCount := rxCount - 1;
        rdAddr := (rdAddr + 4) % ADDR_SPACE;
      }
    }

    method Clock(i: In)
      modifies this
      ensures View() == Next(old(View()), i)
    {
      RisingEdge();
      FallingEdge(i);
    }
  }

  /** A command is accepted only when the last fetch of the one before has been made. */
  predicate Inv(s: Port) { !s.nextWait ==> s.rxCount == 0 }

  /** A word with the address that it was fetched from. */
  datatype Item = Item(addr: nat, data: Word)

  /** The addresses of `n` words from `a` on. */
  function Addresses(a: nat, n: nat): seq<nat>
    decreases n
  {
    if n == 0 then [] else [a] + Addresses((a + 4) % ADDR_SPACE, n - 1)
  }

  /** The addresses of accepted commands that are still to be fetched; the surplus fetch is not among them. */
  function ToFetch(s: Port): seq<nat> {
    if s.rxCount == 0 then [] else Addresses(s.rdAddr, s.rxCount - 1)
  }

  /** The words fetched for accepted commands that have not been put out yet. */
  function InFlight(s: Port): seq<Word> {
    (if s.validInt then [s.dataInt] else []) + (if s.rxCount != 0 then [s.fetched] else [])
  }

  /** In one clock: the addresses asked for by an accepted command, the fetch for it, and the word put out. */
  function Asked(s: Port, i: In): seq<nat> { if Accepts(s, i) then Addresses(i.addr, i.burst) else [] }

  /** The fetch that leaves the count at 0 is the surplus one. */
  function Fetch(s: Port, i: In): seq<Item> { if Count(s, i) > 1 then [Item(Address(s, i), i.memory)] else [] }

  function Output(s: Port, i: In): seq<Word> { if Next(s, i).valid then [Next(s, i).data] else [] }

  lemma PortStep(s: Port, i: In)
    requires Inv(s)
    ensures Inv(Next(s, i))
    ensures ToFetch(s) + Asked(s, i) == Places(Fetch(s, i)) + ToFetch(Next(s, i))
    ensures InFlight(s) + Datas(Fetch(s, i)) == Output(s, i) + InFlight(Next(s, i))
  {
  }

  function Places(items: seq<Item>): seq<nat> { seq(|items|, k requires 0 <= k < |items| => items[k].addr) }
  function Datas(items: seq<Item>): seq<Word> { seq(|items|, k requires 0 <= k < |items| => items[k].data) }

  lemma SameCount(items: seq<Item>)
    ensures |Places(items)| == |Datas(items)|
  {
  }

  lemma Append(a: seq<Item>, b: seq<Item>)
    ensures Places(a + b) == Places(a) + Places(b) && Datas(a + b) == Datas(a) + Datas(b)
  {
  }

  function Run(s: Port, ins: seq<In>): Port
    decreases |ins|
  {
    if ins == [] then s else Run(Next(s, ins[0]), ins[1..])
  }

  /** Over a run: the addresses that the accepted bursts ask for, the fetches made for them, the valid words. */
  function AllAsked(s: Port, ins: seq<In>): seq<nat>
    decreases |ins|
  {
    if ins == [] then [] else Asked(s, ins[0]) + AllAsked(Next(s, ins[0]), ins[1..])
  }

  function AllFetched(s: Port, ins: seq<In>): seq<Item>
    decreases |ins|
  {
    if ins == [] then [] else Fetch(s, ins[0]) + AllFetched(Next(s, ins[0]), ins[1..])
  }

  function AllOutput(s: Port, ins: seq<In>): seq<Word>
    decreases |ins|
  {
    if ins == [] then [] else Output(s, ins[0]) + AllOutput(Next(s, ins[0]), ins[1..])
  }

  /** Every accepted burst is fetched word by word, once, in order and without mixing with another. */
  lemma {:induction false} FetchedInOrder(s: Port, ins: seq<In>)
    requires Inv(s)
    ensures ToFetch(s) + AllAsked(s, ins) == Places(AllFetched(s, ins)) + ToFetch(Run(s, ins))
    ensures Inv(Run(s, ins))
    decreases |ins|
  {
    if ins == [] {
    } else {
      var s', i := Next(s, ins[0]), ins[0];
      var f, fs := Fetch(s, i), AllFetched(s', ins[1..]);
      PortStep(s, i);
      hide Next, ToFetch, InFlight, Asked, Fetch, Output, Inv;
      FetchedInOrder(s', ins[1..]);
      Append(f, fs);
      hide Places;
      Telescope(ToFetch(s), Asked(s, i), Places(f), ToFetch(s'), AllAsked(s', ins[1..]), Places(fs),
                ToFetch(Run(s', ins[1..])));
    }
  }

  /** Every word so fetched is put out once, in order, as it was fetched; the surplus fetches are not. */
  lemma {:induction false} OutputInOrder(s: Port, ins: seq<In>)
    requires Inv(s)
    ensures InFlight(s) + Datas(AllFetched(s, ins)) == AllOutput(s, ins) + InFlight(Run(s, ins))
    decreases |ins|
  {
    if ins == [] {
    } else {
      var s', i := Next(s, ins[0]), ins[0];
      var f, fs := Fetch(s, i), AllFetched(s', ins[1..]);
      PortStep(s, i);
      hide Next, ToFetch, InFlight, Asked, Fetch, Output, Inv;
      OutputInOrder(s', ins[1..]);
      Append(f, fs);
      hide Datas;
      Telescope(InFlight(s), Datas(f), Output(s, i), InFlight(s'), Datas(fs), AllOutput(s', ins[1..]),
                InFlight(Run(s', ins[1..])));
    }
  }

  /** With no further command accepted, everything is out after the remaining count and two clocks. */
  lemma {:induction false} Drains(s: Port, ins: seq<In>)
    requires Inv(s) && NoneAccepted(s, ins) && |ins| >= s.rxCount + 2
    ensures ToFetch(Run(s, ins)) == [] && InFlight(Run(s, ins)) == []
    decreases |ins|
  {
    var s' := Next(s, ins[0]);
    PortStep(s, ins[0]);
    if s.rxCount > 0 {
      Drains(s', ins[1..]);
    } else {
      var s2 := Next(s', ins[1..][0]);
      assert s2.rxCount == 0 && !s2.validInt;
      StaysDrained(s2, ins[2..]);
      assert ins[1..][1..] == ins[2..];
    }
  }

  predicate NoneAccepted(s: Port, ins: seq<In>)
    decreases |ins|
  {
    ins == [] || (!Accepts(s, ins[0]) && NoneAccepted(Next(s, ins[0]), ins[1..]))
  }

  lemma {:induction false} StaysDrained(s: Port, ins: seq<In>)
    requires s.rxCount == 0 && !s.validInt && NoneAccepted(s, ins)
    ensures ToFetch(Run(s, ins)) == [] && InFlight(Run(s, ins)) == []
    decreases |ins|
  {
    if ins != [] {
      StaysDrained(Next(s, ins[0]), ins[1..]);
    }
  }

  /** One burst of `n` words accepted by an idle port, and then left alone: exactly `n` valid words, those fetched
      from its addresses. */
  lemma OneBurst(s: Port, ins: seq<In>)
    requires Inv(s) && s.rxCount == 0 && !s.validInt && |ins| >= 1 && Accepts(s, ins[0])
    requires NoneAccepted(Next(s, ins[0]), ins[1..]) && |ins| >= ins[0].burst + 3
    ensures Places(AllFetched(s, ins)) == Addresses(ins[0].addr, ins[0].burst)
    ensures AllOutput(s, ins) == Datas(AllFetched(s, ins)) && |AllOutput(s, ins)| == ins[0].burst
  {
    hide Addresses, Places, Datas;
    var asked := Addresses(ins[0].addr, ins[0].burst);
    PortStep(s, ins[0]);
    assert ToFetch(s) == [] && InFlight(s) == [];
    Drains(Next(s, ins[0]), ins[1..]);
    NothingMoreAsked(Next(s, ins[0]), ins[1..]);
    assert AllAsked(s, ins) == asked + [] == asked;
    hide *;
    FetchedInOrder(s, ins);
    OutputInOrder(s, ins);
    assert ToFetch(s) + AllAsked(s, ins) == AllAsked(s, ins);
    assert InFlight(s) + Datas(AllFetched(s, ins)) == Datas(AllFetched(s, ins));
    AddressCount(ins[0].addr, ins[0].burst);
    SameCount(AllFetched(s, ins));
  }

  lemma {:induction false} NothingMoreAsked(s: Port, ins: seq<In>)
    requires NoneAccepted(s, ins)
    ensures AllAsked(s, ins) == []
    decreases |ins|
  {
    if ins != [] {
      NothingMoreAsked(Next(s, ins[0]), ins[1..]);
    }
  }

  lemma {:induction false} AddressCount(a: nat, n: nat)
    ensures |Addresses(a, n)| == n
    decreases n
  {
    if n > 0 {
      AddressCount((a + 4) % ADDR_SPACE, n - 1);
    }
  }

  /** A busy port takes no command for as many clocks as its count; then it does, if the write port is idle. */
  lemma {:induction false} BusyFor(s: Port, ins: seq<In>)
    requires s.rxCount == |ins| && ins != [] && s.nextWait
    ensures NoneAccepted(s, ins) && Run(s, ins).rxCount == 0
    ensures Run(s, ins).nextWait <==> !ins[|ins| - 1].txIdle
    decreases |ins|
  {
    var s' := Next(s, ins[0]);
    if |ins| == 1 {
      assert ins[1..] == [];
    } else {
      assert s'.nextWait && s'.rxCount == |ins[1..]|;
      hide Next;
      BusyFor(s', ins[1..]);
    }
  }

  /** From one accepted command to the next: none is accepted for exactly as many clocks as the burst has words,
      whatever
      is asked, and the next one is in the clock after, the write port being idle. */
  lemma AcceptedAgain(s: Port, i: In, ins: seq<In>, next: In)
    requires Accepts(s, i) && i.burst == |ins| && next.read
    ensures var s' := Next(s, i);
            && NoneAccepted(s', ins)
            && (Accepts(Run(s', ins), next) <==> if ins == [] then i.txIdle else ins[|ins| - 1].txIdle)
  {
    if ins != [] {
      BusyFor(Next(s, i), ins);
    }
  }
}
