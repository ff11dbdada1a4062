/** The abstract queue that both hardware FIFOs implement. */
module BoundedQueue {
  import opened Bits

  /** Inputs of one clock: write enable, read enable, data in. */
  datatype Input<+T> = Input(we: bool, re: bool, din: T)

  /** What a user of the FIFO can see in one clock. `head` is the look-ahead output, meaningful only
      when the FIFO is not empty; `dout` is the registered output, meaningful only after a read. */
  datatype Output<+T> = Output(dcount: nat, empty: bool, full: bool, head: Option<T>, dout: Option<T>)

  datatype Queue<+T> = Queue(items: seq<T>, dout: Option<T>)

  predicate Writes<T>(q: Queue<T>, depth: nat, i: Input<T>) { i.we && |q.items| < depth }

  predicate Reads<T>(q: Queue<T>, i: Input<T>) { i.re && |q.items| > 0 }

  function Next<T>(q: Queue<T>, depth: nat, i: Input<T>): Queue<T> {
    var kept := if Reads(q, i) then q.items[1..] else q.items;
    Queue(if Writes(q, depth, i) then kept + [i.din] else kept,
          if Reads(q, i) then Some(q.items[0]) else q.dout)
  }

  function Observe<T>(q: Queue<T>, depth: nat): Output<T> {
    Output(|q.items|, q.items == [], |q.items| == depth, if q.items == [] then None else Some(q.items[0]), q.dout)
  }

  /** The state after the clocks `ins`. */
  function Run<T>(q: Queue<T>, depth: nat, ins: seq<Input<T>>): Queue<T>
    decreases |ins|
  {
    if ins == [] then q else Run(Next(q, depth, ins[0]), depth, ins[1..])
  }

  /** The outputs seen during each of the clocks `ins`. */
  function Outputs<T>(q: Queue<T>, depth: nat, ins: seq<Input<T>>): seq<Output<T>>
    decreases |ins|
  {
    if ins == [] then [] else [Observe(q, depth)] + Outputs(Next(q, depth, ins[0]), depth, ins[1..])
  }

  function Pushed<T>(q: Queue<T>, depth: nat, i: Input<T>): seq<T> {
    if Writes(q, depth, i) then [i.din] else []
  }

  function Popped<T>(q: Queue<T>, i: Input<T>): seq<T> {
    if Reads(q, i) then [q.items[0]] else []
  }

  /** The data that the clocks `ins` put into the queue, in order. */
  function Accepted<T>(q: Queue<T>, depth: nat, ins: seq<Input<T>>): seq<T>
    decreases |ins|
  {
    if ins == [] then [] else Pushed(q, depth, ins[0]) + Accepted(Next(q, depth, ins[0]), depth, ins[1..])
  }

  /** The data that the clocks `ins` take out of the queue, in order. */
  function Removed<T>(q: Queue<T>, depth: nat, ins: seq<Input<T>>): seq<T>
    decreases |ins|
  {
    if ins == [] then [] else Popped(q, ins[0]) + Removed(Next(q, depth, ins[0]), depth, ins[1..])
  }

  lemma StepConserves<T>(q: Queue<T>, depth: nat, i: Input<T>)
    ensures q.items + Pushed(q, depth, i) == Popped(q, i) + Next(q, depth, i).items
  {
  }

  /** Nothing is lost, duplicated or reordered over any run, and the depth is respected. */
  lemma {:induction false} Conservation<T>(q: Queue<T>, depth: nat, ins: seq<Input<T>>)
    requires |q.items| <= depth
    ensures q.items + Accepted(q, depth, ins) == Removed(q, depth, ins) + Run(q, depth, ins).items
    ensures |Run(q, depth, ins).items| <= depth
    decreases |ins|
  {
    if ins == [] {
    } else {
      var n := Next(q, depth, ins[0]);
      StepConserves(q, depth, ins[0]);
      Conservation(n, depth, ins[1..]);
      Telescope(q.items, Pushed(q, depth, ins[0]), Popped(q, ins[0]), n.items,
                Accepted(n, depth, ins[1..]), Removed(n, depth, ins[1..]), Run(n, depth, ins[1..]).items);
    }
  }

  /** One more clock at the end of a run. */
  lemma {:induction false} Extend<T>(q: Queue<T>, depth: nat, ins: seq<Input<T>>, i: Input<T>)
    ensures Run(q, depth, ins + [i]) == Next(Run(q, depth, ins), depth, i)
    ensures Outputs(q, depth, ins + [i]) == Outputs(q, depth, ins) + [Observe(Run(q, depth, ins), depth)]
    decreases |ins|
  {
    if ins == [] {
      assert [i][1..] == [];
    } else {
      assert (ins + [i])[1..] == ins[1..] + [i];
      Extend(Next(q, depth, ins[0]), depth, ins[1..], i);
    }
  }
}

/** sync_fifo_ram.sv: a circular buffer in RAM with an occupancy counter and a registered `empty`. */
module FifoRamModel {
  import opened Bits
  import opened BoundedQueue

  /** `n` cells of the circular store `m` from address `s` on. */
  function Window<T>(m: seq<T>, s: nat, n: nat): (w: seq<T>)
    requires s < |m| && n <= |m|
    ensures |w| == n
    decreases n
  {
    if n == 0 then [] else [m[s]] + Window(m, Wrap(s + 1, |m|), n - 1)
  }

  lemma {:induction false} WindowPush<T>(m: seq<T>, s: nat, n: nat, x: T)
    requires s < |m| && n < |m|
    ensures Window(m[Wrap(s + n, |m|) := x], s, n + 1) == Window(m, s, n) + [x]
    decreases n
  {
    var m' := m[Wrap(s + n, |m|) := x];
    if n == 0 {
      assert Window(m', Wrap(s + 1, |m|), 0) == [];
    } else {
      WindowPush(m, Wrap(s + 1, |m|), n - 1, x);
      Regroup([m[s]], Window(m, Wrap(s + 1, |m|), n - 1), [x]);
    }
  }

  /** What one clock does to the occupied window: `m'`, `s'` and `n'` are the values after the edge. */
  lemma WindowStep<T>(m: seq<T>, s: nat, n: nat, dout: Option<T>, i: Input<T>, m': seq<T>, s': nat, n': nat)
    requires s < |m| && n <= |m|
    requires var w, r := i.we && n < |m|, i.re && n > 0;
             && m' == (if w then m[Wrap(s + n, |m|) := i.din] else m)
             && s' == (if r then Wrap(s + 1, |m|) else s)
             && n' == n + (if w then 1 else 0) - (if r then 1 else 0)
    ensures Next(Queue(Window(m, s, n), dout), |m|, i)
            == Queue(Window(m', s', n'), if i.re && n > 0 then Some(m[s]) else dout)
  {
    var w, r := i.we && n < |m|, i.re && n > 0;
    var q := Queue(Window(m, s, n), dout);
    var kept := if r then q.items[1..] else q.items;
    var k := if r then n - 1 else n;
    assert kept == Window(m, s', k);
    if w {
      assert Wrap(s' + k, |m|) == Wrap(s + n, |m|) && n' == k + 1;
      WindowPush(m, s', k, i.din);
      assert Window(m', s', n') == kept + [i.din];
      assert Next(q, |m|, i).items == kept + [i.din];
    } else {
      assert Next(q, |m|, i).items == kept;
    }
  }

  /** The write pointer stays `n` cells ahead of the read pointer. */
  lemma PointerStep(depth: nat, s: nat, n: nat, w: bool, r: bool)
    requires s < depth && n <= depth && (w ==> n < depth) && (r ==> n > 0)
    ensures var wr := Wrap(s + n, depth);
            (if w then Wrap(wr + 1, depth) else wr)
            == Wrap((if r then Wrap(s + 1, depth) else s) + (n + (if w then 1 else 0) - (if r then 1 else 0)), depth)
  {
  }

  class FifoRam<T(0)> {
    const awidth: nat
    const depth: nat
    const mem: array<T>
    var wrAddr: nat
    var rdAddr: nat
    var dcount: nat
    var empty: bool
    var dout: T
    ghost var everRead: bool

    ghost predicate Valid()
      reads this, mem
    {
      && awidth >= 1 && depth == Pow2(awidth) == mem.Length
      && wrAddr < depth && rdAddr < depth && dcount <= depth
      && wrAddr == Wrap(rdAddr + dcount, depth)
      && empty == (dcount == 0)
    }

    ghost function View(): Queue<T>
      requires Valid()
      reads this, mem
    {
      Queue(Window(mem[..], rdAddr, dcount), if everRead then Some(dout) else None)
    }

    /** Bit AWIDTH of the (AWIDTH+1)-bit occupancy counter. */
    predicate Full()
      reads this
    {
      dcount >= depth
    }

    constructor (awidth: nat)
      requires awidth >= 1
      ensures Valid() && this.awidth == awidth && fresh(mem)
      ensures View() == Queue([], None)
    {
      this.awidth := awidth;
      depth := Pow2(awidth);
      mem := new T[Pow2(awidth)];
      wrAddr, rdAddr, dcount, empty := 0, 0, 0, true;
      everRead := false;
    }

    /** The outputs are functions of the abstract queue. */
    lemma Outputs()
      requires Valid()
      ensures Full() == (|View().items| == depth)
      ensures empty == (View().items == [])
      ensures dcount == |View().items|
      ensures !empty ==> mem[rdAddr] == View().items[0]
    {
    }

    /** The control registers after an edge with the protected enables `w` and `r`. */
    method Control(w: bool, r: bool)
      requires Valid() && (w ==> dcount < depth) && (r ==> dcount > 0)
      modifies `wrAddr, `rdAddr, `dcount, `empty
      ensures Valid()
      ensures rdAddr == if r then Wrap(old(rdAddr) + 1, depth) else old(rdAddr)
      ensures dcount == old(dcount) + (if w then 1 else 0) - (if r then 1 else 0)
    {
      PointerStep(depth, rdAddr, dcount, w, r);
      if w {
        wrAddr := Wrap(wrAddr + 1, depth);
      }
      if r {
        rdAddr := Wrap(rdAddr + 1, depth);
      }
      if r && !w {
        empty := dcount / 2 == 0;
        dcount := dcount - 1;
      } else if w && !r {
        empty := false;
        dcount := dcount + 1;
      }
    }

    /** The storage after an edge with the protected enables `w` and `r`. */
    method Storage(w: bool, r: bool, din: T)
      requires Valid() && (r ==> dcount > 0)
      modifies `dout, `everRead, mem
      ensures Valid()
      ensures mem[..] == if w then old(mem[..])[wrAddr := din] else old(mem[..])
      ensures if r then everRead && dout == old(mem[rdAddr]) else everRead == old(everRead) && dout == old(dout)
    {
      if r {
        dout, everRead := mem[rdAddr], true;
      }
      if w {
        mem[wrAddr] := din;
      }
    }

    /** One rising clock edge; the storage sees the pointers from before the edge. */
    method Clock(we: bool, re: bool, din: T)
      requires Valid()
      modifies this, mem
      ensures Valid()
      ensures View() == Next(old(View()), depth, Input(we, re, din))
    {
      ghost var m, s, n, d := mem[..], rdAddr, dcount, if everRead then Some(dout) else None;
      var weProtected := we && !Full();
      var reProtected := re && !empty;
      Storage(weProtected, reProtected, din);
      ghost var m' := mem[..];
      Control(weProtected, reProtected);
      assert mem[..] == m';
      WindowStep(m, s, n, d, Input(we, re, din), m', rdAddr, dcount);
    }
  }
}

/** sync_fifo_srl.sv: a shift register read at an address that doubles as the occupancy counter. */
module FifoSrlModel {
  import opened Bits
  import opened BoundedQueue

  /** The oldest of `n` entries sits at address `n - 1`. */
  function Unshift<T>(cells: seq<T>, n: nat): seq<T>
    requires n <= |cells|
  {
    seq(n, i requires 0 <= i < n => cells[n - 1 - i])
  }

  /** What one clock does to the occupied cells: `cells'` and `n'` are the values after the edge. */
  lemma ShiftStep<T>(cells: seq<T>, n: nat, dout: Option<T>, i: Input<T>, cells': seq<T>, n': nat)
    requires |cells| >= 1 && n <= |cells|
    requires var w, r := i.we && n < |cells|, i.re && n > 0;
             && cells' == (if w then [i.din] + cells[..|cells| - 1] else cells)
             && n' == n + (if w then 1 else 0) - (if r then 1 else 0)
    ensures Next(Queue(Unshift(cells, n), dout), |cells|, i)
            == Queue(Unshift(cells', n'), if i.re && n > 0 then Some(cells[n - 1]) else dout)
  {
    var q := Queue(Unshift(cells, n), dout);
    var kept := if Reads(q, i) then q.items[1..] else q.items;
    assert Unshift(cells', n') == if Writes(q, |cells|, i) then kept + [i.din] else kept;
  }

  class FifoSrl<T(0)> {
    const awidth: nat
    const depth: nat
    /** The shift register primitive: data enters at address 0. */
    var cells: seq<T>
    /** The concatenation {empty, rd_addr}, AWIDTH+1 bits. */
    var counter: nat
    var dout: T
    ghost var everRead: bool

    ghost predicate Valid()
      reads this
    {
      && awidth >= 1 && depth == Pow2(awidth) == |cells|
      && counter < 2 * depth
      && (counter < depth || counter == 2 * depth - 1)
    }

    function DCount(): nat
      requires counter < 2 * depth
      reads this
    {
      Wrap(counter + 1, 2 * depth)
    }

    predicate Empty()
      reads this
    {
      counter >= depth
    }

    predicate Full()
      requires counter < 2 * depth
      reads this
    {
      DCount() >= depth
    }

    /** The low AWIDTH bits of the counter. */
    function RdAddr(): nat
      requires counter < 2 * depth
      reads this
    {
      Wrap(counter, depth)
    }

    ghost function View(): Queue<T>
      requires Valid()
      reads this
    {
      var n := if counter < depth then counter + 1 else 0;
      Queue(Unshift(cells, n), if everRead then Some(dout) else None)
    }

    constructor (awidth: nat, powerUp: T)
      requires awidth >= 1
      ensures Valid() && this.awidth == awidth && depth == Pow2(awidth)
      ensures View() == Queue([], None)
    {
      this.awidth := awidth;
      depth := Pow2(awidth);
      cells := seq(Pow2(awidth), _ => powerUp);
      counter := 2 * Pow2(awidth) - 1;
      everRead := false;
    }

    lemma Outputs()
      requires Valid()
      ensures DCount() == |View().items|
      ensures Full() == (|View().items| == depth)
      ensures Empty() == (View().items == [])
      ensures !Empty() ==> cells[RdAddr()] == View().items[0]
    {
    }

    /** One rising clock edge. */
    method Clock(we: bool, re: bool, din: T)
      requires Valid()
      modifies this
      ensures Valid()
      ensures View() == Next(old(View()), depth, Input(we, re, din))
    {
      Outputs();
      ghost var c, n, d := cells, DCount(), if everRead then Some(dout) else None;
      var weProtected := we && !Full();
      var reProtected := re && !Empty();
      if reProtected {
        dout := cells[RdAddr()];
        everRead := true;
      }
      if weProtected {
        cells := [din] + cells[..depth - 1];
      }
      if !weProtected && reProtected {
        counter := if counter == 0 then 2 * depth - 1 else counter - 1;
      } else if weProtected && !reProtected {
        counter := Wrap(counter + 1, 2 * depth);
      }
      ShiftStep(c, n, d, Input(we, re, din), cells, DCount());
    }
  }
}

/** The two FIFOs are interchangeable. */
module FifoEquivalence {
  import opened Bits
  import opened BoundedQueue
  import opened FifoRamModel
  import opened FifoSrlModel

  /** The RAM FIFO, clocked from reset by any input trace, shows in every clock the outputs of the abstract queue. */
  method RamTrace<T(0)>(awidth: nat, trace: seq<Input<T>>) returns (seen: seq<Output<T>>)
    requires awidth >= 1
    ensures seen == Outputs(Queue([], None), Pow2(awidth), trace)
  {
    var f := new FifoRam<T>(awidth);
    var read := false;
    seen := [];
    ghost var q0: Queue<T> := Queue([], None);
    for k := 0 to |trace|
      invariant f.Valid() && fresh(f) && fresh(f.mem) && f.depth == Pow2(awidth)
      invariant f.View() == Run(q0, f.depth, trace[..k]) && read == f.everRead
      invariant seen == Outputs(q0, f.depth, trace[..k])
    {
      f.Outputs();
      seen := seen + [Output(f.dcount, f.empty, f.Full(), if f.empty then None else Some(f.mem[f.rdAddr]),
                             if read then Some(f.dout) else None)];
      var i := trace[k];
      Extend(q0, f.depth, trace[..k], i);
      assert trace[..k + 1] == trace[..k] + [i];
      read := read || (i.re && !f.empty);
      f.Clock(i.we, i.re, i.din);
    }
    assert trace[..|trace|] == trace;
  }

  /** So does the shift-register FIFO. */
  method SrlTrace<T(0)>(awidth: nat, trace: seq<Input<T>>, powerUp: T) returns (seen: seq<Output<T>>)
    requires awidth >= 1
    ensures seen == Outputs(Queue([], None), Pow2(awidth), trace)
  {
    var f := new FifoSrl<T>(awidth, powerUp);
    var read := false;
    seen := [];
    ghost var q0: Queue<T> := Queue([], None);
    for k := 0 to |trace|
      invariant f.Valid() && fresh(f) && f.depth == Pow2(awidth)
      invariant f.View() == Run(q0, f.depth, trace[..k]) && read == f.everRead
      invariant seen == Outputs(q0, f.depth, trace[..k])
    {
      f.Outputs();
      seen := seen + [Output(f.DCount(), f.Empty(), f.Full(), if f.Empty() then None else Some(f.cells[f.RdAddr()]),
                             if read then Some(f.dout) else None)];
      var i := trace[k];
      Extend(q0, f.depth, trace[..k], i);
      assert trace[..k + 1] == trace[..k] + [i];
      read := read || (i.re && !f.Empty());
      f.Clock(i.we, i.re, i.din);
    }
    assert trace[..|trace|] == trace;
  }

  /** Both agree, clock for clock, on everything a user can see. */
  method SideBySide<T(0)>(awidth: nat, trace: seq<Input<T>>, powerUp: T)
    returns (ram: seq<Output<T>>, srl: seq<Output<T>>)
    requires awidth >= 1
    ensures ram == srl && |ram| == |trace|
  {
    ram := RamTrace(awidth, trace);
    srl := SrlTrace(awidth, trace, powerUp);
    OnePerClock(Queue([], None), Pow2(awidth), trace);
  }

  lemma {:induction false} OnePerClock<T>(q: Queue<T>, depth: nat, trace: seq<Input<T>>)
    ensures |Outputs(q, depth, trace)| == |trace|
    decreases |trace|
  {
    if trace != [] {
      OnePerClock(Next(q, depth, trace[0]), depth, trace[1..]);
    }
  }
}
