/** rv32_cache.cpp: the tag store of a one- or two-way cache with round-robin replacement. */
module CacheSpec {
  /** The last `n` entries of a log, or all of it. */
  function Last(log: seq<nat>, n: nat): seq<nat> {
    if |log| <= n then log else log[|log| - n..]
  }

  /** One set as a bounded queue of line numbers: a miss pushes out the oldest. */
  function SetNext(q: seq<nat>, ways: nat, line: nat): seq<nat> {
    if line in q then q else Last(q + [line], ways)
  }

  /** All lines that have missed in a set, in order. */
  function MissLog(log: seq<nat>, ways: nat, lines: seq<nat>): seq<nat>
    decreases |lines|
  {
    if lines == [] then log
    else MissLog(if lines[0] in Last(log, ways) then log else log + [lines[0]], ways, lines[1..])
  }

  function SetRun(q: seq<nat>, ways: nat, lines: seq<nat>): seq<nat>
    decreases |lines|
  {
    if lines == [] then q else SetRun(SetNext(q, ways, lines[0]), ways, lines[1..])
  }

  lemma {:induction false} SetRunExtend(q: seq<nat>, ways: nat, lines: seq<nat>, line: nat)
    ensures SetRun(q, ways, lines + [line]) == SetNext(SetRun(q, ways, lines), ways, line)
    decreases |lines|
  {
    hide SetNext;
    if lines == [] {
      assert [line][1..] == [];
    } else {
      assert (lines + [line])[1..] == lines[1..] + [line];
      SetRunExtend(SetNext(q, ways, lines[0]), ways, lines[1..], line);
    }
  }

  predicate NoDuplicates(s: seq<nat>) { forall i, j :: 0 <= i < j < |s| ==> s[i] != s[j] }

  /** The set holds exactly the last `ways` lines that missed since it was empty, none of them twice. */
  lemma {:induction false} HoldsLastMisses(log: seq<nat>, ways: nat, lines: seq<nat>)
    requires ways >= 1 && NoDuplicates(Last(log, ways))
    ensures SetRun(Last(log, ways), ways, lines) == Last(MissLog(log, ways, lines), ways)
    ensures NoDuplicates(Last(MissLog(log, ways, lines), ways))
    decreases |lines|
  {
    if lines == [] {
    } else {
      var x := lines[0];
      var log' := if x in Last(log, ways) then log else log + [x];
      assert SetNext(Last(log, ways), ways, x) == Last(log', ways);
      HoldsLastMisses(log', ways, lines[1..]);
    }
  }

  lemma {:induction false} MissLogExtend(log: seq<nat>, ways: nat, lines: seq<nat>, line: nat)
    ensures var l := MissLog(log, ways, lines);
            MissLog(log, ways, lines + [line]) == if line in Last(l, ways) then l else l + [line]
    decreases |lines|
  {
    if lines == [] {
      assert [line][1..] == [];
    } else {
      assert (lines + [line])[1..] == lines[1..] + [line];
      MissLogExtend(if lines[0] in Last(log, ways) then log else log + [lines[0]], ways, lines[1..], line);
    }
  }

  function Distinct(lines: seq<nat>): set<nat> { set l | l in lines }

  lemma {:induction false} LogSize(log: seq<nat>)
    requires NoDuplicates(log)
    ensures |log| == |Distinct(log)|
    decreases |log|
  {
    if log != [] {
      var n := |log| - 1;
      LogSize(log[..n]);
      assert Distinct(log) == Distinct(log[..n]) + {log[n]};
      assert log[n] !in log[..n];
    }
  }

  /** A set touched by no more lines than it has ways misses once per line. */
  lemma {:induction false} MissesOncePerLine(log: seq<nat>, ways: nat, lines: seq<nat>)
    requires NoDuplicates(log) && |Distinct(log + lines)| <= ways
    ensures NoDuplicates(MissLog(log, ways, lines))
    ensures Distinct(MissLog(log, ways, lines)) == Distinct(log + lines)
    ensures |MissLog(log, ways, lines)| == |Distinct(log + lines)|
    decreases |lines|
  {
    LogSize(log);
    Subset(Distinct(log), Distinct(log + lines));
    assert Last(log, ways) == log;
    if lines == [] {
      assert log + lines == log;
    } else {
      var x := lines[0];
      var log' := if x in log then log else log + [x];
      assert Distinct(log' + lines[1..]) == Distinct(log + lines) by {
        assert log + lines == log + [x] + lines[1..];
      }
      MissesOncePerLine(log', ways, lines[1..]);
    }
  }

  lemma Subset(a: set<nat>, b: set<nat>)
    requires a <= b
    ensures |a| <= |b|
  {
    assert b == a + (b - a);
  }
}

module Rv32Cache {
  import opened Bits
  import opened CacheSpec

  const MISS: nat := 0
  const HIT_WAY1: nat := 1
  const HIT_WAY2: nat := 2
  const MAX_WAYS: nat := 2
  const MAX_SETS: nat := 1024

  datatype Line = Line(addr: nat, valid: bool)

  /** The parameters that the constructor does not reject. */
  predicate Accepted(lineWidth: nat, ways: nat, sets: nat) {
    && (lineWidth == 4 || lineWidth == 8 || lineWidth == 16) && (ways == 1 || ways == 2)
    && (sets == 128 || sets == 256 || sets == 512 || sets == 1024)
  }

  function LineOf(addr: nat, lineWidth: nat): nat
    requires lineWidth > 0
  {
    addr / lineWidth
  }

  function SetOf(line: nat, sets: nat): (s: nat)
    requires sets > 0
    ensures s < sets
  {
    line % sets
  }

  /** The address with the bits below the size of a way cleared. */
  function Aligned(addr: nat, size: nat): (r: nat)
    requires size > 0
    ensures r <= addr
  {
    addr - addr % size
  }

  lemma AlignedIs(addr: nat, size: nat)
    requires size > 0
    ensures Aligned(addr, size) % size == 0 && Aligned(addr, size) <= addr < Aligned(addr, size) + size
  {
    var q := DivMod(addr, size);
    Remainder(q, 0, size);
  }

  predicate Within(addr: nat, base: nat, limit: nat) { base <= addr < limit }

  class Cache {
    const lineWidth: nat
    const ways: nat
    const sets: nat
    const baseAddr: nat
    const limit: nat
    const m: array2<Line>
    const nextWay: array<nat>

    predicate Shape()
      reads this
    {
      && Accepted(lineWidth, ways, sets)
      && m.Length0 == MAX_WAYS && m.Length1 == MAX_SETS && nextWay.Length == MAX_SETS
    }

    /** Round-robin: the way to be replaced next is the older one. */
    ghost predicate Valid()
      reads this, m, nextWay
    {
      && Shape()
      && forall s :: 0 <= s < sets ==>
           && nextWay[s] < ways
           && (ways == 2 && m[nextWay[s], s].valid ==> m[1 - nextWay[s], s].valid)
    }

    ghost function Held(w: nat, s: nat): seq<nat>
      requires Shape() && w < MAX_WAYS && s < sets
      reads this, m
    {
      if m[w, s].valid then [m[w, s].addr] else []
    }

    /** The lines of a set, oldest first. */
    ghost function Queue(s: nat): seq<nat>
      requires Valid() && s < sets
      reads this, m, nextWay
    {
      if ways == 1 then Held(0, s) else Held(nextWay[s], s) + Held(1 - nextWay[s], s)
    }

    predicate Cacheable(addr: nat)
      reads this
    {
      Within(addr, baseAddr, limit)
    }

    constructor (bytesPerLine: nat, numOfWays: nat, numOfSets: nat, cacheBase: nat, upperLimit: nat)
      requires Accepted(bytesPerLine, numOfWays, numOfSets) && cacheBase < ADDR_SPACE && upperLimit < ADDR_SPACE
      ensures Valid() && lineWidth == bytesPerLine && ways == numOfWays && sets == numOfSets
      ensures fresh(m) && fresh(nextWay)
      ensures baseAddr == Aligned(cacheBase, sets * lineWidth)
      ensures limit == Aligned((upperLimit + 1) % ADDR_SPACE, sets * lineWidth)
      ensures baseAddr % (sets * lineWidth) == 0 && baseAddr <= cacheBase < baseAddr + sets * lineWidth
      ensures upperLimit < ADDR_SPACE - 1 ==>
                limit % (sets * lineWidth) == 0 && limit <= upperLimit + 1 < limit + sets * lineWidth
      ensures upperLimit == ADDR_SPACE - 1 ==> forall addr: nat :: !Cacheable(addr)
      ensures forall s :: 0 <= s < sets ==> Queue(s) == []
    {
      AlignedIs(cacheBase, numOfSets * bytesPerLine);
      AlignedIs((upperLimit + 1) % ADDR_SPACE, numOfSets * bytesPerLine);
      lineWidth, ways, sets := bytesPerLine, numOfWays, numOfSets;
      baseAddr := Aligned(cacheBase, numOfSets * bytesPerLine);
      limit := Aligned((upperLimit + 1) % ADDR_SPACE, numOfSets * bytesPerLine);
      m := new Line[MAX_WAYS, MAX_SETS]((_, _) => Line(0, false));
      nextWay := new nat[MAX_SETS](_ => 0);
    }

    /** Empties every set; which way comes next stays as it is. */
    method Invalidate()
      requires Valid()
      modifies m
      ensures Valid()
      ensures forall s :: 0 <= s < sets ==> Queue(s) == []
    {
      for w := 0 to ways
        invariant forall v, s :: 0 <= v < w && 0 <= s < sets ==> !m[v, s].valid
      {
        for t := 0 to sets
          invariant forall v, s :: 0 <= v < w && 0 <= s < sets ==> !m[v, s].valid
          invariant forall s :: 0 <= s < t ==> !m[w, s].valid
        {
          m[w, t] := m[w, t].(valid := false);
        }
      }
    }

    /** A read access. The result says which way hit, if any. */
    method Access(addr: nat) returns (hit: nat)
      requires Valid()
      modifies m, nextWay
      ensures Valid()
      ensures hit <= ways
      ensures !Cacheable(addr) ==> hit == MISS && forall s :: 0 <= s < sets ==> Queue(s) == old(Queue(s))
      ensures Cacheable(addr) ==>
                var line := LineOf(addr, lineWidth);
                var t := SetOf(line, sets);
                && (hit != MISS <==> line in old(Queue(t)))
                && (hit != MISS ==> old(m[hit - 1, t]) == Line(line, true))
                && Queue(t) == SetNext(old(Queue(t)), ways, line)
                && forall s :: 0 <= s < sets && s != t ==> Queue(s) == old(Queue(s))
    {
      if addr < baseAddr || addr >= limit {
        return MISS;
      }
      hide LineOf, SetOf, Aligned;
      hit := MISS;
      var line := LineOf(addr, lineWidth);
      var t := SetOf(line, sets);
      if m[0, t].valid && m[0, t].addr == line {
        hit := HIT_WAY1;
      } else if ways == 2 && m[1, t].valid && m[1, t].addr == line {
        hit := HIT_WAY2;
      }
      if hit == MISS {
        Replace(line, t);
      }
    }

    /** A line comes in for the oldest of its set. */
    method Replace(line: nat, t: nat)
      requires Valid() && t < sets && line !in Queue(t)
      modifies m, nextWay
      ensures Valid() && Queue(t) == SetNext(old(Queue(t)), ways, line)
      ensures forall s :: 0 <= s < sets && s != t ==> Queue(s) == old(Queue(s))
    {
      m[nextWay[t], t] := Line(line, true);
      if ways == 2 {
        nextWay[t] := if nextWay[t] == 1 then 0 else 1;
      }
    }
  }

  /** A region boundary is a whole number of lines. */
  lemma AlignedToLines(x: nat, lineWidth: nat, sets: nat) returns (p: nat)
    requires Accepted(lineWidth, 1, sets)
    ensures Aligned(x, sets * lineWidth) == p * lineWidth
  {
    var size := sets * lineWidth;
    p := x / size * sets;
    assert x == x / size * size + x % size;
    Product(x / size, sets, lineWidth);
  }

  /** The cached region ends where it was asked to, if and only if that is not the top of the address space: then the
      limit wraps to 0. It is empty exactly in that case, and when the limit is not above the base. */
  lemma RegionIff(base: nat, upper: nat, lineWidth: nat, ways: nat, sets: nat)
    requires Accepted(lineWidth, ways, sets) && base < ADDR_SPACE && upper < ADDR_SPACE
    ensures var size := sets * lineWidth;
            var lo, hi := Aligned(base, size), Aligned((upper + 1) % ADDR_SPACE, size);
            && (hi == Aligned(upper + 1, size) <==> upper != ADDR_SPACE - 1)
            && ((forall a: nat :: !Within(a, lo, hi)) <==> upper == ADDR_SPACE - 1 || Aligned(upper + 1, size) <= lo)
  {
    var size := sets * lineWidth;
    var lo, hi := Aligned(base, size), Aligned((upper + 1) % ADDR_SPACE, size);
    AlignedNear(upper + 1, size);
    assert Within(lo, lo, hi) <==> lo < hi;
    if upper == ADDR_SPACE - 1 {
      assert (upper + 1) % ADDR_SPACE == 0 && hi == 0;
    } else {
      assert (upper + 1) % ADDR_SPACE == upper + 1;
    }
  }

  lemma AlignedNear(x: nat, size: nat)
    requires size > 0
    ensures x < Aligned(x, size) + size
  {
  }

  lemma AtOrAfter(p: nat, a: nat, w: nat)
    requires w == 4 || w == 8 || w == 16
    ensures p * w <= a <==> p <= a / w
  {
  }

  /** All bytes of a line are treated alike: they have the same line, hence the same set, and the cached region
      is made of whole lines. */
  lemma WholeLines(a: nat, b: nat, base: nat, limit: nat, lineWidth: nat, ways: nat, sets: nat)
    requires Accepted(lineWidth, ways, sets) && LineOf(a, lineWidth) == LineOf(b, lineWidth)
    ensures var lo, hi := Aligned(base, sets * lineWidth), Aligned(limit, sets * lineWidth);
            Within(a, lo, hi) <==> Within(b, lo, hi)
  {
    var p := AlignedToLines(base, lineWidth, sets);
    var q := AlignedToLines(limit, lineWidth, sets);
    AtOrAfter(p, a, lineWidth);
    AtOrAfter(p, b, lineWidth);
    AtOrAfter(q, a, lineWidth);
    AtOrAfter(q, b, lineWidth);
    hide Aligned;
  }

  /** What a program does with the cache. */
  datatype Op = Read(addr: nat) | Flush

  datatype Params = Params(lineWidth: nat, ways: nat, sets: nat, baseAddr: nat, limit: nat)

  predicate UsesSet(op: Op, p: Params, t: nat)
    requires Accepted(p.lineWidth, p.ways, p.sets)
  {
    op.Read? && p.baseAddr <= op.addr < p.limit && SetOf(LineOf(op.addr, p.lineWidth), p.sets) == t
  }

  /** The lines read in set `t`, in order, since the last invalidation. */
  function Touched(ops: seq<Op>, p: Params, t: nat): seq<nat>
    requires Accepted(p.lineWidth, p.ways, p.sets)
  {
    if ops == [] then []
    else
      var op, before := ops[|ops| - 1], Touched(ops[..|ops| - 1], p, t);
      if op.Flush? then [] else if UsesSet(op, p, t) then before + [LineOf(op.addr, p.lineWidth)] else before
  }

  /** The line is among the last `ways` lines that missed in its set since the last invalidation. */
  predicate RecentMiss(ops: seq<Op>, p: Params, line: nat)
    requires Accepted(p.lineWidth, p.ways, p.sets)
  {
    line in Last(MissLog([], p.ways, Touched(ops, p, SetOf(line, p.sets))), p.ways)
  }

  /** Operation `k` of `ops` hits. */
  predicate ShouldHit(ops: seq<Op>, p: Params, k: nat)
    requires Accepted(p.lineWidth, p.ways, p.sets) && k < |ops|
  {
    ops[k].Read? && p.baseAddr <= ops[k].addr < p.limit && RecentMiss(ops[..k], p, LineOf(ops[k].addr, p.lineWidth))
  }

  /** The cacheable misses in set `t` since the last invalidation, `hits` saying which operations hit. */
  function CountMisses(ops: seq<Op>, hits: seq<bool>, p: Params, t: nat): nat
    requires Accepted(p.lineWidth, p.ways, p.sets) && |hits| == |ops|
    decreases |ops|
  {
    if ops == [] then 0
    else
      var n := |ops| - 1;
      var before := CountMisses(ops[..n], hits[..n], p, t);
      if ops[n].Flush? then 0 else if UsesSet(ops[n], p, t) && !hits[n] then before + 1 else before
  }

  lemma {:induction false} MissesCounted(ops: seq<Op>, hits: seq<bool>, p: Params, t: nat)
    requires Accepted(p.lineWidth, p.ways, p.sets) && |hits| == |ops|
    requires forall k :: 0 <= k < |ops| ==> hits[k] == ShouldHit(ops, p, k)
    ensures CountMisses(ops, hits, p, t) == |MissLog([], p.ways, Touched(ops, p, t))|
    decreases |ops|
  {
    hide SetOf, LineOf, Last;
    if ops != [] {
      var n := |ops| - 1;
      var op, front := ops[n], ops[..n];
      forall k | 0 <= k < n ensures hits[..n][k] == ShouldHit(front, p, k) {
        assert front[..k] == ops[..k];
      }
      MissesCounted(front, hits[..n], p, t);
      if UsesSet(op, p, t) {
        MissLogExtend([], p.ways, Touched(front, p, t), LineOf(op.addr, p.lineWidth));
      }
    }
  }

  /** A set that no more lines than it has ways were read from has missed once for each of them. */
  lemma OncePerLine(ops: seq<Op>, hits: seq<bool>, p: Params, t: nat)
    requires Accepted(p.lineWidth, p.ways, p.sets) && |hits| == |ops|
    requires forall k :: 0 <= k < |ops| ==> hits[k] == ShouldHit(ops, p, k)
    requires |Distinct(Touched(ops, p, t))| <= p.ways
    ensures CountMisses(ops, hits, p, t) == |Distinct(Touched(ops, p, t))|
  {
    var lines := Touched(ops, p, t);
    MissesCounted(ops, hits, p, t);
    assert [] + lines == lines;
    hide Touched, CountMisses, ShouldHit;
    MissesOncePerLine([], p.ways, lines);
  }

  lemma RecentMissIsHeld(ops: seq<Op>, p: Params, line: nat)
    requires Accepted(p.lineWidth, p.ways, p.sets)
    ensures RecentMiss(ops, p, line) <==> line in HeldAfter(ops, p, SetOf(line, p.sets))
  {
    hide SetOf;
    HoldsLastMisses([], p.ways, Touched(ops, p, SetOf(line, p.sets)));
  }

  lemma TouchedExtend(ops: seq<Op>, op: Op, p: Params, t: nat)
    requires Accepted(p.lineWidth, p.ways, p.sets)
    ensures Touched(ops + [op], p, t) == if op.Flush? then [] else if UsesSet(op, p, t)
            then Touched(ops, p, t) + [LineOf(op.addr, p.lineWidth)] else Touched(ops, p, t)
  {
    hide UsesSet, LineOf;
    assert (ops + [op])[..|ops|] == ops;
  }

  /** What one operation does to what set `t` holds. */
  function SetAfter(held: seq<nat>, op: Op, p: Params, t: nat): seq<nat>
    requires Accepted(p.lineWidth, p.ways, p.sets)
  {
    if op.Flush? then [] else if UsesSet(op, p, t) then SetNext(held, p.ways, LineOf(op.addr, p.lineWidth)) else held
  }

  function HeldAfter(ops: seq<Op>, p: Params, t: nat): seq<nat>
    requires Accepted(p.lineWidth, p.ways, p.sets)
  {
    SetRun([], p.ways, Touched(ops, p, t))
  }

  lemma SetFollows(ops: seq<Op>, op: Op, p: Params, t: nat)
    requires Accepted(p.lineWidth, p.ways, p.sets)
    ensures HeldAfter(ops + [op], p, t) == SetAfter(HeldAfter(ops, p, t), op, p, t)
  {
    hide UsesSet, LineOf, Touched;
    TouchedExtend(ops, op, p, t);
    if op.Read? {
      SetRunExtend([], p.ways, Touched(ops, p, t), LineOf(op.addr, p.lineWidth));
    }
  }

  /** The cache is where `ops` lead from empty. */
  ghost predicate Tracks(cache: Cache, p: Params, ops: seq<Op>)
    reads cache, cache.m, cache.nextWay
  {
    && cache.Valid() && Params(cache.lineWidth, cache.ways, cache.sets, cache.baseAddr, cache.limit) == p
    && forall t :: 0 <= t < p.sets ==> cache.Queue(t) == HeldAfter(ops, p, t)
  }

  /** No reachable set holds a line twice. */
  lemma NeverTwice(cache: Cache, p: Params, ops: seq<Op>, t: nat)
    requires Accepted(p.lineWidth, p.ways, p.sets) && Tracks(cache, p, ops) && t < p.sets
    ensures NoDuplicates(cache.Queue(t)) && |cache.Queue(t)| <= p.ways
  {
    HoldsLastMisses([], p.ways, Touched(ops, p, t));
  }

  method Perform(cache: Cache, p: Params, ghost ops: seq<Op>, op: Op) returns (hit: bool)
    requires Accepted(p.lineWidth, p.ways, p.sets) && Tracks(cache, p, ops)
    modifies cache.m, cache.nextWay
    ensures Tracks(cache, p, ops + [op])
    ensures hit == (op.Read? && p.baseAddr <= op.addr < p.limit && RecentMiss(ops, p, LineOf(op.addr, p.lineWidth)))
  {
    hide LineOf, SetOf, HeldAfter, SetNext, RecentMiss, Cache.Queue;
    forall t | 0 <= t < p.sets ensures HeldAfter(ops + [op], p, t) == SetAfter(HeldAfter(ops, p, t), op, p, t) {
      SetFollows(ops, op, p, t);
    }
    match op
    case Flush =>
      cache.Invalidate();
      hit := false;
    case Read(addr) =>
      RecentMissIsHeld(ops, p, LineOf(addr, p.lineWidth));
      var way := cache.Access(addr);
      hit := way != MISS;
  }

  /** Over any run of reads and invalidations, a read hits exactly when it is cacheable and its line is among the
      last `ways` lines that missed in its set since the last invalidation; a set of which no more than `ways`
      lines were read since then has missed once for each. In byte addresses: exactly when its line is resident; and
      if all reads are within the size of a way, only the first of each line misses. */
  method Simulate(p: Params, ops: seq<Op>) returns (hits: seq<bool>)
    requires Accepted(p.lineWidth, p.ways, p.sets) && p.baseAddr < ADDR_SPACE && p.limit < ADDR_SPACE
    requires p.baseAddr == Aligned(p.baseAddr, p.sets * p.lineWidth)
             && p.limit == Aligned(p.limit, p.sets * p.lineWidth)
    ensures |hits| == |ops| && forall k :: 0 <= k < |ops| ==> hits[k] == ShouldHit(ops, p, k)
    ensures forall k :: 0 <= k < |ops| ==>
              (hits[k] <==> Cached(ops[k], p) && Resident(ops[..k], hits[..k], p, ops[k].addr, p.ways))
    ensures forall t: nat :: |Distinct(Touched(ops, p, t))| <= p.ways ==>
              CountMisses(ops, hits, p, t) == |Distinct(Touched(ops, p, t))|
    ensures forall x: nat :: Confined(ops, p, x) ==>
              forall k :: 0 <= k < |ops| && ops[k].Read? ==> (hits[k] <==> ReadBefore(ops[..k], p, ops[k].addr))
  {
    hide Aligned, LineOf, SetOf, SetNext, RecentMiss;
    var last := if p.limit == 0 then ADDR_SPACE - 1 else p.limit - 1;
    var cache := new Cache(p.lineWidth, p.ways, p.sets, p.baseAddr, last);
    assert Tracks(cache, p, []);
    hide Tracks;
    hits := [];
    for k := 0 to |ops|
      invariant fresh(cache.m) && fresh(cache.nextWay) && Tracks(cache, p, ops[..k])
      invariant |hits| == k && forall j :: 0 <= j < k ==> hits[j] == ShouldHit(ops, p, j)
    {
      assert ops[..k + 1] == ops[..k] + [ops[k]];
      var hit := Perform(cache, p, ops[..k], ops[k]);
      hits := hits + [hit];
    }
    forall t: nat | |Distinct(Touched(ops, p, t))| <= p.ways
      ensures CountMisses(ops, hits, p, t) == |Distinct(Touched(ops, p, t))|
    {
      OncePerLine(ops, hits, p, t);
    }
    InBytes(p, ops, hits);
  }

  lemma InBytes(p: Params, ops: seq<Op>, hits: seq<bool>)
    requires Accepted(p.lineWidth, p.ways, p.sets) && |hits| == |ops|
    requires forall k :: 0 <= k < |ops| ==> hits[k] == ShouldHit(ops, p, k)
    ensures forall k :: 0 <= k < |ops| ==>
              (hits[k] <==> Cached(ops[k], p) && Resident(ops[..k], hits[..k], p, ops[k].addr, p.ways))
    ensures forall x: nat :: Confined(ops, p, x) ==>
              forall k :: 0 <= k < |ops| && ops[k].Read? ==> (hits[k] <==> ReadBefore(ops[..k], p, ops[k].addr))
  {
    hide ShouldHit, Resident, Confined, ReadBefore;
    forall k | 0 <= k < |ops|
      ensures hits[k] <==> Cached(ops[k], p) && Resident(ops[..k], hits[..k], p, ops[k].addr, p.ways)
    {
      HitIff(ops, hits, p, k);
    }
    forall x: nat, k | Confined(ops, p, x) && 0 <= k < |ops| && ops[k].Read?
      ensures hits[k] <==> ReadBefore(ops[..k], p, ops[k].addr)
    {
      FirstReadMisses(ops, hits, p, x, k);
    }
  }

  // In byte addresses alone.

  predicate Cached(op: Op, p: Params) { op.Read? && p.baseAddr <= op.addr < p.limit }

  /** A cacheable read that competes with `a` for the same ways. */
  predicate Competes(op: Op, p: Params, a: nat)
    requires Accepted(p.lineWidth, p.ways, p.sets)
  {
    Cached(op, p) && (op.addr / p.lineWidth) % p.sets == (a / p.lineWidth) % p.sets
  }

  /** How many of them have missed from operation `j` on. */
  function MissesFrom(ops: seq<Op>, hits: seq<bool>, p: Params, a: nat, j: nat): nat
    requires Accepted(p.lineWidth, p.ways, p.sets) && |hits| == |ops|
    decreases |ops|
  {
    if |ops| <= j then 0
    else
      var n := |ops| - 1;
      MissesFrom(ops[..n], hits[..n], p, a, j) + if Competes(ops[n], p, a) && !hits[n] then 1 else 0
  }

  /** Operation `j` missed, bringing in the line of `a`, and nothing has been invalidated since. */
  predicate Brings(ops: seq<Op>, hits: seq<bool>, p: Params, a: nat, j: nat)
    requires Accepted(p.lineWidth, p.ways, p.sets) && |hits| == |ops|
  {
    && j < |ops| && Cached(ops[j], p) && !hits[j] && ops[j].addr / p.lineWidth == a / p.lineWidth
    && forall m :: j < m < |ops| ==> ops[m].Read?
  }

  /** ... and fewer than `w` misses have come after it to compete with it. */
  predicate Resident(ops: seq<Op>, hits: seq<bool>, p: Params, a: nat, w: nat)
    requires Accepted(p.lineWidth, p.ways, p.sets) && |hits| == |ops|
  {
    exists j :: 0 <= j < |ops| && Brings(ops, hits, p, a, j) && MissesFrom(ops, hits, p, a, j + 1) < w
  }

  /** The lines that missed in the set of `a` since the last invalidation. */
  function Missed(ops: seq<Op>, hits: seq<bool>, p: Params, a: nat): seq<nat>
    requires Accepted(p.lineWidth, p.ways, p.sets) && |hits| == |ops|
    decreases |ops|
  {
    if ops == [] then []
    else
      var n := |ops| - 1;
      var before := Missed(ops[..n], hits[..n], p, a);
      if ops[n].Flush? then []
      else if Competes(ops[n], p, a) && !hits[n] then before + [ops[n].addr / p.lineWidth]
      else before
  }

  lemma {:induction false} MissedIsLog(ops: seq<Op>, hits: seq<bool>, p: Params, a: nat)
    requires Accepted(p.lineWidth, p.ways, p.sets) && |hits| == |ops|
    requires forall k :: 0 <= k < |ops| ==> hits[k] == ShouldHit(ops, p, k)
    ensures Missed(ops, hits, p, a) == MissLog([], p.ways, Touched(ops, p, (a / p.lineWidth) % p.sets))
    decreases |ops|
  {
    if ops != [] {
      var n, t := |ops| - 1, (a / p.lineWidth) % p.sets;
      var op, front := ops[n], ops[..n];
      forall k | 0 <= k < n ensures hits[..n][k] == ShouldHit(front, p, k) {
        assert front[..k] == ops[..k];
      }
      MissedIsLog(front, hits[..n], p, a);
      assert UsesSet(op, p, t) <==> Competes(op, p, a);
      if Competes(op, p, a) {
        MissLogExtend([], p.ways, Touched(front, p, t), op.addr / p.lineWidth);
      }
      hide Last;
    }
  }

  /** How residence changes with one more operation. */
  lemma ResidentStep(ops: seq<Op>, hits: seq<bool>, p: Params, a: nat, w: nat)
    requires Accepted(p.lineWidth, p.ways, p.sets) && |hits| == |ops| > 0
    ensures var n := |ops| - 1;
            var op, front, known := ops[n], ops[..n], hits[..n];
            var missed := Competes(op, p, a) && !hits[n];
            Resident(ops, hits, p, a, w) <==>
              && op.Read?
              && if missed && op.addr / p.lineWidth == a / p.lineWidth then w > 0
                 else if missed then w > 0 && Resident(front, known, p, a, w - 1)
                 else Resident(front, known, p, a, w)
  {
    var n := |ops| - 1;
    var op, front, known := ops[n], ops[..n], hits[..n];
    var c := if Competes(op, p, a) && !hits[n] then 1 else 0;
    forall j | 0 <= j < n
      ensures Brings(ops, hits, p, a, j) <==> op.Read? && Brings(front, known, p, a, j)
      ensures MissesFrom(ops, hits, p, a, j + 1) == MissesFrom(front, known, p, a, j + 1) + c
    {
      assert forall m :: j < m < n ==> front[m] == ops[m];
    }
    assert MissesFrom(ops, hits, p, a, n + 1) == 0;
    hide MissesFrom;
    assert Brings(ops, hits, p, a, n) <==> c == 1 && op.addr / p.lineWidth == a / p.lineWidth;
    hide Brings, Competes;
    if j: nat :| j < n && Brings(ops, hits, p, a, j) && MissesFrom(ops, hits, p, a, j + 1) < w {
      assert Brings(front, known, p, a, j);
    }
    if j: nat :| j < n && Brings(front, known, p, a, j) && MissesFrom(front, known, p, a, j + 1) + c < w && op.Read? {
      assert Brings(ops, hits, p, a, j);
    }
  }

  lemma LastWith(log: seq<nat>, x: nat, line: nat, w: nat)
    ensures line in Last(log + [x], w) <==> w > 0 && (x == line || line in Last(log, w - 1))
  {
    if w > 0 {
      assert Last(log + [x], w) == Last(log, w - 1) + [x];
    }
  }

  /** Among the last `w` entries of what has missed is a line exactly if it is resident for `w` ways. */
  lemma {:induction false} ResidentIff(ops: seq<Op>, hits: seq<bool>, p: Params, a: nat, w: nat)
    requires Accepted(p.lineWidth, p.ways, p.sets) && |hits| == |ops|
    ensures Resident(ops, hits, p, a, w) <==> a / p.lineWidth in Last(Missed(ops, hits, p, a), w)
    decreases |ops|
  {
    if ops != [] {
      var n := |ops| - 1;
      var front, known := ops[..n], hits[..n];
      ResidentStep(ops, hits, p, a, w);
      ResidentIff(front, known, p, a, w);
      LastWith(Missed(front, known, p, a), if ops[n].Read? then ops[n].addr / p.lineWidth else 0, a / p.lineWidth, w);
      if w > 0 {
        ResidentIff(front, known, p, a, w - 1);
      }
      hide Resident, Last, Competes;
    }
  }

  /** A read hits exactly if it is cacheable and, since the last invalidation, a read of the same line has missed, with
      fewer than `ways` misses after it that compete with it. */
  lemma HitIff(ops: seq<Op>, hits: seq<bool>, p: Params, k: nat)
    requires Accepted(p.lineWidth, p.ways, p.sets) && |hits| == |ops| && k < |ops|
    requires forall j :: 0 <= j < |ops| ==> hits[j] == ShouldHit(ops, p, j)
    ensures hits[k] <==> Cached(ops[k], p) && Resident(ops[..k], hits[..k], p, ops[k].addr, p.ways)
  {
    if ops[k].Read? {
      var a := ops[k].addr;
      forall j | 0 <= j < k ensures hits[..k][j] == ShouldHit(ops[..k], p, j) {
        assert ops[..k][..j] == ops[..j];
      }
      MissedIsLog(ops[..k], hits[..k], p, a);
      ResidentIff(ops[..k], hits[..k], p, a, p.ways);
      hide Resident, Missed, MissLog, Touched, Last;
    }
  }

  /** The line of `a` has been read since the last invalidation. */
  predicate ReadBefore(ops: seq<Op>, p: Params, a: nat)
    requires Accepted(p.lineWidth, p.ways, p.sets)
  {
    exists j :: 0 <= j < |ops| && ReadsLine(ops, p, a, j)
  }

  predicate ReadsLine(ops: seq<Op>, p: Params, a: nat, j: nat)
    requires Accepted(p.lineWidth, p.ways, p.sets) && j < |ops|
  {
    ops[j].Read? && ops[j].addr / p.lineWidth == a / p.lineWidth && forall m :: j < m < |ops| ==> ops[m].Read?
  }

  /** All reads are cacheable and within the size of a way, from the beginning `x` of a line on. */
  predicate Confined(ops: seq<Op>, p: Params, x: nat)
    requires Accepted(p.lineWidth, p.ways, p.sets)
  {
    && x % p.lineWidth == 0
    && forall k :: 0 <= k < |ops| && ops[k].Read? ==>
         Cached(ops[k], p) && x <= ops[k].addr < x + p.sets * p.lineWidth
  }

  /** Lines that are closer than the number of sets do not compete. */
  lemma OneLineASet(a: nat, b: nat, x: nat, lineWidth: nat, sets: nat)
    requires Accepted(lineWidth, 1, sets) && x % lineWidth == 0
    requires x <= a < x + sets * lineWidth && x <= b < x + sets * lineWidth
    requires (a / lineWidth) % sets == (b / lineWidth) % sets
    ensures a / lineWidth == b / lineWidth
  {
    var f := x / lineWidth;
    LineWithin(a, f, lineWidth, sets);
    LineWithin(b, f, lineWidth, sets);
    CloseAndEqual(a / lineWidth, b / lineWidth, sets);
  }

  lemma LineWithin(a: nat, f: nat, lineWidth: nat, sets: nat)
    requires Accepted(lineWidth, 1, sets) && f * lineWidth <= a < f * lineWidth + sets * lineWidth
    ensures f <= a / lineWidth < f + sets
  {
    AtOrAfter(f, a, lineWidth);
    AtOrAfter(f + sets, a, lineWidth);
    assert (f + sets) * lineWidth == f * lineWidth + sets * lineWidth;
  }

  lemma CloseAndEqual(n: nat, m: nat, sets: nat)
    requires (sets == 128 || sets == 256 || sets == 512 || sets == 1024) && n % sets == m % sets
    requires n < m + sets && m < n + sets
    ensures n == m
  {
  }

  /** The first operation since the last invalidation that reads the line of `a`. */
  lemma {:induction false} FirstReader(ops: seq<Op>, p: Params, a: nat) returns (j: nat)
    requires Accepted(p.lineWidth, p.ways, p.sets) && ReadBefore(ops, p, a)
    ensures j < |ops| && ReadsLine(ops, p, a, j) && !ReadBefore(ops[..j], p, a)
  {
    j :| 0 <= j < |ops| && ReadsLine(ops, p, a, j);
    while ReadBefore(ops[..j], p, a)
      invariant j < |ops| && ReadsLine(ops, p, a, j)
      decreases j
    {
      var i: nat :| i < j && ReadsLine(ops[..j], p, a, i);
      assert forall m :: i < m < j ==> ops[..j][m] == ops[m];
      assert ReadsLine(ops, p, a, i);
      j := i;
    }
  }

  lemma {:induction false} NoMisses(ops: seq<Op>, hits: seq<bool>, p: Params, a: nat, j: nat)
    requires Accepted(p.lineWidth, p.ways, p.sets) && |hits| == |ops|
    requires forall m :: j <= m < |ops| && Competes(ops[m], p, a) ==> hits[m]
    ensures MissesFrom(ops, hits, p, a, j) == 0
    decreases |ops|
  {
    hide Competes;
    if |ops| > j {
      var n := |ops| - 1;
      assert forall m :: j <= m < n ==> ops[..n][m] == ops[m] && hits[..n][m] == hits[m];
      NoMisses(ops[..n], hits[..n], p, a, j);
    }
  }

  /** A run confined to the size of a way: a line misses when it is read first, and never again until the next
      invalidation. */
  lemma {:induction false} FirstReadMisses(ops: seq<Op>, hits: seq<bool>, p: Params, x: nat, k: nat)
    requires Accepted(p.lineWidth, p.ways, p.sets) && |hits| == |ops| && k < |ops| && Confined(ops, p, x)
    requires forall j :: 0 <= j < |ops| ==> hits[j] == ShouldHit(ops, p, j)
    ensures ops[k].Read? ==> (hits[k] <==> ReadBefore(ops[..k], p, ops[k].addr))
    decreases k
  {
    if ops[k].Read? {
      var a, front, known := ops[k].addr, ops[..k], hits[..k];
      HitIff(ops, hits, p, k);
      hide ShouldHit;
      ResidentIsRead(front, known, p, a, p.ways);
      if ReadBefore(front, p, a) {
        var j := FirstReader(front, p, a);
        assert ops[j] == front[j] && ops[..j] == front[..j];
        FirstReadMisses(ops, hits, p, x, j);
        SameLine(ops[..j], p, ops[j].addr, a);
        forall m | j + 1 <= m < k && Competes(front[m], p, a) ensures known[m] {
          FirstReadMisses(ops, hits, p, x, m);
          OneLineASet(ops[m].addr, a, x, p.lineWidth, p.sets);
          assert ReadsLine(ops[..m], p, ops[m].addr, j);
        }
        NoMisses(front, known, p, a, j + 1);
        assert Brings(front, known, p, a, j);
      }
    }
  }

  lemma ResidentIsRead(ops: seq<Op>, hits: seq<bool>, p: Params, a: nat, w: nat)
    requires Accepted(p.lineWidth, p.ways, p.sets) && |hits| == |ops|
    ensures Resident(ops, hits, p, a, w) ==> ReadBefore(ops, p, a)
  {
    if j: nat :| j < |ops| && Brings(ops, hits, p, a, j) {
      assert ReadsLine(ops, p, a, j);
    }
  }

  lemma SameLine(ops: seq<Op>, p: Params, a: nat, b: nat)
    requires Accepted(p.lineWidth, p.ways, p.sets) && a / p.lineWidth == b / p.lineWidth
    ensures ReadBefore(ops, p, a) ==> ReadBefore(ops, p, b)
  {
    if ReadBefore(ops, p, a) {
      var j :| 0 <= j < |ops| && ReadsLine(ops, p, a, j);
      assert ReadsLine(ops, p, b, j);
    }
  }
}
