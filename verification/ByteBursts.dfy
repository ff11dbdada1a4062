/** VProcClass.h: bursts of bytes at any byte address, played by the burst engine onto a word-wide memory. */
module ByteBursts {
  import opened Bits
  import opened BurstEngine

  predicate Enabled(be: bv4, lane: nat)
    requires lane < 4
  {
    match lane case 0 => be & 1 != 0 case 1 => be & 2 != 0 case 2 => be & 4 != 0 case 3 => be & 8 != 0
  }

  /** (0xf << foff) & 0xf and 0xf >> (3 - loff). */
  function FirstEnables(foff: nat): bv4
    requires foff < 4
  {
    match foff case 0 => 0xF case 1 => 0xE case 2 => 0xC case 3 => 0x8
  }

  function LastEnables(loff: nat): bv4
    requires loff < 4
  {
    match loff case 0 => 0x1 case 1 => 0x3 case 2 => 0x7 case 3 => 0xF
  }

  /** The number of aligned words that `len` bytes from `addr` touch. */
  function WordsTouched(addr: nat, len: nat): nat
    requires len >= 1
  {
    (addr + len - 1) / 4 - addr / 4 + 1
  }

  /** The byte lane of the last of `len` bytes from `addr` (of the one before `addr`, if there is none). */
  function LastOffsetOf(addr: nat, len: nat): (lane: nat)
    ensures lane < 4
  {
    (addr + len + 3) % 4
  }

  lemma TouchedBySplit(a: nat, f: nat, q: nat, r: nat)
    requires f < 4 && r < 4 && 4 * q + r >= 1
    ensures WordsTouched(4 * a + f, 4 * q + r)
            == q + if r == 0 then (if f == 0 then 0 else 1) else if f + r > 4 then 2 else 1
  {
    var last := 4 * (a + q) + (f + r - 1);
    if f + r == 0 {
      assert last / 4 == a + q - 1;
    } else if f + r > 4 {
      assert last / 4 == a + q + 1;
    } else {
      assert last / 4 == a + q;
    }
  }

  lemma LastOffset(f: nat, r: nat, x: nat, a: nat, q: nat)
    requires f < 4 && r < 4 && x == 4 * (a + q) + (f + r) && x >= 1
    ensures (x - 1) % 4 == if f + r == 0 then 3 else if f + r > 4 then f + r - 5 else f + r - 1
  {
  }

  /** 32-bit unsigned arithmetic throughout, but for the signed difference of the two offsets. */
  method CalcWordLen(byteaddr: nat, bytelen: nat) returns (wlen: nat, foff: nat, loff: nat)
    requires byteaddr < ADDR_SPACE && bytelen < ADDR_SPACE
    ensures foff == byteaddr % 4
    ensures loff == LastOffsetOf(byteaddr, bytelen)
    ensures bytelen >= 1 ==> wlen == WordsTouched(byteaddr, bytelen)
    ensures bytelen == 0 ==> wlen == if foff == 0 then 0 else 1
  {
    var x := byteaddr + bytelen + ADDR_SPACE;
    loff := (x - 1) % ADDR_SPACE % 4;
    assert loff == (x - 1) % 4;
    LastOffset(byteaddr % 4, bytelen % 4, x, byteaddr / 4, bytelen / 4 + ADDR_SPACE / 4);
    if bytelen >= 1 {
      TouchedBySplit(byteaddr / 4, byteaddr % 4, bytelen / 4, bytelen % 4);
      LastOffset(byteaddr % 4, bytelen % 4, byteaddr + bytelen, byteaddr / 4, bytelen / 4);
    }
    foff := byteaddr % 4;
    var diffoff: int := loff - foff;
    wlen := bytelen / 4 + (if diffoff < 0 then 1 else 0) + (if bytelen % 4 != 0 then 1 else 0);
  }

  /** What the engine is asked to play for `len` bytes at `addr`. */
  function BurstFor(addr: nat, len: nat, write: bool): Command {
    var foff, loff := addr % 4, LastOffsetOf(addr, len);
    Command(addr - foff, write, !write, if len >= 1 then WordsTouched(addr, len) else if foff == 0 then 0 else 1,
            if write then FirstEnables(foff) else 0xF, if write then LastEnables(loff) else 0xF, ZERO, 0)
  }

  const BUFFER_BYTES: nat := (4096 + 1) * 4 * 4

  /** `data` placed `off` bytes into the buffer. */
  function Placed(buf: seq<Byte>, off: nat, data: seq<Byte>): (r: seq<Byte>)
    requires off + |data| <= |buf|
    ensures |r| == |buf|
  {
    buf[..off] + data + buf[off + |data|..]
  }

  lemma PlacedMore(buf: seq<Byte>, off: nat, data: seq<Byte>, n: nat)
    requires n < |data| && off + |data| <= |buf|
    ensures Placed(buf, off, data[..n])[off + n := data[n]] == Placed(buf, off, data[..n + 1])
  {
  }

  class ByteBuffer {
    const bytebuf: array<Byte>

    constructor ()
      ensures bytebuf.Length == BUFFER_BYTES && fresh(bytebuf)
    {
      bytebuf := new Byte[BUFFER_BYTES];
    }

    /** Copies the bytes to their lanes; the result is what is handed to the burst engine. */
    method BurstWriteBytes(byteaddr: nat, data: seq<Byte>) returns (c: Command)
      requires byteaddr < ADDR_SPACE && |data| + 3 <= bytebuf.Length && |data| < ADDR_SPACE
      modifies bytebuf
      ensures bytebuf[..] == Placed(old(bytebuf[..]), byteaddr % 4, data)
      ensures c == BurstFor(byteaddr, |data|, true)
      ensures data == [] ==> c.blk == if byteaddr % 4 == 0 then 0 else 1
    {
      var wlen, foff, loff := CalcWordLen(byteaddr, |data|);
      c := Command(byteaddr - foff, true, false, wlen, FirstEnables(foff), LastEnables(loff), ZERO, 0);
      assert c == BurstFor(byteaddr, |data|, true);
      assert bytebuf[..] == Placed(bytebuf[..], foff, data[..0]);
      hide *;
      for idx := 0 to |data|
        invariant bytebuf[..] == Placed(old(bytebuf[..]), foff, data[..idx])
      {
        PlacedMore(old(bytebuf[..]), foff, data, idx);
        bytebuf[idx + foff] := data[idx];
      }
      assert data[..|data|] == data;
    }

    /** Extracts the bytes from the words that a read burst has left in the buffer. */
    method ReadOut(byteaddr: nat, bytelen: nat) returns (data: seq<Byte>)
      requires bytelen + 3 <= bytebuf.Length
      ensures data == bytebuf[byteaddr % 4..byteaddr % 4 + bytelen]
    {
      data := [];
      var off := byteaddr % 4;
      for idx := 0 to bytelen
        invariant data == bytebuf[off..off + idx]
      {
        data := data + [bytebuf[idx + off]];
      }
    }
  }

  /** Byte-addressed memory behind the bus. */
  type Memory = nat -> Byte

  function StoreWord(mem: Memory, t: Transfer): Memory {
    (x: nat) => if t.addr <= x < t.addr + 4 && Enabled(t.be, x - t.addr) then Lane(t.data, x - t.addr) else mem(x)
  }

  function StoreAll(mem: Memory, ts: seq<Transfer>): Memory
    decreases |ts|
  {
    if ts == [] then mem else StoreAll(StoreWord(mem, ts[0]), ts[1..])
  }

  function LoadWord(mem: Memory, addr: nat): Word {
    Word(mem(addr), mem(addr + 1), mem(addr + 2), mem(addr + 3))
  }

  /** Word `k` of the buffer; indices outside it do not occur. */
  function WordAt(buf: seq<Byte>, k: int): Word {
    if 0 <= k && 4 * k + 3 < |buf| then Word(buf[4 * k], buf[4 * k + 1], buf[4 * k + 2], buf[4 * k + 3]) else ZERO
  }

  /** How far `x` is behind `base`, in an address space that wraps around. */
  function Behind(x: nat, base: nat): (o: nat)
    requires x < ADDR_SPACE && base < ADDR_SPACE
    ensures o < ADDR_SPACE
  {
    if x >= base then x - base else x + ADDR_SPACE - base
  }

  lemma {:induction false} WordAddress(addr: nat, k: nat)
    requires addr < ADDR_SPACE && 4 * k < ADDR_SPACE
    ensures AddrAt(addr, 4, k) == if addr + 4 * k < ADDR_SPACE then addr + 4 * k else addr + 4 * k - ADDR_SPACE
    decreases k
  {
    if k > 0 {
      WordAddress(addr, k - 1);
      PlusFour(AddrAt(addr, 4, k - 1));
    }
  }

  lemma PlusFour(a: nat)
    requires a < ADDR_SPACE
    ensures (a + 4) % ADDR_SPACE == if a + 4 < ADDR_SPACE then a + 4 else a + 4 - ADDR_SPACE
  {
  }

  /** The bytes of word `k` of a burst. */
  lemma InWord(addr: nat, k: nat, x: nat)
    requires addr < ADDR_SPACE && addr % 4 == 0 && 4 * k < ADDR_SPACE && x < ADDR_SPACE
    ensures var a := AddrAt(addr, 4, k);
            && (a <= x < a + 4 <==> 4 * k <= Behind(x, addr) < 4 * k + 4)
            && (a <= x < a + 4 ==> Behind(x, addr) / 4 == k && Behind(x, addr) % 4 == x - a)
  {
    WordAddress(addr, k);
    hide AddrAt;
    var q := addr / 4;
    assert addr == 4 * q;
  }

  /** A byte of words `k` to `k + n - 1` of a write burst lands at `x`. */
  predicate Hits(c: Command, k: nat, n: nat, x: nat)
    requires x < ADDR_SPACE && c.addr < ADDR_SPACE
  {
    4 * k <= Behind(x, c.addr) < 4 * (k + n) && Enabled(EnablesAt(c, Behind(x, c.addr) / 4), Behind(x, c.addr) % 4)
  }

  lemma {:induction false} StoredAt(mem: Memory, c: Command, k: nat, data: seq<Word>, source: int -> Word, x: nat)
    requires c.write && c.addr < ADDR_SPACE && c.addr % 4 == 0 && 4 * (k + |data|) <= ADDR_SPACE && x < ADDR_SPACE
    ensures StoreAll(mem, Expected(c, 4, k, data, source))(x)
            == if Hits(c, k, |data|, x) then Lane(source(Behind(x, c.addr) / 4), Behind(x, c.addr) % 4) else mem(x)
    decreases |data|
  {
    if data == [] {
    } else {
      hide AddrAt, Behind, EnablesAt, Enabled, Lane;
      InWord(c.addr, k, x);
      var t := TransferAt(c, 4, k, source(k));
      StoredAt(StoreWord(mem, t), c, k + 1, data[1..], source, x);
    }
  }

  lemma EnabledLane(addr: nat, len: nat, o: nat)
    requires len >= 1 && (WordsTouched(addr, len) >= 2 || (addr + len) % 4 == 0)
    ensures var c := BurstFor(addr, len, true);
            o < 4 * c.blk && Enabled(EnablesAt(c, o / 4), o % 4) <==> addr % 4 <= o < addr % 4 + len
  {
  }

  /** Behind the start of the first word and behind the first byte. */
  lemma BehindBoth(x: nat, addr: nat, len: nat)
    requires x < ADDR_SPACE && addr < ADDR_SPACE && len + 6 <= ADDR_SPACE
    ensures var base := addr - addr % 4;
            && (addr % 4 <= Behind(x, base) < addr % 4 + len <==> Behind(x, addr) < len)
            && (Behind(x, addr) < len ==> Behind(x, base) == Behind(x, addr) + addr % 4)
  {
  }

  lemma HitsExactly(addr: nat, len: nat, x: nat)
    requires len >= 1 && addr < ADDR_SPACE && len + 6 <= ADDR_SPACE && x < ADDR_SPACE
    requires WordsTouched(addr, len) >= 2 || (addr + len) % 4 == 0
    ensures var c := BurstFor(addr, len, true);
            && (Hits(c, 0, c.blk, x) <==> Behind(x, addr) < len)
            && (Behind(x, addr) < len ==> Behind(x, c.addr) == Behind(x, addr) + addr % 4)
  {
    var c := BurstFor(addr, len, true);
    assert c.addr == addr - addr % 4;
    hide Behind, BurstFor, EnablesAt, Enabled, WordsTouched;
    EnabledLane(addr, len, Behind(x, c.addr));
    BehindBoth(x, addr, len);
  }

  ghost predicate CoversExactly(addr: nat, len: nat)
    requires addr < ADDR_SPACE
  {
    var c := BurstFor(addr, len, true);
    forall x: nat :: x < ADDR_SPACE ==> (Hits(c, 0, c.blk, x) <==> Behind(x, addr) < len)
  }

  /** The engine plays a one-word burst with its first enables only, so bytes behind the end are overwritten
      too, unless the end is the end of the word. Two words or more are always exact. */
  lemma ExactIff(addr: nat, len: nat)
    requires len >= 1 && addr < ADDR_SPACE && len + 6 <= ADDR_SPACE
    ensures CoversExactly(addr, len) <==> WordsTouched(addr, len) >= 2 || (addr + len) % 4 == 0
  {
    var c := BurstFor(addr, len, true);
    if WordsTouched(addr, len) >= 2 || (addr + len) % 4 == 0 {
      forall x: nat | x < ADDR_SPACE ensures Hits(c, 0, c.blk, x) <==> Behind(x, addr) < len {
        HitsExactly(addr, len, x);
      }
    } else {
      OneWordSpan(addr, len);
      assert Behind(addr + len, addr) == len;
      assert Hits(c, 0, c.blk, addr + len);
    }
  }

  lemma OneWordSpan(addr: nat, len: nat)
    requires len >= 1 && addr < ADDR_SPACE && WordsTouched(addr, len) < 2 && (addr + len) % 4 != 0
    ensures addr % 4 + len < 4 && addr + len < ADDR_SPACE && WordsTouched(addr, len) == 1
  {
    var q := addr / 4;
    assert addr == 4 * q + addr % 4 && q < ADDR_SPACE / 4;
    assert (addr + len - 1) / 4 >= q;
  }

  /** The buffer contents as the source of a write burst. */
  function Source(buf: seq<Byte>): int -> Word { k => WordAt(buf, k) }

  lemma PlacedByte(buf: seq<Byte>, off: nat, data: seq<Byte>, o: nat)
    requires off < 4 && off <= o < off + |data| && |data| + 6 <= |buf|
    ensures Lane(WordAt(Placed(buf, off, data), o / 4), o % 4) == data[o - off]
  {
    var p := Placed(buf, off, data);
    assert 4 * (o / 4) + o % 4 == o && p[o] == data[o - off];
  }

  lemma BurstShape(addr: nat, len: nat)
    requires len >= 1 && addr < ADDR_SPACE && len + 6 <= ADDR_SPACE
    ensures var c := BurstFor(addr, len, true);
            && c.write && c.addr == addr - addr % 4 && c.addr % 4 == 0
            && c.blk == WordsTouched(addr, len) && 4 * c.blk <= ADDR_SPACE
  {
    SpanFits(addr, len);
  }

  lemma StoredBytes(mem: Memory, addr: nat, data: seq<Byte>, buf: seq<Byte>, acked: seq<Word>, x: nat)
    requires |data| >= 1 && addr < ADDR_SPACE && |data| + 6 <= |buf| && |data| + 6 <= ADDR_SPACE && x < ADDR_SPACE
    requires |acked| == WordsTouched(addr, |data|) && (WordsTouched(addr, |data|) >= 2 || (addr + |data|) % 4 == 0)
    ensures StoreAll(mem, Expected(BurstFor(addr, |data|, true), 4, 0, acked, Source(Placed(buf, addr % 4, data))))(x)
            == if Behind(x, addr) < |data| then data[Behind(x, addr)] else mem(x)
  {
    var c := BurstFor(addr, |data|, true);
    BurstShape(addr, |data|);
    HitsExactly(addr, |data|, x);
    hide *;
    var o := Behind(x, c.addr);
    StoredAt(mem, c, 0, acked, Source(Placed(buf, addr % 4, data)), x);
    if Behind(x, addr) < |data| {
      PlacedByte(buf, addr % 4, data, o);
    }
  }

  /** The engine plays the burst `c` from its first word to its last, with any stalls on the way. */
  ghost predicate Plays(s: VProc, c: Command, ins: seq<In>, last: In) {
    && InBurst(s, c, 4, 0, last.source) && |AckedData(c, ins)| == c.blk - 1 && Acked(c, last)
    && forall j :: 0 <= j < |ins| ==> ins[j].source == last.source
  }

  /** A byte burst of two words or more, whatever the stalls: the memory then holds exactly the given bytes at
      their addresses and is unchanged everywhere else. */
  lemma BytesWritten(s: VProc, mem: Memory, addr: nat, data: seq<Byte>, buf: seq<Byte>, ins: seq<In>, last: In, x: nat)
    requires |data| >= 1 && addr < ADDR_SPACE && |data| + 6 <= |buf| && |data| + 6 <= ADDR_SPACE && x < ADDR_SPACE
    requires WordsTouched(addr, |data|) >= 2 || (addr + |data|) % 4 == 0
    requires Plays(s, BurstFor(addr, |data|, true), ins, last) && last.source == Source(Placed(buf, addr % 4, data))
    ensures StoreAll(mem, BusLog(s, 4, ins) + Transfers(BusRun(s, 4, ins), last))(x)
            == if Behind(x, addr) < |data| then data[Behind(x, addr)] else mem(x)
  {
    var c := BurstFor(addr, |data|, true);
    var acked := AckedData(c, ins) + [last.dataIn];
    hide InBurst, BusLog, BusRun, Transfers, AckedData, Expected, StoreAll, Placed, WordAt, Behind;
    WholeBurst(s, c, 4, ins, last, last.source);
    StoredBytes(mem, addr, data, buf, acked, x);
  }

  function PutWord(buf: seq<Byte>, at: nat, w: Word): (r: seq<Byte>)
    requires at + 4 <= |buf|
    ensures |r| == |buf|
  {
    buf[..at] + [w.b0, w.b1, w.b2, w.b3] + buf[at + 4..]
  }

  lemma PutWordAt(buf: seq<Byte>, k: nat, w: Word, j: nat, lane: nat)
    requires 4 * k + 4 <= |buf| && 4 * j + lane < |buf| && lane < 4
    ensures PutWord(buf, 4 * k, w)[4 * j + lane] == if j == k then Lane(w, lane) else buf[4 * j + lane]
  {
  }

  /** Words handed over by VAccess calls go to their place in the buffer. */
  function Filled(buf: seq<Byte>, log: seq<Access>): (r: seq<Byte>)
    ensures |r| == |buf|
    decreases |log|
  {
    if log == [] then buf
    else if 0 <= log[0].idx && 4 * log[0].idx + 4 <= |buf| then
      Filled(PutWord(buf, 4 * log[0].idx, log[0].data), log[1..])
    else Filled(buf, log[1..])
  }

  lemma {:induction false} FilledAt(buf: seq<Byte>, c: Command, k: nat, data: seq<Word>, j: nat, lane: nat)
    requires c.read && !c.write && 4 * (k + |data|) <= |buf| && 4 * j + lane < |buf| && lane < 4
    ensures Filled(buf, ExpectedAccesses(c, k, data))[4 * j + lane]
            == if k <= j < k + |data| then Lane(data[j - k], lane) else buf[4 * j + lane]
    decreases |data|
  {
    if data == [] {
    } else {
      var es := ExpectedAccesses(c, k, data);
      assert es[0] == Access(k, data[0]) && es[1..] == ExpectedAccesses(c, k + 1, data[1..]);
      PutWordAt(buf, k, data[0], j, lane);
      FilledAt(PutWord(buf, 4 * k, data[0]), c, k + 1, data[1..], j, lane);
      hide PutWord, ExpectedAccesses, Lane;
    }
  }

  /** The words that a memory returns to a read burst. */
  predicate Returned(words: seq<Word>, mem: Memory, c: Command) {
    forall k :: 0 <= k < |words| ==> words[k] == LoadWord(mem, AddrAt(c.addr, 4, k))
  }

  lemma FilledLane(mem: Memory, c: Command, buf: seq<Byte>, words: seq<Word>, k: nat, lane: nat)
    requires c.read && !c.write && 4 * |words| <= |buf| && k < |words| && lane < 4
    requires c.addr < ADDR_SPACE && c.addr % 4 == 0 && 4 * k < ADDR_SPACE && Returned(words, mem, c)
    ensures Filled(buf, ExpectedAccesses(c, 0, words))[4 * k + lane] == mem((c.addr + (4 * k + lane)) % ADDR_SPACE)
  {
    hide ExpectedAccesses, Filled, AddrAt, LoadWord, Lane;
    FilledAt(buf, c, 0, words, k, lane);
    LaneAddress(c.addr, k, lane);
    LaneOfLoad(mem, AddrAt(c.addr, 4, k), lane);
  }

  lemma LaneAddress(addr: nat, k: nat, lane: nat)
    requires addr < ADDR_SPACE && addr % 4 == 0 && 4 * k < ADDR_SPACE && lane < 4
    ensures (addr + (4 * k + lane)) % ADDR_SPACE == AddrAt(addr, 4, k) + lane
  {
    WordAddress(addr, k);
    hide AddrAt;
    var q := addr / 4 + k;
    assert addr + 4 * k == 4 * q;
  }

  /** Position `p` of the buffer gets the byte `p` places from the start of the burst. */
  lemma FilledByte(mem: Memory, c: Command, buf: seq<Byte>, words: seq<Word>, p: nat)
    requires c.read && !c.write && p < 4 * |words| <= |buf| && p < ADDR_SPACE
    requires c.addr < ADDR_SPACE && c.addr % 4 == 0 && Returned(words, mem, c)
    ensures Filled(buf, ExpectedAccesses(c, 0, words))[p] == mem((c.addr + p) % ADDR_SPACE)
  {
    hide ExpectedAccesses, Filled, Returned;
    FilledLane(mem, c, buf, words, p / 4, p % 4);
  }

  /** The words of a span contain it, and end less than a word behind it. */
  lemma SpanFits(addr: nat, len: nat)
    requires len >= 1
    ensures addr % 4 + len <= 4 * WordsTouched(addr, len)
    ensures 4 * WordsTouched(addr, len) <= addr % 4 + len + 3
  {
    assert addr == 4 * (addr / 4) + addr % 4;
    var n := addr + len - 1;
    assert n == 4 * (n / 4) + n % 4;
  }

  lemma LaneOfLoad(mem: Memory, a: nat, lane: nat)
    requires lane < 4
    ensures Lane(LoadWord(mem, a), lane) == mem(a + lane)
  {
  }

  /** A byte burst read, whatever the stalls: the bytes extracted are those in memory. */
  lemma BytesRead(s: VProc, mem: Memory, addr: nat, len: nat, buf: seq<Byte>, ins: seq<In>, last: In, i: nat)
    requires len >= 1 && addr < ADDR_SPACE && len + 6 <= ADDR_SPACE && 4 * WordsTouched(addr, len) <= |buf| && i < len
    requires Plays(s, BurstFor(addr, len, false), ins, last)
    requires Returned(AckedData(BurstFor(addr, len, false), ins) + [last.dataIn], mem, BurstFor(addr, len, false))
    ensures var log := ExpectedAccesses(BurstFor(addr, len, false), 0,
                                        AckedData(BurstFor(addr, len, false), ins) + [last.dataIn]);
            && log <= AccessLog(s, 4, ins) + Accesses(BusRun(s, 4, ins), last)
            && addr % 4 + i < |Filled(buf, log)| && Filled(buf, log)[addr % 4 + i] == mem((addr + i) % ADDR_SPACE)
  {
    var c := BurstFor(addr, len, false);
    hide InBurst, BusLog, BusRun, Transfers, Accesses, AccessLog, AckedData, ExpectedAccesses, Filled, Returned;
    WholeBurst(s, c, 4, ins, last, last.source);
    SpanFits(addr, len);
    assert c.addr + addr % 4 == addr && c.addr % 4 == 0;
    hide WordsTouched;
    FilledByte(mem, c, buf, AckedData(c, ins) + [last.dataIn], addr % 4 + i);
  }

  lemma BehindWraps(addr: nat, i: nat)
    requires addr < ADDR_SPACE && i < ADDR_SPACE
    ensures Behind((addr + i) % ADDR_SPACE, addr) == i
  {
  }

  /** Reading back what a write burst has stored returns the bytes that were written. */
  lemma RoundTrip(w: VProc, mem: Memory, addr: nat, data: seq<Byte>, wbuf: seq<Byte>, wins: seq<In>, wlast: In,
                  r: VProc, rbuf: seq<Byte>, rins: seq<In>, rlast: In, i: nat)
    requires |data| >= 1 && addr < ADDR_SPACE && |data| + 6 <= |wbuf| && |data| + 6 <= ADDR_SPACE && i < |data|
    requires WordsTouched(addr, |data|) >= 2 || (addr + |data|) % 4 == 0
    requires Plays(w, BurstFor(addr, |data|, true), wins, wlast) && wlast.source == Source(Placed(wbuf, addr % 4, data))
    requires 4 * WordsTouched(addr, |data|) <= |rbuf| && Plays(r, BurstFor(addr, |data|, false), rins, rlast)
    requires Returned(AckedData(BurstFor(addr, |data|, false), rins) + [rlast.dataIn],
                      StoreAll(mem, BusLog(w, 4, wins) + Transfers(BusRun(w, 4, wins), wlast)),
                      BurstFor(addr, |data|, false))
    ensures var log := ExpectedAccesses(BurstFor(addr, |data|, false), 0,
                                        AckedData(BurstFor(addr, |data|, false), rins) + [rlast.dataIn]);
            && log <= AccessLog(r, 4, rins) + Accesses(BusRun(r, 4, rins), rlast)
            && addr % 4 + i < |Filled(rbuf, log)| && Filled(rbuf, log)[addr % 4 + i] == data[i]
  {
    BehindWraps(addr, i);
    hide *;
    var stored := StoreAll(mem, BusLog(w, 4, wins) + Transfers(BusRun(w, 4, wins), wlast));
    BytesRead(r, stored, addr, |data|, rbuf, rins, rlast, i);
    BytesWritten(w, mem, addr, data, wbuf, wins, wlast, (addr + i) % ADDR_SPACE);
  }
}
