/** ltssm.c: one node's way from Detect to L0, one loop iteration at a time. */
module LinkNode {
  /** The symbol that stands for "no number" in a training set. */
  const PAD: int := 0x1f7

  datatype Phase =
    | Detect | PollingActive | PollingConfig
    | ConfigStart | LanenumWait | LanenumAccept | Complete | ConfigIdle | L0

  /** What a node can put on the line in one iteration: a TS1 or TS2 ordered set, or logical idle. */
  datatype Item = LogicalIdle | Ts1(link: int, lane: int) | Ts2(link: int, lane: int)

  /** The configuration of a node: its link number, and two loop limits. */
  datatype Config = Config(link: int, pollTx: nat, quietTo: nat)

  /** A node between two iterations: the loop's own counters (`i`, the sends counted in Complete, and that
      loop's copy of the TS2 count), the reception counters since their last reset, and the last training
      set received. */
  datatype Node = Node(phase: Phase, i: nat, sends: nat, ts2Local: nat,
                       ts1: nat, ts2: nat, idles: nat, lastLink: int, lastLane: int)

  /** Whatever else an iteration depends on: the lanes' electrical idle status, the value that an uninitialised
      local holds, and what a node sends once it is in L0. */
  datatype Env = Env(lanesIdle: bool, stale: nat, payload: Item)

  function SendItem(n: Node, c: Config, e: Env): Item {
    match n.phase
    case Detect => LogicalIdle
    case PollingActive => Ts1(PAD, PAD)
    case PollingConfig => Ts2(PAD, PAD)
    case ConfigStart => Ts1(c.link, PAD)
    case LanenumWait | LanenumAccept => Ts1(c.link, 0)
    case Complete => Ts2(c.link, 0)
    case ConfigIdle => LogicalIdle
    case L0 => e.payload
  }

  function Receive(n: Node, item: Item): Node {
    match item
    case LogicalIdle => n.(idles := n.idles + 1)
    case Ts1(link, lane) => n.(ts1 := n.ts1 + 1, lastLink := link, lastLane := lane)
    case Ts2(link, lane) => n.(ts2 := n.ts2 + 1, lastLink := link, lastLane := lane)
  }

  function ReceiveAll(n: Node, items: seq<Item>): Node
    decreases |items|
  {
    if items == [] then n else ReceiveAll(Receive(n, items[0]), items[1..])
  }

  /** The rest of an iteration, after the send and the receptions that went with it: the loop body and the
      exit test, which on success also starts the next loop. */
  function Evaluate(n: Node, c: Config, e: Env): Node {
    var padded := n.lastLink == PAD && n.lastLane == PAD;
    match n.phase
    case Detect =>
      if n.i + 1 < c.quietTo && e.lanesIdle then n.(i := n.i + 1)
      else n.(phase := PollingActive, i := 0, ts1 := 0, ts2 := 0)
    case PollingActive =>
      var i := if n.ts1 > 0 || n.ts2 > 0 || n.i > 0 then n.i + 1 else n.i;
      if padded && (n.ts1 >= 8 || n.ts2 >= 8) && i >= c.pollTx then n.(phase := PollingConfig, i := 0, ts2 := 0)
      else n.(i := i)
    case PollingConfig =>
      var i := if n.ts2 > 0 || n.i > 0 then n.i + 1 else n.i;
      var ts2 := if padded then n.ts2 else 0;
      if ts2 >= 8 && i >= 16 then n.(phase := ConfigStart, i := i, ts2 := ts2, ts1 := 0)
      else n.(i := i, ts2 := ts2)
    case ConfigStart =>
      var ts1 := if n.lastLink == PAD then 0 else n.ts1;
      if ts1 >= 2 && n.lastLink == c.link then n.(phase := LanenumWait, ts1 := 0)
      else n.(ts1 := ts1)
    case LanenumWait =>
      var ts1 := if n.lastLink != c.link || n.lastLane != 0 then 0 else n.ts1;
      if ts1 >= 2 then n.(phase := LanenumAccept, ts1 := 0)
      else n.(ts1 := ts1)
    case LanenumAccept =>
      var ts1 := if n.lastLink != c.link && n.lastLane != 0 then 0 else n.ts1;
      if ts1 >= 2 then n.(phase := Complete, ts1 := ts1, ts2 := 0, sends := 0, ts2Local := e.stale)
      else n.(ts1 := ts1)
    case Complete =>
      var sends := if n.ts2Local > 0 then n.sends + 1 else n.sends;
      var ts2Local := if n.lastLink != c.link && n.lastLane != 0 then 0 else n.ts2;
      if ts2Local >= 8 && sends >= 16 then
        n.(phase := ConfigIdle, sends := sends, ts2Local := ts2Local, i := 0, idles := 0)
      else n.(sends := sends, ts2Local := ts2Local)
    case ConfigIdle =>
      var i := if n.idles > 0 then n.i + 1 else n.i;
      if i >= 16 && n.idles >= 8 then n.(phase := L0, i := i)
      else n.(i := i)
    case L0 => n
  }

  function Iterate(n: Node, c: Config, received: seq<Item>, e: Env): Node {
    Evaluate(ReceiveAll(n, received), c, e)
  }

  lemma {:induction false} ReceiveLast(n: Node, items: seq<Item>, item: Item)
    ensures ReceiveAll(n, items + [item]) == Receive(ReceiveAll(n, items), item)
    decreases |items|
  {
    if items == [] {
      assert ([item])[1..] == [];
    } else {
      assert (items + [item])[1..] == items[1..] + [item];
      ReceiveLast(Receive(n, items[0]), items[1..], item);
    }
  }

  /** The state that the loops of Detect, Polling and Configuration keep for a node. */
  class Trainer {
    const cfg: Config
    var phase: Phase
    var i: nat
    var sends: nat
    var ts2Local: nat
    var ts1: nat
    var ts2: nat
    var idles: nat
    var lastLink: int
    var lastLane: int

    function View(): Node
      reads this
    {
      Node(phase, i, sends, ts2Local, ts1, ts2, idles, lastLink, lastLane)
    }

    constructor (cfg: Config)
      ensures phase == Detect && i == 0 && this.cfg == cfg
    {
      this.cfg := cfg;
      phase, i := Detect, 0;
    }

    method CountReceptions(received: seq<Item>)
      modifies `ts1, `ts2, `idles, `lastLink, `lastLane
      ensures View() == ReceiveAll(old(View()), received)
    {
      for k := 0 to |received|
        invariant View() == ReceiveAll(old(View()), received[..k])
      {
        assert received[..k + 1] == received[..k] + [received[k]];
        ReceiveLast(old(View()), received[..k], received[k]);
        match received[k]
        case LogicalIdle => idles := idles + 1;
        case Ts1(link, lane) => ts1, lastLink, lastLane := ts1 + 1, link, lane;
        case Ts2(link, lane) => ts2, lastLink, lastLane := ts2 + 1, link, lane;
      }
      assert received[..|received|] == received;
    }

    /** One iteration of the loop that the node is in. */
    method Iteration(received: seq<Item>, e: Env) returns (sent: Item)
      modifies this
      ensures View() == Iterate(old(View()), cfg, received, e)
      ensures sent == SendItem(old(View()), cfg, e)
    {
      sent := SendItem(View(), cfg, e);
      CountReceptions(received);
      var padded := lastLink == PAD && lastLane == PAD;
      match phase
      case Detect =>
        i := i + 1;
        if !(i < cfg.quietTo && e.lanesIdle) {
          phase, i, ts1, ts2 := PollingActive, 0, 0, 0;
        }
      case PollingActive =>
        if ts1 > 0 || ts2 > 0 || i > 0 {
          i := i + 1;
        }
        if padded && (ts1 >= 8 || ts2 >= 8) && i >= cfg.pollTx {
          phase, i, ts2 := PollingConfig, 0, 0;
        }
      case PollingConfig =>
        if ts2 > 0 || i > 0 {
          i := i + 1;
        }
        if !padded {
          ts2 := 0;
        }
        if ts2 >= 8 && i >= 16 {
          phase, ts1 := ConfigStart, 0;
        }
      case ConfigStart =>
        if lastLink == PAD {
          ts1 := 0;
        }
        if ts1 >= 2 && lastLink == cfg.link {
          phase, ts1 := LanenumWait, 0;
        }
      case LanenumWait =>
        if lastLink != cfg.link || lastLane != 0 {
          ts1 := 0;
        }
        if ts1 >= 2 {
          phase, ts1 := LanenumAccept, 0;
        }
      case LanenumAccept =>
        if lastLink != cfg.link && lastLane != 0 {
          ts1 := 0;
        }
        if ts1 >= 2 {
          phase, ts2, sends, ts2Local := Complete, 0, 0, e.stale;
        }
      case Complete =>
        if ts2Local > 0 {
          sends := sends + 1;
        }
        ts2Local := if lastLink != cfg.link && lastLane != 0 then 0 else ts2;
        if ts2Local >= 8 && sends >= 16 {
          phase, i, idles := ConfigIdle, 0, 0;
        }
      case ConfigIdle =>
        if idles > 0 {
          i := i + 1;
        }
        if i >= 16 && idles >= 8 {
          phase := L0;
        }
      case L0 =>
    }
  }
}

/** Two nodes joined by two FIFO channels. */
module LinkTraining {
  import opened LinkNode

  /** The order of the phases; the two lane number states count as one. */
  function Rank(p: Phase): nat {
    match p
    case Detect => 0
    case PollingActive => 1
    case PollingConfig => 2
    case ConfigStart => 3
    case LanenumWait | LanenumAccept => 4
    case Complete => 5
    case ConfigIdle => 6
    case L0 => 7
  }

  /** An item in flight, with the rank of the phase that its sender was in. */
  datatype Sent = Sent(item: Item, rank: nat)

  /** A node, and the highest rank it has received from. */
  datatype Side = Side(node: Node, cfg: Config, got: nat)

  /** Both sides, and what is in flight towards each. */
  datatype Link = Link(a: Side, b: Side, toA: seq<Sent>, toB: seq<Sent>)

  /** One iteration of one node: how many of the items in flight it receives, and its environment. */
  datatype Act = Act(byA: bool, take: nat, env: Env)

  function Items(s: seq<Sent>): seq<Item> { seq(|s|, k requires 0 <= k < |s| => s[k].item) }

  function SideNext(x: Side, received: seq<Sent>, e: Env): Side {
    x.(node := Iterate(x.node, x.cfg, Items(received), e),
       got := if received == [] then x.got else received[|received| - 1].rank)
  }

  function Emit(x: Side, e: Env): Sent { Sent(SendItem(x.node, x.cfg, e), Rank(x.node.phase)) }

  function Taken(flight: seq<Sent>, take: nat): nat { if take < |flight| then take else |flight| }

  function LinkNext(l: Link, act: Act): Link {
    if act.byA then
      var k := Taken(l.toA, act.take);
      Link(SideNext(l.a, l.toA[..k], act.env), l.b, l.toA[k..], l.toB + [Emit(l.a, act.env)])
    else
      var k := Taken(l.toB, act.take);
      Link(l.a, SideNext(l.b, l.toB[..k], act.env), l.toA + [Emit(l.b, act.env)], l.toB[k..])
  }

  /** The item is one that a node with link number `link` sends in a phase of this rank. */
  predicate Genuine(s: Sent, link: int) {
    match s.rank
    case 0 => s.item == LogicalIdle
    case 1 => s.item == Ts1(PAD, PAD)
    case 2 => s.item == Ts2(PAD, PAD)
    case 3 => s.item == Ts1(link, PAD)
    case 4 => s.item == Ts1(link, 0)
    case 5 => s.item == Ts2(link, 0)
    case 6 => s.item == LogicalIdle
    case _ => s.rank == 7
  }

  /** In flight from a node now in a phase of rank `top` to one that has received from rank `got`: in order of rank. */
  predicate Channel(flight: seq<Sent>, got: nat, top: nat, link: int) {
    && got <= top
    && (forall k :: 0 <= k < |flight| ==> got <= flight[k].rank <= top && Genuine(flight[k], link))
    && (forall j, k :: 0 <= j < k < |flight| ==> flight[j].rank <= flight[k].rank)
  }

  /** What the counters of a node say about its partner, whose link number is `link`. */
  predicate Evidence(x: Side, link: int) {
    var n, rank := x.node, Rank(x.node.phase);
    && (rank >= 2 ==> x.got >= rank - 1)
    && (n.phase == PollingActive && (n.ts1 > 0 || n.ts2 > 0) ==> x.got >= 1)
    && (n.phase == PollingConfig && n.ts2 > 0 ==> x.got >= 2)
    && (rank >= 3 && n.lastLink != PAD ==> x.got >= 3 && (n.lastLink == link || x.got == 7))
    && (rank >= 3 && n.lastLane == 0 ==> x.got >= 4)
    && (n.phase == LanenumAccept ==> x.got >= 4)
    && (n.phase == Complete && n.ts2 > 0 ==> x.got >= 5)
    && (n.phase == ConfigIdle && n.idles > 0 ==> x.got >= 6)
  }

  /** A node past Config.Start has agreed on the link number. */
  predicate Agreed(x: Side, link: int) { Rank(x.node.phase) >= 4 ==> x.cfg.link == link }

  predicate Inv(l: Link) {
    && l.a.cfg.link != PAD && l.b.cfg.link != PAD
    && Channel(l.toA, l.a.got, Rank(l.b.node.phase), l.b.cfg.link)
    && Channel(l.toB, l.b.got, Rank(l.a.node.phase), l.a.cfg.link)
    && Evidence(l.a, l.b.cfg.link) && Evidence(l.b, l.a.cfg.link)
    && Agreed(l.a, l.b.cfg.link) && Agreed(l.b, l.a.cfg.link)
  }

  lemma ReceiveOne(x: Side, s: Sent, link: int)
    requires Evidence(x, link) && Genuine(s, link) && x.got <= s.rank
    ensures Evidence(x.(node := Receive(x.node, s.item), got := s.rank), link)
  {
  }

  lemma {:induction false} ReceiveMany(x: Side, flight: seq<Sent>, link: int)
    requires Evidence(x, link)
    requires forall k :: 0 <= k < |flight| ==> x.got <= flight[k].rank && Genuine(flight[k], link)
    requires forall j, k :: 0 <= j < k < |flight| ==> flight[j].rank <= flight[k].rank
    ensures var got := if flight == [] then x.got else flight[|flight| - 1].rank;
            Evidence(x.(node := ReceiveAll(x.node, Items(flight)), got := got), link)
    decreases |flight|
  {
    if flight == [] {
    } else {
      var x' := x.(node := Receive(x.node, flight[0].item), got := flight[0].rank);
      ReceiveOne(x, flight[0], link);
      hide Evidence, Receive;
      ReceiveMany(x', flight[1..], link);
      assert Items(flight)[1..] == Items(flight[1..]) && Items(flight)[0] == flight[0].item;
    }
  }

  /** The exit tests let a node into a phase only on evidence that its partner has reached the one before. */
  lemma EvaluateKeeps(x: Side, link: int, e: Env)
    requires Evidence(x, link) && Agreed(x, link) && x.cfg.link != PAD
    requires x.got == 7 ==> x.cfg.link == link
    ensures var x' := x.(node := Evaluate(x.node, x.cfg, e));
            Evidence(x', link) && Agreed(x', link) && Rank(x'.node.phase) >= Rank(x.node.phase)
  {
  }

  lemma SideStep(x: Side, flight: seq<Sent>, k: nat, y: Side, e: Env)
    requires x.cfg.link != PAD && k <= |flight|
    requires Channel(flight, x.got, Rank(y.node.phase), y.cfg.link)
    requires Evidence(x, y.cfg.link) && Agreed(x, y.cfg.link) && Agreed(y, x.cfg.link)
    ensures var x' := SideNext(x, flight[..k], e);
            && Channel(flight[k..], x'.got, Rank(y.node.phase), y.cfg.link)
            && Evidence(x', y.cfg.link) && Agreed(x', y.cfg.link) && Rank(x'.node.phase) >= Rank(x.node.phase)
  {
    var got := if k == 0 then x.got else flight[k - 1].rank;
    var r := x.(node := ReceiveAll(x.node, Items(flight[..k])), got := got);
    ReceiveMany(x, flight[..k], y.cfg.link);
    SamePhase(x.node, Items(flight[..k]));
    hide Evidence, ReceiveAll, Evaluate;
    EvaluateKeeps(r, y.cfg.link, e);
  }

  lemma {:induction false} SamePhase(n: Node, items: seq<Item>)
    ensures ReceiveAll(n, items).phase == n.phase
    decreases |items|
  {
    if items != [] {
      SamePhase(Receive(n, items[0]), items[1..]);
    }
  }

  lemma SendStep(x: Side, flight: seq<Sent>, got: nat, e: Env, top: nat)
    requires Channel(flight, got, Rank(x.node.phase), x.cfg.link) && Rank(x.node.phase) <= top
    ensures Channel(flight + [Emit(x, e)], got, top, x.cfg.link)
  {
    assert Genuine(Emit(x, e), x.cfg.link);
    hide Emit;
  }

  lemma LinkStep(l: Link, act: Act)
    requires Inv(l)
    ensures Inv(LinkNext(l, act))
  {
    hide Evidence, Evaluate, Channel;
    if act.byA {
      SideStep(l.a, l.toA, Taken(l.toA, act.take), l.b, act.env);
      ConfigKept(l.a, l.toA[..Taken(l.toA, act.take)], act.env);
      SendStep(l.a, l.toB, l.b.got, act.env, Rank(LinkNext(l, act).a.node.phase));
    } else {
      SideStep(l.b, l.toB, Taken(l.toB, act.take), l.a, act.env);
      SendStep(l.b, l.toA, l.a.got, act.env, Rank(LinkNext(l, act).b.node.phase));
    }
  }

  lemma ConfigKept(x: Side, received: seq<Sent>, e: Env)
    ensures SideNext(x, received, e).cfg == x.cfg
  {
  }

  function LinkRun(l: Link, acts: seq<Act>): Link
    decreases |acts|
  {
    if acts == [] then l else LinkRun(LinkNext(l, acts[0]), acts[1..])
  }

  /** Both nodes about to enter Detect, nothing on the wires; link numbers fit in a byte. */
  predicate Start(l: Link) {
    && l.a.node.phase == l.b.node.phase == Detect && l.toA == l.toB == [] && l.a.got == l.b.got == 0
    && 0 <= l.a.cfg.link < 256 && 0 <= l.b.cfg.link < 256
  }

  lemma {:induction false} Reachable(l: Link, acts: seq<Act>)
    requires Inv(l)
    ensures Inv(LinkRun(l, acts))
    decreases |acts|
  {
    if acts != [] {
      LinkStep(l, acts[0]);
      hide LinkNext, Inv;
      Reachable(LinkNext(l, acts[0]), acts[1..]);
    }
  }

  /** Training stays in lock-step under every interleaving, delay and batching of receptions: a node from
      Polling.Config on has a partner that has reached at least the phase before, and one past Config.Start
      has a partner with its own link number. */
  lemma LockStep(l: Link, acts: seq<Act>)
    requires Start(l)
    ensures var m := LinkRun(l, acts);
            var ra, rb := Rank(m.a.node.phase), Rank(m.b.node.phase);
            && (ra >= 2 ==> rb >= ra - 1) && (rb >= 2 ==> ra >= rb - 1)
            && (ra >= 4 || rb >= 4 ==> m.a.cfg.link == m.b.cfg.link)
  {
    Reachable(l, acts);
  }

  lemma {:induction false} ConfigsStay(l: Link, acts: seq<Act>)
    ensures LinkRun(l, acts).a.cfg == l.a.cfg && LinkRun(l, acts).b.cfg == l.b.cfg
    decreases |acts|
  {
    if acts != [] {
      ConfigsStay(LinkNext(l, acts[0]), acts[1..]);
    }
  }

  /** Nodes configured with different link numbers never get past Config.Start. */
  lemma DifferentNumbersNeverTrain(l: Link, acts: seq<Act>)
    requires Start(l) && l.a.cfg.link != l.b.cfg.link
    ensures Rank(LinkRun(l, acts).a.node.phase) <= 3 && Rank(LinkRun(l, acts).b.node.phase) <= 3
  {
    LockStep(l, acts);
    ConfigsStay(l, acts);
  }
}

/** InitLink: the loop over the link states, with the test detours. */
module LinkInit {
  datatype LinkState = Detect | Polling | Config | Disabled | Loopback | L0

  /** The test flags of a node: forced, or enabled and then taken on one random draw in three. */
  datatype Tests = Tests(forceDisable: bool, enableDisable: bool, forceLoopback: bool, enableLoopback: bool)

  class Control {
    var configDisable: bool
    var configLoopback: bool

    constructor ()
      ensures !configDisable && !configLoopback
    {
      configDisable, configLoopback := false, false;
    }

    /** The state after Configuration: each detour is taken at most once in the lifetime of the node. */
    method Configuration(t: Tests, drawDisable: bool, drawLoopback: bool) returns (next: LinkState)
      modifies this
      ensures next == Disabled || next == Loopback || next == L0
      ensures next == Disabled <==> !old(configDisable) && (t.forceDisable || (t.enableDisable && drawDisable))
      ensures configDisable == (old(configDisable) || next == Disabled)
      ensures next == Loopback
              <==> next != Disabled && !old(configLoopback) && (t.forceLoopback || (t.enableLoopback && drawLoopback))
      ensures configLoopback == (old(configLoopback) || next == Loopback)
      ensures next == L0 ==> (t.forceDisable ==> configDisable) && (t.forceLoopback ==> configLoopback)
    {
      if !configDisable && (t.forceDisable || (t.enableDisable && drawDisable)) {
        configDisable := true;
        return Disabled;
      }
      if !configLoopback && (t.forceLoopback || (t.enableLoopback && drawLoopback)) {
        configLoopback := true;
        return Loopback;
      }
      return L0;
    }

    /** From Detect to L0; `draws` are the outcomes of the random draws, two for each visit to Configuration. */
    method InitLink(t: Tests, draws: nat -> bool) returns (calls: nat)
      modifies this
      ensures calls == 3 + (if configDisable && !old(configDisable) then 4 else 0)
                         + (if configLoopback && !old(configLoopback) then 4 else 0)
      ensures old(configDisable) ==> configDisable
      ensures old(configLoopback) ==> configLoopback
      ensures t.forceDisable ==> configDisable
      ensures t.forceLoopback ==> configLoopback
      ensures calls <= 11
    {
      var state := Detect;
      var drawn := 0;
      calls := 0;
      while state != L0
        invariant old(configDisable) ==> configDisable
        invariant old(configLoopback) ==> configLoopback
        invariant calls == (match state case Detect => 0 case Polling => 1 case Config => 2 case L0 => 3 case _ => -1)
                           + (if configDisable && !old(configDisable) then 4 else 0)
                           + (if configLoopback && !old(configLoopback) then 4 else 0)
        invariant state == Disabled ==> configDisable && !old(configDisable)
        invariant state == Loopback ==> configLoopback && !old(configLoopback)
        invariant state == L0 ==> (t.forceDisable ==> configDisable) && (t.forceLoopback ==> configLoopback)
        decreases 11 - calls
      {
        calls := calls + 1;
        match state
        case Detect => state := Polling;
        case Polling => state := Config;
        case Config =>
          state := Configuration(t, draws(drawn), draws(drawn + 1));
          drawn := drawn + 2;
        case Disabled | Loopback => state := Detect;
      }
    }
  }
}
