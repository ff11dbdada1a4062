/** ltssm.c: exactly when a node leaves each phase, told from the logs of what it has received and sent. */
module LinkCounts {
  import opened LinkNode
  import Train = LinkTraining

  /** One iteration: what has been received, and the environment. One item is sent in each. */
  datatype Turn = Turn(received: seq<Item>, env: Env)

  /** The numbers in the last training set. */
  datatype Numbers = Numbers(link: int, lane: int)

  /** What is counted: TS1, TS2, either of them, logical idle. */
  datatype Kind = OnlyTs1 | OnlyTs2 | AnyTs | Idles

  predicate Is(kind: Kind, item: Item) {
    match kind
    case OnlyTs1 => item.Ts1?
    case OnlyTs2 => item.Ts2?
    case AnyTs => item.Ts1? || item.Ts2?
    case Idles => item == LogicalIdle
  }

  function Count(kind: Kind, items: seq<Item>): nat {
    if items == [] then 0 else (if Is(kind, items[0]) then 1 else 0) + Count(kind, items[1..])
  }

  function LastOf(last: Numbers, items: seq<Item>): Numbers
    decreases |items|
  {
    if items == [] then last
    else LastOf(if items[0] == LogicalIdle then last else Numbers(items[0].link, items[0].lane), items[1..])
  }

  // Of all iterations since a phase was entered; `last` are the numbers then.

  function LastIn(last: Numbers, log: seq<Turn>): Numbers {
    if log == [] then last else LastOf(LastIn(last, log[..|log| - 1]), log[|log| - 1].received)
  }

  function Seen(kind: Kind, log: seq<Turn>): nat {
    if log == [] then 0 else Seen(kind, log[..|log| - 1]) + Count(kind, log[|log| - 1].received)
  }

  /** The iterations, and so the items sent, from the first on that has received one of the kind. */
  function SentSince(kind: Kind, log: seq<Turn>): nat {
    if log == [] then 0
    else
      var before := SentSince(kind, log[..|log| - 1]);
      if before > 0 || Count(kind, log[|log| - 1].received) > 0 then before + 1 else 0
  }

  /** The numbers with which a phase starts counting again. */
  predicate Restarts(phase: Phase, c: Config, x: Numbers) {
    match phase
    case PollingConfig => x.link != 0x1f7 || x.lane != 0x1f7
    case ConfigStart => x.link == 0x1f7
    case LanenumWait => x.link != c.link || x.lane != 0
    case LanenumAccept | Complete => x.link != c.link && x.lane != 0
    case _ => false
  }

  /** Those received since the last iteration that ended with such numbers. */
  function Kept(kind: Kind, phase: Phase, c: Config, last: Numbers, log: seq<Turn>): nat
    decreases |log|
  {
    if log == [] || Restarts(phase, c, LastIn(last, log)) then 0
    else Kept(kind, phase, c, last, log[..|log| - 1]) + Count(kind, log[|log| - 1].received)
  }

  /** Config.Complete looks at all TS2, unless the iteration ends with wrong numbers; before the first iteration the
      variable is not initialised. It counts what it sends while that is not zero. */
  function Local(c: Config, last: Numbers, log: seq<Turn>, stale: nat): nat {
    if log == [] then stale else if Restarts(Complete, c, LastIn(last, log)) then 0 else Seen(OnlyTs2, log)
  }

  function SentWhile(c: Config, last: Numbers, log: seq<Turn>, stale: nat): nat
    decreases |log|
  {
    if log == [] then 0
    else
      var before := log[..|log| - 1];
      SentWhile(c, last, before, stale) + if Local(c, last, before, stale) > 0 then 1 else 0
  }

  /** The phase ends with the last iteration of `log`. */
  predicate Ends(phase: Phase, c: Config, last: Numbers, log: seq<Turn>, stale: nat)
    requires log != []
  {
    match phase
    case Detect => |log| >= c.quietTo || !log[|log| - 1].env.lanesIdle
    case PollingActive =>
      && LastIn(last, log) == Numbers(0x1f7, 0x1f7)
      && (Seen(OnlyTs1, log) >= 8 || Seen(OnlyTs2, log) >= 8) && SentSince(AnyTs, log) >= c.pollTx
    case PollingConfig => Kept(OnlyTs2, phase, c, last, log) >= 8 && SentSince(OnlyTs2, log) >= 16
    case ConfigStart => Kept(OnlyTs1, phase, c, last, log) >= 2 && LastIn(last, log).link == c.link
    case LanenumWait | LanenumAccept => Kept(OnlyTs1, phase, c, last, log) >= 2
    case Complete => Local(c, last, log, stale) >= 8 && SentWhile(c, last, log, stale) >= 16
    case ConfigIdle => Seen(Idles, log) >= 8 && SentSince(Idles, log) >= 16
    case L0 => false
  }

  function Following(phase: Phase): Phase {
    match phase
    case Detect => PollingActive
    case PollingActive => PollingConfig
    case PollingConfig => ConfigStart
    case ConfigStart => LanenumWait
    case LanenumWait => LanenumAccept
    case LanenumAccept => Complete
    case Complete => ConfigIdle
    case ConfigIdle => L0
    case L0 => L0
  }

  /** A node with the log of its phase. */
  datatype Logged = Logged(node: Node, last: Numbers, log: seq<Turn>, stale: nat)

  function NumbersOf(n: Node): Numbers { Numbers(n.lastLink, n.lastLane) }

  function LoggedNext(x: Logged, c: Config, t: Turn): Logged {
    var n := Iterate(x.node, c, t.received, t.env);
    if n.phase == x.node.phase then x.(node := n, log := x.log + [t]) else Logged(n, NumbersOf(n), [], t.env.stale)
  }

  /** The counters of the node are those of its log. */
  predicate Counted(x: Logged, c: Config) {
    var n, log, last := x.node, x.log, x.last;
    && NumbersOf(n) == LastIn(last, log)
    && match n.phase
       case Detect => n.i == |log|
       case PollingActive =>
         n.i == SentSince(AnyTs, log) && n.ts1 == Seen(OnlyTs1, log) && n.ts2 == Seen(OnlyTs2, log)
       case PollingConfig => n.i == SentSince(OnlyTs2, log) && n.ts2 == Kept(OnlyTs2, n.phase, c, last, log)
       case ConfigStart | LanenumWait | LanenumAccept => n.ts1 == Kept(OnlyTs1, n.phase, c, last, log)
       case Complete =>
         && n.ts2 == Seen(OnlyTs2, log) && n.ts2Local == Local(c, last, log, x.stale)
         && n.sends == SentWhile(c, last, log, x.stale)
       case ConfigIdle => n.i == SentSince(Idles, log) && n.idles == Seen(Idles, log)
       case L0 => true
  }

  lemma {:induction false} Received(n: Node, items: seq<Item>)
    ensures var r := ReceiveAll(n, items);
            && r.ts1 == n.ts1 + Count(OnlyTs1, items) && r.ts2 == n.ts2 + Count(OnlyTs2, items)
            && r.idles == n.idles + Count(Idles, items) && NumbersOf(r) == LastOf(NumbersOf(n), items)
            && r.phase == n.phase && r.i == n.i && r.sends == n.sends && r.ts2Local == n.ts2Local
    ensures Count(AnyTs, items) == Count(OnlyTs1, items) + Count(OnlyTs2, items)
    decreases |items|
  {
    if items != [] {
      Received(Receive(n, items[0]), items[1..]);
    }
  }

  lemma {:induction false} SinceSeen(kind: Kind, log: seq<Turn>)
    ensures SentSince(kind, log) > 0 <==> Seen(kind, log) > 0
    decreases |log|
  {
    if log != [] {
      SinceSeen(kind, log[..|log| - 1]);
    }
  }

  /** The log with one more iteration. */
  lemma LogGrows(log: seq<Turn>, t: Turn, last: Numbers, c: Config, stale: nat, phase: Phase)
    ensures var all := log + [t];
            && LastIn(last, all) == LastOf(LastIn(last, log), t.received)
            && (forall kind :: Seen(kind, all) == Seen(kind, log) + Count(kind, t.received))
            && (forall kind :: SentSince(kind, all) ==
                 if SentSince(kind, log) > 0 || Count(kind, t.received) > 0 then SentSince(kind, log) + 1 else 0)
            && (forall kind :: Kept(kind, phase, c, last, all) ==
                 if Restarts(phase, c, LastIn(last, all)) then 0
                 else Kept(kind, phase, c, last, log) + Count(kind, t.received))
            && Local(c, last, all, stale) ==
                 (if Restarts(Complete, c, LastIn(last, all)) then 0 else Seen(OnlyTs2, all))
            && SentWhile(c, last, all, stale) ==
                 SentWhile(c, last, log, stale) + if Local(c, last, log, stale) > 0 then 1 else 0
  {
    assert (log + [t])[..|log|] == log && (log + [t])[|log|] == t;
    hide Restarts, Count, LastOf;
  }

  lemma EmptyLog(last: Numbers, c: Config, stale: nat)
    ensures LastIn(last, []) == last && forall kind :: Seen(kind, []) == 0 && SentSince(kind, []) == 0
    ensures forall kind, phase :: Kept(kind, phase, c, last, []) == 0
    ensures Local(c, last, [], stale) == stale && SentWhile(c, last, [], stale) == 0
  {
  }

  /** The two polling phases. */
  lemma PollingStep(x: Logged, c: Config, t: Turn)
    requires Counted(x, c) && (x.node.phase == PollingActive || x.node.phase == PollingConfig)
    ensures var n, all := Iterate(x.node, c, t.received, t.env), x.log + [t];
            && (n.phase == if Ends(x.node.phase, c, x.last, all, x.stale) then Following(x.node.phase)
                else x.node.phase)
            && Counted(LoggedNext(x, c, t), c)
  {
    Received(x.node, t.received);
    LogGrows(x.log, t, x.last, c, x.stale, x.node.phase);
    EmptyLog(NumbersOf(Iterate(x.node, c, t.received, t.env)), c, t.env.stale);
    SinceSeen(AnyTs, x.log);
    SinceSeen(OnlyTs2, x.log);
    AnyIsEither(x.log);
    KeptIsSeen(x.node.phase, c, x.last, x.log);
    hide ReceiveAll, LastIn, Seen, SentSince, Kept, Count, LastOf, Local, SentWhile;
  }

  lemma {:induction false} AnyIsEither(log: seq<Turn>)
    ensures Seen(AnyTs, log) == Seen(OnlyTs1, log) + Seen(OnlyTs2, log)
    decreases |log|
  {
    if log != [] {
      AnyIsEither(log[..|log| - 1]);
      Received(Node(Detect, 0, 0, 0, 0, 0, 0, 0, 0), log[|log| - 1].received);
      hide Count;
    }
  }

  lemma {:induction false} KeptIsSeen(phase: Phase, c: Config, last: Numbers, log: seq<Turn>)
    ensures Kept(OnlyTs2, phase, c, last, log) <= Seen(OnlyTs2, log)
    decreases |log|
  {
    if log != [] {
      KeptIsSeen(phase, c, last, log[..|log| - 1]);
      hide Restarts, Count, LastIn;
    }
  }

  lemma ConfigStep(x: Logged, c: Config, t: Turn)
    requires Counted(x, c)
    requires x.node.phase == ConfigStart || x.node.phase == LanenumWait || x.node.phase == LanenumAccept
    ensures var n, all := Iterate(x.node, c, t.received, t.env), x.log + [t];
            && (n.phase == if Ends(x.node.phase, c, x.last, all, x.stale) then Following(x.node.phase)
                else x.node.phase)
            && Counted(LoggedNext(x, c, t), c)
  {
    Received(x.node, t.received);
    LogGrows(x.log, t, x.last, c, x.stale, x.node.phase);
    EmptyLog(NumbersOf(Iterate(x.node, c, t.received, t.env)), c, t.env.stale);
    hide ReceiveAll, LastIn, Seen, SentSince, Kept, Count, LastOf;
    hide Local, SentWhile;
  }

  lemma OtherStep(x: Logged, c: Config, t: Turn)
    requires Counted(x, c)
    requires x.node.phase in {Detect, Complete, ConfigIdle, L0}
    ensures var n, all := Iterate(x.node, c, t.received, t.env), x.log + [t];
            && (n.phase == if Ends(x.node.phase, c, x.last, all, x.stale) then Following(x.node.phase)
                else x.node.phase)
            && Counted(LoggedNext(x, c, t), c)
  {
    Received(x.node, t.received);
    LogGrows(x.log, t, x.last, c, x.stale, x.node.phase);
    EmptyLog(NumbersOf(Iterate(x.node, c, t.received, t.env)), c, t.env.stale);
    SinceSeen(Idles, x.log);
    hide ReceiveAll, LastIn, Seen, SentSince, Kept, Count, LastOf, Local, SentWhile;
  }

  function NodeRun(n: Node, c: Config, ts: seq<Turn>): Node
    decreases |ts|
  {
    if ts == [] then n else NodeRun(Iterate(n, c, ts[0].received, ts[0].env), c, ts[1..])
  }

  function LoggedRun(x: Logged, c: Config, ts: seq<Turn>): Logged
    decreases |ts|
  {
    if ts == [] then x else LoggedRun(LoggedNext(x, c, ts[0]), c, ts[1..])
  }

  lemma OneStep(x: Logged, c: Config, t: Turn)
    requires Counted(x, c)
    ensures var n := Iterate(x.node, c, t.received, t.env);
            && n.phase == (if Ends(x.node.phase, c, x.last, x.log + [t], x.stale) then Following(x.node.phase)
                           else x.node.phase)
            && Counted(LoggedNext(x, c, t), c) && LoggedNext(x, c, t).node == n
  {
    hide Counted, Ends, Iterate;
    if x.node.phase == PollingActive || x.node.phase == PollingConfig {
      PollingStep(x, c, t);
    } else if x.node.phase == ConfigStart || x.node.phase == LanenumWait || x.node.phase == LanenumAccept {
      ConfigStep(x, c, t);
    } else {
      OtherStep(x, c, t);
    }
  }

  lemma {:induction false} CountedRun(x: Logged, c: Config, ts: seq<Turn>)
    requires Counted(x, c)
    ensures Counted(LoggedRun(x, c, ts), c) && LoggedRun(x, c, ts).node == NodeRun(x.node, c, ts)
    decreases |ts|
  {
    if ts != [] {
      OneStep(x, c, ts[0]);
      hide Counted, LoggedNext, Iterate;
      CountedRun(LoggedNext(x, c, ts[0]), c, ts[1..]);
    }
  }

  /** A node about to enter Detect, with nothing in its log. */
  predicate Fresh(n: Node) { n.phase == Detect && n.i == 0 }

  function Begin(n: Node): Logged { Logged(n, NumbersOf(n), [], 0) }

  lemma {:induction false} RunMore(n: Node, c: Config, ts: seq<Turn>, t: Turn)
    ensures NodeRun(n, c, ts + [t]) == Iterate(NodeRun(n, c, ts), c, t.received, t.env)
    decreases |ts|
  {
    hide Iterate;
    if ts == [] {
      assert [t][1..] == [];
    } else {
      assert (ts + [t])[1..] == ts[1..] + [t];
      RunMore(Iterate(n, c, ts[0].received, ts[0].env), c, ts[1..], t);
    }
  }

  /** Over any run of a node from Detect on, whatever it receives and when: it leaves its phase in an iteration exactly
      if
      the log of the phase, with that iteration, says so, and then goes on to the following one; otherwise it stays. */
  lemma LeavesIff(n: Node, c: Config, ts: seq<Turn>, t: Turn)
    requires Fresh(n)
    ensures var x := LoggedRun(Begin(n), c, ts);
            && x.node == NodeRun(n, c, ts)
            && NodeRun(n, c, ts + [t]).phase ==
                 if Ends(x.node.phase, c, x.last, x.log + [t], x.stale) then Following(x.node.phase) else x.node.phase
  {
    var x := LoggedRun(Begin(n), c, ts);
    EmptyLog(NumbersOf(n), c, 0);
    assert Counted(Begin(n), c);
    hide Counted, Iterate, Ends;
    CountedRun(Begin(n), c, ts);
    OneStep(x, c, t);
    RunMore(n, c, ts, t);
  }

  // The same for each node of a link.

  /** The iterations of one node in a run of the link. */
  function TurnsOf(byA: bool, l: Train.Link, acts: seq<Train.Act>): seq<Turn>
    decreases |acts|
  {
    if acts == [] then []
    else
      var flight := if byA then l.toA else l.toB;
      (if acts[0].byA == byA then
         [Turn(Train.Items(flight[..Train.Taken(flight, acts[0].take)]), acts[0].env)]
       else [])
      + TurnsOf(byA, Train.LinkNext(l, acts[0]), acts[1..])
  }

  function NodeOf(byA: bool, l: Train.Link): Train.Side { if byA then l.a else l.b }

  lemma {:induction false} SideRuns(byA: bool, l: Train.Link, acts: seq<Train.Act>)
    ensures var x := NodeOf(byA, l);
            NodeOf(byA, Train.LinkRun(l, acts)).node == NodeRun(x.node, x.cfg, TurnsOf(byA, l, acts))
    decreases |acts|
  {
    if acts != [] {
      var x, l' := NodeOf(byA, l), Train.LinkNext(l, acts[0]);
      var flight := if byA then l.toA else l.toB;
      var t := Turn(Train.Items(flight[..Train.Taken(flight, acts[0].take)]), acts[0].env);
      assert NodeOf(byA, l').cfg == x.cfg;
      assert NodeOf(byA, l').node == if acts[0].byA == byA then Iterate(x.node, x.cfg, t.received, t.env) else x.node;
      hide Train.LinkNext, Iterate;
      SideRuns(byA, l', acts[1..]);
      var rest := TurnsOf(byA, l', acts[1..]);
      if acts[0].byA == byA {
        assert TurnsOf(byA, l, acts) == [t] + rest && ([t] + rest)[1..] == rest;
      } else {
        assert [] + rest == rest;
        assert TurnsOf(byA, l, acts) == rest;
      }
    }
  }

  /** Over any run of two nodes on a link, with any interleaving and delay: the phase of each is told from its log. */
  lemma LinkLeavesIff(byA: bool, l: Train.Link, acts: seq<Train.Act>, act: Train.Act)
    requires Train.Start(l) && Fresh(NodeOf(byA, l).node) && act.byA == byA
    ensures var x, before := NodeOf(byA, l), Train.LinkRun(l, acts);
            var flight := if byA then before.toA else before.toB;
            var t := Turn(Train.Items(flight[..Train.Taken(flight, act.take)]), act.env);
            var h := LoggedRun(Begin(x.node), x.cfg, TurnsOf(byA, l, acts));
            && h.node == NodeOf(byA, before).node
            && NodeOf(byA, Train.LinkNext(before, act)).node.phase ==
                 if Ends(h.node.phase, x.cfg, h.last, h.log + [t], h.stale) then Following(h.node.phase)
                 else h.node.phase
  {
    var x, before := NodeOf(byA, l), Train.LinkRun(l, acts);
    var flight := if byA then before.toA else before.toB;
    var t := Turn(Train.Items(flight[..Train.Taken(flight, act.take)]), act.env);
    Train.ConfigsStay(l, acts);
    SideRuns(byA, l, acts);
    LeavesIff(x.node, x.cfg, TurnsOf(byA, l, acts), t);
    RunMore(x.node, x.cfg, TurnsOf(byA, l, acts), t);
    assert NodeOf(byA, Train.LinkNext(before, act)).node
           == Iterate(NodeOf(byA, before).node, x.cfg, t.received, t.env);
    hide Iterate, Train.LinkNext, Train.LinkRun, Ends, LoggedRun, TurnsOf;
  }
}
