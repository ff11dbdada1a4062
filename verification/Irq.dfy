/** VProcIrqClass.h: prioritised, nested interrupts. Bit vectors are given by the sets of their one bits. */
module Interrupts {
  const MAX_INTERRUPTS: nat := 32

  /** The active lines that stay active: those still requested, and edge triggered ones. */
  function Surviving(active: set<nat>, irq: set<nat>, edge: set<nat>): set<nat> {
    set i | i in active && (i in irq || i in edge)
  }

  /** The lines that ask for service. */
  function Pending(enabled: set<nat>, active: set<nat>, irq: set<nat>): set<nat> {
    set i | i in enabled && i in irq && i !in active
  }

  predicate Unblocked(line: nat, active: set<nat>) { forall j :: j in active ==> j >= line }

  /** The line to be started: the lowest pending one, unless a lower one is still active. */
  predicate Starts(line: nat, pending: set<nat>, active: set<nat>) {
    line in pending && (forall j :: j in pending ==> j >= line) && Unblocked(line, active)
  }

  /** Among the unblocked pending lines a lowest one is found. */
  lemma {:induction false} Lowest(p: nat, pending: set<nat>, active: set<nat>) returns (line: nat)
    requires p in pending && Unblocked(p, active)
    ensures line <= p && Starts(line, pending, active)
  {
    line := p;
    if q :| q in pending && q < p {
      line := Lowest(q, pending, active);
    }
  }

  /** A line is started exactly when some pending line is above every active one, and there is only one to start. */
  lemma StartsIff(pending: set<nat>, active: set<nat>)
    ensures (exists line: nat :: Starts(line, pending, active))
            <==> (exists p: nat :: p in pending && Unblocked(p, active))
    ensures forall a: nat, b: nat :: Starts(a, pending, active) && Starts(b, pending, active) ==> a == b
  {
    if p: nat :| p in pending && Unblocked(p, active) {
      var line := Lowest(p, pending, active);
    }
  }

  /** The line starts now: it is enabled and requested and not active already, and no lower line asks for service or
      stays active. */
  predicate StartsNow(line: nat, enabled: set<nat>, active: set<nat>, irq: set<nat>, edge: set<nat>) {
    && line in enabled && line in irq && line !in active
    && forall j: nat :: j < line ==>
         && !(j in enabled && j in irq && j !in active)
         && !(j in active && (j in irq || j in edge))
  }

  lemma StartsSpelledOut(line: nat, enabled: set<nat>, active: set<nat>, irq: set<nat>, edge: set<nat>)
    ensures Starts(line, Pending(enabled, active, irq), Surviving(active, irq, edge))
            <==> StartsNow(line, enabled, active, irq, edge)
  {
    var pending, kept := Pending(enabled, active, irq), Surviving(active, irq, edge);
    if StartsNow(line, enabled, active, irq, edge) {
      assert forall j :: j in pending ==> j >= line;
      assert Unblocked(line, kept);
    } else if Starts(line, pending, kept) {
      forall j: nat | j < line
        ensures !(j in enabled && j in irq && j !in active) && !(j in active && (j in irq || j in edge))
      {
        assert j !in pending && j !in kept;
      }
    }
  }

  class Controller {
    var interruptEnable: bool
    var isrEnable: set<nat>
    var irq: set<nat>
    var intActive: set<nat>
    var edgeTriggered: set<nat>
    /** The lines that have a service routine. */
    var isr: set<nat>

    /** Vectors have 32 bits. */
    predicate Valid()
      reads this
    {
      && (forall i :: i in isrEnable ==> i < MAX_INTERRUPTS) && (forall i :: i in intActive ==> i < MAX_INTERRUPTS)
      && (forall i :: i in isr ==> i < MAX_INTERRUPTS)
    }

    constructor ()
      ensures Valid() && !interruptEnable && isrEnable == irq == intActive == edgeTriggered == isr == {}
    {
      interruptEnable := false;
      isrEnable, irq, intActive, edgeTriggered, isr := {}, {}, {}, {}, {};
    }

    method EnableIsr(line: nat)
      requires Valid()
      modifies `isrEnable
      ensures Valid() && isrEnable == if line in isr then old(isrEnable) + {line} else old(isrEnable)
    {
      if line < MAX_INTERRUPTS && line in isr {
        isrEnable := isrEnable + {line};
      }
    }

    method DisableIsr(line: nat)
      requires Valid()
      modifies `isrEnable
      ensures Valid() && isrEnable == if line in isr then old(isrEnable) - {line} else old(isrEnable)
    {
      if line < MAX_INTERRUPTS && line in isr {
        isrEnable := isrEnable - {line};
      }
    }

    /** Only an edge triggered line can be cleared this way. */
    method ClearEdgeTriggered(line: nat)
      requires Valid()
      modifies `intActive
      ensures Valid() && intActive == if line in edgeTriggered then old(intActive) - {line} else old(intActive)
    {
      intActive := intActive - ({line} * edgeTriggered);
    }

    /** One pass over the lines, 0 first. The service routines called are returned; they change nothing here. */
    method ProcessIrq() returns (calls: seq<nat>)
      requires Valid()
      modifies `intActive
      ensures Valid()
      ensures !interruptEnable ==> intActive == old(intActive) && calls == []
      ensures interruptEnable ==>
                var kept := Surviving(old(intActive), irq, edgeTriggered);
                var pending := Pending(isrEnable, old(intActive), irq);
                && (forall line :: Starts(line, pending, kept) ==>
                      && intActive == kept + {line} && Unblocked(line, intActive)
                      && calls == if line in isr then [line] else [])
                && ((forall line :: !Starts(line, pending, kept)) ==> intActive == kept && calls == [])
      ensures interruptEnable ==>
                var active := old(intActive);
                && (forall line: nat :: line in intActive <==>
                      || (line in active && (line in irq || line in edgeTriggered))
                      || StartsNow(line, isrEnable, active, irq, edgeTriggered))
                && (forall line: nat :: line in calls <==>
                      line in isr && StartsNow(line, isrEnable, active, irq, edgeTriggered))
                && |calls| <= 1
    {
      calls := [];
      if interruptEnable {
        var pending := Pending(isrEnable, intActive, irq);
        ghost var before, kept := intActive, Surviving(intActive, irq, edgeTriggered);
        ghost var started: set<nat> := {};
        for idx := 0 to MAX_INTERRUPTS
          invariant intActive == (set i | i in before && (i in kept || i >= idx)) + started
          invariant forall p :: p in started ==> p < idx && Starts(p, pending, kept)
          invariant forall p, q :: p in started && q in started ==> p == q
          invariant started == {} ==> calls == [] && forall p :: p in pending && p < idx ==> !Unblocked(p, kept)
          invariant forall p :: p in started ==> calls == if p in isr then [p] else []
        {
          var higherActive := exists j :: 0 <= j < idx && j in intActive;
          assert higherActive || Unblocked(idx, kept) by {
            assert forall j :: j in kept ==> j in intActive;
          }
          if idx in intActive && idx !in irq && idx !in edgeTriggered {
            intActive := intActive - {idx};
          }
          if idx in pending && !higherActive {
            assert forall q: nat :: q < idx ==> Unblocked(q, kept);
            intActive := intActive + {idx};
            started := started + {idx};
            if idx in isr {
              calls := calls + [idx];
            }
          }
        }
        SpelledOut(pending, before);
      }
    }

    lemma SpelledOut(pending: set<nat>, before: set<nat>)
      requires pending == Pending(isrEnable, before, irq)
      ensures forall line: nat ::
                Starts(line, pending, Surviving(before, irq, edgeTriggered))
                <==> StartsNow(line, isrEnable, before, irq, edgeTriggered)
    {
      forall line: nat
        ensures Starts(line, pending, Surviving(before, irq, edgeTriggered))
                <==> StartsNow(line, isrEnable, before, irq, edgeTriggered)
      {
        StartsSpelledOut(line, isrEnable, before, irq, edgeTriggered);
      }
    }
  }
}
