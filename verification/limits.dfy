// The size limit of a set, over whole runs of the pipeline.
module Limits {
  import opened Types
  import opened SetModel
  import opened SetLaws
  import opened Pipeline

  lemma RequestWithin(c: Config, key: Key, e: Entries, d: Delta, bound: int)
    requires 0 < c.limit <= bound && |e| <= bound
    ensures |Request(c, key, e, d)| <= bound
  {
    hide HashOf;
    var v := d.rec.value;
    SizeDrop(e, v);
    if v in e {
      SizePut(e, v, EntryOf(d.rec, e[v].hash));
    } else {
      SizePut(e, v, EntryOf(d.rec, HashOf(c, key, d.rec)));
    }
  }

  lemma {:induction false} RequestsWithin(c: Config, key: Key, e: Entries, deltas: seq<Delta>, bound: int)
    requires 0 < c.limit <= bound && |e| <= bound
    ensures |Requests(c, key, e, deltas)| <= bound
  {
    hide Request;
    if deltas != [] {
      var before := deltas[..|deltas| - 1];
      RequestsWithin(c, key, e, before, bound);
      RequestWithin(c, key, Requests(c, key, e, before), deltas[|deltas| - 1], bound);
    }
  }

  // Between any two commits of the plans in flight, and after all of them, the set is
  // within bound, if it started so and the limit is positive.
  ghost predicate BoundedAt(a: Sys, k: nat, c: Config, bound: int)
  {
    InvAt(a, k) && a.s.cfg == c && Within(a.s.entries, a.queue[k..], bound)
  }

  lemma {:induction false} WithinLast(e: Entries, plans: seq<Plan>, bound: int)
    requires Within(e, plans, bound)
    ensures |ReplayAll(e, plans)| <= bound
    decreases |plans|
  {
    if plans != [] {
      WithinLast(Replay(e, plans[0].deltas), plans[1..], bound);
    }
  }

  lemma WithinFirst(e: Entries, plans: seq<Plan>, bound: int)
    requires Within(e, plans, bound)
    ensures |e| <= bound
  {}

  lemma PlanKeepsBound(a: Sys, b: Sys, deltas: seq<Delta>, k: nat, c: Config, bound: int)
    requires 0 < c.limit <= bound && BoundedAt(a, k, c, bound) && Next(a, b, DoPlan(deltas))
    ensures BoundedAt(b, k, c, bound)
  {
    hide PlanDraft, Chain, XorOf, View, Within, Requests, ReplayAll, Overlay, PlanFits;
    var live, p := a.queue[k..], PlanOf(a.s, deltas);
    PlanKeeps(a, b, deltas, k);
    if p.deltas != [] {
      assert b.queue[k..] == live + [p];
      WithinLast(a.s.entries, live, bound);
      OverlayIsView(a.s.entries, live);
      AfterPlanMeaning(a.s, deltas);
      RequestsWithin(c, a.s.key, View(a.s.entries, a.s.pend), deltas, bound);
      OverlayIsView(b.s.entries, live + [p]);
      WithinSnoc(a.s.entries, live, p, bound);
    }
  }

  lemma CommitKeepsBound(a: Sys, b: Sys, k: nat, c: Config, bound: int)
    requires BoundedAt(a, k, c, bound) && Next(a, b, DoCommit)
    ensures BoundedAt(b, 0, c, bound)
  {
    hide SetInv, Chain, ReplayHash, ReplayExp, Replay, DropOwn;
    CommitKeeps(a, b, k);
    assert a.queue[0..] == a.queue && b.queue[0..] == b.queue;
  }

  lemma FailKeepsBound(a: Sys, b: Sys, k: nat, c: Config, bound: int)
    requires BoundedAt(a, k, c, bound) && Next(a, b, DoFail)
    ensures BoundedAt(b, |b.queue|, c, bound)
  {
    hide SetInv, Chain, Replay;
    FailKeeps(a, b, k);
    assert b.queue[|b.queue|..] == [];
  }

  lemma StepKeepsBound(a: Sys, b: Sys, step: Step, k: nat, c: Config, bound: int) returns (k': nat)
    requires 0 < c.limit <= bound && BoundedAt(a, k, c, bound) && Next(a, b, step)
    ensures BoundedAt(b, k', c, bound)
  {
    hide SetInv, Chain, Within, AfterPlan, AfterCommit, PlanOf;
    k' := k;
    match step
    case DoPlan(deltas) =>
      PlanKeepsBound(a, b, deltas, k, c, bound);
    case DoCommit =>
      CommitKeepsBound(a, b, k, c, bound);
      k' := 0;
    case DoFail =>
      FailKeepsBound(a, b, k, c, bound);
      k' := |b.queue|;
    case DoDrop =>
      k' := k - 1;
      assert b.queue[k'..] == a.queue[k..];
    case DoExpired(now, popped) =>
      ExpiredKeeps(a, b, now, popped, k);
  }

  lemma {:induction false} RunBounded(states: seq<Sys>, steps: seq<Step>, i: nat, bound: int) returns (k: nat)
    requires Run(states, steps) && i < |states|
    requires 0 < states[0].s.cfg.limit <= bound && |states[0].s.entries| <= bound
    ensures BoundedAt(states[i], k, states[0].s.cfg, bound)
  {
    hide SetInv, Chain, Next;
    if i == 0 {
      k := 0;
      assert states[0].queue[0..] == [];
      InitInv(states[0]);
    } else {
      var j := RunBounded(states, steps, i - 1, bound);
      assert Next(states[i - 1], states[i - 1 + 1], steps[i - 1]);
      k := StepKeepsBound(states[i - 1], states[i], steps[i - 1], j, states[0].s.cfg, bound);
    }
  }

  // In every run of a set mounted within its positive limit, the committed entries, the
  // planned view and every state between two queued commits are within the limit. A set
  // mounted above it (the limit was lowered) never grows further.
  lemma LimitHolds(states: seq<Sys>, steps: seq<Step>, i: nat)
    requires Run(states, steps) && i < |states| && states[0].s.cfg.limit > 0
    ensures var limit, start := states[0].s.cfg.limit, |states[0].s.entries|;
            var bound := if start <= limit then limit else start;
            var s := states[i].s;
            |s.entries| <= bound && |View(s.entries, s.pend)| <= bound && s.pendSize <= bound
    ensures var limit, start := states[0].s.cfg.limit, |states[0].s.entries|;
            var bound := if start <= limit then limit else start;
            exists k: nat :: InvAt(states[i], k) && Within(states[i].s.entries, states[i].queue[k..], bound)
  {
    hide Chain, View, Within, XorOf;
    var limit, start := states[0].s.cfg.limit, |states[0].s.entries|;
    var bound := if start <= limit then limit else start;
    var k := RunBounded(states, steps, i, bound);
    var s, live := states[i].s, states[i].queue[k..];
    WithinLast(s.entries, live, bound);
    OverlayIsView(s.entries, live);
    WithinFirst(s.entries, live, bound);
  }
}
