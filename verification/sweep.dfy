// What the planner does with a sweep's report (internal/keeper/keeper.go, planner): it plans
// the removal of every value reported, in cuts, while the committer goes on.
module Sweeping {
  import opened Types
  import opened NetPrefix
  import opened SetModel
  import opened SetLaws
  import opened Pipeline
  import opened Expiry
  import opened Canon
  import opened Replication
  import opened Crash
  import opened Mirroring
  import opened Answers

  const EXPIRED: Text := [69, 88, 80, 73, 82, 69, 68]

  // The requests of one cut.
  function SweepRequests(name: Text, vals: seq<Text>): (r: seq<Delta>)
    ensures |r| == |vals|
  {
    seq(|vals|, i requires 0 <= i < |vals| => Delta(Remove, Record(vals[i], 0, name, EXPIRED, NO_PREFIX), 0))
  }

  // They meet the conditions of the crash and mirror results, whatever the keeper is called,
  // for values of a universe mirrors can tell apart.
  lemma SweepSendable(c: Config, universe: set<Text>, name: Text, vals: seq<Text>)
    requires Observable(c, universe) && |vals| < 0x1_0000_0000
    requires forall i :: 0 <= i < |vals| ==> vals[i] in universe && |vals[i]| < 0x1_0000
    ensures Sendables(c, universe, SweepRequests(name, vals)) && PlannableAll(c, SweepRequests(name, vals))
  {
    hide Touched;
    TouchedWithin(SweepRequests(name, vals), universe);
  }

  lemma {:induction false} SweepRequestsRemove(c: Config, key: Key, e: Entries, name: Text, vals: seq<Text>)
    ensures Requests(c, key, e, SweepRequests(name, vals)) == map v | v in e && v !in vals :: e[v]
  {
    if vals != [] {
      var n := |vals| - 1;
      assert SweepRequests(name, vals)[..n] == SweepRequests(name, vals[..n]);
      assert forall v :: v in vals <==> v in vals[..n] || v == vals[n];
      SweepRequestsRemove(c, key, e, name, vals[..n]);
    }
  }

  // Planning a cut takes exactly its values out of the view, and whatever is planned says
  // that it expired and which keeper found it so.
  lemma SweepRemoves(s: SetState, name: Text, vals: seq<Text>)
    requires ViewCounted(s)
    ensures var t, view := AfterPlan(s, SweepRequests(name, vals)), View(s.entries, s.pend);
            View(t.entries, t.pend) == map v | v in view && v !in vals :: view[v]
    ensures forall d :: d in PlanOf(s, SweepRequests(name, vals)).deltas ==>
              (d.op == Remove && d.rec == Record(d.rec.value, 0, name, EXPIRED, NO_PREFIX) && d.rec.value in vals)
  {
    hide ViewCounted, AfterPlan, PlanDraft, Requests;
    AfterPlanMeaning(s, SweepRequests(name, vals));
    SweepRequestsRemove(s.cfg, s.key, View(s.entries, s.pend), name, vals);
    DraftMadeFrom(s, SweepRequests(name, vals));
  }

  // ---------- from the look to the plan ----------

  predicate OnlyRemoved(deltas: seq<Delta>, v: Text)
  {
    forall i :: 0 <= i < |deltas| && deltas[i].rec.value == v ==> deltas[i].op == Remove
  }

  // What happens while a report is worked off: the committer's steps, and plans of removals.
  predicate WhileSweeping(step: Step)
  {
    match step
    case DoPlan(deltas) => forall i :: 0 <= i < |deltas| ==> deltas[i].op == Remove
    case DoExpired(_, _) => false
    case _ => true
  }

  // The value is gone or due, and no plan that may still be committed adds it.
  ghost predicate DueOrGone(a: Sys, now: int, v: Text)
  {
    && (v in a.s.entries ==> a.s.entries[v].exp <= now)
    && forall i :: 0 <= i < |a.queue| && a.queue[i].gen == a.s.gen ==> OnlyRemoved(a.queue[i].deltas, v)
  }

  lemma TouchedMeans(deltas: seq<Delta>, v: Text)
    requires v !in Touched(deltas)
    ensures OnlyRemoved(deltas, v)
  {
    assert forall i :: 0 <= i < |deltas| ==> deltas[i].rec.value in Touched(deltas);
  }

  lemma Unplanned(s: SetState, live: seq<Plan>, i: nat, v: Text)
    requires SetInv(s, live) && v !in s.pend && i < |live|
    ensures OnlyRemoved(live[i].deltas, v)
  {
    hide Chain, ViewCounted, XorOf, OverOf, Overlay, OnlyRemoved, Touched;
    OverlayHas(live, i, v);
    OverOfTouches(live[i].deltas, live[i].num);
    TouchedMeans(live[i].deltas, v);
  }

  lemma SweepStarts(a: Sys, b: Sys, k: nat, now: int, popped: seq<ExpItem>, v: Text)
    requires InvAt(a, k) && Next(a, b, DoExpired(now, popped)) && v in Reports(a.s, popped)
    ensures DueOrGone(b, now, v)
  {
    hide SetInv, Chain, ReplayAll, Reports, OnlyRemoved, Backs;
    SweepReports(a.s, now, popped, v);
    forall i | 0 <= i < |a.queue| && a.queue[i].gen == a.s.gen
      ensures OnlyRemoved(a.queue[i].deltas, v)
    {
      Unplanned(a.s, a.queue[k..], i - k, v);
    }
  }

  lemma {:induction false} ReplayOnlyRemoved(e: Entries, deltas: seq<Delta>, v: Text)
    requires OnlyRemoved(deltas, v)
    ensures v in Replay(e, deltas) ==> v in e && Replay(e, deltas)[v] == e[v]
  {
    if deltas != [] {
      ReplayOnlyRemoved(e, deltas[..|deltas| - 1], v);
    }
  }

  lemma {:induction false} ReplayAllOnlyRemoved(e: Entries, plans: seq<Plan>, v: Text)
    requires forall i :: 0 <= i < |plans| ==> OnlyRemoved(plans[i].deltas, v)
    ensures v in ReplayAll(e, plans) ==> v in e && ReplayAll(e, plans)[v] == e[v]
    decreases |plans|
  {
    hide OnlyRemoved, Replay;
    if plans != [] {
      ReplayOnlyRemoved(e, plans[0].deltas, v);
      ReplayAllOnlyRemoved(Replay(e, plans[0].deltas), plans[1..], v);
    }
  }

  lemma PlannedRemovals(s: SetState, deltas: seq<Delta>, v: Text)
    requires forall i :: 0 <= i < |deltas| ==> deltas[i].op == Remove
    ensures OnlyRemoved(PlanOf(s, deltas).deltas, v)
  {
    hide PlanDraft;
    DraftMadeFrom(s, deltas);
    var a := PlanDraft(s, deltas).applied;
    forall i | 0 <= i < |a|
      ensures a[i].op == Remove
    {
      var j :| 0 <= j < |deltas| && MadeFrom(a[i], deltas[j]);
    }
  }

  lemma StepKeepsDue(a: Sys, b: Sys, step: Step, k: nat, now: int, v: Text)
    requires InvAt(a, k) && Next(a, b, step) && WhileSweeping(step) && DueOrGone(a, now, v)
    ensures DueOrGone(b, now, v)
  {
    hide SetInv, Chain, ReplayAll, OnlyRemoved, PlanDraft, Replay, ReplayHash, ReplayExp, DropOwn;
    match step
    case DoPlan(deltas) =>
      PlannedRemovals(a.s, deltas, v);
    case DoCommit =>
      ReplayOnlyRemoved(a.s.entries, a.queue[0].deltas, v);
    case _ =>
  }

  lemma DueInView(a: Sys, k: nat, now: int, v: Text)
    requires InvAt(a, k) && DueOrGone(a, now, v)
    ensures v in View(a.s.entries, a.s.pend) ==> View(a.s.entries, a.s.pend)[v].exp <= now
  {
    hide Chain, View, ViewCounted, XorOf, OnlyRemoved, Overlay, ReplayAll;
    OverlayIsView(a.s.entries, a.queue[k..]);
    ReplayAllOnlyRemoved(a.s.entries, a.queue[k..], v);
  }

  lemma {:induction false} DueAlong(states: seq<Sys>, steps: seq<Step>, i: nat, n: nat, now: int, popped: seq<ExpItem>, v: Text)
    requires Run(states, steps) && i < n < |states| && steps[i] == DoExpired(now, popped)
    requires v in Reports(states[i].s, popped) && forall m :: i < m < n ==> WhileSweeping(steps[m])
    ensures DueOrGone(states[n], now, v)
  {
    hide InvAt, Next, Reports, DueOrGone, Init;
    RunKeeps(states, steps, n - 1);
    var k: nat :| InvAt(states[n - 1], k);
    assert Next(states[n - 1], states[n - 1 + 1], steps[n - 1]);
    if i == n - 1 {
      SweepStarts(states[i], states[n], k, now, popped, v);
    } else {
      DueAlong(states, steps, i, n - 1, now, popped, v);
      StepKeepsDue(states[n - 1], states[n], steps[n - 1], k, now, v);
    }
  }

  // When the removal of a reported value is planned, at whatever point of working off the
  // report and after whatever commits and Aborts, the value is gone or still due, committed and
  // in the view: a sweep never removes an entry that was extended.
  lemma SweepNeverEarly(states: seq<Sys>, steps: seq<Step>, i: nat, n: nat, now: int, popped: seq<ExpItem>, v: Text)
    requires Run(states, steps) && i < n < |states| && steps[i] == DoExpired(now, popped)
    requires v in Reports(states[i].s, popped) && forall m :: i < m < n ==> WhileSweeping(steps[m])
    ensures var s := states[n].s;
            && (v in s.entries ==> s.entries[v].exp <= now)
            && (v in View(s.entries, s.pend) ==> View(s.entries, s.pend)[v].exp <= now)
  {
    hide InvAt, Next, Reports, View, Init, Chain;
    DueAlong(states, steps, i, n, now, popped, v);
    RunKeeps(states, steps, n);
    var k: nat :| InvAt(states[n], k);
    DueInView(states[n], k, now, v);
  }
}
