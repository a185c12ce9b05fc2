// What a positive answer means (internal/keeper/keeper.go, plan, commit and answer).
module Answers {
  import opened Types
  import opened SetModel
  import opened SetLaws
  import opened Pipeline
  import opened Admission
  import opened Keeper

  // ---------- answered without a batch ----------

  // When plan answers at once, every record of a granted job was already as asked: an add
  // equals a committed entry that no plan in flight touches. The answer names the number
  // committed so far.
  lemma GrantedAtOnce(states: seq<SetState>, at: SetState, now: int, jobs: seq<Job>, results: seq<JobResult>, p: Plan,
                      i: nat, k: nat)
    requires PlannedAt(states, at, now, jobs, results, p) && p.deltas == []
    requires i < |jobs| && results[i].code == Granted && k < |jobs[i].recs|
    ensures AlreadyDone(at, Delta(jobs[i].op, jobs[i].recs[k], 0))
    ensures results[i].num == p.num == at.num && p.hash == at.hash
  {
    hide AlreadyDone, AdmitJob, ViewCounted, SameView, PlanDraft, Roomy;
    var adm := Admit(states, at.pendSize, now, jobs);
    GrantedAreDeltas(states, at.pendSize, now, jobs, i, k);
    var d := Delta(jobs[i].op, jobs[i].recs[k], 0);
    var m :| 0 <= m < |adm.deltas| && adm.deltas[m] == d;
    NoDeltasExactly(at, adm.deltas);
  }

  // ---------- answered by the commit ----------

  // Position m of the deltas holds the request, and it is fulfilled unless a later one of
  // the same batch is about the same value.
  predicate FulfilledOrSuperseded(e: Entries, deltas: seq<Delta>, d: Delta, m: nat)
  {
    && m < |deltas| && deltas[m] == d
    && (Fulfils(e, d) || exists j :: m < j < |deltas| && deltas[j].rec.value == d.rec.value)
  }

  // After a plan with deltas the view shows every granted record, or a later request of the
  // same batch for the same value.
  lemma GrantedInBatch(states: seq<SetState>, at: SetState, now: int, jobs: seq<Job>, results: seq<JobResult>, p: Plan,
                       i: nat, k: nat) returns (m: nat)
    requires PlannedAt(states, at, now, jobs, results, p) && p.deltas != []
    requires i < |jobs| && results[i].code == Granted && k < |jobs[i].recs|
    ensures var deltas, t := Admit(states, at.pendSize, now, jobs).deltas, AfterPlan(at, Admit(states, at.pendSize, now, jobs).deltas);
            FulfilledOrSuperseded(View(t.entries, t.pend), deltas, Delta(jobs[i].op, jobs[i].recs[k], 0), m)
  {
    hide Fulfils, AdmitJob, XorOf, SameView, PlanDraft, Roomy, View, Requests, AfterPlan;
    var deltas := Admit(states, at.pendSize, now, jobs).deltas;
    GrantedAreDeltas(states, at.pendSize, now, jobs, i, k);
    var d := Delta(jobs[i].op, jobs[i].recs[k], 0);
    m :| 0 <= m < |deltas| && deltas[m] == d;
    AfterPlanMeaning(at, deltas);
    if forall j :: m < j < |deltas| ==> deltas[j].rec.value != d.rec.value {
      LastRequestWins(at.cfg, at.key, View(at.entries, at.pend), deltas, deltas, m);
    }
  }

  // ---------- the commit shows what the plan showed ----------

  // The plans committed since the mount, then those still in flight.
  function Line(a: Sys, k: nat): seq<Plan>
    requires k <= |a.queue|
  {
    a.log + a.queue[k..]
  }

  lemma {:induction false} ReplayAllConcat(e: Entries, a: seq<Plan>, b: seq<Plan>)
    ensures ReplayAll(e, a + b) == ReplayAll(ReplayAll(e, a), b)
    decreases |a|
  {
    hide Replay;
    if a == [] {
      assert a + b == b;
    } else {
      assert (a + b)[1..] == a[1..] + b;
      ReplayAllConcat(Replay(e, a[0].deltas), a[1..], b);
    }
  }

  // The view is the base with the whole line replayed.
  lemma LineIsView(a: Sys, k: nat)
    requires InvAt(a, k)
    ensures View(a.s.entries, a.s.pend) == ReplayAll(a.base, Line(a, k))
  {
    hide View, Chain, Overlay, ViewCounted, XorOf;
    OverlayIsView(a.s.entries, a.queue[k..]);
    ReplayAllConcat(a.base, a.log, a.queue[k..]);
  }

  lemma PlanGrowsLine(a: Sys, b: Sys, deltas: seq<Delta>, k: nat)
    requires InvAt(a, k) && Next(a, b, DoPlan(deltas))
    ensures InvAt(b, k) && Line(a, k) <= Line(b, k) && b.base == a.base
  {
    hide SetInv, Chain, PlanDraft, AfterPlan, PlanOf;
    PlanKeeps(a, b, deltas, k);
    var p := PlanOf(a.s, deltas);
    assert p.deltas != [] ==> b.queue[k..] == a.queue[k..] + [p];
    assert p.deltas != [] ==> Line(b, k) == Line(a, k) + [p];
  }

  lemma CommitKeepsLine(a: Sys, b: Sys, k: nat)
    requires InvAt(a, k) && Next(a, b, DoCommit)
    ensures InvAt(b, 0) && Line(a, k) == Line(b, 0) && b.base == a.base
  {
    hide SetInv, Chain, AfterCommit;
    CommitKeeps(a, b, k);
    assert a.queue[0..] == [a.queue[0]] + a.queue[1..] && b.queue[0..] == a.queue[1..];
  }

  lemma DropKeepsLine(a: Sys, b: Sys, k: nat)
    requires InvAt(a, k) && Next(a, b, DoDrop)
    ensures k > 0 && InvAt(b, k - 1) && Line(a, k) == Line(b, k - 1) && b.base == a.base
  {
    hide SetInv, Chain;
    assert b.queue[k - 1..] == a.queue[k..];
  }

  lemma SweepKeepsLine(a: Sys, b: Sys, now: int, popped: seq<ExpItem>, k: nat)
    requires InvAt(a, k) && Next(a, b, DoExpired(now, popped))
    ensures InvAt(b, k) && Line(a, k) == Line(b, k) && b.base == a.base
  {
    hide InvAt, AfterExpired;
    ExpiredKeeps(a, b, now, popped, k);
  }

  // Without an Abort the line only grows, and the base stays.
  lemma LineGrows(a: Sys, b: Sys, step: Step, k: nat) returns (k': nat)
    requires InvAt(a, k) && Next(a, b, step) && !step.DoFail?
    ensures InvAt(b, k') && Line(a, k) <= Line(b, k') && b.base == a.base
  {
    hide *;
    match step
    case DoPlan(deltas) =>
      k' := k;
      PlanGrowsLine(a, b, deltas, k);
    case DoCommit =>
      k' := 0;
      CommitKeepsLine(a, b, k);
    case DoDrop =>
      DropKeepsLine(a, b, k);
      k' := k - 1;
    case DoExpired(now, popped) =>
      k' := k;
      SweepKeepsLine(a, b, now, popped, k);
  }

  // States joined by steps none of which is an Abort.
  ghost predicate Steady(states: seq<Sys>, steps: seq<Step>)
  {
    && |states| == |steps| + 1
    && forall i :: 0 <= i < |steps| ==> (Next(states[i], states[i + 1], steps[i]) && !steps[i].DoFail?)
  }

  lemma {:induction false} LineGrowsAlong(states: seq<Sys>, steps: seq<Step>, k: nat, n: nat) returns (k': nat)
    requires Steady(states, steps) && InvAt(states[0], k) && n < |states|
    ensures InvAt(states[n], k') && Line(states[0], k) <= Line(states[n], k') && states[n].base == states[0].base
  {
    hide InvAt, Next;
    if n == 0 {
      k' := k;
    } else {
      var j := LineGrowsAlong(states, steps, k, n - 1);
      assert Next(states[n - 1], states[n - 1 + 1], steps[n - 1]);
      k' := LineGrows(states[n - 1], states[n], steps[n - 1], j);
    }
  }

  // From the state right after Plan to the commit of that plan, whatever is planned and swept
  // in between: the committed entries are then the view the planner had produced.
  lemma CommitShowsPlannedView(states: seq<Sys>, steps: seq<Step>, k: nat, n: nat)
    requires Steady(states, steps) && InvAt(states[0], k) && n < |states|
    requires |states[n].log| == |Line(states[0], k)|  // the last plan of the line was just committed
    ensures states[n].s.entries == View(states[0].s.entries, states[0].s.pend)
  {
    hide SetInv, Chain, View, Next;
    var k' := LineGrowsAlong(states, steps, k, n);
    LineIsView(states[0], k);
    assert Line(states[n], k')[..|states[n].log|] == states[n].log;
    assert states[n].log == Line(states[0], k);
  }

  // ---------- when a removal may be answered at once ----------

  // A plan in flight that leaves the value in the set.
  predicate Shows(p: Plan, v: Text)
  {
    v in OverOf(p.deltas, p.num) && OverOf(p.deltas, p.num)[v].present
  }

  lemma ShowsAfter(e: Entries, p: Plan, v: Text)
    ensures Shows(p, v) ==> v in Replay(e, p.deltas)
    ensures v in Replay(e, p.deltas) ==> v in e || Shows(p, v)
  {
    hide OverOf, Replay;
    ReplayIsView(e, p.deltas, p.num);
  }

  predicate NoneShows(live: seq<Plan>, v: Text)
  {
    forall i :: 0 <= i < |live| ==> !Shows(live[i], v)
  }

  predicate NeverIn(e: Entries, live: seq<Plan>, v: Text)
  {
    forall n :: 0 <= n <= |live| ==> v !in ReplayAll(e, live[..n])
  }

  lemma {:induction false} AbsentThroughout(e: Entries, live: seq<Plan>, v: Text)
    ensures NeverIn(e, live, v) <==> v !in e && NoneShows(live, v)
    decreases |live|
  {
    hide Shows, Replay;
    assert live[..0] == [];
    if live != [] {
      var p, rest := live[0], live[1..];
      ShowsAfter(e, p, v);
      AbsentThroughout(Replay(e, p.deltas), rest, v);
      assert forall n :: 0 < n <= |live| ==> live[..n][1..] == rest[..n - 1] && live[..n][0] == p;
      if NeverIn(e, live, v) {
        forall n | 0 <= n <= |rest|
          ensures v !in ReplayAll(Replay(e, p.deltas), rest[..n])
        {
          assert v !in ReplayAll(e, live[..n + 1]);
        }
        assert v !in ReplayAll(Replay(e, p.deltas), rest[..0]);
        assert forall i :: 0 < i < |live| ==> live[i] == rest[i - 1];
      }
      if v !in e && NoneShows(live, v) {
        assert forall i :: 0 <= i < |rest| ==> rest[i] == live[i + 1];
        forall n | 0 <= n <= |live|
          ensures v !in ReplayAll(e, live[..n])
        {
          if n > 0 {
            assert v !in ReplayAll(Replay(e, p.deltas), rest[..n - 1]);
          }
        }
      }
    }
  }

  // The set once the first n plans in flight are committed.
  function Committed(s: SetState, live: seq<Plan>, n: nat): SetState
    requires n <= |live|
  {
    if n == 0 then s else AfterCommit(Committed(s, live, n - 1), live[n - 1])
  }

  lemma {:induction false} CommittedIs(s: SetState, live: seq<Plan>, n: nat)
    requires SetInv(s, live) && n <= |live|
    ensures SetInv(Committed(s, live, n), live[n..])
    ensures Committed(s, live, n).entries == ReplayAll(s.entries, live[..n])
  {
    hide SetInv, AfterCommit, Replay, View;
    if n == 0 {
      assert live[0..] == live && live[..0] == [];
    } else {
      CommittedIs(s, live, n - 1);
      CommitMatchesPlan(Committed(s, live, n - 1), live[n - 1..]);
      assert live[n - 1..][1..] == live[n..];
      assert live[..n] == live[..n - 1] + [live[n - 1]];
      ReplayAllSnoc(s.entries, live[..n - 1], live[n - 1]);
    }
  }

  // The value is away after any number of the plans in flight was committed and the rest aborted.
  predicate StaysAway(s: SetState, live: seq<Plan>, v: Text)
  {
    forall n :: 0 <= n <= |live| ==> v !in AfterAbort(Committed(s, live, n)).entries
  }

  lemma OutcomesAre(s: SetState, live: seq<Plan>, v: Text)
    requires SetInv(s, live)
    ensures StaysAway(s, live, v) <==> NeverIn(s.entries, live, v)
  {
    hide SetInv, Committed, ReplayAll;
    forall n | 0 <= n <= |live|
      ensures AfterAbort(Committed(s, live, n)).entries == ReplayAll(s.entries, live[..n])
    {
      CommittedIs(s, live, n);
    }
    if StaysAway(s, live, v) {
      forall n | 0 <= n <= |live|
        ensures v !in ReplayAll(s.entries, live[..n])
      {
        assert v !in AfterAbort(Committed(s, live, n)).entries;
      }
    }
  }

  // A removal that plans nothing is answered at once. Its value stays away whatever becomes of
  // the plans in flight if and only if it is neither committed now nor left in the set by any
  // one of them; in particular when none of them touches it.
  lemma RemovalSafeExactly(s: SetState, live: seq<Plan>, d: Delta)
    requires SetInv(s, live) && d.op == Remove && PlanOf(s, [d]).deltas == []
    ensures StaysAway(s, live, d.rec.value) <==> d.rec.value !in s.entries && NoneShows(live, d.rec.value)
    ensures d.rec.value !in View(s.entries, s.pend)
    ensures d.rec.value !in s.pend ==> StaysAway(s, live, d.rec.value)
  {
    hide SetInv, NoneShows, NeverIn, StaysAway, PlanDraft, View;
    AbsentThroughout(s.entries, live, d.rec.value);
    OutcomesAre(s, live, d.rec.value);
    RemovalUnseen(s, d);
    if d.rec.value !in s.pend {
      UntouchedIsUnseen(s, live, d.rec.value);
    }
  }

  lemma RemovalUnseen(s: SetState, d: Delta)
    requires d.op == Remove && PlanOf(s, [d]).deltas == []
    ensures d.rec.value !in View(s.entries, s.pend)
  {
    hide Xor;
    assert [d][..0] == [];
    assert PlanDraft(s, [d]) == PlanStep(s, PlanDraft(s, []), d);
    FindIsView(s, map[], d.rec.value);
  }

  lemma UntouchedIsUnseen(s: SetState, live: seq<Plan>, v: Text)
    requires SetInv(s, live) && v !in s.pend && v !in View(s.entries, s.pend)
    ensures v !in s.entries && NoneShows(live, v)
  {
    hide Chain, ViewCounted, Overlay, XorOf, OverOf;
    forall i | 0 <= i < |live|
      ensures !Shows(live[i], v)
    {
      OverlayHas(live, i, v);
    }
  }

  lemma {:induction false} OverlayHas(live: seq<Plan>, i: nat, v: Text)
    requires i < |live| && v !in Overlay(live)
    ensures v !in OverOf(live[i].deltas, live[i].num)
  {
    hide OverOf;
    if i > 0 {
      OverlayHas(live[1..], i - 1, v);
    }
  }

  // ---------- a removal can be answered too early ----------

  // A second removal of a value whose first removal is still in flight plans nothing and is
  // answered at once, while the value is still committed; if the store then refuses the
  // first, both the entries and the view keep it.
  lemma RemovalAnsweredEarly(s: SetState, r: Record)
    requires s.pend == map[] && r.value in s.entries
    ensures var d := Delta(Remove, r, 0);
            var t := AfterPlan(s, [d]);
            && PlanOf(s, [d]).deltas != []
            && PlanOf(t, [d]).deltas == [] && AlreadyDone(t, d)
            && r.value in t.entries
            && r.value in View(AfterAbort(t).entries, AfterAbort(t).pend)
  {
    hide Xor;
    var d := Delta(Remove, r, 0);
    assert [d][..0] == [];
    assert PlanDraft(s, [d]) == PlanStep(s, PlanDraft(s, []), d);
    var t := AfterPlan(s, [d]);
    assert r.value in PlanDraft(s, [d]).over;
    assert PlanDraft(t, [d]) == PlanStep(t, PlanDraft(t, []), d);
  }

  // ---------- an Abort in between breaks all or nothing ----------

  // The removal of x is in flight, so two records fit a limit of two; an Abort brings x back
  // before Plan runs. Plan then takes the first record and rejects the second, and the job,
  // having two records, is still granted.
  lemma AbortSplitsJob(s: SetState, x: Text, j: Job, now: int)
    requires s.cfg.limit == 2 && s.entries.Keys == {x} && s.pendSize == 0
    requires s.pend.Keys == {x} && !s.pend[x].present
    requires j.op == Add && |j.recs| == 2 && !IsStale(j, now)
    requires j.recs[0].value != j.recs[1].value && x != j.recs[0].value && x != j.recs[1].value
    ensures var adm, t := Admit([s], s.pendSize, now, [j]), AfterAbort(s);
            var p := PlanOf(t, adm.deltas);
            && adm.results == [JobResult(Granted, 0)] && adm.deltas == DeltasOf(j)
            && |p.deltas| == 1 && p.rejected == [j.recs[1]]
            && AfterPlanning([j], adm.results, p) == [JobResult(Granted, p.num)]
  {
    hide PlanDraft, AdmitJob, DeltasOf;
    TwoAdmitted(s, j, now);
    assert [s][..0] == [] && [j][..0] == [];
    assert Admit([s], s.pendSize, now, [j]) == AdmitJob(s, now, Admit([], s.pendSize, now, []), j);
    assert |s.entries| == |s.entries.Keys| == 1;
    SecondRejected(AfterAbort(s), x, j);
  }

  lemma TwoAdmitted(s: SetState, j: Job, now: int)
    requires s.cfg.limit == 2 && s.pendSize == 0 && j.op == Add && |j.recs| == 2 && !IsStale(j, now)
    requires !Lookup(s, j.recs[0].value).1 && !Lookup(s, j.recs[1].value).1
    ensures var adm := AdmitJob(s, now, Admitted([], [], [], {}, 0), j);
            adm.results == [JobResult(Granted, 0)] && adm.deltas == DeltasOf(j)
  {
    hide Lookup, AsSet, FreshCount;
    TwoFresh(s, ValuesOf(j.recs));
  }

  lemma SecondRejected(t: SetState, x: Text, j: Job)
    requires t.cfg.limit == 2 && t.entries.Keys == {x} && t.pend == map[] && t.pendSize == 1
    requires j.op == Add && |j.recs| == 2
    requires j.recs[0].value != j.recs[1].value && x != j.recs[0].value && x != j.recs[1].value
    ensures |PlanDraft(t, DeltasOf(j)).applied| == 1 && PlanDraft(t, DeltasOf(j)).rejected == [j.recs[1]]
  {
    hide HashOf, Xor;
    var d := DeltasOf(j);
    assert d[..1] == [d[0]] && d[..1][..0] == [];
    var one := PlanStep(t, PlanDraft(t, []), d[0]);
    assert PlanDraft(t, d[..1]) == one;
    assert PlanDraft(t, d) == PlanStep(t, one, d[1]);
  }

  lemma TwoFresh(s: SetState, values: seq<Text>)
    requires |values| == 2 && !Lookup(s, values[0]).1 && !Lookup(s, values[1]).1
    ensures FreshCount(s, values, {}) == 2
  {
    assert values[..1][..0] == [];
    assert FreshCount(s, values[..1], {}) == 1;
  }
}
