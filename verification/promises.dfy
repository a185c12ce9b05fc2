// What a positive answer promises, with the store: the answer of a plan without a batch, and
// the answers of a commit (internal/keeper/keeper.go, plan, commit and answer).
module Promises {
  import opened Types
  import opened NetPrefix
  import opened SetModel
  import opened SetLaws
  import opened Pipeline
  import opened Dataset
  import opened Store
  import opened Admission
  import opened Durable
  import opened Canon
  import opened Crash
  import opened Keeper
  import opened Answers

  // The store gives back the record as it was asked for.
  predicate Holds(st: StoreState, r: Record)
  {
    r.value in Contents(st) && Contents(st)[r.value] == r.(prefix := NO_PREFIX)
  }

  // ---------- answered without a batch ----------

  lemma {:induction false} ReplayElsewhere(e: Entries, deltas: seq<Delta>, v: Text)
    requires v !in Touched(deltas)
    ensures v in Replay(e, deltas) <==> v in e
    ensures v in e ==> Replay(e, deltas)[v] == e[v]
  {
    if deltas != [] {
      var n := |deltas| - 1;
      TouchedSnoc(deltas[..n], deltas[n]);
      assert deltas[..n] + [deltas[n]] == deltas;
      ReplayElsewhere(e, deltas[..n], v);
    }
  }

  lemma HeadTouches(a: World, k: nat, d: Definition)
    requires WorldInv(a, k, d) && HeadLive(a.sys)
    ensures Touched(Head(a).deltas) <= a.sys.s.pend.Keys
  {
    hide InvAt, Agree, CanonHashes, CanonQueue, StorableQueue, Stored;
    HeadFits(a, k, d);
    HeadOverlays(a.sys.s, a.sys.queue);
  }

  lemma HeadOverlays(s: SetState, live: seq<Plan>)
    requires SetInv(s, live) && live != []
    ensures Touched(live[0].deltas) <= s.pend.Keys
  {
    hide Chain, ViewCounted, XorOf, OverOf, Touched;
    OverOfTouches(live[0].deltas, live[0].num);
  }

  // What no plan in flight touches is in the store as it is in memory, even while the store
  // is one commit ahead.
  lemma UntouchedIsStored(a: World, k: nat, d: Definition, v: Text)
    requires WorldInv(a, k, d) && v in a.sys.s.entries && v !in a.sys.s.pend
    ensures v in Contents(a.st) && Contents(a.st)[v] == SnapRecord(v, a.sys.s.entries[v])
  {
    hide InvAt, CanonHashes, CanonQueue, StorableQueue, Contents, AfterCommit, SnapRecord;
    if a.written {
      HeadTouches(a, k, d);
      HeadFits(a, k, d);
      HeadHasDeltas(a.sys.s, a.sys.queue);
      CommitShape(a.sys.s, Head(a));
      ReplayElsewhere(a.sys.s.entries, Head(a).deltas, v);
    }
    assert Contents(a.st) == Plain(Stored(a).entries);
  }

  // An add that is answered at once is committed, in memory and in the store.
  lemma AnsweredAtOnceIsStored(a: World, k: nat, d: Definition, states: seq<SetState>, now: int, jobs: seq<Job>,
                               results: seq<JobResult>, p: Plan, i: nat, q: nat)
    requires WorldInv(a, k, d) && PlannedAt(states, a.sys.s, now, jobs, results, p) && p.deltas == []
    requires i < |jobs| && results[i].code == Granted && jobs[i].op == Add && q < |jobs[i].recs|
    ensures var r := jobs[i].recs[q];
            && r.value in a.sys.s.entries && SameContent(a.sys.s.entries[r.value], r)
            && Holds(a.st, r)
  {
    hide WorldInv, PlannedAt, Contents;
    GrantedAtOnce(states, a.sys.s, now, jobs, results, p, i, q);
    UntouchedIsStored(a, k, d, jobs[i].recs[q].value);
  }

  // ---------- answered by the commit ----------

  // Worlds joined by events without an Abort or a crash.
  ghost predicate Calm(worlds: seq<World>, events: seq<Event>, d: Definition)
  {
    History(worlds, events, d) && forall i :: 0 <= i < |events| ==> !events[i].StoreFails? && !events[i].CrashAndMount?
  }

  // Worlds of one process: no crash. The store may refuse batches.
  ghost predicate Uninterrupted(worlds: seq<World>, events: seq<Event>, d: Definition)
  {
    History(worlds, events, d) && forall i :: 0 <= i < |events| ==> !events[i].CrashAndMount?
  }

  lemma EventGen(a: World, b: World, ev: Event, d: Definition)
    requires Happens(a, b, ev, d) && !ev.CrashAndMount?
    ensures b.sys.s.gen == if ev.StoreFails? then a.sys.s.gen + 1 else a.sys.s.gen
  {
    hide PlanDraft, Stamp, Replay, ReplayHash, ReplayExp, DropOwn, PopsDue, Backs, AfterStoreCommit;
  }

  // The generation never falls, and an Abort on the way raises it for good.
  lemma {:induction false} GenRises(worlds: seq<World>, events: seq<Event>, d: Definition, i: nat, n: nat)
    requires Uninterrupted(worlds, events, d) && i <= n < |worlds|
    ensures worlds[i].sys.s.gen <= worlds[n].sys.s.gen
    ensures worlds[i].sys.s.gen == worlds[n].sys.s.gen ==> forall j :: i <= j < n ==> !events[j].StoreFails?
  {
    hide Happens, PlannableAll;
    if i < n {
      GenRises(worlds, events, d, i, n - 1);
      assert Happens(worlds[n - 1], worlds[n - 1 + 1], events[n - 1], d);
      EventGen(worlds[n - 1], worlds[n], events[n - 1], d);
    }
  }

  // A plan that is committed in the end was never aborted: until then the history was calm.
  lemma CommittedWasCalm(worlds: seq<World>, events: seq<Event>, d: Definition, n: nat, p: Plan)
    requires Uninterrupted(worlds, events, d) && 0 < n < |worlds| && events[n - 1] == MemoryCommits
    requires worlds[n - 1].sys.queue != [] && worlds[n - 1].sys.queue[0] == p && p.deltas != []
    requires p.gen == worlds[0].sys.s.gen
    ensures Calm(worlds[..n + 1], events[..n], d)
    ensures worlds[n].sys.s.num == p.num
  {
    hide PlannableAll, AfterPlan, PlanOf, Replay, ReplayHash, ReplayExp, DropOwn;
    assert Happens(worlds[n - 1], worlds[n - 1 + 1], events[n - 1], d);
    GenRises(worlds, events, d, 0, n - 1);
  }

  lemma LineLength(a: Sys, k: nat)
    requires InvAt(a, k)
    ensures a.s.num == a.baseNum + |a.log| && a.s.pendNum == a.baseNum + |Line(a, k)|
  {
    hide Chain, XorOf, ViewCounted, Overlay, ReplayAll;
  }

  lemma CalmGrows(a: World, b: World, ev: Event, d: Definition, k: nat) returns (k': nat)
    requires WorldInv(a, k, d) && Happens(a, b, ev, d) && !ev.StoreFails? && !ev.CrashAndMount?
    requires ev.Planner? && ev.step.DoPlan? ==> PlannableAll(d.cfg, ev.step.deltas)
    ensures WorldInv(b, k', d) && Line(a.sys, k) <= Line(b.sys, k')
    ensures b.sys.base == a.sys.base && b.sys.baseNum == a.sys.baseNum
  {
    hide SetInv, Chain, Next, Agree, CanonHashes, CanonQueue, StorableQueue, Stored, AfterStoreCommit, PlannableAll, ReplayAll;
    k' := EventKeepsWorld(a, b, ev, k, d);
    if ev.Planner? || ev.MemoryCommits? || ev.DropStale? {
      var step := if ev.Planner? then ev.step else if ev.MemoryCommits? then DoCommit else DoDrop;
      var j := LineGrows(a.sys, b.sys, step, k);
      SameLine(b.sys, j, k');
      StepKeepsBase(a.sys, b.sys, step);
    } else {
      SameLine(b.sys, k, k');
    }
  }

  lemma StepKeepsBase(a: Sys, b: Sys, step: Step)
    requires Next(a, b, step)
    ensures b.base == a.base && b.baseNum == a.baseNum
  {
    hide AfterPlan, PlanOf, AfterCommit, AfterAbort, AfterExpired;
  }

  lemma LiveFrom(a: Sys, k: nat, i: nat)
    requires InvAt(a, k)
    ensures k <= |a.queue| && (i < |a.queue| ==> (a.queue[i].gen == a.s.gen <==> i >= k))
  {
    hide SetInv, Chain, ReplayAll;
  }

  // The live plans of a state are determined: only one k fits.
  lemma SameLine(a: Sys, j: nat, k: nat)
    requires InvAt(a, j) && InvAt(a, k)
    ensures j == k
  {
    hide InvAt;
    var least := if j < k then j else k;
    LiveFrom(a, j, least);
    LiveFrom(a, k, least);
  }

  lemma {:induction false} CalmGrowsAlong(worlds: seq<World>, events: seq<Event>, d: Definition, k: nat, n: nat) returns (k': nat)
    requires Calm(worlds, events, d) && WorldInv(worlds[0], k, d) && n < |worlds|
    ensures WorldInv(worlds[n], k', d) && Line(worlds[0].sys, k) <= Line(worlds[n].sys, k')
    ensures worlds[n].sys.base == worlds[0].sys.base && worlds[n].sys.baseNum == worlds[0].sys.baseNum
  {
    hide WorldInv, Happens, PlannableAll, Line;
    if n == 0 {
      k' := k;
    } else {
      var j := CalmGrowsAlong(worlds, events, d, k, n - 1);
      assert Happens(worlds[n - 1], worlds[n - 1 + 1], events[n - 1], d);
      k' := CalmGrows(worlds[n - 1], worlds[n], events[n - 1], d, j);
    }
  }

  // When the commit that brings memory to the number planned is done, committed entries are
  // the view the planner had left.
  lemma NumberedView(worlds: seq<World>, events: seq<Event>, d: Definition, k: nat, n: nat)
    requires Calm(worlds, events, d) && WorldInv(worlds[0], k, d) && n < |worlds|
    requires worlds[n].sys.s.num == worlds[0].sys.s.pendNum
    ensures worlds[n].sys.s.entries == View(worlds[0].sys.s.entries, worlds[0].sys.s.pend)
  {
    hide SetInv, Chain, View, Happens, Agree, CanonHashes, CanonQueue, StorableQueue, Stored, PlannableAll, ReplayAll;
    var k' := CalmGrowsAlong(worlds, events, d, k, n);
    var a, b := worlds[0].sys, worlds[n].sys;
    LineIsView(a, k);
    LineLength(a, k);
    LineLength(b, k');
    assert Line(b, k')[..|b.log|] == b.log;
    assert b.log == Line(a, k);
  }

  lemma {:induction false} AnsweredJob(jobs: seq<Job>, results: seq<JobResult>, epoch: u64, a: Answer) returns (i: nat)
    requires |jobs| == |results| && a in Replies(jobs, results, epoch)
    ensures i < |jobs| && jobs[i] == a.job && results[i] == a.res
  {
    var n := |jobs| - 1;
    if a in Replies(jobs[..n], results[..n], epoch) {
      i := AnsweredJob(jobs[..n], results[..n], epoch, a);
    } else {
      i := n;
    }
  }

  lemma {:induction false} CarriedJob(jobs: seq<Job>, results: seq<JobResult>, i: nat) returns (m: nat)
    requires |jobs| == |results| && i < |Carried(jobs, results)|
    ensures m < |jobs| && jobs[m] == Carried(jobs, results)[i].0 && results[m].code == Granted
  {
    var n := |jobs| - 1;
    if i < |Carried(jobs[..n], results[..n])| {
      m := CarriedJob(jobs[..n], results[..n], i);
    } else {
      m := n;
    }
  }

  // The answers commit sends for a batch once the store has taken it.
  function AnswersOf(b: Batch, epoch: u64): seq<Answer>
    requires |b.jobs| == |b.results|
  {
    Replies(b.jobs, Verdicts(b.results, true, b.plan.num), epoch)
  }

  // From the call of plan to the commit of its batch, whatever is planned, swept, stored,
  // committed, refused and aborted in that process: for every answer sent then, every record of
  // its job is as asked, or superseded by a later request of the same batch, in committed
  // memory; and the store agrees with committed memory.
  lemma AnsweredIsStored(worlds: seq<World>, events: seq<Event>, d: Definition, k: nat, n: nat,
                         states: seq<SetState>, now: int, jobs: seq<Job>, results: seq<JobResult>, p: Plan,
                         pkg: Bytes, epoch: u64, a: Answer, q: nat) returns (m: nat)
    requires Uninterrupted(worlds, events, d) && WorldInv(worlds[0], k, d)
    requires PlannedAt(states, worlds[0].sys.s, now, jobs, results, p) && p.deltas != []
    requires |events| > 0 && events[0] == Planner(DoPlan(Admit(states, worlds[0].sys.s.pendSize, now, jobs).deltas))
    requires 0 < n < |worlds| && events[n - 1] == MemoryCommits
    requires worlds[n - 1].sys.queue != [] && worlds[n - 1].sys.queue[0] == p
    requires a in AnswersOf(Carry(jobs, results, p, pkg), epoch) && q < |a.job.recs|
    ensures var deltas := Admit(states, worlds[0].sys.s.pendSize, now, jobs).deltas;
            FulfilledOrSuperseded(worlds[n].sys.s.entries, deltas, Delta(a.job.op, a.job.recs[q], 0), m)
    ensures Agree(worlds[n].st, worlds[n].sys.s, d.id)
    ensures a.res == JobResult(Granted, worlds[n].sys.s.num)
  {
    hide WorldInv, PlannableAll, View, AdmitJob, Admit, FulfilledOrSuperseded, Agree, Carried, Replies, Roomy, ViewCounted,
         AllSameView, PlanDraft, Next, Happens;
    CommittedWasCalm(worlds, events, d, n, p);
    m := AnsweredCalmly(worlds[..n + 1], events[..n], d, k, states, now, jobs, results, p, pkg, epoch, a, q);
  }

  lemma AnsweredCalmly(worlds: seq<World>, events: seq<Event>, d: Definition, k: nat,
                       states: seq<SetState>, now: int, jobs: seq<Job>, results: seq<JobResult>, p: Plan,
                       pkg: Bytes, epoch: u64, a: Answer, q: nat) returns (m: nat)
    requires Calm(worlds, events, d) && WorldInv(worlds[0], k, d)
    requires PlannedAt(states, worlds[0].sys.s, now, jobs, results, p) && p.deltas != []
    requires |events| > 0 && events[0] == Planner(DoPlan(Admit(states, worlds[0].sys.s.pendSize, now, jobs).deltas))
    requires events[|events| - 1] == MemoryCommits && worlds[|events|].sys.s.num == p.num
    requires a in AnswersOf(Carry(jobs, results, p, pkg), epoch) && q < |a.job.recs|
    ensures var deltas := Admit(states, worlds[0].sys.s.pendSize, now, jobs).deltas;
            FulfilledOrSuperseded(worlds[|events|].sys.s.entries, deltas, Delta(a.job.op, a.job.recs[q], 0), m)
    ensures Agree(worlds[|events|].st, worlds[|events|].sys.s, d.id)
    ensures a.res == JobResult(Granted, worlds[|events|].sys.s.num)
  {
    hide WorldInv, PlannableAll, View, AdmitJob, Admit, FulfilledOrSuperseded, Agree, Carried, Replies, Roomy, ViewCounted,
         AllSameView, PlanDraft, Next;
    var n := |events|;
    var s, deltas := worlds[0].sys.s, Admit(states, worlds[0].sys.s.pendSize, now, jobs).deltas;
    var b := Carry(jobs, results, p, pkg);
    var i := AnsweredJob(b.jobs, Verdicts(b.results, true, p.num), epoch, a);
    var j := CarriedJob(jobs, results, i);
    CarriedResults(jobs, results, p.num, i);
    m := GrantedInBatch(states, s, now, jobs, results, p, j, q);
    assert Happens(worlds[0], worlds[0 + 1], events[0], d);
    PlannedState(worlds[0].sys, worlds[1].sys, deltas, p);
    var k1 := EventKeepsWorld(worlds[0], worlds[1], events[0], k, d);
    CalmTail(worlds, events, d);
    NumberedView(worlds[1..], events[1..], d, k1, n - 1);
    var k2 := CalmGrowsAlong(worlds, events, d, k, n);
    assert Happens(worlds[n - 1], worlds[n - 1 + 1], events[n - 1], d);
    SettledAgrees(worlds[n], k2, d);
  }

  lemma {:induction false} CarriedAt(jobs: seq<Job>, results: seq<JobResult>, i: nat) returns (m: nat)
    requires |jobs| == |results| && i < |Carried(jobs, results)|
    ensures m < |jobs| && results[m] == Carried(jobs, results)[i].1
  {
    var n := |jobs| - 1;
    if i < |Carried(jobs[..n], results[..n])| {
      m := CarriedAt(jobs[..n], results[..n], i);
    } else {
      m := n;
    }
  }

  lemma CarriedResults(jobs: seq<Job>, results: seq<JobResult>, num: nat, i: nat)
    requires |jobs| == |results| && i < |Carried(jobs, results)|
    ensures Verdicts(Results(Carried(jobs, results)), true, num)[i] == JobResult(Granted, num)
  {
    hide Carried;
    var m := CarriedAt(jobs, results, i);
  }

  lemma PlannedState(a: Sys, b: Sys, deltas: seq<Delta>, p: Plan)
    requires Next(a, b, DoPlan(deltas)) && p == PlanOf(a.s, deltas) && p.deltas != []
    ensures b.s == AfterPlan(a.s, deltas) && b.s.pendNum == p.num
  {
    hide PlanDraft, Stamp;
  }

  lemma CalmTail(worlds: seq<World>, events: seq<Event>, d: Definition)
    requires Calm(worlds, events, d) && |events| > 0
    ensures Calm(worlds[1..], events[1..], d)
  {
    hide Happens, PlannableAll;
    forall i | 0 <= i < |events| - 1
      ensures Happens(worlds[1..][i], worlds[1..][i + 1], events[1..][i], d)
    {
      assert Happens(worlds[i + 1], worlds[i + 1 + 1], events[i + 1], d);
    }
  }

  lemma SettledAgrees(a: World, k: nat, d: Definition)
    requires WorldInv(a, k, d) && !a.written
    ensures Agree(a.st, a.sys.s, d.id)
  {
    hide InvAt, Agree, CanonHashes, CanonQueue, StorableQueue;
  }
}
