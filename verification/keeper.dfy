// The planner and the committer of one holder (internal/keeper/keeper.go, plan, answer and
// commit). They run side by side: wherever plan lets go of the set's mutex, any number of
// commits may happen.
module Keeper {
  import opened Types
  import opened SetModel
  import opened SetLaws
  import opened Pipeline
  import opened Dataset
  import opened Admission
  import opened Durable
  import opened Replication

  datatype Answer = Answer(job: Job, res: JobResult, epoch: u64)

  datatype Batch = Batch(plan: Plan, jobs: seq<Job>, results: seq<JobResult>, pkg: Bytes)

  // answer: a stale job and one without a channel get no reply.
  function Reply(j: Job, r: JobResult, epoch: u64): seq<Answer>
  {
    if r.code == Stale || !j.replies then [] else [Answer(j, r, epoch)]
  }

  function Replies(jobs: seq<Job>, results: seq<JobResult>, epoch: u64): seq<Answer>
    requires |jobs| == |results|
  {
    if jobs == [] then [] else
      var n := |jobs| - 1;
      Replies(jobs[..n], results[..n], epoch) + Reply(jobs[n], results[n], epoch)
  }

  // The jobs of a call to plan that go on in its batch, and those answered at once.
  function Carried(jobs: seq<Job>, results: seq<JobResult>): (r: seq<(Job, JobResult)>)
    requires |jobs| == |results|
    ensures forall i :: 0 <= i < |r| ==> r[i].1.code == Granted
  {
    if jobs == [] then [] else
      var n := |jobs| - 1;
      Carried(jobs[..n], results[..n]) + if results[n].code == Granted then [(jobs[n], results[n])] else []
  }

  function Refused(jobs: seq<Job>, results: seq<JobResult>): (r: seq<(Job, JobResult)>)
    requires |jobs| == |results|
    ensures forall i :: 0 <= i < |r| ==> r[i].1.code != Granted
  {
    if jobs == [] then [] else
      var n := |jobs| - 1;
      Refused(jobs[..n], results[..n]) + if results[n].code != Granted then [(jobs[n], results[n])] else []
  }

  function Jobs(pairs: seq<(Job, JobResult)>): (r: seq<Job>)
    ensures |r| == |pairs|
  {
    seq(|pairs|, i requires 0 <= i < |pairs| => pairs[i].0)
  }

  function Results(pairs: seq<(Job, JobResult)>): (r: seq<JobResult>)
    ensures |r| == |pairs|
  {
    seq(|pairs|, i requires 0 <= i < |pairs| => pairs[i].1)
  }

  function Plans(batches: seq<Batch>): (r: seq<Plan>)
    ensures |r| == |batches|
  {
    seq(|batches|, i requires 0 <= i < |batches| => batches[i].plan)
  }

  // Each job goes exactly one way.
  lemma {:induction false} JobsSplit(jobs: seq<Job>, results: seq<JobResult>)
    requires |jobs| == |results|
    ensures multiset(jobs) == multiset(Jobs(Carried(jobs, results))) + multiset(Jobs(Refused(jobs, results)))
  {
    if jobs != [] {
      var n := |jobs| - 1;
      JobsSplit(jobs[..n], results[..n]);
      assert jobs == jobs[..n] + [jobs[n]];
      JobsSnoc(Carried(jobs[..n], results[..n]), (jobs[n], results[n]));
      JobsSnoc(Refused(jobs[..n], results[..n]), (jobs[n], results[n]));
    }
  }

  // And with the result computed for it.
  lemma {:induction false} ResultsAligned(jobs: seq<Job>, results: seq<JobResult>, i: nat)
    requires |jobs| == |results| && i < |jobs|
    ensures (jobs[i], results[i]) in if results[i].code == Granted then Carried(jobs, results) else Refused(jobs, results)
  {
    var n := |jobs| - 1;
    if i < n {
      ResultsAligned(jobs[..n], results[..n], i);
    }
  }

  lemma JobsSnoc(pairs: seq<(Job, JobResult)>, q: (Job, JobResult))
    ensures Jobs(pairs + [q]) == Jobs(pairs) + [q.0] && Results(pairs + [q]) == Results(pairs) + [q.1]
    ensures Jobs(pairs + []) == Jobs(pairs)
  {
    assert pairs + [] == pairs;
  }

  // ---------- results after planning ----------

  // Every granted job gets the plan's number.
  function Numbered(results: seq<JobResult>, num: nat): (r: seq<JobResult>)
    ensures |r| == |results|
  {
    seq(|results|, i requires 0 <= i < |results| =>
      if results[i].code == Granted then JobResult(Granted, num) else results[i])
  }

  lemma AdmitJobAppends(s: SetState, now: int, adm: Admitted, j: Job)
    ensures var adm' := AdmitJob(s, now, adm, j);
            && |adm'.results| == |adm.results| + 1 && adm'.results[..|adm.results|] == adm.results
            && var r := adm'.results[|adm.results|];
               r.num == 0 && adm'.accepted == adm.accepted + if r.code == Granted then [|adm.results|] else []
  {
    hide FreshCount, ValuesOf, AsSet, DeltasOf;
  }

  // accepted lists exactly the granted jobs.
  lemma {:induction false} AcceptedAreGranted(states: seq<SetState>, size: int, now: int, jobs: seq<Job>, i: nat)
    requires |states| == |jobs|
    ensures var adm := Admit(states, size, now, jobs);
            && (i in adm.accepted <==> i < |jobs| && adm.results[i].code == Granted)
            && (i < |jobs| ==> adm.results[i].num == 0)
  {
    hide AdmitJob;
    if jobs != [] {
      var n := |jobs| - 1;
      var before, adm := Admit(states[..n], size, now, jobs[..n]), Admit(states, size, now, jobs);
      AcceptedAreGranted(states[..n], size, now, jobs[..n], i);
      AdmitJobAppends(states[n], now, before, jobs[n]);
      assert i < n ==> adm.results[i] == adm.results[..n][i];
    }
  }

  // The records of a granted job are among the deltas planned.
  lemma {:induction false} GrantedAreDeltas(states: seq<SetState>, size: int, now: int, jobs: seq<Job>, i: nat, k: nat)
    requires |states| == |jobs| && i < |jobs| && k < |jobs[i].recs|
    requires Admit(states, size, now, jobs).results[i].code == Granted
    ensures Delta(jobs[i].op, jobs[i].recs[k], 0) in Admit(states, size, now, jobs).deltas
  {
    hide FreshCount, ValuesOf, AsSet;
    var n := |jobs| - 1;
    var before, adm := Admit(states[..n], size, now, jobs[..n]), Admit(states, size, now, jobs);
    assert adm.results[..n] == before.results;
    if i < n {
      assert adm.results[i] == before.results[i];
      GrantedAreDeltas(states[..n], size, now, jobs[..n], i, k);
    } else {
      assert DeltasOf(jobs[n])[k] == Delta(jobs[n].op, jobs[n].recs[k], 0);
    }
  }

  // The results of a batch once the store has answered: the committed number, or an error.
  function Verdicts(results: seq<JobResult>, done: bool, num: nat): (r: seq<JobResult>)
    ensures |r| == |results|
  {
    seq(|results|, i requires 0 <= i < |results| =>
      if done then results[i].(num := num) else results[i].(code := Unavailable))
  }

  // ---------- what answers say ----------

  ghost predicate AllGranted(b: Batch)
  {
    |b.jobs| == |b.results| && forall i :: 0 <= i < |b.results| ==> b.results[i].code == Granted
  }

  // All answers carry this epoch and this code.
  ghost predicate AnsweredBy(answers: seq<Answer>, epoch: u64, code: Code)
  {
    forall i :: 0 <= i < |answers| ==> answers[i].epoch == epoch && answers[i].res.code == code
  }

  ghost predicate Hears(answers: seq<Answer>, j: Job)
  {
    exists i :: 0 <= i < |answers| && answers[i].job == j
  }

  lemma GrantedPairs(b: Batch)
    requires AllGranted(b)
    ensures |b.jobs| == |b.results|
  {}

  // An answer is some job's result, with the epoch; a job without a channel or past its
  // deadline gets none, every other one does.
  lemma {:induction false} RepliesExactly(jobs: seq<Job>, results: seq<JobResult>, epoch: u64)
    requires |jobs| == |results|
    ensures forall a :: a in Replies(jobs, results, epoch) <==>
              a.epoch == epoch && exists i :: 0 <= i < |jobs| && jobs[i] == a.job && results[i] == a.res
                                              && a.res.code != Stale && a.job.replies
  {
    if jobs != [] {
      var n := |jobs| - 1;
      RepliesExactly(jobs[..n], results[..n], epoch);
      forall a: Answer
        ensures a in Replies(jobs, results, epoch) <==>
                  a.epoch == epoch && exists i :: 0 <= i < |jobs| && jobs[i] == a.job && results[i] == a.res
                                                  && a.res.code != Stale && a.job.replies
      {
        if a in Replies(jobs[..n], results[..n], epoch) {
          var i :| 0 <= i < n && jobs[..n][i] == a.job && results[..n][i] == a.res;
          assert jobs[i] == a.job && results[i] == a.res;
        } else if i :| 0 <= i < |jobs| && jobs[i] == a.job && results[i] == a.res && i < n {
          assert jobs[..n][i] == a.job && results[..n][i] == a.res;
        }
      }
    }
  }

  // A batch the store took is granted at the committed number; one it refused, or of an old
  // generation, is unavailable.
  lemma BatchVerdict(b: Batch, done: bool, num: nat, epoch: u64)
    requires AllGranted(b)
    ensures var answers := Replies(b.jobs, Verdicts(b.results, done, num), epoch);
            && AnsweredBy(answers, epoch, if done then Granted else Unavailable)
            && forall i :: 0 <= i < |answers| ==> (answers[i].res.code == Granted ==> done && answers[i].res.num == num)
  {
    hide Replies;
    RepliesExactly(b.jobs, Verdicts(b.results, done, num), epoch);
    var answers := Replies(b.jobs, Verdicts(b.results, done, num), epoch);
    forall i | 0 <= i < |answers|
      ensures answers[i].epoch == epoch && answers[i].res.code == if done then Granted else Unavailable
      ensures answers[i].res.code == Granted ==> done && answers[i].res.num == num
    {
      assert answers[i] in answers;
    }
  }

  lemma EveryoneHears(b: Batch, done: bool, num: nat, epoch: u64)
    requires AllGranted(b)
    ensures var answers := Replies(b.jobs, Verdicts(b.results, done, num), epoch);
            forall j :: j in b.jobs && j.replies ==> Hears(answers, j)
  {
    hide Replies;
    RepliesExactly(b.jobs, Verdicts(b.results, done, num), epoch);
    var answers := Replies(b.jobs, Verdicts(b.results, done, num), epoch);
    forall j | j in b.jobs && j.replies
      ensures Hears(answers, j)
    {
      var m :| 0 <= m < |b.jobs| && b.jobs[m] == j;
      var a := Answer(j, Verdicts(b.results, done, num)[m], epoch);
      assert a in answers;
      var i :| 0 <= i < |answers| && answers[i] == a;
    }
  }

  lemma MountedInit(a: Sys)
    requires Settled(a.s) && a.queue == [] && a.log == [] && a.base == a.s.entries && a.baseNum == a.s.num
    ensures InvAt(a, 0)
  {
    hide XorOf;
    assert View(a.s.entries, map[]) == a.s.entries;
    assert a.queue[0..] == [];
  }

  lemma HeadCommits(a: Sys)
    requires Inv(a) && HeadLive(a)
    ensures var p, t := a.queue[0], AfterCommit(a.s, a.queue[0]);
            p.deltas != [] && t.hash == p.hash && t.num == p.num
  {
    hide SetInv, Chain, AfterCommit;
    var k: nat :| InvAt(a, k);
    assert a.queue[0..] == a.queue;
    CommitMatchesPlan(a.s, a.queue);
    HeadHasDeltas(a.s, a.queue);
  }

  lemma QuietStep(a: Sys, b: Sys, step: Step)
    requires Inv(a) && Next(a, b, step) && !step.DoPlan? && !step.DoFail?
    ensures SameView(a.s, b.s)
  {
    hide SetInv, Chain, Next, SameView;
    var k: nat :| InvAt(a, k);
    QuietStepKeepsView(a, b, step, k);
  }

  lemma StepKeepsEpoch(a: Sys, b: Sys, step: Step)
    requires Next(a, b, step)
    ensures (b.s.epoch, b.s.key, b.s.cfg) == (a.s.epoch, a.s.key, a.s.cfg)
  {
    hide PlanDraft, Stamp, Replay, ReplayHash, ReplayExp, DropOwn;
  }

  lemma ViewIsCounted(a: Sys)
    requires Inv(a)
    ensures ViewCounted(a.s)
  {
    hide Chain, XorOf, View, Overlay;
  }

  class Holder {
    const s: Set
    var batches: seq<Batch>
    ghost var base: Entries
    ghost var baseNum: nat
    ghost var log: seq<Plan>

    ghost function State(): Sys
      reads this, s, s.exp
    {
      Sys(s.Model(), Plans(batches), base, baseNum, log)
    }

    ghost predicate Valid()
      reads this, s, s.exp
    {
      && s.Valid()
      && Inv(State())
      && forall i :: 0 <= i < |batches| ==> AllGranted(batches[i])
    }

    // A freshly mounted set.
    constructor (mounted: Set)
      requires mounted.Valid() && Settled(mounted.Model())
      ensures Valid() && s == mounted && batches == []
    {
      s, batches := mounted, [];
      base, baseNum, log := mounted.entries, mounted.num, [];
      new;
      MountedInit(State());
    }

    // fail, and the last loop of commit.
    static method AnswerBatch(b: Batch, done: bool, num: nat, epoch: u64) returns (answers: seq<Answer>)
      requires |b.jobs| == |b.results|
      ensures answers == Replies(b.jobs, Verdicts(b.results, done, num), epoch)
    {
      ghost var all := Verdicts(b.results, done, num);
      answers := [];
      for i := 0 to |b.jobs|
        invariant answers == Replies(b.jobs[..i], all[..i], epoch)
      {
        var r := if done then b.results[i].(num := num) else b.results[i].(code := Unavailable);
        assert b.jobs[..i + 1][..i] == b.jobs[..i] && all[..i + 1][..i] == all[..i];
        answers := answers + Reply(b.jobs[i], r, epoch);
      }
      assert b.jobs[..|b.jobs|] == b.jobs && all[..|b.jobs|] == all;
    }

    // commit: the head of the queue, with the store's verdict on it. differs is the branch
    // that logs that the committed state is not the planned one.
    method CommitBatch(stored: bool) returns (answers: seq<Answer>, differs: bool)
      requires Valid() && batches != []
      modifies this, s, s.exp
      ensures Valid() && !differs
      ensures batches == old(batches)[1..]
      ensures Next(old(State()), State(),
                if !HeadLive(old(State())) then DoDrop else if stored then DoCommit else DoFail)
      ensures var b, done := old(batches[0]), old(HeadLive(State())) && stored;
              |b.jobs| == |b.results| && answers == Replies(b.jobs, Verdicts(b.results, done, b.plan.num), s.epoch)
      ensures AnsweredBy(answers, s.epoch, if old(HeadLive(State())) && stored then Granted else Unavailable)
      ensures forall i :: 0 <= i < |answers| && answers[i].res.code == Granted ==>
                old(HeadLive(State())) && stored && answers[i].res.num == s.num
      ensures forall j :: j in old(batches[0]).jobs && j.replies ==> Hears(answers, j)
    {
      hide AnsweredBy, Hears, AllGranted, SetInv, Chain, AfterCommit, AfterAbort, Replies, Verdicts, InvAt, Inv;
      ghost var a := State();
      var b, epoch := batches[0], s.epoch;
      GrantedPairs(b);
      ghost var step := if !HeadLive(a) then DoDrop else if stored then DoCommit else DoFail;
      differs := false;
      batches := batches[1..];
      assert Plans(batches) == a.queue[1..];
      if b.plan.gen != s.gen {
        answers := AnswerBatch(b, false, b.plan.num, epoch);
      } else if !stored {
        s.Abort();
        answers := AnswerBatch(b, false, b.plan.num, epoch);
      } else {
        HeadCommits(a);
        var change := s.Commit(b.plan);
        log := log + [b.plan];
        var (num, hash) := change.value;
        if hash != b.plan.hash {
          differs := true;
        }
        answers := AnswerBatch(b, true, num, epoch);
      }
      StepKeeps(a, State(), step);
      StepKeepsEpoch(a, State(), step);
      ghost var done := HeadLive(a) && stored;
      BatchVerdict(b, done, b.plan.num, epoch);
      EveryoneHears(b, done, b.plan.num, epoch);
    }

    // The committer, while the planner is between two of its critical sections: any number
    // of batches, each taken or refused by the store.
    method Interfere()
      requires Valid()
      modifies this, s, s.exp
      ensures Valid() && SameUnlessAborted(old(s.Model()), s.Model())
      ensures exists n :: 0 <= n <= |old(batches)| && batches == old(batches)[n..]
    {
      hide Inv, Next, SameUnlessAborted;
      var steps: nat := *;
      ghost var start, n := s.Model(), 0;
      SameUnlessReflexive(start);
      while steps > 0 && batches != []
        invariant Valid() && SameUnlessAborted(start, s.Model())
        invariant 0 <= n <= |old(batches)| && batches == old(batches)[n..]
      {
        ghost var a := State();
        var stored: bool := *;
        var answers, differs := CommitBatch(stored);
        CommitterStep(a, State(), if !HeadLive(a) then DoDrop else if stored then DoCommit else DoFail);
        SameUnlessTransitive(start, a.s, s.Model());
        n := n + 1;
        steps := steps - 1;
      }
    }

    // One round of plan's first loop.
    method AdmitOne(adm: Admitted, j: Job, now: int) returns (adm': Admitted)
      ensures adm' == AdmitJob(s.Model(), now, adm, j)
    {
      if j.deadline.Some? && now > j.deadline.value {
        return Refuse(adm, Stale);
      }
      if j.recs == [] {
        return Refuse(adm, BadRequest);
      }
      adm' := adm;
      if j.op == Add && s.cfg.limit > 0 {
        var values := ValuesOf(j.recs);
        var n := s.Fresh(values, adm.seen);
        if adm.size + n > s.cfg.limit {
          return Refuse(adm, Full);
        }
        adm' := adm'.(seen := adm.seen + AsSet(values), size := adm.size + n);
      }
      adm' := Accept(adm', j);
    }

    // plan's second loop: a job of one rejected record is full, the others get the number.
    static method NumberResults(jobs: seq<Job>, adm: Admitted, p: Plan) returns (results: seq<JobResult>)
      requires |jobs| == |adm.results|
      requires forall i :: i in adm.accepted <==> (0 <= i < |jobs| && adm.results[i].code == Granted)
      requires forall i :: 0 <= i < |jobs| ==> adm.results[i].num == 0
      ensures results == AfterPlanning(jobs, adm.results, p)
    {
      var rejected := RejectedValues(p);
      results := adm.results;
      for n := 0 to |adm.accepted|
        invariant |results| == |adm.results|
        invariant forall i :: 0 <= i < |results| ==>
                    (results[i] == if i in adm.accepted[..n] then Numbering(jobs[i], p) else adm.results[i])
      {
        var i := adm.accepted[n];
        assert i in adm.accepted;
        if |jobs[i].recs| == 1 && jobs[i].recs[0].value in rejected {
          results := results[i := JobResult(Full, 0)];
        } else {
          results := results[i := JobResult(Granted, p.num)];
        }
      }
      assert adm.accepted[..|adm.accepted|] == adm.accepted;
    }

    static method AnswerAll(jobs: seq<Job>, results: seq<JobResult>, epoch: u64) returns (answers: seq<Answer>)
      requires |jobs| == |results|
      ensures answers == Replies(jobs, results, epoch)
    {
      answers := [];
      for i := 0 to |jobs|
        invariant answers == Replies(jobs[..i], results[..i], epoch)
      {
        assert jobs[..i + 1][..i] == jobs[..i] && results[..i + 1][..i] == results[..i];
        answers := answers + Reply(jobs[i], results[i], epoch);
      }
      assert jobs[..|jobs|] == jobs && results[..|jobs|] == results;
    }

    // The last loop of plan: refused jobs are answered, the others go into the batch.
    static method Route(jobs: seq<Job>, results: seq<JobResult>, epoch: u64)
      returns (kept: seq<Job>, with: seq<JobResult>, answers: seq<Answer>, ghost refused: seq<(Job, JobResult)>)
      requires |jobs| == |results|
      ensures kept == Jobs(Carried(jobs, results)) && with == Results(Carried(jobs, results))
      ensures refused == Refused(jobs, results) && answers == RefusedReplies(jobs, results, epoch)
    {
      kept, with, answers, refused := [], [], [], [];
      for i := 0 to |jobs|
        invariant kept == Jobs(Carried(jobs[..i], results[..i])) && with == Results(Carried(jobs[..i], results[..i]))
        invariant refused == Refused(jobs[..i], results[..i])
        invariant answers == Replies(Jobs(refused), Results(refused), epoch)
      {
        assert jobs[..i + 1][..i] == jobs[..i] && results[..i + 1][..i] == results[..i];
        JobsSnoc(Carried(jobs[..i], results[..i]), (jobs[i], results[i]));
        JobsSnoc(refused, (jobs[i], results[i]));
        if results[i].code != Granted {
          answers := answers + Reply(jobs[i], results[i], epoch);
          RepliesSnoc(refused, (jobs[i], results[i]), epoch);
          refused := refused + [(jobs[i], results[i])];
        } else {
          kept := kept + [jobs[i]];
          with := with + [results[i]];
        }
      }
      assert jobs[..|jobs|] == jobs && results[..|jobs|] == results;
    }

    // plan's first loop, with the committer at work between any two looks at the set.
    method AdmitJobs(jobs: seq<Job>, now: int) returns (adm: Admitted, ghost states: seq<SetState>)
      requires Valid()
      modifies this, s, s.exp
      ensures Valid() && SameUnlessAborted(old(s.Model()), s.Model())
      ensures |states| == |jobs| && AllBetween(old(s.Model()), states, s.Model())
      ensures adm == Admit(states, old(s.pendSize), now, jobs)
    {
      hide Inv, SameUnlessAborted, AdmitJob, AllBetween;
      ghost var start := s.Model();
      var size := s.pendSize;
      SameUnlessReflexive(start);
      NoneBetween(start, start);
      states := [];
      adm := Admitted([], [], [], {}, size);
      for i := 0 to |jobs|
        invariant Valid() && SameUnlessAborted(start, s.Model())
        invariant |states| == i && AllBetween(start, states, s.Model())
        invariant adm == Admit(states, size, now, jobs[..i])
      {
        ghost var t := s.Model();
        Interfere();
        SameUnlessTransitive(start, t, s.Model());
        BetweenLater(start, states, t, s.Model());
        adm := AdmitOne(adm, jobs[i], now);
        assert jobs[..i + 1][..i] == jobs[..i] && (states + [s.Model()])[..i] == states;
        states := states + [s.Model()];
      }
      assert jobs[..|jobs|] == jobs;
      ghost var t := s.Model();
      Interfere();
      SameUnlessTransitive(start, t, s.Model());
      BetweenLater(start, states, t, s.Model());
    }

    // The rest of plan, at the moment Plan runs: the numbers, the answers and the batch. The
    // batch counts as queued from that moment: only the planner appends to the queue.
    method PlanAdmitted(jobs: seq<Job>, adm: Admitted) returns (answers: seq<Answer>, results: seq<JobResult>, p: Plan)
      requires Valid() && Unwrapped(s.pendNum + 1) && |jobs| == |adm.results|
      requires forall i :: i in adm.accepted <==> (0 <= i < |jobs| && adm.results[i].code == Granted)
      requires forall i :: 0 <= i < |jobs| ==> adm.results[i].num == 0
      modifies this, s, s.exp
      ensures Valid()
      ensures s.Model() == AfterPlan(old(s.Model()), adm.deltas)
      ensures p == if adm.deltas == [] then NO_PLAN else PlanOf(old(s.Model()), adm.deltas)
      ensures results == if adm.deltas == [] then adm.results else AfterPlanning(jobs, adm.results, p)
      ensures p.deltas == [] ==> batches == old(batches) && answers == Replies(jobs, results, s.epoch)
      ensures p.deltas != [] ==>
                && Unwrapped(p.num) && answers == RefusedReplies(jobs, results, s.epoch)
                && batches == old(batches) + [Carry(jobs, results, p, PackageBytes(s.cfg, s.epoch, s.key, p))]
    {
      hide Inv, InvAt, Next, PlanDraft, Stamp, PackageBytes, Carried, Refused, Replies;
      ghost var a := State();
      results, p := adm.results, NO_PLAN;
      NothingPlanned(s.Model());
      if adm.deltas != [] {
        p := s.PlanDeltas(adm.deltas);
        results := NumberResults(jobs, adm, p);
      }
      if p.deltas == [] {
        answers := AnswerAll(jobs, results, s.epoch);
      } else {
        var kept, with;
        ghost var refused;
        kept, with, answers, refused := Route(jobs, results, s.epoch);
        var pkg := PackPlan(s, p);
        batches := batches + [Batch(p, kept, with, pkg)];
        assert Plans(batches) == a.queue + [p];
      }
      PlannedStep(a, State(), adm.deltas);
      StepKeeps(a, State(), DoPlan(adm.deltas));
    }

    // plan. Without an Abort since the size was read no record of an accepted job is rejected.
    method PlanJobs(jobs: seq<Job>, now: int)
      returns (answers: seq<Answer>, results: seq<JobResult>, p: Plan, ghost states: seq<SetState>, ghost at: SetState)
      requires Valid() && Unwrapped(s.pendNum + 1)
      modifies this, s, s.exp
      ensures Valid() && SameUnlessAborted(old(s.Model()), at) && AllBetween(old(s.Model()), states, at)
      ensures PlannedFrom(states, old(s.pendSize), at, now, jobs, results, p) && ViewCounted(at)
      ensures at.gen == old(s.gen) ==> PlannedAt(states, at, now, jobs, results, p)
      ensures s.Model() == AfterPlan(at, Admit(states, old(s.pendSize), now, jobs).deltas)
      ensures p.deltas == [] ==> answers == Replies(jobs, results, s.epoch)
      ensures p.deltas != [] ==>
                && Unwrapped(p.num) && answers == RefusedReplies(jobs, results, s.epoch)
                && |batches| > 0
                && batches[|batches| - 1] == Carry(jobs, results, p, PackageBytes(s.cfg, s.epoch, s.key, p))
    {
      hide Inv, Next, SameUnlessAborted, ViewCounted, AdmitJob, AfterPlan, PackageBytes, RefusedReplies, Replies, PlanOf,
           Carry, PlannedAt, AllBetween, AfterPlanning;
      ghost var start, size := s.Model(), s.pendSize;
      ViewIsCounted(State());
      var adm;
      adm, states := AdmitJobs(jobs, now);
      at := s.Model();
      ViewIsCounted(State());
      NumbersLeft(start, at);
      forall i: int
        ensures i in adm.accepted <==> (0 <= i < |jobs| && adm.results[i].code == Granted)
        ensures 0 <= i < |jobs| ==> adm.results[i].num == 0
      {
        if i >= 0 {
          AcceptedAreGranted(states, size, now, jobs, i);
        }
      }
      if adm.deltas == [] {
        NobodyPlanned(states, size, now, jobs);
      }
      answers, results, p := PlanAdmitted(jobs, adm);
      if at.gen == start.gen {
        AllOrNothing(start, states, at, now, jobs, results, p);
      }
    }
  }

  // What the planner sees again after the committer has been at work: the same view, unless
  // there was an Abort.
  ghost predicate SameUnlessAborted(s: SetState, t: SetState)
  {
    && s.gen <= t.gen && t.pendNum <= s.pendNum
    && (t.cfg, t.epoch, t.key) == (s.cfg, s.epoch, s.key)
    && (t.gen == s.gen ==> SameView(s, t))
  }

  lemma SameUnlessReflexive(s: SetState)
    ensures SameUnlessAborted(s, s)
  {}

  lemma SameUnlessTransitive(s: SetState, t: SetState, u: SetState)
    requires SameUnlessAborted(s, t) && SameUnlessAborted(t, u)
    ensures SameUnlessAborted(s, u)
  {
    hide View;
  }

  lemma NumbersLeft(s: SetState, t: SetState)
    requires SameUnlessAborted(s, t)
    ensures t.pendNum <= s.pendNum
  {}

  lemma CommitterStep(a: Sys, b: Sys, step: Step)
    requires Inv(a) && Next(a, b, step) && (step.DoCommit? || step.DoDrop? || step.DoFail?)
    ensures SameUnlessAborted(a.s, b.s)
  {
    if step.DoFail? {
      hide Inv, View;
      PlannedAhead(a);
    } else {
      hide Inv, Next, View;
      QuietStep(a, b, step);
    }
  }

  lemma PlannedAhead(a: Sys)
    requires Inv(a)
    ensures a.s.num <= a.s.pendNum
  {
    hide Chain, XorOf, ViewCounted, Overlay;
  }

  // The states lie between two states of the set, in order of time.
  ghost predicate AllBetween(s: SetState, states: seq<SetState>, t: SetState)
  {
    forall i :: 0 <= i < |states| ==> (SameUnlessAborted(s, states[i]) && SameUnlessAborted(states[i], t))
  }

  lemma NoneBetween(s: SetState, t: SetState)
    ensures AllBetween(s, [], t)
  {}

  lemma BetweenLater(s: SetState, states: seq<SetState>, t: SetState, u: SetState)
    requires AllBetween(s, states, t) && SameUnlessAborted(t, u) && SameUnlessAborted(s, u)
    ensures AllBetween(s, states, u) && AllBetween(s, states + [u], u)
  {
    hide SameUnlessAborted;
    SameUnlessReflexive(u);
    forall i | 0 <= i < |states|
      ensures SameUnlessAborted(states[i], u)
    {
      SameUnlessTransitive(states[i], t, u);
    }
  }

  ghost predicate AllSameView(s: SetState, states: seq<SetState>)
  {
    forall i :: 0 <= i < |states| ==> SameView(s, states[i])
  }

  // Without an Abort all of them show what the last one shows.
  lemma BetweenIsSame(s: SetState, states: seq<SetState>, t: SetState)
    requires AllBetween(s, states, t) && SameUnlessAborted(s, t) && s.gen == t.gen
    ensures AllSameView(t, states) && s.pendSize == t.pendSize
  {
    hide View;
  }

  lemma AllOrNothing(s: SetState, states: seq<SetState>, t: SetState, now: int, jobs: seq<Job>, results: seq<JobResult>, p: Plan)
    requires AllBetween(s, states, t) && SameUnlessAborted(s, t) && s.gen == t.gen && ViewCounted(t)
    requires PlannedFrom(states, s.pendSize, t, now, jobs, results, p)
    ensures PlannedAt(states, t, now, jobs, results, p)
  {
    hide AllBetween, SameUnlessAborted, ViewCounted, SameView, PlanDraft, Roomy, AdmitJob, Admit, View;
    BetweenIsSame(s, states, t);
    SameViewReflexive(t);
    AdmittedIsPlanned(t, states, t, now, jobs);
    NoneFull(jobs, Admit(states, t.pendSize, now, jobs).results, p);
  }

  // The batch of a call to plan.
  function Carry(jobs: seq<Job>, results: seq<JobResult>, p: Plan, pkg: Bytes): Batch
    requires |jobs| == |results|
  {
    Batch(p, Jobs(Carried(jobs, results)), Results(Carried(jobs, results)), pkg)
  }

  // What plan computed: states[i] is the set when job i was looked at, at the set when Plan
  // ran, size what it had read before.
  ghost predicate PlannedFrom(states: seq<SetState>, size: int, at: SetState, now: int, jobs: seq<Job>,
                              results: seq<JobResult>, p: Plan)
  {
    && |states| == |jobs|
    && var adm := Admit(states, size, now, jobs);
       && p == (if adm.deltas == [] then NO_PLAN else PlanOf(at, adm.deltas))
       && results == AfterPlanning(jobs, adm.results, p)
  }

  // All or nothing: no record of an accepted job was rejected.
  ghost predicate PlannedAt(states: seq<SetState>, at: SetState, now: int, jobs: seq<Job>, results: seq<JobResult>, p: Plan)
  {
    && |states| == |jobs| && AllSameView(at, states) && ViewCounted(at)
    && var adm := Admit(states, at.pendSize, now, jobs);
       && Roomy(at.cfg, View(at.entries, at.pend).Keys, adm.deltas)
       && p == (if adm.deltas == [] then NO_PLAN else PlanOf(at, adm.deltas))
       && p.rejected == []
       && results == Numbered(adm.results, p.num)
  }

  function RefusedReplies(jobs: seq<Job>, results: seq<JobResult>, epoch: u64): seq<Answer>
    requires |jobs| == |results|
  {
    Replies(Jobs(Refused(jobs, results)), Results(Refused(jobs, results)), epoch)
  }

  function RejectedValues(p: Plan): set<Text>
  {
    set i | 0 <= i < |p.rejected| :: p.rejected[i].value
  }

  function Numbering(j: Job, p: Plan): JobResult
  {
    if |j.recs| == 1 && j.recs[0].value in RejectedValues(p) then JobResult(Full, 0) else JobResult(Granted, p.num)
  }

  // The results after planning, as plan's second loop leaves them.
  function AfterPlanning(jobs: seq<Job>, results: seq<JobResult>, p: Plan): (r: seq<JobResult>)
    requires |jobs| == |results|
    ensures |r| == |results|
  {
    seq(|results|, i requires 0 <= i < |results| =>
      if results[i].code == Granted then Numbering(jobs[i], p) else results[i])
  }

  // Without rejections no job turns full after all.
  lemma NoneFull(jobs: seq<Job>, results: seq<JobResult>, p: Plan)
    requires |jobs| == |results| && p.rejected == []
    ensures AfterPlanning(jobs, results, p) == Numbered(results, p.num)
  {}

  // What each job's result is after planning: a refusal stays, a grant gets the plan's number,
  // and a lone record that Plan rejected makes its job full after all.
  lemma PlannedResults(states: seq<SetState>, size: int, at: SetState, now: int, jobs: seq<Job>, results: seq<JobResult>,
                       p: Plan, i: nat)
    requires PlannedFrom(states, size, at, now, jobs, results, p) && i < |jobs|
    ensures var before, rejected := Admit(states, size, now, jobs).results[i], set k | 0 <= k < |p.rejected| :: p.rejected[k].value;
            && (before.code != Granted ==> results[i].code == before.code)
            && (before.code == Granted ==>
                  if |jobs[i].recs| == 1 && jobs[i].recs[0].value in rejected then results[i].code == Full
                  else results[i].code == Granted && results[i].num == p.num)
  {
    hide Admit, PlanOf;
  }

  lemma {:induction false} NobodyGranted(states: seq<SetState>, size: int, now: int, jobs: seq<Job>)
    requires |states| == |jobs| && Admit(states, size, now, jobs).deltas == []
    ensures Numbered(Admit(states, size, now, jobs).results, 0) == Admit(states, size, now, jobs).results
  {
    var results := Admit(states, size, now, jobs).results;
    forall i | 0 <= i < |jobs|
      ensures results[i].code != Granted
    {
      if results[i].code == Granted {
        GrantedHasRecords(states, size, now, jobs, i);
        GrantedAreDeltas(states, size, now, jobs, i, 0);
      }
    }
  }

  lemma NobodyPlanned(states: seq<SetState>, size: int, now: int, jobs: seq<Job>)
    requires |states| == |jobs| && Admit(states, size, now, jobs).deltas == []
    ensures AfterPlanning(jobs, Admit(states, size, now, jobs).results, NO_PLAN) == Admit(states, size, now, jobs).results
  {
    hide Admit;
    NobodyGranted(states, size, now, jobs);
    NoneFull(jobs, Admit(states, size, now, jobs).results, NO_PLAN);
  }

  lemma {:induction false} GrantedHasRecords(states: seq<SetState>, size: int, now: int, jobs: seq<Job>, i: nat)
    requires |states| == |jobs| && i < |jobs| && Admit(states, size, now, jobs).results[i].code == Granted
    ensures jobs[i].recs != []
  {
    hide FreshCount, ValuesOf, AsSet, DeltasOf;
    var n := |jobs| - 1;
    var before, adm := Admit(states[..n], size, now, jobs[..n]), Admit(states, size, now, jobs);
    assert adm.results[..n] == before.results;
    if i < n {
      assert adm.results[i] == before.results[i];
      GrantedHasRecords(states[..n], size, now, jobs[..n], i);
    }
  }

  lemma NothingPlanned(s: SetState)
    ensures PlanOf(s, []).deltas == [] && AfterPlan(s, []) == s
  {}

  lemma PlannedStep(a: Sys, b: Sys, deltas: seq<Delta>)
    requires b.s == AfterPlan(a.s, deltas) && (a.base, a.baseNum, a.log) == (b.base, b.baseNum, b.log)
    requires var p := PlanOf(a.s, deltas); b.queue == if p.deltas == [] then a.queue else a.queue + [p]
    ensures Next(a, b, DoPlan(deltas))
  {
    hide AfterPlan, PlanOf;
  }

  // The zero Plan, when there was nothing to plan.
  const NO_PLAN := Plan([], [], 0, 0, 0)

  lemma RepliesSnoc(pairs: seq<(Job, JobResult)>, q: (Job, JobResult), epoch: u64)
    ensures Replies(Jobs(pairs + [q]), Results(pairs + [q]), epoch)
         == Replies(Jobs(pairs), Results(pairs), epoch) + Reply(q.0, q.1, epoch)
  {
    JobsSnoc(pairs, q);
    var js, rs := Jobs(pairs + [q]), Results(pairs + [q]);
    assert js[..|pairs|] == Jobs(pairs) && rs[..|pairs|] == Results(pairs);
  }

  lemma SameViewReflexive(s: SetState)
    ensures SameView(s, s)
  {}
}
