// Admission of jobs by the planner (internal/keeper/keeper.go, plan): all of a job's
// records or none, against a running bound on the size of the set.
module Admission {
  import opened Types
  import opened SetModel
  import opened SetLaws
  import opened Pipeline

  // deadline None: no deadline. replies: there is a channel to answer on.
  datatype Job = Job(id: nat, op: Op, recs: seq<Record>, deadline: Option<int>, replies: bool)

  datatype Code = Granted | Stale | BadRequest | Full | Unavailable

  datatype JobResult = JobResult(code: Code, num: nat)

  // The local variables of plan's first loop.
  datatype Admitted = Admitted(results: seq<JobResult>, deltas: seq<Delta>, accepted: seq<nat>,
                               seen: set<Text>, size: int)

  function ValuesOf(recs: seq<Record>): (r: seq<Text>)
    ensures |r| == |recs|
  {
    seq(|recs|, i requires 0 <= i < |recs| => recs[i].value)
  }

  function DeltasOf(j: Job): (r: seq<Delta>)
    ensures |r| == |j.recs|
  {
    seq(|j.recs|, i requires 0 <= i < |j.recs| => Delta(j.op, j.recs[i], 0))
  }

  predicate IsStale(j: Job, now: int)
  {
    j.deadline.Some? && now > j.deadline.value
  }

  function Refuse(adm: Admitted, code: Code): Admitted
  {
    adm.(results := adm.results + [JobResult(code, 0)])
  }

  function Accept(adm: Admitted, j: Job): Admitted
  {
    adm.(results := adm.results + [JobResult(Granted, 0)], deltas := adm.deltas + DeltasOf(j),
         accepted := adm.accepted + [|adm.results|])
  }

  // s is the set as Fresh sees it for this job.
  function AdmitJob(s: SetState, now: int, adm: Admitted, j: Job): Admitted
  {
    if IsStale(j, now) then Refuse(adm, Stale)
    else if j.recs == [] then Refuse(adm, BadRequest)
    else if j.op == Add && s.cfg.limit > 0 then
      var values := ValuesOf(j.recs);
      var fresh' := FreshCount(s, values, adm.seen);
      if adm.size + fresh' > s.cfg.limit then Refuse(adm, Full)
      else Accept(adm.(seen := adm.seen + AsSet(values), size := adm.size + fresh'), j)
    else Accept(adm, j)
  }

  // states[i] is the set when job i is looked at: commits may have happened in between.
  function Admit(states: seq<SetState>, size: int, now: int, jobs: seq<Job>): (adm: Admitted)
    requires |states| == |jobs|
    ensures |adm.results| == |jobs|
  {
    if jobs == [] then Admitted([], [], [], {}, size)
    else
      var n := |jobs| - 1;
      AdmitJob(states[n], now, Admit(states[..n], size, now, jobs[..n]), jobs[n])
  }

  // ---------- the bound ----------

  function AddValues(deltas: seq<Delta>): set<Text>
  {
    set i | 0 <= i < |deltas| && deltas[i].op == Add :: deltas[i].rec.value
  }

  // Adding every value asked for, and crediting no removal, stays within the limit.
  predicate Roomy(c: Config, keys: set<Text>, deltas: seq<Delta>)
  {
    c.limit <= 0 || AddValues(deltas) == {} || |keys + AddValues(deltas)| <= c.limit
  }

  lemma AddValuesSnoc(deltas: seq<Delta>, d: Delta)
    ensures AddValues(deltas + [d]) == AddValues(deltas) + if d.op == Add then {d.rec.value} else {}
  {
    var all := deltas + [d];
    assert forall i :: 0 <= i < |deltas| ==> all[i] == deltas[i];
    assert all[|deltas|] == d;
  }

  lemma AddValuesConcat(a: seq<Delta>, b: seq<Delta>)
    ensures AddValues(a + b) == AddValues(a) + AddValues(b)
  {
    var all := a + b;
    assert forall i :: 0 <= i < |a| ==> all[i] == a[i];
    assert forall i :: 0 <= i < |b| ==> all[|a| + i] == b[i];
  }

  lemma RequestKeys(c: Config, key: Key, e: Entries, d: Delta)
    ensures Request(c, key, e, d).Keys <= e.Keys + if d.op == Add then {d.rec.value} else {}
  {
    hide HashOf;
  }

  lemma {:induction false} RequestsKeys(c: Config, key: Key, e: Entries, deltas: seq<Delta>)
    ensures Requests(c, key, e, deltas).Keys <= e.Keys + AddValues(deltas)
  {
    hide Request, AddValues;
    if deltas != [] {
      var before, d := deltas[..|deltas| - 1], deltas[|deltas| - 1];
      RequestsKeys(c, key, e, before);
      RequestKeys(c, key, Requests(c, key, e, before), d);
      AddValuesSnoc(before, d);
      assert before + [d] == deltas;
    }
  }

  lemma RoomForRequest(c: Config, key: Key, e: Entries, before: seq<Delta>, d: Delta, all: seq<Delta>)
    requires Roomy(c, e.Keys, all) && before + [d] <= all
    ensures var now := Requests(c, key, e, before);
            d.op == Add && d.rec.value !in now && c.limit > 0 ==> |now| < c.limit
  {
    hide AddValues, Requests;
    var now := Requests(c, key, e, before);
    if d.op == Add && d.rec.value !in now && c.limit > 0 {
      RequestsKeys(c, key, e, before);
      AddValuesSnoc(before, d);
      AddValuesConcat(before + [d], all[|before| + 1..]);
      assert all == before + [d] + all[|before| + 1..];
      assert d.rec.value in AddValues(all);
      SmallerSet(now.Keys + {d.rec.value}, e.Keys + AddValues(all));
      assert |now.Keys + {d.rec.value}| == |now| + 1;
    }
  }

  // With room for all, Plan refuses nothing, whatever the mix of adds and removes.
  lemma {:induction false} RoomyRefusesNothing(s: SetState, deltas: seq<Delta>, all: seq<Delta>)
    requires ViewCounted(s) && Roomy(s.cfg, View(s.entries, s.pend).Keys, all)
    requires deltas <= all
    ensures PlanDraft(s, deltas).rejected == []
  {
    hide View, XorOf, Xor, HashOf, DraftFits, Requests, Roomy;
    if deltas != [] {
      var before, d := deltas[..|deltas| - 1], deltas[|deltas| - 1];
      RoomyRefusesNothing(s, before, all);
      PlanDraftMeaning(s, before);
      RoomForOne(s, before, d, all);
    }
  }

  lemma RoomForOne(s: SetState, before: seq<Delta>, d: Delta, all: seq<Delta>)
    requires ViewCounted(s) && Roomy(s.cfg, View(s.entries, s.pend).Keys, all)
    requires before + [d] <= all
    ensures PlanStep(s, PlanDraft(s, before), d).rejected == PlanDraft(s, before).rejected
  {
    hide View, XorOf, Xor, HashOf, Requests, PlanDraft, OverOf, Fits, Roomy, Find, SameContent, Replay;
    var view, dr := View(s.entries, s.pend), PlanDraft(s, before);
    PlanDraftMeaning(s, before);
    ReplayIsView(view, dr.applied, 0);
    FindIsView(s, dr.over, d.rec.value);
    RoomForRequest(s.cfg, s.key, view, before, d, all);
  }

  // ---------- exactly what Plan rejects ----------

  // Request i asks for a new value when the set, as the requests before it leave it, is full.
  predicate Rejects(c: Config, key: Key, e: Entries, deltas: seq<Delta>, i: nat)
    requires i < |deltas|
  {
    var now := Requests(c, key, e, deltas[..i]);
    deltas[i].op == Add && c.limit > 0 && deltas[i].rec.value !in now && |now| >= c.limit
  }

  function RejectedOf(c: Config, key: Key, e: Entries, deltas: seq<Delta>): seq<Record>
  {
    if deltas == [] then [] else
      var n := |deltas| - 1;
      RejectedOf(c, key, e, deltas[..n]) + if Rejects(c, key, e, deltas, n) then [deltas[n].rec] else []
  }

  lemma StepRejects(s: SetState, before: seq<Delta>, d: Delta)
    requires ViewCounted(s)
    ensures var view, dr := View(s.entries, s.pend), PlanDraft(s, before);
            PlanStep(s, dr, d).rejected
              == dr.rejected + if Rejects(s.cfg, s.key, view, before + [d], |before|) then [d.rec] else []
  {
    hide View, XorOf, Xor, HashOf, Requests, PlanDraft, OverOf, Fits, Find, SameContent, Replay;
    var view, dr := View(s.entries, s.pend), PlanDraft(s, before);
    PlanDraftMeaning(s, before);
    ReplayIsView(view, dr.applied, 0);
    FindIsView(s, dr.over, d.rec.value);
    assert (before + [d])[..|before|] == before;
  }

  // Plan rejects those records and no others, in whatever state it runs.
  lemma {:induction false} RejectedExactly(s: SetState, deltas: seq<Delta>)
    requires ViewCounted(s)
    ensures PlanDraft(s, deltas).rejected == RejectedOf(s.cfg, s.key, View(s.entries, s.pend), deltas)
  {
    hide View, XorOf, PlanStep, Rejects;
    if deltas != [] {
      var n := |deltas| - 1;
      RejectedExactly(s, deltas[..n]);
      StepRejects(s, deltas[..n], deltas[n]);
      assert deltas[..n] + [deltas[n]] == deltas;
    }
  }

  // Nothing of a stretch of the requests is rejected.
  predicate NoneRejected(c: Config, key: Key, e: Entries, deltas: seq<Delta>, from: nat, end: nat)
    requires from <= end <= |deltas|
  {
    forall i :: from <= i < end ==> !Rejects(c, key, e, deltas, i)
  }

  lemma RejectsInPrefix(c: Config, key: Key, e: Entries, deltas: seq<Delta>, i: nat, n: nat)
    requires i < n <= |deltas|
    ensures Rejects(c, key, e, deltas[..n], i) <==> Rejects(c, key, e, deltas, i)
  {
    hide Requests;
    assert deltas[..n][..i] == deltas[..i];
  }

  lemma {:induction false} StretchWhole(c: Config, key: Key, e: Entries, deltas: seq<Delta>, from: nat, end: nat)
    requires from <= end <= |deltas|
    ensures RejectedOf(c, key, e, deltas[..from]) <= RejectedOf(c, key, e, deltas[..end])
    ensures RejectedOf(c, key, e, deltas[..end]) == RejectedOf(c, key, e, deltas[..from])
       <==> NoneRejected(c, key, e, deltas, from, end)
    decreases end
  {
    hide Rejects;
    if from < end {
      StretchWhole(c, key, e, deltas, from, end - 1);
      assert deltas[..end][..end - 1] == deltas[..end - 1];
      RejectsInPrefix(c, key, e, deltas, end - 1, end);
    }
  }

  lemma AdmittedGrows(states: seq<SetState>, size: int, now: int, jobs: seq<Job>, i: nat)
    requires |states| == |jobs| && i <= |jobs|
    ensures Admit(states[..i], size, now, jobs[..i]).deltas <= Admit(states, size, now, jobs).deltas
    ensures Admit(states[..i], size, now, jobs[..i]).results <= Admit(states, size, now, jobs).results
    decreases |jobs| - i
  {
    hide FreshCount, ValuesOf, AsSet, DeltasOf, AdmitJob;
    if i < |jobs| {
      AdmittedGrows(states, size, now, jobs, i + 1);
      assert states[..i + 1][..i] == states[..i] && jobs[..i + 1][..i] == jobs[..i];
      AdmitJobGrows(states[i], now, Admit(states[..i], size, now, jobs[..i]), jobs[i]);
    } else {
      assert states[..i] == states && jobs[..i] == jobs;
    }
  }

  lemma AdmitJobGrows(s: SetState, now: int, adm: Admitted, j: Job)
    ensures var adm' := AdmitJob(s, now, adm, j);
            && adm.deltas <= adm'.deltas && adm.results <= adm'.results && |adm'.results| == |adm.results| + 1
            && (adm'.results[|adm.results|].code == Granted ==> adm'.deltas == adm.deltas + DeltasOf(j))
  {
    hide FreshCount, ValuesOf, AsSet, DeltasOf;
  }

  // Where the records of job i stand among the deltas planned.
  function FirstDelta(states: seq<SetState>, size: int, now: int, jobs: seq<Job>, i: nat): nat
    requires |states| == |jobs| && i < |jobs|
  {
    |Admit(states[..i], size, now, jobs[..i]).deltas|
  }

  lemma JobDeltas(states: seq<SetState>, size: int, now: int, jobs: seq<Job>, i: nat)
    requires |states| == |jobs| && i < |jobs| && Admit(states, size, now, jobs).results[i].code == Granted
    ensures var deltas, from := Admit(states, size, now, jobs).deltas, FirstDelta(states, size, now, jobs, i);
            from + |jobs[i].recs| <= |deltas| && deltas[from..from + |jobs[i].recs|] == DeltasOf(jobs[i])
  {
    hide AdmitJob, DeltasOf;
    AdmittedGrows(states, size, now, jobs, i + 1);
    var before, after, all := Admit(states[..i], size, now, jobs[..i]), Admit(states[..i + 1], size, now, jobs[..i + 1]),
                              Admit(states, size, now, jobs);
    assert states[..i + 1][..i] == states[..i] && jobs[..i + 1][..i] == jobs[..i];
    AdmitJobGrows(states[i], now, before, jobs[i]);
    assert all.results[i] == after.results[i];
    assert all.deltas[..|after.deltas|] == after.deltas;
  }

  // Whatever happened since its jobs were admitted, an Abort included: in the state t where
  // Plan runs, an accepted job is planned whole if and only if none of its records asks for a
  // new value when the set is full.
  lemma JobWholeExactly(t: SetState, states: seq<SetState>, size: int, now: int, jobs: seq<Job>, i: nat)
    requires |states| == |jobs| && i < |jobs| && Admit(states, size, now, jobs).results[i].code == Granted
    requires ViewCounted(t)
    ensures var deltas, from := Admit(states, size, now, jobs).deltas, FirstDelta(states, size, now, jobs, i);
            var end := from + |jobs[i].recs|;
            && end <= |deltas|
            && (PlanDraft(t, deltas[..end]).rejected == PlanDraft(t, deltas[..from]).rejected
                <==> NoneRejected(t.cfg, t.key, View(t.entries, t.pend), deltas, from, end))
  {
    hide View, Admit, PlanDraft, RejectedOf, NoneRejected, XorOf, DeltasOf;
    JobDeltas(states, size, now, jobs, i);
    var deltas, from := Admit(states, size, now, jobs).deltas, FirstDelta(states, size, now, jobs, i);
    var end := from + |jobs[i].recs|;
    RejectedExactly(t, deltas[..end]);
    RejectedExactly(t, deltas[..from]);
    StretchWhole(t.cfg, t.key, View(t.entries, t.pend), deltas, from, end);
  }

  // ---------- what the running bound counts ----------

  lemma {:induction false} FreshCounts(s: SetState, values: seq<Text>, seen: set<Text>)
    ensures var keys := View(s.entries, s.pend).Keys;
            |keys + seen + AsSet(values)| <= |keys + seen| + FreshCount(s, values, seen)
  {
    hide View, Lookup, AsSet, FreshCount;
    var keys := View(s.entries, s.pend).Keys;
    if values == [] {
      AsSetEmpty();
      assert keys + seen + AsSet(values) == keys + seen;
    } else {
      var before, v := values[..|values| - 1], values[|values| - 1];
      FreshCounts(s, before, seen);
      assert before + [v] == values;
      AsSetSnoc(before, v);
      LookupIsView(s, v);
      FreshNext(s, values, seen);
      OneMoreValue(keys + seen, AsSet(before), v);
    }
  }

  lemma FreshNext(s: SetState, values: seq<Text>, seen: set<Text>)
    requires values != []
    ensures var v := values[|values| - 1];
            FreshCount(s, values, seen)
              == FreshCount(s, values[..|values| - 1], seen) + if v in seen || Lookup(s, v).1 then 0 else 1
  {
    hide Lookup;
  }

  lemma OneMoreValue<T>(a: set<T>, b: set<T>, x: T)
    ensures |a + (b + {x})| <= |a + b| + if x in a then 0 else 1
  {
    OneMore(a + b, x);
    assert a + (b + {x}) == (a + b) + {x};
  }

  lemma OneMore<T>(a: set<T>, x: T)
    ensures |a + {x}| == if x in a then |a| else |a| + 1
  {
    if x in a {
      assert a + {x} == a;
    }
  }

  lemma LookupIsView(s: SetState, v: Text)
    ensures Lookup(s, v).1 <==> v in View(s.entries, s.pend)
  {}

  // Two states of the set a planner cannot tell apart by size or membership.
  ghost predicate SameView(s: SetState, t: SetState)
  {
    && View(s.entries, s.pend) == View(t.entries, t.pend)
    && (s.cfg, s.epoch, s.key, s.pendNum, s.pendHash, s.pendSize, s.gen)
       == (t.cfg, t.epoch, t.key, t.pendNum, t.pendHash, t.pendSize, t.gen)
  }

  // The bookkeeping after some jobs, relative to the keys the planner started from.
  ghost predicate Bounded(s: SetState, adm: Admitted)
  {
    var keys := View(s.entries, s.pend).Keys;
    s.cfg.limit > 0 ==>
      && adm.seen == AddValues(adm.deltas)
      && |keys + adm.seen| <= adm.size
      && (adm.seen != {} ==> adm.size <= s.cfg.limit)
  }

  lemma JobValues(j: Job)
    ensures AddValues(DeltasOf(j)) == if j.op == Add then AsSet(ValuesOf(j.recs)) else {}
  {
    var d, v := DeltasOf(j), ValuesOf(j.recs);
    assert forall i :: 0 <= i < |d| ==> d[i].rec.value == v[i];
  }

  lemma CountedBounded(s: SetState, t: SetState, adm: Admitted, j: Job)
    requires SameView(s, t) && Bounded(s, adm) && j.op == Add && s.cfg.limit > 0
    requires adm.size + FreshCount(t, ValuesOf(j.recs), adm.seen) <= s.cfg.limit
    ensures var values := ValuesOf(j.recs);
            Bounded(s, Accept(adm.(seen := adm.seen + AsSet(values),
                                   size := adm.size + FreshCount(t, values, adm.seen)), j))
  {
    hide View, FreshCount, AddValues, AsSet, ValuesOf, DeltasOf;
    JobValues(j);
    AddValuesConcat(adm.deltas, DeltasOf(j));
    FreshCounts(t, ValuesOf(j.recs), adm.seen);
    var keys, more := View(s.entries, s.pend).Keys, AsSet(ValuesOf(j.recs));
    assert keys + adm.seen + more == keys + (adm.seen + more);
  }

  lemma UncountedBounded(s: SetState, adm: Admitted, j: Job)
    requires Bounded(s, adm) && (j.op == Remove || s.cfg.limit <= 0)
    ensures Bounded(s, Accept(adm, j))
  {
    hide View, AddValues, AsSet, ValuesOf, DeltasOf;
    JobValues(j);
    AddValuesConcat(adm.deltas, DeltasOf(j));
  }

  lemma RefusedBounded(s: SetState, adm: Admitted, code: Code)
    requires Bounded(s, adm)
    ensures Bounded(s, Refuse(adm, code))
  {}

  lemma AdmitJobBounded(s: SetState, t: SetState, now: int, adm: Admitted, j: Job)
    requires SameView(s, t) && Bounded(s, adm)
    ensures Bounded(s, AdmitJob(t, now, adm, j))
  {
    hide View, FreshCount, AsSet, ValuesOf, DeltasOf, Accept, Refuse, Bounded;
    RefusedBounded(s, adm, Stale);
    RefusedBounded(s, adm, BadRequest);
    RefusedBounded(s, adm, Full);
    if j.op == Remove || s.cfg.limit <= 0 {
      UncountedBounded(s, adm, j);
    } else if adm.size + FreshCount(t, ValuesOf(j.recs), adm.seen) <= s.cfg.limit {
      CountedBounded(s, t, adm, j);
    }
  }

  lemma {:induction false} AdmitBounded(s: SetState, states: seq<SetState>, now: int, jobs: seq<Job>)
    requires |states| == |jobs| && ViewCounted(s)
    requires forall i :: 0 <= i < |states| ==> SameView(s, states[i])
    ensures Bounded(s, Admit(states, s.pendSize, now, jobs))
  {
    hide SameView, AdmitJob, View, XorOf;
    if jobs == [] {
      var keys := View(s.entries, s.pend).Keys;
      assert keys + {} == keys;
    } else {
      var n := |jobs| - 1;
      AdmitBounded(s, states[..n], now, jobs[..n]);
      AdmitJobBounded(s, states[n], now, Admit(states[..n], s.pendSize, now, jobs[..n]), jobs[n]);
    }
  }

  // All or nothing: whatever jobs were admitted, whatever commits ran meanwhile, planning
  // their deltas in a state with the same view rejects no record.
  lemma AdmittedIsPlanned(s: SetState, states: seq<SetState>, t: SetState, now: int, jobs: seq<Job>)
    requires |states| == |jobs| && ViewCounted(s) && ViewCounted(t)
    requires forall i :: 0 <= i < |states| ==> SameView(s, states[i])
    requires SameView(s, t)
    ensures var adm := Admit(states, s.pendSize, now, jobs);
            Roomy(t.cfg, View(t.entries, t.pend).Keys, adm.deltas) && PlanOf(t, adm.deltas).rejected == []
  {
    hide View, Admit, PlanDraft, AddValues, XorOf;
    AdmitBounded(s, states, now, jobs);
    var adm := Admit(states, s.pendSize, now, jobs);
    RoomyRefusesNothing(t, adm.deltas, adm.deltas);
  }

  // ---------- which steps of the pipeline keep the view ----------

  // Everything the committer does short of an Abort, and the sweep's look at the index.
  lemma QuietStepKeepsView(a: Sys, b: Sys, step: Step, k: nat)
    requires InvAt(a, k) && Next(a, b, step) && !step.DoPlan? && !step.DoFail?
    ensures SameView(a.s, b.s)
  {
    hide SetInv, Chain, View, ReplayHash, ReplayExp, DropOwn, Replay;
    if step.DoCommit? {
      assert a.queue[0..] == a.queue;
      CommitMatchesPlan(a.s, a.queue);
    }
  }

  // ---------- what a granted job gets ----------

  // With room for all, the last request for a value decides it: an add is there as asked,
  // a removed value is gone.
  lemma {:induction false} LastRequestWins(c: Config, key: Key, e: Entries, deltas: seq<Delta>, all: seq<Delta>, i: nat)
    requires Roomy(c, e.Keys, all) && deltas <= all && i < |deltas|
    requires forall j :: i < j < |deltas| ==> deltas[j].rec.value != deltas[i].rec.value
    ensures Fulfils(Requests(c, key, e, deltas), deltas[i])
  {
    hide Request, Roomy, Fulfils;
    var n := |deltas| - 1;
    var before, d := deltas[..n], deltas[n];
    var now := Requests(c, key, e, before);
    if i < n {
      LastRequestWins(c, key, e, before, all, i);
      OtherRequest(c, key, now, d, deltas[i]);
    } else {
      RoomForRequest(c, key, e, before, d, all);
      OwnRequest(c, key, now, d);
    }
  }

  // The entries are as a request wants its value to be.
  predicate Fulfils(e: Entries, d: Delta)
  {
    var v := d.rec.value;
    if d.op == Add then v in e && SameContent(e[v], d.rec) else v !in e
  }

  lemma OtherRequest(c: Config, key: Key, e: Entries, d: Delta, d': Delta)
    requires d.rec.value != d'.rec.value && Fulfils(e, d')
    ensures Fulfils(Request(c, key, e, d), d')
  {
    hide HashOf;
  }

  lemma OwnRequest(c: Config, key: Key, e: Entries, d: Delta)
    requires d.op == Add && d.rec.value !in e && c.limit > 0 ==> |e| < c.limit
    ensures Fulfils(Request(c, key, e, d), d)
  {
    hide HashOf;
  }

  // A request that changes nothing: an add already committed as asked and touched by no plan
  // in flight, or the removal of a value the view does not show.
  predicate AlreadyDone(s: SetState, d: Delta)
  {
    var r := d.rec;
    if d.op == Add then r.value in s.entries && SameContent(s.entries[r.value], r) && r.value !in s.pend
    else r.value !in View(s.entries, s.pend)
  }

  lemma AddWithoutDelta(s: SetState, dr: Draft, d: Delta)
    requires dr.over == map[] && dr.applied == [] && dr.rejected == [] && d.op == Add
    ensures var dr' := PlanStep(s, dr, d);
            (dr'.applied == [] && dr'.rejected == []) ==> (dr'.over == map[] && AlreadyDone(s, d))
    ensures AlreadyDone(s, d) ==> PlanStep(s, dr, d) == dr
  {
    hide HashOf, Xor, View, SameContent;
  }

  lemma RemoveWithoutDelta(s: SetState, dr: Draft, d: Delta)
    requires dr.over == map[] && dr.applied == [] && dr.rejected == [] && d.op == Remove
    ensures var dr' := PlanStep(s, dr, d);
            (dr'.applied == [] && dr'.rejected == []) ==> (dr'.over == map[] && AlreadyDone(s, d))
    ensures AlreadyDone(s, d) ==> PlanStep(s, dr, d) == dr
  {
    hide HashOf, Xor, View, SameContent, Lookup;
    LookupIsView(s, d.rec.value);
  }

  lemma StepWithoutDelta(s: SetState, dr: Draft, d: Delta)
    requires dr.over == map[] && dr.applied == [] && dr.rejected == []
    ensures var dr' := PlanStep(s, dr, d);
            (dr'.applied == [] && dr'.rejected == []) ==> (dr'.over == map[] && AlreadyDone(s, d))
    ensures AlreadyDone(s, d) ==> PlanStep(s, dr, d) == dr
  {
    hide PlanStep, AlreadyDone;
    if d.op == Add {
      AddWithoutDelta(s, dr, d);
    } else {
      RemoveWithoutDelta(s, dr, d);
    }
  }

  lemma StepOnlyGrows(s: SetState, dr: Draft, d: Delta)
    requires PlanStep(s, dr, d).applied == [] && PlanStep(s, dr, d).rejected == []
    ensures dr.applied == [] && dr.rejected == []
  {
    hide HashOf, Xor, Find, SameContent;
  }

  // Planning some deltas yields none, and rejects none, exactly when each is already done.
  lemma {:induction false} NoDeltasExactly(s: SetState, deltas: seq<Delta>)
    ensures var dr := PlanDraft(s, deltas);
            (dr.applied == [] && dr.rejected == []) <==> forall i :: 0 <= i < |deltas| ==> AlreadyDone(s, deltas[i])
    ensures var dr := PlanDraft(s, deltas);
            (dr.applied == [] && dr.rejected == []) ==> dr == Draft(map[], s.pendSize, s.pendHash, [], [])
  {
    hide PlanStep, AlreadyDone;
    if deltas != [] {
      var n := |deltas| - 1;
      var before, dr := deltas[..n], PlanDraft(s, deltas[..n]);
      NoDeltasExactly(s, before);
      if PlanStep(s, dr, deltas[n]).applied == [] && PlanStep(s, dr, deltas[n]).rejected == [] {
        StepOnlyGrows(s, dr, deltas[n]);
      }
      if dr.applied == [] && dr.rejected == [] {
        StepWithoutDelta(s, dr, deltas[n]);
      }
      assert forall i :: 0 <= i < n ==> deltas[i] == before[i];
      if forall i :: 0 <= i < |deltas| ==> AlreadyDone(s, deltas[i]) {
        assert AlreadyDone(s, deltas[n]);
      }
    }
  }

  // Some request is about the value.
  predicate Asked(deltas: seq<Delta>, v: Text)
  {
    exists i :: 0 <= i < |deltas| && deltas[i].rec.value == v
  }

  lemma AskedLonger(before: seq<Delta>, d: Delta, v: Text)
    ensures Asked(before + [d], v) <==> Asked(before, v) || d.rec.value == v
  {
    var deltas := before + [d];
    assert deltas[|before|] == d;
    if Asked(before, v) {
      var i :| 0 <= i < |before| && before[i].rec.value == v;
      assert deltas[i].rec.value == v;
    }
  }

  // A value that a plan in flight adds is drafted as soon as it is asked for.
  lemma {:induction false} FlightIsDrafted(s: SetState, deltas: seq<Delta>, v: Text)
    requires v in s.pend && s.pend[v].present
    ensures v in PlanDraft(s, deltas).over <==> Asked(deltas, v)
  {
    hide HashOf, Xor, SameContent;
    if deltas != [] {
      hide Asked;
      var n := |deltas| - 1;
      assert deltas[..n] + [deltas[n]] == deltas;
      AskedLonger(deltas[..n], deltas[n], v);
      FlightIsDrafted(s, deltas[..n], v);
    }
  }

  // An add of a value that a plan in flight adds, asked for here for the first time.
  predicate AddedInFlight(s: SetState, before: seq<Delta>, d: Delta)
  {
    var v := d.rec.value;
    d.op == Add && v in s.pend && s.pend[v].present && !Asked(before, v)
  }

  lemma RequestChanges(c: Config, key: Key, e: Entries, d: Delta)
    ensures var v := d.rec.value;
            Request(c, key, e, d) != e <==>
            if d.op == Remove then v in e
            else if v in e then !SameContent(e[v], d.rec)
            else c.limit <= 0 || |e| < c.limit
  {
    hide HashOf;
    var v, want := d.rec.value, Request(c, key, e, d);
    if d.op == Add && v in e {
      assert want[v] == EntryOf(d.rec, e[v].hash);
      assert SameContent(e[v], d.rec) ==> want[v] == e[v];
    } else if d.op == Add {
      assert want == e || v in want;
    }
  }

  lemma StepDelta(s: SetState, dr: Draft, d: Delta, now: Entries)
    requires now == View(View(s.entries, s.pend), dr.over) && dr.size == |now|
    ensures |PlanStep(s, dr, d).applied| == |dr.applied| + (
              if Request(s.cfg, s.key, now, d) != now
                 || (d.op == Add && d.rec.value in s.pend && s.pend[d.rec.value].present && d.rec.value !in dr.over)
              then 1 else 0)
  {
    hide Xor, HashOf, View, Request, SameContent;
    FindIsView(s, dr.over, d.rec.value);
    RequestChanges(s.cfg, s.key, now, d);
  }

  // A request becomes a delta exactly when it changes what the view shows, or adds once more
  // what a plan still in flight adds: that plan may yet be dropped.
  lemma DeltaExactly(s: SetState, before: seq<Delta>, d: Delta)
    requires ViewCounted(s)
    ensures var view := View(s.entries, s.pend);
            var now, want := Requests(s.cfg, s.key, view, before), Requests(s.cfg, s.key, view, before + [d]);
            |PlanDraft(s, before + [d]).applied| ==
            |PlanDraft(s, before).applied| + if want != now || AddedInFlight(s, before, d) then 1 else 0
  {
    hide Xor, XorOf, PlanStep, Request, View, Fits, OverOf, Asked;
    var view, dr := View(s.entries, s.pend), PlanDraft(s, before);
    var now := Requests(s.cfg, s.key, view, before);
    assert (before + [d])[..|before|] == before;
    PlanDraftMeaning(s, before);
    ReplayIsView(view, dr.applied, 0);
    StepDelta(s, dr, d, now);
    if d.rec.value in s.pend && s.pend[d.rec.value].present {
      FlightIsDrafted(s, before, d.rec.value);
    }
  }
}
