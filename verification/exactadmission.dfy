// Which jobs the planner accepts, exactly (internal/keeper/keeper.go, plan; internal/set/set.go,
// Fresh): a job is refused as full only if its new values do not fit.
module ExactAdmission {
  import opened Types
  import opened SetModel
  import opened SetLaws
  import opened Admission

  // No value twice in a job, as Submit and the sweep make them.
  predicate DistinctValues(j: Job)
  {
    forall i, k :: 0 <= i < k < |j.recs| ==> j.recs[i].value != j.recs[k].value
  }

  predicate Distinct(values: seq<Text>)
  {
    forall i, k :: 0 <= i < k < |values| ==> values[i] != values[k]
  }

  // Fresh counts exactly the values that neither the view nor the accepted jobs have.
  lemma {:induction false} FreshExactly(s: SetState, values: seq<Text>, seen: set<Text>)
    requires Distinct(values)
    ensures FreshCount(s, values, seen) == |AsSet(values) - View(s.entries, s.pend).Keys - seen|
  {
    hide *;
    var keys := View(s.entries, s.pend).Keys;
    if values == [] {
      AsSetEmpty();
      NoneFresh(s, seen);
      assert AsSet(values) - keys - seen == {};
    } else {
      var before, v := values[..|values| - 1], values[|values| - 1];
      assert before + [v] == values;
      DistinctSnoc(before, v);
      FreshExactly(s, before, seen);
      AsSetSnoc(before, v);
      LookupIsView(s, v);
      FreshNext(s, values, seen);
      OneMoreFresh(AsSet(before), keys, seen, v);
    }
  }

  lemma NoneFresh(s: SetState, seen: set<Text>)
    ensures FreshCount(s, [], seen) == 0
  {}

  lemma DistinctSnoc(before: seq<Text>, v: Text)
    requires Distinct(before + [v])
    ensures Distinct(before) && v !in AsSet(before)
  {
    var all := before + [v];
    assert all[|before|] == v && forall i :: 0 <= i < |before| ==> all[i] == before[i];
  }

  lemma OneMoreFresh(a: set<Text>, keys: set<Text>, seen: set<Text>, v: Text)
    requires v !in a
    ensures |a + {v} - keys - seen| == |a - keys - seen| + if v in keys || v in seen then 0 else 1
  {
    if v in keys || v in seen {
      assert a + {v} - keys - seen == a - keys - seen;
    } else {
      assert a + {v} - keys - seen == (a - keys - seen) + {v};
    }
  }

  // The values of the adds accepted among the first jobs.
  function Added(jobs: seq<Job>, results: seq<JobResult>): set<Text>
    requires |jobs| == |results|
  {
    if jobs == [] then {} else
      var n := |jobs| - 1;
      var before := Added(jobs[..n], results[..n]);
      if results[n].code == Granted && jobs[n].op == Add then before + AsSet(ValuesOf(jobs[n].recs)) else before
  }

  // The job is about to grow the set beyond its limit.
  predicate TooMuch(c: Config, keys: set<Text>, j: Job)
  {
    j.op == Add && c.limit > 0 && |keys + AsSet(ValuesOf(j.recs))| > c.limit
  }

  // The running bound, exactly.
  ghost predicate Exact(s: SetState, adm: Admitted, added: set<Text>)
  {
    s.cfg.limit > 0 ==> adm.seen == added && adm.size == |View(s.entries, s.pend).Keys + added|
  }

  lemma UnionSize(keys: set<Text>, added: set<Text>, more: set<Text>)
    ensures |keys + added + more| == |keys + added| + |more - keys - added|
    ensures keys + (added + more) == keys + added + more
  {
    assert keys + added + more == keys + added + (more - keys - added);
  }

  lemma GrowsBy(s: SetState, t: SetState, adm: Admitted, j: Job, added: set<Text>)
    requires SameView(s, t) && Exact(s, adm, added) && DistinctValues(j) && s.cfg.limit > 0
    ensures var size := adm.size + FreshCount(t, ValuesOf(j.recs), adm.seen);
            && (j.op == Add ==> (TooMuch(s.cfg, View(s.entries, s.pend).Keys + added, j) <==> size > s.cfg.limit))
            && size == |View(s.entries, s.pend).Keys + (added + AsSet(ValuesOf(j.recs)))|
  {
    hide View, FreshCount, AsSet, ValuesOf, DistinctValues, Distinct;
    var keys, values := View(s.entries, s.pend).Keys, ValuesOf(j.recs);
    DistinctInJob(j);
    FreshExactly(t, values, adm.seen);
    UnionSize(keys, added, AsSet(values));
  }

  lemma DistinctInJob(j: Job)
    requires DistinctValues(j)
    ensures Distinct(ValuesOf(j.recs))
  {}

  lemma JobStep(s: SetState, now: int, adm: Admitted, j: Job)
    ensures var adm' := AdmitJob(s, now, adm, j);
            var fresh' := FreshCount(s, ValuesOf(j.recs), adm.seen);
            var counts := j.op == Add && s.cfg.limit > 0;
            var code := if IsStale(j, now) then Stale else if j.recs == [] then BadRequest
                        else if counts && adm.size + fresh' > s.cfg.limit then Full else Granted;
            && adm'.results == adm.results + [JobResult(code, 0)]
            && (if code == Granted && counts
                then adm'.seen == adm.seen + AsSet(ValuesOf(j.recs)) && adm'.size == adm.size + fresh'
                else adm'.seen == adm.seen && adm'.size == adm.size)
  {
    hide FreshCount, AsSet, ValuesOf, DeltasOf, IsStale;
  }

  // One job: what it is answered, and what that makes of the bound.
  lemma JobExactly(s: SetState, t: SetState, now: int, adm: Admitted, j: Job, added: set<Text>)
    requires SameView(s, t) && Exact(s, adm, added) && DistinctValues(j)
    ensures var code := if IsStale(j, now) then Stale else if j.recs == [] then BadRequest
                        else if TooMuch(s.cfg, View(s.entries, s.pend).Keys + added, j) then Full else Granted;
            && AdmitJob(t, now, adm, j).results == adm.results + [JobResult(code, 0)]
            && Exact(s, AdmitJob(t, now, adm, j),
                     if code == Granted && j.op == Add then added + AsSet(ValuesOf(j.recs)) else added)
  {
    assert s.cfg == t.cfg;
    assert !(j.op == Add && s.cfg.limit > 0) ==> !TooMuch(s.cfg, View(s.entries, s.pend).Keys + added, j);
    hide View, FreshCount, AsSet, ValuesOf, AdmitJob, IsStale, DistinctValues, SameView, TooMuch;
    JobStep(t, now, adm, j);
    if s.cfg.limit > 0 {
      GrowsBy(s, t, adm, j, added);
    }
  }

  lemma {:induction false} BoundExactly(s: SetState, states: seq<SetState>, now: int, jobs: seq<Job>)
    requires |states| == |jobs| && ViewCounted(s)
    requires forall i :: 0 <= i < |states| ==> SameView(s, states[i])
    requires forall i :: 0 <= i < |jobs| ==> DistinctValues(jobs[i])
    ensures var adm := Admit(states, s.pendSize, now, jobs); Exact(s, adm, Added(jobs, adm.results))
  {
    hide SameView, AdmitJob, View, XorOf, Exact, DistinctValues, AsSet, ValuesOf;
    if jobs == [] {
      StartsExactly(s);
    } else {
      var n := |jobs| - 1;
      BoundExactly(s, states[..n], now, jobs[..n]);
      var before := Admit(states[..n], s.pendSize, now, jobs[..n]);
      JobExactly(s, states[n], now, before, jobs[n], Added(jobs[..n], before.results));
    }
  }

  lemma StartsExactly(s: SetState)
    requires ViewCounted(s)
    ensures Exact(s, Admitted([], [], [], {}, s.pendSize), {})
  {
    hide XorOf, View;
    assert View(s.entries, s.pend).Keys + {} == View(s.entries, s.pend).Keys;
    assert |View(s.entries, s.pend)| == |View(s.entries, s.pend).Keys|;
  }

  // Over states with one view, whatever commits run meanwhile: a job in time with records is
  // full if and only if it adds, the limit is positive, and the view with the adds accepted
  // before it and its own values is over the limit. Every other such job is granted.
  lemma {:induction false} AdmittedExactly(s: SetState, states: seq<SetState>, now: int, jobs: seq<Job>, i: nat)
    requires |states| == |jobs| && i < |jobs| && ViewCounted(s)
    requires forall i :: 0 <= i < |states| ==> SameView(s, states[i])
    requires forall i :: 0 <= i < |jobs| ==> DistinctValues(jobs[i])
    ensures var results := Admit(states, s.pendSize, now, jobs).results;
            var keys := View(s.entries, s.pend).Keys + Added(jobs[..i], results[..i]);
            var late := jobs[i].deadline.Some? && now > jobs[i].deadline.value;
            && (results[i].code == Stale <==> late)
            && (results[i].code == BadRequest <==> !late && jobs[i].recs == [])
            && (results[i].code == Full <==>
                (!late && jobs[i].recs != [] && jobs[i].op == Add && s.cfg.limit > 0
                 && |keys + AsSet(ValuesOf(jobs[i].recs))| > s.cfg.limit))
            && results[i].code in {Stale, BadRequest, Full, Granted}
  {
    hide SameView, AdmitJob, View, XorOf, Exact, DistinctValues, AsSet, ValuesOf, Added;
    var n := |jobs| - 1;
    var before, adm := Admit(states[..n], s.pendSize, now, jobs[..n]), Admit(states, s.pendSize, now, jobs);
    BoundExactly(s, states[..n], now, jobs[..n]);
    JobExactly(s, states[n], now, before, jobs[n], Added(jobs[..n], before.results));
    assert adm.results[..n] == before.results;
    if i < n {
      AdmittedExactly(s, states[..n], now, jobs[..n], i);
      assert jobs[..n][..i] == jobs[..i] && adm.results[..n][..i] == adm.results[..i];
      assert before.results[i] == adm.results[i];
    }
  }
}
