// The way of a job through a holder: reserved, sent, taken, planned, committed and answered,
// and the queued counter that bounds it (internal/keeper/keeper.go, Submit, gather, take,
// plan and commit). Clients, planner and committer interleave in any order.
module JobFlow {
  import opened Types
  import opened SetModel
  import opened Admission
  import opened Keeper

  datatype Flow = Flow(
    queued: int,              // the counter
    reserved: seq<Job>,       // counted by their clients, not yet in the channel
    channel: seq<Job>,        // h.jobs
    received: seq<Job>,       // out of the channel, not yet taken off the counter: at most one
    gathered: seq<Job>,       // the batch gather is collecting
    batches: seq<seq<Job>>,   // jobs carried by the queued batches
    answered: seq<Job>,       // a reply was sent, once per listing
    silent: seq<Job>,         // dropped without a reply
    left: seq<Job>,           // clients that gave up before sending
    submitted: seq<Job>,      // everything that ever reserved or was swept up
    planned: map<Job, int>)   // when plan looked at each job

  datatype Move =
    | Reserve(j: Job)
    | Send(i: nat)
    | GiveUp(i: nat)
    | Receive
    | Take
    | Sweep(j: Job)                                  // a removal of expired values, straight to plan
    | PlanAtOnce(now: int, results: seq<JobResult>)  // Plan made no deltas
    | PlanBatch(now: int, results: seq<JobResult>)   // the granted jobs go on in a batch
    | Finish                                         // commit, or fail, of the oldest batch

  function Without(jobs: seq<Job>, i: nat): seq<Job>
    requires i < |jobs|
  {
    jobs[..i] + jobs[i + 1..]
  }

  predicate Answerable(j: Job, r: JobResult)
  {
    r.code != Stale && j.replies
  }

  // Those a reply goes to, and those it does not, of the jobs paired with results.
  function Heard(pairs: seq<(Job, JobResult)>, yes: bool): seq<Job>
  {
    if pairs == [] then [] else
      var q := pairs[|pairs| - 1];
      Heard(pairs[..|pairs| - 1], yes) + if Answerable(q.0, q.1) == yes then [q.0] else []
  }

  function Pairs(jobs: seq<Job>, results: seq<JobResult>): (r: seq<(Job, JobResult)>)
    requires |jobs| == |results|
    ensures |r| == |jobs|
  {
    seq(|jobs|, i requires 0 <= i < |jobs| => (jobs[i], results[i]))
  }

  function Granteds(jobs: seq<Job>): seq<(Job, JobResult)>
  {
    seq(|jobs|, i requires 0 <= i < |jobs| => (jobs[i], JobResult(Granted, 0)))
  }

  // Exactly the jobs past their deadline are stale.
  predicate StaleRight(jobs: seq<Job>, now: int, results: seq<JobResult>)
  {
    && |results| == |jobs|
    && forall i :: 0 <= i < |jobs| ==> (results[i].code == Stale <==> IsStale(jobs[i], now))
  }

  predicate Planning(f: Flow, now: int, results: seq<JobResult>)
  {
    f.gathered != [] && f.received == [] && StaleRight(f.gathered, now, results)
  }

  function PlannedAll(f: Flow, now: int): map<Job, int>
  {
    f.planned + map j | j in f.gathered :: now
  }

  predicate Enabled(f: Flow, m: Move)
  {
    match m
    case Reserve(j) => j !in f.submitted
    case Send(i) => i < |f.reserved|
    case GiveUp(i) => i < |f.reserved|
    case Receive => f.channel != [] && f.received == []
    case Take => f.received != []
    case Sweep(j) => j !in f.submitted && !j.replies && f.gathered == [] && f.received == []
    case PlanAtOnce(now, results) => Planning(f, now, results)
    case PlanBatch(now, results) => Planning(f, now, results)
    case Finish => f.batches != []
  }

  function After(f: Flow, m: Move): Flow
    requires Enabled(f, m)
  {
    match m
    case Reserve(j) => f.(queued := f.queued + |j.recs|, reserved := f.reserved + [j], submitted := f.submitted + [j])
    case Send(i) => f.(reserved := Without(f.reserved, i), channel := f.channel + [f.reserved[i]])
    case GiveUp(i) =>
      f.(queued := f.queued - |f.reserved[i].recs|, reserved := Without(f.reserved, i), left := f.left + [f.reserved[i]])
    case Receive => f.(channel := f.channel[1..], received := [f.channel[0]])
    case Take =>
      f.(queued := f.queued - |f.received[0].recs|, received := f.received[1..], gathered := f.gathered + [f.received[0]])
    case Sweep(j) => f.(gathered := [j], submitted := f.submitted + [j])
    case PlanAtOnce(now, results) =>
      var all := Pairs(f.gathered, results);
      f.(gathered := [], answered := f.answered + Heard(all, true), silent := f.silent + Heard(all, false),
         planned := PlannedAll(f, now))
    case PlanBatch(now, results) =>
      var refused := Refused(f.gathered, results);
      f.(gathered := [], answered := f.answered + Heard(refused, true), silent := f.silent + Heard(refused, false),
         planned := PlannedAll(f, now), batches := f.batches + [Jobs(Carried(f.gathered, results))])
    case Finish =>
      // The results of a batch are all granted or all store errors: none is stale.
      var all := Granteds(f.batches[0]);
      f.(batches := f.batches[1..], answered := f.answered + Heard(all, true), silent := f.silent + Heard(all, false))
  }

  // ---------- the invariants ----------

  function Load(jobs: seq<Job>): nat
  {
    if jobs == [] then 0 else Load(jobs[..|jobs| - 1]) + |jobs[|jobs| - 1].recs|
  }

  function Flat(batches: seq<seq<Job>>): seq<Job>
  {
    if batches == [] then [] else batches[0] + Flat(batches[1..])
  }

  function Times(jobs: seq<Job>, j: Job): nat
  {
    multiset(jobs)[j]
  }

  // A job is submitted as often as it is found in one of the places.
  predicate Placed(f: Flow, j: Job)
  {
    Times(f.submitted, j) ==
      Times(f.reserved, j) + Times(f.channel, j) + Times(f.received, j) + Times(f.gathered, j)
        + Times(Flat(f.batches), j) + Times(f.answered, j) + Times(f.silent, j) + Times(f.left, j)
  }

  predicate Distinct(jobs: seq<Job>)
  {
    forall i, j :: 0 <= i < j < |jobs| ==> jobs[i] != jobs[j]
  }

  predicate Counted(f: Flow)
  {
    |f.received| <= 1 && f.queued == Load(f.reserved) + Load(f.channel) + Load(f.received)
  }

  // A job was planned once it is past planning. Dropped without a reply are those that had
  // nobody waiting or were past their deadline when planned; no other job was past its own.
  predicate Timely(f: Flow, j: Job)
  {
    && (j in f.silent ==> (j in f.planned && (j.replies ==> IsStale(j, f.planned[j]))))
    && (j in f.answered || j in Flat(f.batches) ==> (j in f.planned && !IsStale(j, f.planned[j])))
    && (j in f.planned ==> j in f.silent || j in f.answered || j in Flat(f.batches))
  }

  ghost predicate FlowInv(f: Flow)
  {
    Counted(f) && Distinct(f.submitted) && forall j :: Placed(f, j) && Timely(f, j)
  }

  lemma {:induction false} LoadConcat(a: seq<Job>, b: seq<Job>)
    ensures Load(a + b) == Load(a) + Load(b)
  {
    if b == [] {
      assert a + b == a;
    } else {
      assert (a + b)[..|a + b| - 1] == a + b[..|b| - 1];
      LoadConcat(a, b[..|b| - 1]);
    }
  }

  lemma LoadOne(j: Job)
    ensures Load([j]) == |j.recs|
  {
    assert [j][..0] == [];
  }

  lemma LoadWithout(jobs: seq<Job>, i: nat)
    requires i < |jobs|
    ensures Load(jobs) == Load(Without(jobs, i)) + |jobs[i].recs|
  {
    assert jobs == jobs[..i] + ([jobs[i]] + jobs[i + 1..]);
    LoadConcat(jobs[..i], [jobs[i]] + jobs[i + 1..]);
    LoadConcat([jobs[i]], jobs[i + 1..]);
    LoadConcat(jobs[..i], jobs[i + 1..]);
    LoadOne(jobs[i]);
  }

  lemma TimesConcat(a: seq<Job>, b: seq<Job>, j: Job)
    ensures Times(a + b, j) == Times(a, j) + Times(b, j)
  {}

  lemma TimesWithout(jobs: seq<Job>, i: nat, j: Job)
    requires i < |jobs|
    ensures Times(jobs, j) == Times(Without(jobs, i), j) + Times([jobs[i]], j)
  {
    assert jobs == jobs[..i] + ([jobs[i]] + jobs[i + 1..]);
  }

  lemma {:induction false} HeardSplit(pairs: seq<(Job, JobResult)>)
    ensures multiset(Jobs(pairs)) == multiset(Heard(pairs, true)) + multiset(Heard(pairs, false))
  {
    if pairs != [] {
      var n := |pairs| - 1;
      HeardSplit(pairs[..n]);
      assert pairs == pairs[..n] + [pairs[n]];
      JobsSnoc(pairs[..n], pairs[n]);
    }
  }

  lemma {:induction false} FlatSnoc(batches: seq<seq<Job>>, b: seq<Job>)
    ensures Flat(batches + [b]) == Flat(batches) + b
  {
    if batches != [] {
      assert (batches + [b])[1..] == batches[1..] + [b];
      FlatSnoc(batches[1..], b);
    }
  }

  lemma CounterKept(f: Flow, m: Move)
    requires Counted(f) && Enabled(f, m)
    ensures Counted(After(f, m))
  {
    match m
    case Reserve(j) =>
      LoadConcat(f.reserved, [j]);
      LoadOne(j);
    case Send(i) =>
      LoadWithout(f.reserved, i);
      LoadConcat(f.channel, [f.reserved[i]]);
      LoadOne(f.reserved[i]);
    case GiveUp(i) =>
      LoadWithout(f.reserved, i);
    case Receive =>
      LoadWithout(f.channel, 0);
      assert Without(f.channel, 0) == f.channel[1..];
      LoadOne(f.channel[0]);
    case Take =>
      assert f.received == [f.received[0]];
      LoadOne(f.received[0]);
    case Sweep(_) =>
    case PlanAtOnce(_, _) =>
    case PlanBatch(_, _) =>
    case Finish =>
  }

  lemma HeardTimes(pairs: seq<(Job, JobResult)>, j: Job)
    ensures Times(Jobs(pairs), j) == Times(Heard(pairs, true), j) + Times(Heard(pairs, false), j)
  {
    hide Heard;
    HeardSplit(pairs);
  }

  lemma SplitTimes(jobs: seq<Job>, results: seq<JobResult>, j: Job)
    requires |jobs| == |results|
    ensures Times(jobs, j) == Times(Jobs(Carried(jobs, results)), j) + Times(Jobs(Refused(jobs, results)), j)
  {
    hide Carried, Refused;
    JobsSplit(jobs, results);
  }

  lemma MovedOn(f: Flow, m: Move, j: Job)
    requires Placed(f, j) && |f.received| <= 1 && Enabled(f, m)
    requires !m.PlanAtOnce? && !m.PlanBatch? && !m.Finish?
    ensures Placed(After(f, m), j)
  {
    hide Flat, Load, Times, Without;
    match m
    case Reserve(x) =>
      TimesConcat(f.reserved, [x], j);
      TimesConcat(f.submitted, [x], j);
    case Send(i) =>
      TimesWithout(f.reserved, i, j);
      TimesConcat(f.channel, [f.reserved[i]], j);
    case GiveUp(i) =>
      TimesWithout(f.reserved, i, j);
      TimesConcat(f.left, [f.reserved[i]], j);
    case Receive =>
      assert f.channel == [f.channel[0]] + f.channel[1..];
      TimesConcat([f.channel[0]], f.channel[1..], j);
      NoTimes(j);
    case Take =>
      assert f.received == [f.received[0]] && f.received[1..] == [];
      TimesConcat(f.gathered, f.received, j);
      NoTimes(j);
    case Sweep(x) =>
      TimesConcat(f.submitted, [x], j);
      NoTimes(j);
    case _ =>
  }

  lemma NoTimes(j: Job)
    ensures Times([], j) == 0
  {}

  lemma PlannedOn(f: Flow, m: Move, j: Job)
    requires Placed(f, j) && Enabled(f, m) && (m.PlanAtOnce? || m.PlanBatch?)
    ensures Placed(After(f, m), j)
  {
    hide Heard, Carried, Refused, Flat, Times, Load;
    var jobs, results := f.gathered, m.results;
    NoTimes(j);
    var pairs := if m.PlanAtOnce? then Pairs(jobs, results) else Refused(jobs, results);
    HeardTimes(pairs, j);
    TimesConcat(f.answered, Heard(pairs, true), j);
    TimesConcat(f.silent, Heard(pairs, false), j);
    if m.PlanAtOnce? {
      assert Jobs(pairs) == jobs;
    } else {
      SplitTimes(jobs, results, j);
      FlatSnoc(f.batches, Jobs(Carried(jobs, results)));
      TimesConcat(Flat(f.batches), Jobs(Carried(jobs, results)), j);
    }
  }

  lemma Finished(f: Flow, j: Job)
    requires Placed(f, j) && f.batches != []
    ensures Placed(After(f, Finish), j)
  {
    hide Heard, Times, Load;
    var pairs := Granteds(f.batches[0]);
    HeardTimes(pairs, j);
    assert Jobs(pairs) == f.batches[0];
    TimesConcat(f.batches[0], Flat(f.batches[1..]), j);
    TimesConcat(f.answered, Heard(pairs, true), j);
    TimesConcat(f.silent, Heard(pairs, false), j);
  }

  lemma PlacesKept(f: Flow, m: Move, j: Job)
    requires Placed(f, j) && |f.received| <= 1 && Enabled(f, m)
    ensures Placed(After(f, m), j)
  {
    hide Placed, After, Enabled;
    match m
    case PlanAtOnce(_, _) =>
      PlannedOn(f, m, j);
    case PlanBatch(_, _) =>
      PlannedOn(f, m, j);
    case Finish =>
      HasBatch(f);
      Finished(f, j);
    case _ =>
      MovedOn(f, m, j);
  }

  lemma HasBatch(f: Flow)
    requires Enabled(f, Finish)
    ensures f.batches != []
  {}

  predicate RightPairs(pairs: seq<(Job, JobResult)>, now: int)
  {
    forall i :: 0 <= i < |pairs| ==> (pairs[i].1.code == Stale <==> IsStale(pairs[i].0, now))
  }

  lemma {:induction false} HeardRight(pairs: seq<(Job, JobResult)>, now: int, j: Job)
    requires RightPairs(pairs, now)
    ensures j in Heard(pairs, true) ==> !IsStale(j, now)
    ensures j in Heard(pairs, false) && j.replies ==> IsStale(j, now)
  {
    if pairs != [] {
      HeardRight(pairs[..|pairs| - 1], now, j);
    }
  }

  lemma {:induction false} SplitRight(jobs: seq<Job>, results: seq<JobResult>, now: int)
    requires StaleRight(jobs, now, results)
    ensures RightPairs(Refused(jobs, results), now) && RightPairs(Carried(jobs, results), now)
  {
    if jobs != [] {
      var n := |jobs| - 1;
      SplitRight(jobs[..n], results[..n], now);
    }
  }

  lemma CarriedInTime(jobs: seq<Job>, results: seq<JobResult>, now: int, j: Job)
    requires StaleRight(jobs, now, results) && j in Jobs(Carried(jobs, results))
    ensures !IsStale(j, now)
  {
    hide Carried, Refused;
    SplitRight(jobs, results, now);
    var pairs := Carried(jobs, results);
    var i :| 0 <= i < |pairs| && Jobs(pairs)[i] == j;
    assert pairs[i].1.code == Granted;
  }

  lemma TimesIsIn(jobs: seq<Job>, j: Job)
    ensures j in jobs <==> Times(jobs, j) > 0
  {}

  // What is being planned was not planned before.
  lemma GatheredIsNew(f: Flow, j: Job)
    requires Placed(f, j) && Timely(f, j) && Times(f.submitted, j) <= 1 && j in f.gathered
    ensures j !in f.planned
  {
    hide Times, Flat;
    TimesIsIn(f.gathered, j);
    TimesIsIn(f.silent, j);
    TimesIsIn(f.answered, j);
    TimesIsIn(Flat(f.batches), j);
  }

  lemma PlannedTimely(f: Flow, m: Move, j: Job)
    requires Placed(f, j) && Timely(f, j) && Times(f.submitted, j) <= 1
    requires Enabled(f, m) && (m.PlanAtOnce? || m.PlanBatch?)
    ensures Timely(After(f, m), j)
  {
    hide Heard, Carried, Refused, Flat, Times, Load, Answerable, IsStale;
    var jobs, results, now := f.gathered, m.results, m.now;
    var pairs := if m.PlanAtOnce? then Pairs(jobs, results) else Refused(jobs, results);
    var carried := if m.PlanAtOnce? then [] else Jobs(Carried(jobs, results));
    if m.PlanAtOnce? {
      assert Jobs(pairs) == jobs;
      NoTimes(j);
    } else {
      SplitRight(jobs, results, now);
      SplitTimes(jobs, results, j);
      FlatSnoc(f.batches, carried);
    }
    HeardRight(pairs, now, j);
    HeardTimes(pairs, j);
    TimesIsIn(jobs, j);
    TimesIsIn(Jobs(pairs), j);
    TimesIsIn(carried, j);
    TimesIsIn(Heard(pairs, true), j);
    TimesIsIn(Heard(pairs, false), j);
    if j in jobs {
      GatheredIsNew(f, j);
    }
    if j in carried {
      CarriedInTime(jobs, results, now, j);
    }
  }

  lemma {:induction false} HeardWaits(jobs: seq<Job>, j: Job)
    ensures j in Heard(Granteds(jobs), true) ==> j.replies
    ensures j in Heard(Granteds(jobs), false) ==> !j.replies
  {
    if jobs != [] {
      assert Granteds(jobs)[..|jobs| - 1] == Granteds(jobs[..|jobs| - 1]);
      HeardWaits(jobs[..|jobs| - 1], j);
    }
  }

  lemma FinishTimely(f: Flow, j: Job)
    requires Timely(f, j) && f.batches != []
    ensures Timely(After(f, Finish), j)
  {
    hide Heard, Times, Load, IsStale;
    var jobs := f.batches[0];
    HeardWaits(jobs, j);
    HeardTimes(Granteds(jobs), j);
    assert Jobs(Granteds(jobs)) == jobs;
    TimesIsIn(jobs, j);
    TimesIsIn(Heard(Granteds(jobs), true), j);
    TimesIsIn(Heard(Granteds(jobs), false), j);
  }

  lemma TimelyKept(f: Flow, m: Move, j: Job)
    requires Placed(f, j) && Timely(f, j) && Times(f.submitted, j) <= 1 && Enabled(f, m)
    ensures Timely(After(f, m), j)
  {
    match m
    case PlanAtOnce(_, _) =>
      hide *;
      PlannedTimely(f, m, j);
    case PlanBatch(_, _) =>
      hide *;
      PlannedTimely(f, m, j);
    case Finish =>
      hide Timely, After;
      FinishTimely(f, j);
    case _ =>
      hide Flat, Times, Load;
  }

  const IDLE := Flow(0, [], [], [], [], [], [], [], [], [], map[])

  function Runs(moves: seq<Move>): (f: Option<Flow>)
  {
    if moves == [] then Some(IDLE) else
      match Runs(moves[..|moves| - 1])
      case None => None
      case Some(f) => if Enabled(f, moves[|moves| - 1]) then Some(After(f, moves[|moves| - 1])) else None
  }

  lemma {:induction false} RunKeepsFlow(moves: seq<Move>)
    requires Runs(moves).Some?
    ensures FlowInv(Runs(moves).value)
  {
    hide After, Placed, Counted, Timely, Enabled;
    if moves == [] {
      IdleFlow();
    } else {
      var before, m := moves[..|moves| - 1], moves[|moves| - 1];
      RunKeepsFlow(before);
      var f := Runs(before).value;
      CounterBound(f);
      CounterKept(f, m);
      forall j
        ensures Placed(After(f, m), j) && Timely(After(f, m), j)
      {
        PlacesKept(f, m, j);
        DistinctOnce(f.submitted, j);
        TimelyKept(f, m, j);
      }
      SubmittedKept(f, m);
    }
  }

  lemma IdleFlow()
    ensures FlowInv(IDLE)
  {
    hide Load, Flat, Times;
    NothingQueued();
    forall j
      ensures Placed(IDLE, j) && Timely(IDLE, j)
    {
      NoTimes(j);
    }
  }

  lemma NothingQueued()
    ensures Load([]) == 0 && Flat([]) == []
  {}

  lemma CounterBound(f: Flow)
    requires Counted(f)
    ensures |f.received| <= 1
  {}

  lemma SubmittedKept(f: Flow, m: Move)
    requires Distinct(f.submitted) && Enabled(f, m)
    ensures Distinct(After(f, m).submitted)
  {
    hide Heard, Carried, Refused, Load;
  }

  lemma {:induction false} DistinctOnce(jobs: seq<Job>, j: Job)
    requires Distinct(jobs)
    ensures Times(jobs, j) <= 1
  {
    if jobs != [] {
      var before := jobs[..|jobs| - 1];
      DistinctOnce(before, j);
      assert jobs == before + [jobs[|jobs| - 1]];
      if j == jobs[|jobs| - 1] {
        assert j !in before;
      }
    }
  }

  // In every interleaving no job is answered twice, so its one-slot channel never blocks, and
  // the counter is exactly the records waiting to be taken.
  lemma AnsweredAtMostOnce(moves: seq<Move>, j: Job)
    requires Runs(moves).Some?
    ensures var f := Runs(moves).value;
            && Times(f.answered, j) <= 1
            && (j in f.answered ==> j !in f.silent && j !in f.left && j !in f.channel && j !in Flat(f.batches))
            && f.queued == Load(f.reserved) + Load(f.channel) + Load(f.received)
  {
    hide After, Runs, Flat, Load;
    RunKeepsFlow(moves);
    var f := Runs(moves).value;
    DistinctOnce(f.submitted, j);
    assert Placed(f, j);
  }

  // Nothing left to do.
  predicate Drained(f: Flow)
  {
    f.reserved == [] && f.channel == [] && f.received == [] && f.gathered == [] && f.batches == []
  }

  // Once everything has been worked off, each job that somebody waits for and whose client did
  // not give up was planned; if it was past its deadline then it was dropped, once, and
  // otherwise it was answered, once.
  lemma DrainedAnswered(moves: seq<Move>, j: Job)
    requires Runs(moves).Some? && Drained(Runs(moves).value)
    requires var f := Runs(moves).value; j in f.submitted && j !in f.left && j.replies
    ensures var f := Runs(moves).value;
            && j in f.planned
            && Times(f.answered, j) == (if IsStale(j, f.planned[j]) then 0 else 1)
            && Times(f.silent, j) == (if IsStale(j, f.planned[j]) then 1 else 0)
  {
    hide After, Runs, Load, Counted, IsStale, Times;
    RunKeepsFlow(moves);
    var f := Runs(moves).value;
    DistinctOnce(f.submitted, j);
    TimesIsIn(f.submitted, j);
    TimesIsIn(f.left, j);
    TimesIsIn(f.answered, j);
    TimesIsIn(f.silent, j);
    NoTimes(j);
    assert Placed(f, j) && Timely(f, j);
  }

  predicate PlansAt(m: Move, now: int)
  {
    (m.PlanAtOnce? || m.PlanBatch?) && m.now == now
  }

  // The time is that of the move that planned it.
  lemma {:induction false} PlannedWhen(moves: seq<Move>, j: Job) returns (i: nat)
    requires Runs(moves).Some? && j in Runs(moves).value.planned
    ensures i < |moves| && PlansAt(moves[i], Runs(moves).value.planned[j])
    ensures Runs(moves[..i]).Some? && j in Runs(moves[..i]).value.gathered
  {
    hide Heard, Carried, Refused, Enabled;
    var before, m := moves[..|moves| - 1], moves[|moves| - 1];
    var f := Runs(before).value;
    i := |moves| - 1;
    if !(m.PlanAtOnce? || m.PlanBatch?) || j !in f.gathered {
      i := PlannedWhen(before, j);
      assert moves[..i] == before[..i];
    }
  }

  // ---------- the work runs out ----------

  // How many moves the jobs at hand can still make.
  function Work(f: Flow): nat
  {
    5 * |f.reserved| + 4 * |f.channel| + 3 * |f.received| + 2 * |f.gathered| + |f.batches|
  }

  // Every move that brings no new job brings the jobs at hand closer to their end.
  lemma WorkShrinks(f: Flow, m: Move)
    requires Enabled(f, m) && |f.received| <= 1 && !m.Reserve? && !m.Sweep?
    ensures Work(After(f, m)) < Work(f)
  {
    hide Heard, Carried, Refused, Flat, Load;
  }

  // And as long as there is work some such move is possible: nobody waits for anybody else.
  // Gathered jobs can be planned whatever results plan comes to.
  lemma NeverStuck(f: Flow, now: int, results: seq<JobResult>) returns (m: Move)
    requires Counted(f) && !Drained(f)
    requires StaleRight(f.gathered, now, results)
    ensures Enabled(f, m) && !m.Reserve? && !m.Sweep? && !m.GiveUp?
    ensures f.gathered != [] && f.received == [] ==>
              Enabled(f, PlanAtOnce(now, results)) && Enabled(f, PlanBatch(now, results))
  {
    if f.batches != [] {
      m := Finish;
    } else if f.received != [] {
      m := Take;
    } else if f.channel != [] {
      m := Receive;
    } else if f.reserved != [] {
      m := Send(0);
    } else {
      m := PlanBatch(now, results);
    }
  }

  predicate NoNewJob(m: Move)
  {
    !m.Reserve? && !m.Sweep?
  }

  // From any reachable flow on, at most Work moves can be made without a new job.
  lemma {:induction false} WorkBounds(moves: seq<Move>, more: seq<Move>)
    requires Runs(moves + more).Some? && forall i :: 0 <= i < |more| ==> NoNewJob(more[i])
    ensures Runs(moves).Some?
    ensures |more| + Work(Runs(moves + more).value) <= Work(Runs(moves).value)
    decreases |more|
  {
    hide After, Enabled, Work, Counted;
    if more == [] {
      assert moves + more == moves;
    } else {
      var n := |more| - 1;
      var before := moves + more[..n];
      assert (moves + more)[..|moves + more| - 1] == before;
      WorkBounds(moves, more[..n]);
      RunKeepsFlow(before);
      CounterBound(Runs(before).value);
      WorkShrinks(Runs(before).value, more[n]);
    }
  }

  // What plan would answer if all jobs in time were granted.
  function RightResults(jobs: seq<Job>, now: int): (r: seq<JobResult>)
    ensures StaleRight(jobs, now, r)
  {
    seq(|jobs|, i requires 0 <= i < |jobs| => JobResult(if IsStale(jobs[i], now) then Stale else Granted, 0))
  }

  lemma {:induction false} OneMore(moves: seq<Move>, m: Move)
    requires Runs(moves).Some? && Enabled(Runs(moves).value, m)
    ensures Runs(moves + [m]) == Some(After(Runs(moves).value, m))
  {
    hide After, Enabled;
    assert (moves + [m])[..|moves|] == moves;
  }

  lemma KeepsClients(f: Flow, m: Move)
    requires Enabled(f, m) && NoNewJob(m) && !m.GiveUp?
    ensures After(f, m).left == f.left && After(f, m).submitted == f.submitted
  {
    hide Heard, Carried, Refused;
  }

  // And so many reach a flow with nothing left to do, with no client giving up.
  lemma {:induction false} CanDrain(moves: seq<Move>, now: int) returns (more: seq<Move>)
    requires Runs(moves).Some?
    ensures Runs(moves + more).Some? && Drained(Runs(moves + more).value)
    ensures |more| <= Work(Runs(moves).value) && forall i :: 0 <= i < |more| ==> NoNewJob(more[i])
    ensures Runs(moves + more).value.left == Runs(moves).value.left
    ensures Runs(moves + more).value.submitted == Runs(moves).value.submitted
    decreases Work(Runs(moves).value)
  {
    hide After, Enabled, Work, Counted, StaleRight, Drained;
    var f := Runs(moves).value;
    more := [];
    assert moves + more == moves;
    if !Drained(f) {
      RunKeepsFlow(moves);
      CounterBound(f);
      var m := NeverStuck(f, now, RightResults(f.gathered, now));
      WorkShrinks(f, m);
      KeepsClients(f, m);
      OneMore(moves, m);
      var rest := CanDrain(moves + [m], now);
      more := [m] + rest;
      assert moves + more == moves + [m] + rest;
    }
  }

  // So every job that somebody waits for and whose client did not give up comes to its end: in
  // at most Work moves it is answered once, or dropped once as past its deadline.
  lemma EveryJobEnds(moves: seq<Move>, j: Job, now: int) returns (more: seq<Move>)
    requires Runs(moves).Some?
    requires var f := Runs(moves).value; j in f.submitted && j !in f.left && j.replies
    ensures |more| <= Work(Runs(moves).value) && Runs(moves + more).Some?
    ensures var f := Runs(moves + more).value;
            && j in f.planned
            && Times(f.answered, j) == (if IsStale(j, f.planned[j]) then 0 else 1)
            && Times(f.silent, j) == (if IsStale(j, f.planned[j]) then 1 else 0)
  {
    hide Work, Runs, Times, IsStale;
    more := CanDrain(moves, now);
    DrainedAnswered(moves + more, j);
  }

  // ---------- the holder makes these moves ----------

  function Askers(answers: seq<Answer>): (r: seq<Job>)
    ensures |r| == |answers|
  {
    seq(|answers|, i requires 0 <= i < |answers| => answers[i].job)
  }

  // The replies the planner and the committer send go to the jobs the moves list as answered.
  lemma {:induction false} RepliesAreHeard(jobs: seq<Job>, results: seq<JobResult>, epoch: u64)
    requires |jobs| == |results|
    ensures Askers(Replies(jobs, results, epoch)) == Heard(Pairs(jobs, results), true)
  {
    if jobs == [] {
      assert Pairs(jobs, results) == [];
    } else {
      var n := |jobs| - 1;
      RepliesAreHeard(jobs[..n], results[..n], epoch);
      assert Pairs(jobs, results)[..n] == Pairs(jobs[..n], results[..n]);
    }
  }

  lemma RefusedAreHeard(jobs: seq<Job>, results: seq<JobResult>, epoch: u64)
    requires |jobs| == |results|
    ensures Askers(RefusedReplies(jobs, results, epoch)) == Heard(Refused(jobs, results), true)
  {
    hide Heard, Replies, Refused;
    var refused := Refused(jobs, results);
    RepliesAreHeard(Jobs(refused), Results(refused), epoch);
    assert Pairs(Jobs(refused), Results(refused)) == refused;
  }

  // A batch is answered whole, whether the store took it or not.
  lemma {:induction false} BatchIsHeard(jobs: seq<Job>, results: seq<JobResult>, done: bool, num: nat, epoch: u64)
    requires |jobs| == |results| && forall i :: 0 <= i < |results| ==> results[i].code == Granted
    ensures Askers(Replies(jobs, Verdicts(results, done, num), epoch)) == Heard(Granteds(jobs), true)
  {
    RepliesAreHeard(jobs, Verdicts(results, done, num), epoch);
    SameHeard(Pairs(jobs, Verdicts(results, done, num)), Granteds(jobs));
  }

  lemma {:induction false} SameHeard(a: seq<(Job, JobResult)>, b: seq<(Job, JobResult)>)
    requires |a| == |b|
    requires forall i :: 0 <= i < |a| ==> a[i].0 == b[i].0 && a[i].1.code != Stale && b[i].1.code != Stale
    ensures Heard(a, true) == Heard(b, true)
  {
    if a != [] {
      SameHeard(a[..|a| - 1], b[..|b| - 1]);
    }
  }

  lemma AdmitJobStale(s: SetState, now: int, adm: Admitted, j: Job)
    ensures var r := AdmitJob(s, now, adm, j).results;
            |r| == |adm.results| + 1 && r[..|adm.results|] == adm.results
            && (r[|adm.results|].code == Stale <==> IsStale(j, now))
  {
    hide FreshCount, ValuesOf, AsSet, DeltasOf, IsStale;
  }

  lemma {:induction false} AdmitStaleRight(states: seq<SetState>, size: int, now: int, jobs: seq<Job>)
    requires |states| == |jobs|
    ensures StaleRight(jobs, now, Admit(states, size, now, jobs).results)
  {
    hide AdmitJob, IsStale;
    if jobs != [] {
      var n := |jobs| - 1;
      AdmitStaleRight(states[..n], size, now, jobs[..n]);
      AdmitJobStale(states[n], now, Admit(states[..n], size, now, jobs[..n]), jobs[n]);
      var before := Admit(states[..n], size, now, jobs[..n]).results;
      assert Admit(states, size, now, jobs).results[..n] == before;
    }
  }

  // A call of plan is a planning move: its results are possible ones, its answers go to the
  // jobs the move lists, and its batch carries the jobs the move queues.
  lemma PlanIsAMove(f: Flow, states: seq<SetState>, size: int, at: SetState, now: int, results: seq<JobResult>, p: Plan,
                    epoch: u64, pkg: Bytes)
    requires PlannedFrom(states, size, at, now, f.gathered, results, p) && f.gathered != [] && f.received == []
    ensures Enabled(f, PlanAtOnce(now, results)) && Enabled(f, PlanBatch(now, results))
    ensures After(f, PlanAtOnce(now, results)).answered == f.answered + Askers(Replies(f.gathered, results, epoch))
    ensures After(f, PlanBatch(now, results)).answered == f.answered + Askers(RefusedReplies(f.gathered, results, epoch))
    ensures After(f, PlanBatch(now, results)).batches == f.batches + [Carry(f.gathered, results, p, pkg).jobs]
  {
    hide Admit, PlanOf, Heard, Replies, Carried, Refused, IsStale;
    AdmitStaleRight(states, size, now, f.gathered);
    RepliesAreHeard(f.gathered, results, epoch);
    RefusedAreHeard(f.gathered, results, epoch);
  }

  // A call of commit is the last move of its batch's jobs, whatever the store says.
  lemma CommitIsAMove(f: Flow, b: Batch, done: bool, num: nat, epoch: u64)
    requires f.batches != [] && f.batches[0] == b.jobs && |b.jobs| == |b.results|
    requires forall i :: 0 <= i < |b.results| ==> b.results[i].code == Granted
    ensures After(f, Finish).answered == f.answered + Askers(Replies(b.jobs, Verdicts(b.results, done, num), epoch))
  {
    hide Heard, Replies, Granteds;
    BatchIsHeard(b.jobs, b.results, done, num, epoch);
  }
}
