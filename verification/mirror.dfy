// Mirrors of a running keeper: whatever it was asked to do, and across its crashes, a
// snapshot and the packages since give a mirror its contents (internal/keeper/keeper.go,
// pack, packSnapshot and commit; internal/set/set.go, Snapshot).
module Mirroring {
  import opened Types
  import opened SetModel
  import opened SetLaws
  import opened Pipeline
  import opened Codec
  import opened Store
  import opened Dataset
  import opened Durable
  import opened Canon
  import opened Replication
  import opened Crash

  // ---------- what is asked, and what waits ----------

  // Requests, or deltas, over the universe that a package can carry.
  predicate Sendables(c: Config, universe: set<Text>, deltas: seq<Delta>)
  {
    Carriable(c, deltas) && Touched(deltas) <= universe
  }

  ghost predicate SendableQueue(c: Config, universe: set<Text>, plans: seq<Plan>)
  {
    forall i :: 0 <= i < |plans| ==> Sendables(c, universe, plans[i].deltas)
  }

  // The committed entries, and every plan in flight, can be sent to a mirror.
  ghost predicate Mirrored(a: Sys, universe: set<Text>)
  {
    && Followable(a.s.cfg, a.s.key, universe, a.s.entries)
    && CanonQueue(a.s.cfg, a.s.key, a.queue) && SendableQueue(a.s.cfg, universe, a.queue)
  }

  lemma SendablesOk(c: Config, universe: set<Text>, deltas: seq<Delta>)
    requires Sendables(c, universe, deltas)
    ensures AllRecordsOk(c, deltas)
  {}

  lemma TouchedAt(deltas: seq<Delta>, i: nat)
    requires i < |deltas|
    ensures deltas[i].rec.value in Touched(deltas)
  {}

  lemma TouchedWithin(deltas: seq<Delta>, universe: set<Text>)
    requires forall i :: 0 <= i < |deltas| ==> deltas[i].rec.value in universe
    ensures Touched(deltas) <= universe
  {}

  lemma MadeFromFits(c: Config, d: Delta, asked: Delta)
    requires MadeFrom(d, asked) && WireOk(c, asked.rec) && TextFits(c, asked.rec)
    ensures WireOk(c, d.rec) && TextFits(c, d.rec) && d.rec.value == asked.rec.value
  {}

  // A plan made of sendable requests can be sent.
  lemma PlannedSendable(s: SetState, universe: set<Text>, deltas: seq<Delta>)
    requires Sendables(s.cfg, universe, deltas)
    ensures Sendables(s.cfg, universe, PlanOf(s, deltas).deltas)
  {
    hide WireOk, TextFits, PlanDraft, MadeFrom, Touched;
    DraftMadeFrom(s, deltas);
    var a := PlanDraft(s, deltas).applied;
    forall i | 0 <= i < |a|
      ensures WireOk(s.cfg, a[i].rec) && TextFits(s.cfg, a[i].rec) && a[i].rec.value in universe
    {
      var j :| 0 <= j < |deltas| && MadeFrom(a[i], deltas[j]);
      MadeFromFits(s.cfg, a[i], deltas[j]);
      TouchedAt(deltas, j);
    }
    TouchedWithin(a, universe);
    TouchedWithin([], universe);
  }

  ghost predicate TextsFit(c: Config, e: Entries)
  {
    forall v :: v in e ==> TextFits(c, SnapRecord(v, e[v]))
  }

  lemma ApplyTexts(c: Config, e: Entries, d: Delta)
    requires TextsFit(c, e) && TextFits(c, d.rec)
    ensures TextsFit(c, Apply(e, d))
  {}

  lemma {:induction false} ReplayTexts(c: Config, e: Entries, deltas: seq<Delta>)
    requires TextsFit(c, e) && forall i :: 0 <= i < |deltas| ==> TextFits(c, deltas[i].rec)
    ensures TextsFit(c, Replay(e, deltas))
  {
    hide TextsFit, TextFits, Apply;
    if deltas != [] {
      var n := |deltas| - 1;
      ReplayTexts(c, e, deltas[..n]);
      ApplyTexts(c, Replay(e, deltas[..n]), deltas[n]);
    }
  }

  lemma ReplayFollowable(c: Config, key: Key, universe: set<Text>, e: Entries, deltas: seq<Delta>)
    requires Followable(c, key, universe, e) && CanonDeltas(c, key, deltas) && Sendables(c, universe, deltas)
    ensures Followable(c, key, universe, Replay(e, deltas))
  {
    hide TextFits, WireOk, CanonHashes, CanonDeltas, SnapRecord;
    ReplayCanon(c, key, e, deltas);
    ReplayKeys(e, deltas);
    ReplayTexts(c, e, deltas);
  }

  // ---------- one step ----------

  // From a to b either nothing was committed, or the one plan p.
  ghost predicate Link(a: Sys, b: Sys, p: Option<Plan>, universe: set<Text>)
  {
    && (b.s.cfg, b.s.epoch, b.s.key) == (a.s.cfg, a.s.epoch, a.s.key)
    && match p
       case None => b.s.entries == a.s.entries && b.s.num == a.s.num
       case Some(plan) =>
         && PlanFits(a.s.entries, a.s.num, plan)
         && b.s.entries == Replay(a.s.entries, plan.deltas) && b.s.num == plan.num
         && CanonDeltas(a.s.cfg, a.s.key, plan.deltas) && Sendables(a.s.cfg, universe, plan.deltas)
  }

  function CommitOf(a: Sys, step: Step): Option<Plan>
  {
    if step.DoCommit? && a.queue != [] then Some(a.queue[0]) else None
  }

  lemma HeadFitsNow(a: Sys, k: nat)
    requires InvAt(a, k) && HeadLive(a)
    ensures PlanFits(a.s.entries, a.s.num, a.queue[0])
  {
    hide XorOf, ViewCounted, Overlay, PlanFits;
    assert a.queue[0..] == a.queue;
  }

  lemma PlanLinks(a: Sys, b: Sys, deltas: seq<Delta>, k: nat, universe: set<Text>)
    requires InvAt(a, k) && Next(a, b, DoPlan(deltas)) && Mirrored(a, universe)
    requires Sendables(a.s.cfg, universe, deltas)
    ensures Mirrored(b, universe) && Link(a, b, None, universe)
  {
    hide SetInv, Chain, PlanDraft, Followable, CanonDeltas, Sendables, AllRecordsOk;
    SendablesOk(a.s.cfg, universe, deltas);
    EntriesCanon(a.s.cfg, a.s.key, universe, a.s.entries);
    PlannedCanon(a.s, a.queue[k..], deltas);
    PlannedSendable(a.s, universe, deltas);
  }

  lemma EntriesCanon(c: Config, key: Key, universe: set<Text>, e: Entries)
    requires Followable(c, key, universe, e)
    ensures CanonHashes(c, key, e)
  {}

  lemma CommitLinks(a: Sys, b: Sys, k: nat, universe: set<Text>)
    requires InvAt(a, k) && Next(a, b, DoCommit) && Mirrored(a, universe)
    ensures Mirrored(b, universe) && Link(a, b, Some(a.queue[0]), universe)
  {
    hide InvAt, Followable, CanonDeltas, Sendables, Replay, ReplayHash, ReplayExp, DropOwn, XorOf, Fits;
    HeadFitsNow(a, k);
    ReplayFollowable(a.s.cfg, a.s.key, universe, a.s.entries, a.queue[0].deltas);
  }

  lemma StepLinks(a: Sys, b: Sys, step: Step, k: nat, universe: set<Text>)
    requires InvAt(a, k) && Next(a, b, step) && Mirrored(a, universe)
    requires step.DoPlan? ==> Sendables(a.s.cfg, universe, step.deltas)
    ensures Mirrored(b, universe) && Link(a, b, CommitOf(a, step), universe)
  {
    match step
    case DoPlan(deltas) =>
      hide Mirrored, Link, InvAt, Next;
      PlanLinks(a, b, deltas, k, universe);
    case DoCommit =>
      hide Mirrored, Link, InvAt, AfterCommit;
      CommitLinks(a, b, k, universe);
    case _ =>
      hide Mirrored, Link, InvAt;
      QuietLinks(a, b, step, universe);
  }

  lemma QuietLinks(a: Sys, b: Sys, step: Step, universe: set<Text>)
    requires Next(a, b, step) && Mirrored(a, universe) && (step.DoFail? || step.DoDrop? || step.DoExpired?)
    ensures Mirrored(b, universe) && Link(a, b, None, universe)
  {
    hide Followable, CanonDeltas, Sendables, PopsDue, Backs;
  }

  // ---------- many ----------

  ghost predicate Linked(states: seq<Sys>, taken: seq<Option<Plan>>, universe: set<Text>)
  {
    && |states| == |taken| + 1
    && forall i :: 0 <= i < |taken| ==> Link(states[i], states[i + 1], taken[i], universe)
  }

  function Taken(taken: seq<Option<Plan>>): seq<Plan>
  {
    if taken == [] then [] else
      Taken(taken[..|taken| - 1]) + if taken[|taken| - 1].Some? then [taken[|taken| - 1].value] else []
  }

  lemma LinkedPart(states: seq<Sys>, taken: seq<Option<Plan>>, universe: set<Text>, m: nat, n: nat)
    requires Linked(states, taken, universe) && m <= n <= |taken|
    ensures Linked(states[m..n + 1], taken[m..n], universe)
  {
    hide Link;
    forall i | 0 <= i < n - m
      ensures Link(states[m..n + 1][i], states[m..n + 1][i + 1], taken[m..n][i], universe)
    {
      assert Link(states[m + i], states[m + i + 1], taken[m + i], universe);
    }
  }

  lemma {:induction false} TakenLeads(states: seq<Sys>, taken: seq<Option<Plan>>, universe: set<Text>)
    requires Linked(states, taken, universe)
    ensures var a, b, plans := states[0].s, states[|taken|].s, Taken(taken);
            && (b.cfg, b.epoch, b.key) == (a.cfg, a.epoch, a.key)
            && Chain(a.entries, a.num, plans) && ReplayAll(a.entries, plans) == b.entries && b.num == a.num + |plans|
            && CanonQueue(a.cfg, a.key, plans) && SendableQueue(a.cfg, universe, plans)
  {
    hide PlanFits, CanonDeltas, Sendables, Replay;
    if taken != [] {
      var n := |taken| - 1;
      LinkedPart(states, taken, universe, 0, n);
      assert states[0..n + 1][0] == states[0] && states[0..n + 1][n] == states[n] && taken[0..n] == taken[..n];
      TakenLeads(states[0..n + 1], taken[0..n], universe);
      assert Link(states[n], states[n + 1], taken[n], universe);
      var before := Taken(taken[..n]);
      if taken[n].None? {
        assert Taken(taken) == before + [] == before;
      } else {
        var a, p := states[0].s, taken[n].value;
        ChainSnoc(a.entries, a.num, before, p);
        ReplayAllSnoc(a.entries, before, p);
        FitsNumber(states[n].s.entries, states[n].s.num, p);
      }
    }
  }

  lemma FitsNumber(e: Entries, num: nat, p: Plan)
    requires PlanFits(e, num, p)
    ensures p.num == num + 1
  {}

  lemma {:induction false} ChainNumbers(e: Entries, num: nat, plans: seq<Plan>, i: nat)
    requires Chain(e, num, plans) && i < |plans|
    ensures plans[i].num == num + i + 1
    decreases |plans|
  {
    hide XorOf, Fits, Replay;
    if i > 0 {
      ChainNumbers(Replay(e, plans[0].deltas), num + 1, plans[1..], i - 1);
    }
  }

  lemma TakenSendable(c: Config, universe: set<Text>, e: Entries, num: nat, plans: seq<Plan>)
    requires Chain(e, num, plans) && SendableQueue(c, universe, plans) && Unwrapped(num + |plans|)
    ensures Sendable(c, universe, plans)
  {
    hide Chain, Carriable, Touched;
    forall i | 0 <= i < |plans|
      ensures Unwrapped(plans[i].num) && Carriable(c, plans[i].deltas) && Touched(plans[i].deltas) <= universe
    {
      ChainNumbers(e, num, plans, i);
    }
  }

  // The header of the snapshot announces the first state, and the key it carries gives the
  // mirror the keeper's hash over its own records.
  ghost predicate GivesKey(first: SetState, s: SetState, sorted: seq<PackRecord>, m: Mirror)
    requires Unwrapped(first.num)
  {
    var head := UnpackBytes(SnapshotBytes(first.cfg, first.epoch, first.key, first.num, XorOf(first.entries), sorted));
    && head.Ok? && Announces(head.value.0, 1, s.epoch, s.key, first.num, XorOf(first.entries), |first.entries|)
    && MirrorHash(s.cfg, head.value.0.key, m) == XorOf(s.entries)
  }

  lemma AnnouncesKey(h: PackHead, kind: u8, epoch: u64, key: Key, num: nat, hash: Hash, count: nat)
    requires Announces(h, kind, epoch, key, num, hash, count)
    ensures h.key == key
  {}

  // What a mirror gets of the state s, when it was at state first for its snapshot.
  ghost predicate MirrorGets(universe: set<Text>, first: SetState, s: SetState, sorted: seq<PackRecord>, plans: seq<Plan>)
  {
    && Unwrapped(first.num) && Sendable(first.cfg, universe, plans)
    && var m := ReadSince(first.cfg, first.epoch, first.key, first.entries, first.num, sorted, plans);
       && m.Some? && Mirrors(s.cfg, s.entries, m.value)
       && GivesKey(first, s, sorted, m.value)
       && (plans != [] ==>
             var head := UnpackBytes(PackageBytes(s.cfg, s.epoch, s.key, plans[|plans| - 1]));
             && head.Ok?
             && Announces(head.value.0, 2, s.epoch, s.key, s.num, XorOf(s.entries), |plans[|plans| - 1].deltas|))
  }

  lemma LinkedMirror(states: seq<Sys>, taken: seq<Option<Plan>>, universe: set<Text>, sorted: seq<PackRecord>)
    requires Linked(states, taken, universe) && Mirrored(states[0], universe)
    requires Observable(states[0].s.cfg, universe) && SnapshotOf(states[0].s.cfg, states[0].s.entries, sorted)
    requires Unwrapped(states[|taken|].s.num)
    ensures MirrorGets(universe, states[0].s, states[|taken|].s, sorted, Taken(taken))
  {
    hide Link, Observable, Followable, SnapshotOf, Mirrors, MirrorHash, UnpackBytes, PackageBytes, ReadSince, Announces,
         SnapshotBytes,
         XorOf, HashNum, CanonQueue, SendableQueue, Sendable, Chain, ReplayAll, Taken;
    TakenLeads(states, taken, universe);
    var a, plans := states[0].s, Taken(taken);
    TakenSendable(a.cfg, universe, a.entries, a.num, plans);
    SnapshotThenPackages(a.cfg, a.epoch, a.key, universe, a.entries, a.num, sorted, plans);
    SnapshotHead(a.cfg, a.epoch, a.key, universe, a.entries, a.num, sorted);
    var head := UnpackBytes(SnapshotBytes(a.cfg, a.epoch, a.key, a.num, XorOf(a.entries), sorted)).value.0;
    AnnouncesKey(head, 1, a.epoch, a.key, a.num, XorOf(a.entries), |a.entries|);
    if plans != [] {
      LastPackageHead(a.cfg, a.epoch, a.key, universe, a.entries, a.num, plans);
    }
  }

  // ---------- runs of the pipeline ----------

  // The plans committed at each step.
  function CommitsOf(states: seq<Sys>, steps: seq<Step>): (r: seq<Option<Plan>>)
    requires |states| == |steps| + 1
    ensures |r| == |steps|
  {
    seq(|steps|, i requires 0 <= i < |steps| => CommitOf(states[i], steps[i]))
  }

  // Only what the planner is asked to do matters.
  ghost predicate SendableRun(states: seq<Sys>, steps: seq<Step>, universe: set<Text>)
  {
    && Run(states, steps)
    && Observable(states[0].s.cfg, universe)
    && Followable(states[0].s.cfg, states[0].s.key, universe, states[0].s.entries)
    && forall i :: 0 <= i < |steps| && steps[i].DoPlan? ==> Sendables(states[0].s.cfg, universe, steps[i].deltas)
  }

  lemma {:induction false} RunLinks(states: seq<Sys>, steps: seq<Step>, universe: set<Text>, n: nat)
    requires SendableRun(states, steps, universe) && n < |states|
    ensures Mirrored(states[n], universe) && states[n].s.cfg == states[0].s.cfg
    ensures forall i :: 0 <= i < n ==> Link(states[i], states[i + 1], CommitOf(states[i], steps[i]), universe)
  {
    hide Next, Link, InvAt, Observable, Followable, Sendables, SetInv;
    if n > 0 {
      RunLinks(states, steps, universe, n - 1);
      RunKeeps(states, steps, n - 1);
      var k: nat :| InvAt(states[n - 1], k);
      assert Next(states[n - 1], states[n - 1 + 1], steps[n - 1]);
      StepLinks(states[n - 1], states[n], steps[n - 1], k, universe);
      LinkKeepsConfig(states[n - 1], states[n], CommitOf(states[n - 1], steps[n - 1]), universe);
    }
  }

  lemma LinkKeepsConfig(a: Sys, b: Sys, p: Option<Plan>, universe: set<Text>)
    requires Link(a, b, p, universe)
    ensures (b.s.cfg, b.s.epoch, b.s.key) == (a.s.cfg, a.s.epoch, a.s.key)
  {}

  // In every run of plans, commits, failures and sweeps over requests a package can carry, a
  // mirror that reads a snapshot taken in any state, then the packages committed since, holds
  // exactly the keeper's values and expiries, finds its hash, and reads it in the last header.
  lemma MirrorFollows(states: seq<Sys>, steps: seq<Step>, universe: set<Text>, m: nat, n: nat, sorted: seq<PackRecord>)
    requires SendableRun(states, steps, universe) && m <= n < |states| && Unwrapped(states[n].s.num)
    requires SnapshotOf(states[m].s.cfg, states[m].s.entries, sorted)
    ensures MirrorGets(universe, states[m].s, states[n].s, sorted, Taken(CommitsOf(states, steps)[m..n]))
    ensures states[n].s.hash == XorOf(states[n].s.entries)
  {
    hide Next, Init, Link, Mirrored, Observable, Followable, Sendables, SnapshotOf, MirrorGets, Taken, XorOf;
    RunLinks(states, steps, universe, m);
    RunLinks(states, steps, universe, |steps|);
    var taken := CommitsOf(states, steps);
    LinkedPart(states, taken, universe, m, n);
    assert states[m..n + 1][0] == states[m] && states[m..n + 1][n - m] == states[n];
    LinkedMirror(states[m..n + 1], taken[m..n], universe, sorted);
    HashInRun(states, steps, n);
  }

  lemma HashInRun(states: seq<Sys>, steps: seq<Step>, n: nat)
    requires Run(states, steps) && n < |states|
    ensures states[n].s.hash == XorOf(states[n].s.entries)
  {
    hide Run, Chain, ViewCounted, XorOf;
    RunKeeps(states, steps, n);
    var k: nat :| InvAt(states[n], k);
  }

  // ---------- histories with crashes ----------

  // The plan an event brings into memory: by its commit, or by a crash after the store took it.
  function TakenBy(a: World, ev: Event): Option<Plan>
  {
    if (ev.MemoryCommits? || (ev.CrashAndMount? && a.written)) && a.sys.queue != [] then Some(a.sys.queue[0]) else None
  }

  lemma CrashLinks(a: World, b: World, k: nat, d: Definition, l: Loaded, first: Draw, second: Draw, universe: set<Text>)
    requires WorldInv(a, k, d) && Happens(a, b, CrashAndMount(l, first, second), d) && Mirrored(a.sys, universe)
    ensures Mirrored(b.sys, universe) && Link(a.sys, b.sys, TakenBy(a, CrashAndMount(l, first, second)), universe)
  {
    hide InvAt, Followable, CanonDeltas, Sendables, PlanFits, Replay, Mounted, LoadsFrom, Agree, AfterReset, CanonHashes,
         AfterCommit, XorOf;
    CrashResumes(a, b, k, d, l, first, second);
    CrashKeepsConfig(a, b, k, d, l, first, second);
    if a.written {
      HeadFitsNow(a.sys, k);
      ReplayFollowable(a.sys.s.cfg, a.sys.s.key, universe, a.sys.s.entries, a.sys.queue[0].deltas);
    }
  }

  lemma CrashKeepsConfig(a: World, b: World, k: nat, d: Definition, l: Loaded, first: Draw, second: Draw)
    requires WorldInv(a, k, d) && Happens(a, b, CrashAndMount(l, first, second), d)
    ensures b.sys.s.cfg == a.sys.s.cfg && b.sys.queue == []
  {
    hide InvAt, LoadsFrom, Agree, AfterReset, CanonHashes, CanonQueue, StorableQueue, Mounted;
    MountedShape(l, d, false, first, second);
  }

  lemma EventLinks(a: World, b: World, ev: Event, k: nat, d: Definition, universe: set<Text>)
    requires WorldInv(a, k, d) && Happens(a, b, ev, d) && Mirrored(a.sys, universe)
    requires ev.Planner? && ev.step.DoPlan? ==> Sendables(d.cfg, universe, ev.step.deltas)
    ensures Mirrored(b.sys, universe) && Link(a.sys, b.sys, TakenBy(a, ev), universe)
  {
    hide Mirrored, Link, InvAt, Next, Agree, CanonHashes, CanonQueue, StorableQueue, Stored, LoadsFrom, Mounted, AfterReset,
         AfterStoreCommit;
    match ev
    case Planner(step) =>
      StepLinks(a.sys, b.sys, step, k, universe);
    case StoreTakes(_, _) =>
      NothingLinks(a.sys, universe);
    case MemoryCommits =>
      StepLinks(a.sys, b.sys, DoCommit, k, universe);
    case StoreFails =>
      StepLinks(a.sys, b.sys, DoFail, k, universe);
    case DropStale =>
      StepLinks(a.sys, b.sys, DoDrop, k, universe);
    case CrashAndMount(l, first, second) =>
      CrashLinks(a, b, k, d, l, first, second, universe);
  }

  lemma NothingLinks(a: Sys, universe: set<Text>)
    ensures Link(a, a, None, universe)
  {}

  ghost predicate SendableHistory(worlds: seq<World>, events: seq<Event>, d: Definition, universe: set<Text>)
  {
    && History(worlds, events, d) && WorldInv(worlds[0], 0, d) && worlds[0].sys.queue == []
    && Observable(d.cfg, universe)
    && Followable(d.cfg, worlds[0].sys.s.key, universe, worlds[0].sys.s.entries)
    && forall i :: 0 <= i < |events| && events[i].Planner? && events[i].step.DoPlan? ==>
         Sendables(d.cfg, universe, events[i].step.deltas)
  }

  lemma {:induction false} HistoryLinks(worlds: seq<World>, events: seq<Event>, d: Definition, universe: set<Text>, n: nat)
    requires SendableHistory(worlds, events, d, universe) && n < |worlds|
    ensures Mirrored(worlds[n].sys, universe)
    ensures forall i :: 0 <= i < n ==> Link(worlds[i].sys, worlds[i + 1].sys, TakenBy(worlds[i], events[i]), universe)
  {
    hide Happens, Link, Observable, Followable, Sendables, PlannableAll, InvAt, Agree, CanonHashes;
    if n > 0 {
      HistoryLinks(worlds, events, d, universe, n - 1);
      var k := HistoryAgrees(worlds, events, d, n - 1);
      assert Happens(worlds[n - 1], worlds[n - 1 + 1], events[n - 1], d);
      EventLinks(worlds[n - 1], worlds[n], events[n - 1], k, d, universe);
    }
  }

  function Systems(worlds: seq<World>): (r: seq<Sys>)
    ensures |r| == |worlds|
  {
    seq(|worlds|, i requires 0 <= i < |worlds| => worlds[i].sys)
  }

  function TakenAlong(worlds: seq<World>, events: seq<Event>): (r: seq<Option<Plan>>)
    requires |worlds| == |events| + 1
    ensures |r| == |events|
  {
    seq(|events|, i requires 0 <= i < |events| => TakenBy(worlds[i], events[i]))
  }

  // Crashes at any moment make no difference to a mirror: the snapshot of any world and the
  // packages of the plans taken since, before and after crashes, still give it the contents.
  lemma MirrorSurvivesCrashes(worlds: seq<World>, events: seq<Event>, d: Definition, universe: set<Text>, m: nat, n: nat,
                              sorted: seq<PackRecord>)
    requires SendableHistory(worlds, events, d, universe) && m <= n < |worlds|
    requires SnapshotOf(worlds[m].sys.s.cfg, worlds[m].sys.s.entries, sorted)
    ensures MirrorGets(universe, worlds[m].sys.s, worlds[n].sys.s, sorted, Taken(TakenAlong(worlds, events)[m..n]))
  {
    hide Happens, PlannableAll, Link, Mirrored, Observable, Followable, Sendables, SnapshotOf, MirrorGets, Taken, WorldInv;
    HistoryLinks(worlds, events, d, universe, m);
    HistoryLinks(worlds, events, d, universe, |events|);
    HistoryNumbers(worlds, events, d, m);
    HistoryNumbers(worlds, events, d, n);
    var states, taken := Systems(worlds), TakenAlong(worlds, events);
    LinkedPart(states, taken, universe, m, n);
    assert states[m..n + 1][0] == worlds[m].sys && states[m..n + 1][n - m] == worlds[n].sys;
    LinkedMirror(states[m..n + 1], taken[m..n], universe, sorted);
  }

  lemma HistoryNumbers(worlds: seq<World>, events: seq<Event>, d: Definition, n: nat)
    requires History(worlds, events, d) && WorldInv(worlds[0], 0, d) && n < |worlds|
    ensures Unwrapped(worlds[n].sys.s.num) && worlds[n].sys.s.cfg == d.cfg
  {
    hide History, InvAt, Agree, CanonHashes, CanonQueue, StorableQueue;
    var k := HistoryAgrees(worlds, events, d, n);
    StoredNumber(worlds[n], k, d);
  }

  lemma StoredNumber(a: World, k: nat, d: Definition)
    requires WorldInv(a, k, d)
    ensures Unwrapped(a.sys.s.num)
  {
    hide SetInv, CanonHashes, CanonQueue, StorableQueue, AfterCommit, Chain;
    if a.written {
      HeadFits(a, k, d);
      CommitMatchesPlan(a.sys.s, a.sys.queue);
    }
  }
}
