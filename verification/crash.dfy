// Whole runs of memory and store: commits in two halves, failed transactions, and crashes
// at any moment followed by mount.
module Crash {
  import opened Types
  import opened SetModel
  import opened Pipeline
  import opened Expiry
  import opened Store
  import opened Durable
  import opened Canon

  // written: the store has taken the head of the queue, memory has not committed it yet.
  datatype World = World(sys: Sys, st: StoreState, written: bool)

  datatype Event =
    | Planner(step: Step)                                // DoPlan or DoExpired
    | StoreTakes(key: Text, pkg: Bytes)                  // the transaction of the head succeeds
    | MemoryCommits                                      // and memory follows
    | StoreFails                                         // the transaction had no effect; Abort
    | DropStale
    | CrashAndMount(l: Loaded, first: Draw, second: Draw)

  function Head(a: World): Plan
    requires HeadLive(a.sys)
  {
    a.sys.queue[0]
  }

  ghost predicate Happens(a: World, b: World, ev: Event, d: Definition)
  {
    match ev
    case Planner(step) =>
      (step.DoPlan? || step.DoExpired?) && Next(a.sys, b.sys, step) && b == a.(sys := b.sys)
    case StoreTakes(key, pkg) =>
      && HeadLive(a.sys) && !a.written && Unwrapped(Head(a).num)
      && b == a.(written := true,
                 st := AfterStoreCommit(a.st, Head(a).deltas, Head(a).num, HashNum(Head(a).hash), key, pkg))
    case MemoryCommits =>
      a.written && Next(a.sys, b.sys, DoCommit) && b == a.(sys := b.sys, written := false)
    case StoreFails =>
      !a.written && Next(a.sys, b.sys, DoFail) && b == a.(sys := b.sys)
    case DropStale =>
      !a.written && Next(a.sys, b.sys, DoDrop) && b == a.(sys := b.sys)
    case CrashAndMount(l, first, second) =>
      && LoadsFrom(a.st, l) && Unwrapped(first.num) && Unwrapped(second.num)
      && var s := Mounted(l, d, false, first, second);
         && b.st == AfterReset(a.st, MetaOf(s, d.id), Keeps(l, d)) && !b.written
         && b.sys == Sys(s, [], s.entries, s.num, [])
  }

  // ---------- what a plan carries ----------

  // What a caller of the planner must see to: origins without the separator, expiries a
  // float64 can hold, and prefixes that belong to their text.
  predicate PlannableAll(c: Config, deltas: seq<Delta>)
  {
    AllRecordsOk(c, deltas) && AllStorable(deltas)
  }

  ghost predicate StorableQueue(plans: seq<Plan>)
  {
    forall i :: 0 <= i < |plans| ==> AllStorable(plans[i].deltas)
  }

  lemma PlannedStorable(s: SetState, deltas: seq<Delta>)
    requires AllStorable(deltas)
    ensures AllStorable(PlanOf(s, deltas).deltas)
  {
    hide Storable, PlanDraft;
    DraftMadeFrom(s, deltas);
    var a := PlanDraft(s, deltas).applied;
    forall i | 0 <= i < |a| && a[i].op == Add
      ensures Storable(a[i].rec)
    {
      var j :| 0 <= j < |deltas| && MadeFrom(a[i], deltas[j]);
    }
  }

  // ---------- the invariant ----------

  // The set the store agrees with: memory, or memory once it has committed the head.
  function Stored(a: World): SetState
    requires a.written ==> HeadLive(a.sys)
  {
    if a.written then AfterCommit(a.sys.s, Head(a)) else a.sys.s
  }

  ghost predicate WorldInv(a: World, k: nat, d: Definition)
  {
    var s := a.sys.s;
    && InvAt(a.sys, k)
    && s.cfg == d.cfg
    && CanonHashes(s.cfg, s.key, s.entries)
    && CanonQueue(s.cfg, s.key, a.sys.queue) && StorableQueue(a.sys.queue)
    && (a.written ==> HeadLive(a.sys))
    && Agree(a.st, Stored(a), d.id)
  }

  lemma AgreeElsewhere(st: StoreState, s: SetState, t: SetState, id: Text)
    requires Agree(st, s, id)
    requires (s.cfg, s.epoch, s.key, s.num, s.hash, s.entries) == (t.cfg, t.epoch, t.key, t.num, t.hash, t.entries)
    ensures Agree(st, t, id)
  {}

  // The planner's steps leave what is committed, and what will be, as it was.
  lemma PlannerLeavesCommitted(s: SetState, t: SetState, p: Plan)
    requires p.deltas != []
    requires (s.cfg, s.epoch, s.key, s.num, s.hash, s.entries) == (t.cfg, t.epoch, t.key, t.num, t.hash, t.entries)
    ensures var u, v := AfterCommit(s, p), AfterCommit(t, p);
            (u.cfg, u.epoch, u.key, u.num, u.hash, u.entries) == (v.cfg, v.epoch, v.key, v.num, v.hash, v.entries)
  {
    hide AfterCommit;
    CommitShape(s, p);
    CommitShape(t, p);
  }

  lemma CommitShape(s: SetState, p: Plan)
    requires p.deltas != []
    ensures var t := AfterCommit(s, p);
            && (t.cfg, t.epoch, t.key, t.num) == (s.cfg, s.epoch, s.key, p.num)
            && t.entries == Replay(s.entries, p.deltas) && t.hash == ReplayHash(s.entries, s.hash, p.deltas)
  {
    hide Replay, ReplayHash, ReplayExp, DropOwn;
  }

  lemma HeadFits(a: World, k: nat, d: Definition)
    requires WorldInv(a, k, d) && HeadLive(a.sys)
    ensures k == 0 && SetInv(a.sys.s, a.sys.queue) && a.sys.queue != []
  {
    hide SetInv, Chain, AllStorable, Agree, CanonHashes, CanonDeltas;
    assert a.sys.queue[0..] == a.sys.queue;
  }

  lemma PlannerKeepsWorld(a: World, b: World, step: Step, k: nat, d: Definition)
    requires WorldInv(a, k, d) && Happens(a, b, Planner(step), d)
    requires step.DoPlan? ==> PlannableAll(d.cfg, step.deltas)
    ensures WorldInv(b, k, d)
  {
    hide SetInv, Chain, AllStorable, Agree, CanonHashes, CanonDeltas, PlanDraft, AfterCommit, AllRecordsOk, ReplayAll;
    match step {
      case DoPlan(deltas) =>
        PlanKeeps(a.sys, b.sys, deltas, k);
        assert CanonQueue(d.cfg, a.sys.s.key, a.sys.queue[k..]);
        PlannedCanon(a.sys.s, a.sys.queue[k..], deltas);
        PlannedStorable(a.sys.s, deltas);
      case DoExpired(now, popped) =>
        ExpiredKeeps(a.sys, b.sys, now, popped, k);
    }
    if a.written {
      HeadFits(a, k, d);
      HeadHasDeltas(a.sys.s, a.sys.queue);
      PlannerLeavesCommitted(a.sys.s, b.sys.s, Head(a));
    }
    AgreeElsewhere(a.st, Stored(a), Stored(b), d.id);
  }

  lemma StoreTakesKeepsWorld(a: World, b: World, key: Text, pkg: Bytes, k: nat, d: Definition)
    requires WorldInv(a, k, d) && Happens(a, b, StoreTakes(key, pkg), d)
    ensures WorldInv(b, k, d)
  {
    hide SetInv, AllStorable, Agree, CanonHashes, CanonDeltas, AfterCommit, AfterStoreCommit;
    HeadFits(a, k, d);
    var p := Head(a);
    CommitMatchesPlan(a.sys.s, a.sys.queue);
    HeadHasDeltas(a.sys.s, a.sys.queue);
    CommitAgrees(a.st, a.sys.s, d.id, p, key, pkg);
  }

  lemma MemoryCommitsKeepsWorld(a: World, b: World, k: nat, d: Definition)
    requires WorldInv(a, k, d) && Happens(a, b, MemoryCommits, d)
    ensures WorldInv(b, 0, d)
  {
    hide SetInv, AllStorable, Agree, CanonHashes, CanonDeltas, Chain, ReplayAll, ReplayHash, ReplayExp, DropOwn, Replay;
    HeadFits(a, k, d);
    CommitKeeps(a.sys, b.sys, k);
    ReplayCanon(d.cfg, a.sys.s.key, a.sys.s.entries, Head(a).deltas);
    HeadHasDeltas(a.sys.s, a.sys.queue);
  }

  lemma FailKeepsWorld(a: World, b: World, k: nat, d: Definition)
    requires WorldInv(a, k, d) && Happens(a, b, StoreFails, d)
    ensures WorldInv(b, |b.sys.queue|, d)
  {
    hide SetInv, AllStorable, Agree, CanonHashes, CanonDeltas, Chain, ReplayAll;
    FailKeeps(a.sys, b.sys, k);
    AgreeElsewhere(a.st, a.sys.s, b.sys.s, d.id);
  }

  lemma DropKeepsWorld(a: World, b: World, k: nat, d: Definition)
    requires WorldInv(a, k, d) && Happens(a, b, DropStale, d)
    ensures k > 0 && WorldInv(b, k - 1, d)
  {
    hide SetInv, AllStorable, Agree, CanonHashes, CanonDeltas, Chain, ReplayAll;
    assert k > 0;
    assert b.sys.queue[k - 1..] == a.sys.queue[k..];
  }

  lemma StoredCanon(a: World, k: nat, d: Definition)
    requires WorldInv(a, k, d)
    ensures var s := Stored(a);
            s.cfg == d.cfg && s.key == a.sys.s.key && s.epoch == a.sys.s.epoch
            && CanonHashes(s.cfg, s.key, s.entries) && s.hash == XorOf(s.entries)
  {
    hide SetInv, AllStorable, Agree, CanonHashes, CanonDeltas, Chain, ReplayAll, AfterCommit;
    if a.written {
      HeadFits(a, k, d);
      CommitMatchesPlan(a.sys.s, a.sys.queue);
      HeadHasDeltas(a.sys.s, a.sys.queue);
      CommitShape(a.sys.s, Head(a));
      ReplayCanon(d.cfg, a.sys.s.key, a.sys.s.entries, Head(a).deltas);
      SetHash(Stored(a), a.sys.queue[1..]);
    } else {
      SetHash(a.sys.s, a.sys.queue[k..]);
    }
  }

  lemma SetHash(s: SetState, live: seq<Plan>)
    requires SetInv(s, live)
    ensures s.hash == XorOf(s.entries)
  {}

  // A crash at any moment, also between the store's commit and memory's, followed by mount,
  // resumes the same epoch and key with exactly the number and contents last stored.
  lemma CrashResumes(a: World, b: World, k: nat, d: Definition, l: Loaded, first: Draw, second: Draw)
    requires WorldInv(a, k, d) && Happens(a, b, CrashAndMount(l, first, second), d)
    ensures var s, t := a.sys.s, b.sys.s;
            && (t.epoch, t.key) == (s.epoch, s.key)
            && (a.written ==> t.num == s.num + 1 == Head(a).num && t.entries == Replay(s.entries, Head(a).deltas))
            && (!a.written ==> t.num == s.num && t.entries == s.entries)
            && t.hash == XorOf(t.entries)
            && IndexedBy(t.entries, t.exp)
    ensures WorldInv(b, 0, d)
  {
    hide Agree, CanonHashes, CanonDeltas, AfterCommit, Mounted, LoadsFrom, XorOf, IndexedBy, View, SetInv, AfterReset, Settled;
    StoredCanon(a, k, d);
    MountResumes(a.st, Stored(a), l, d, first, second);
    MountAgrees(a.st, l, d, false, first, second);
    if a.written {
      HeadFits(a, k, d);
      CommitMatchesPlan(a.sys.s, a.sys.queue);
    }
    SettledInv(b.sys.s);
    assert b.sys.queue[0..] == [];
  }

  lemma SettledInv(s: SetState)
    requires Settled(s)
    ensures SetInv(s, [])
  {
    hide XorOf;
    assert View(s.entries, map[]) == s.entries;
  }

  // ---------- runs ----------

  lemma EventKeepsWorld(a: World, b: World, ev: Event, k: nat, d: Definition) returns (k': nat)
    requires WorldInv(a, k, d) && Happens(a, b, ev, d)
    requires ev.Planner? && ev.step.DoPlan? ==> PlannableAll(d.cfg, ev.step.deltas)
    ensures WorldInv(b, k', d)
  {
    hide WorldInv, Next, LoadsFrom, Mounted;
    k' := k;
    match ev
    case Planner(step) =>
      PlannerKeepsWorld(a, b, step, k, d);
    case StoreTakes(key, pkg) =>
      StoreTakesKeepsWorld(a, b, key, pkg, k, d);
    case MemoryCommits =>
      MemoryCommitsKeepsWorld(a, b, k, d);
      k' := 0;
    case StoreFails =>
      FailKeepsWorld(a, b, k, d);
      k' := |b.sys.queue|;
    case DropStale =>
      DropKeepsWorld(a, b, k, d);
      k' := k - 1;
    case CrashAndMount(l, first, second) =>
      CrashResumes(a, b, k, d, l, first, second);
      k' := 0;
  }

  ghost predicate History(worlds: seq<World>, events: seq<Event>, d: Definition)
  {
    && |worlds| == |events| + 1
    && (forall i :: 0 <= i < |events| ==> Happens(worlds[i], worlds[i + 1], events[i], d))
    && (forall i :: 0 <= i < |events| && events[i].Planner? && events[i].step.DoPlan? ==>
          PlannableAll(d.cfg, events[i].step.deltas))
  }

  // From any store whatever, once mounted: after every event memory and store agree, or the
  // store is ahead by exactly the plan memory is about to commit.
  lemma {:induction false} HistoryAgrees(worlds: seq<World>, events: seq<Event>, d: Definition, i: nat)
    returns (k: nat)
    requires History(worlds, events, d) && i < |worlds| && WorldInv(worlds[0], 0, d)
    ensures WorldInv(worlds[i], k, d)
  {
    hide WorldInv, Happens, PlannableAll;
    if i == 0 {
      k := 0;
    } else {
      var j := HistoryAgrees(worlds, events, d, i - 1);
      assert Happens(worlds[i - 1], worlds[i - 1 + 1], events[i - 1], d);
      k := EventKeepsWorld(worlds[i - 1], worlds[i], events[i - 1], j, d);
    }
  }

  // mount establishes the invariant from an arbitrary store.
  lemma MountStarts(st: StoreState, l: Loaded, d: Definition, fresh': bool, first: Draw, second: Draw)
    requires LoadsFrom(st, l) && Unwrapped(first.num) && Unwrapped(second.num)
    ensures var s := Mounted(l, d, fresh', first, second);
            Unwrapped(s.num)
            && WorldInv(World(Sys(s, [], s.entries, s.num, []), AfterReset(st, MetaOf(s, d.id), Keeps(l, d)), false), 0, d)
  {
    hide Mounted, LoadsFrom, Agree, CanonHashes, SetInv, AfterReset, Settled;
    MountAgrees(st, l, d, fresh', first, second);
    SettledInv(Mounted(l, d, fresh', first, second));
  }
}
