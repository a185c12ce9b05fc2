// Packages as mirrors read them: from the store, by number (internal/keeper/keeper.go, pack
// and commit; internal/state/state.go, DiffKey and Commit).
module Publishing {
  import opened Types
  import opened SetModel
  import opened Pipeline
  import opened MetaText
  import opened Store
  import opened Durable
  import opened Canon
  import opened Codec
  import opened Replication
  import opened Crash
  import opened Mirroring

  // "waf:diff:", name, ":" and the number in decimal.
  function DiffKey(name: Text, num: nat): Text
  {
    [119, 97, 102, 58, 100, 105, 102, 102, 58] + name + [58] + Print(num, 10)
  }

  lemma DiffKeyInjective(name: Text, a: nat, b: nat)
    requires DiffKey(name, a) == DiffKey(name, b)
    ensures a == b
  {
    hide Print, Digits;
    var n := 9 + |name| + 1;
    assert DiffKey(name, a)[n..] == Print(a, 10) && DiffKey(name, b)[n..] == Print(b, 10);
    PrintBack(a, 10);
    PrintBack(b, 10);
  }

  ghost predicate HasPackage(st: StoreState, s: SetState, name: Text, p: Plan)
  {
    && Unwrapped(p.num) && DiffKey(name, p.num) in st.objects
    && st.objects[DiffKey(name, p.num)] == PackageBytes(s.cfg, s.epoch, s.key, p)
  }

  // The transaction of a plan carries its package, as Holder.PlanJobs packed it.
  ghost predicate Carries(a: World, ev: Event, name: Text)
  {
    ev.StoreTakes? && HeadLive(a.sys) ==>
      && ev.key == DiffKey(name, Head(a).num) && Unwrapped(Head(a).num)
      && ev.pkg == PackageBytes(a.sys.s.cfg, a.sys.s.epoch, a.sys.s.key, Head(a))
  }

  ghost predicate Publishes(worlds: seq<World>, events: seq<Event>, name: Text)
  {
    |worlds| == |events| + 1 && forall i :: 0 <= i < |events| ==> Carries(worlds[i], events[i], name)
  }

  // ---------- one event ----------

  lemma ObjectsAfter(a: World, b: World, ev: Event, d: Definition)
    requires Happens(a, b, ev, d)
    ensures b.st.objects == if ev.StoreTakes? then a.st.objects[ev.key := ev.pkg] else a.st.objects
  {
    hide Next, Mounted, LoadsFrom, StoreDeltas, CommitFields, MetaFields;
    if ev.StoreTakes? {
      DeltasKeepObjects(a.st, Head(a).deltas);
    }
  }

  lemma {:induction false} DeltasKeepObjects(st: StoreState, deltas: seq<Delta>)
    ensures StoreDeltas(st, deltas).objects == st.objects
  {
    if deltas != [] {
      DeltasKeepObjects(st, deltas[..|deltas| - 1]);
    }
  }

  // A package stays: later ones have greater numbers.
  lemma PackageStays(a: World, b: World, ev: Event, d: Definition, k: nat, name: Text, p: Plan)
    requires WorldInv(a, k, d) && Happens(a, b, ev, d) && Carries(a, ev, name)
    requires HasPackage(a.st, a.sys.s, name, p) && p.num <= a.sys.s.num
    requires (b.sys.s.cfg, b.sys.s.epoch, b.sys.s.key) == (a.sys.s.cfg, a.sys.s.epoch, a.sys.s.key)
    ensures HasPackage(b.st, b.sys.s, name, p)
  {
    hide InvAt, Agree, CanonHashes, Stored, PackageBytes, Happens, DiffKey;
    ObjectsAfter(a, b, ev, d);
    if ev.StoreTakes? {
      TakenIsNext(a, b, ev, d, k);
      if DiffKey(name, p.num) == DiffKey(name, Head(a).num) {
        DiffKeyInjective(name, p.num, Head(a).num);
      }
    }
  }

  lemma TakenIsNext(a: World, b: World, ev: Event, d: Definition, k: nat)
    requires WorldInv(a, k, d) && Happens(a, b, ev, d) && ev.StoreTakes?
    ensures HeadLive(a.sys) && Head(a).num == a.sys.s.num + 1
  {
    hide InvAt, Agree, CanonHashes, Stored, AfterStoreCommit;
    HeadFitsNow(a.sys, k);
    FitsNumber(a.sys.s.entries, a.sys.s.num, Head(a));
  }

  ghost predicate HeadPublished(a: World, name: Text)
  {
    a.written && a.sys.queue != [] ==> HasPackage(a.st, a.sys.s, name, a.sys.queue[0])
  }

  lemma HeadStays(a: World, b: World, ev: Event, d: Definition, k: nat, name: Text)
    requires WorldInv(a, k, d) && Happens(a, b, ev, d) && Carries(a, ev, name) && HeadPublished(a, name)
    requires (b.sys.s.cfg, b.sys.s.epoch, b.sys.s.key) == (a.sys.s.cfg, a.sys.s.epoch, a.sys.s.key)
    ensures HeadPublished(b, name)
  {
    hide InvAt, Agree, CanonHashes, CanonQueue, StorableQueue, Stored, PackageBytes, DiffKey, PlanOf, AfterPlan, Mounted,
         LoadsFrom, AfterReset, AfterStoreCommit, AfterCommit, AfterAbort, AfterExpired;
    ObjectsAfter(a, b, ev, d);
  }

  // ---------- along a history ----------

  lemma {:induction false} HeadPublishedAlong(worlds: seq<World>, events: seq<Event>, d: Definition, universe: set<Text>,
                                              name: Text, n: nat)
    requires SendableHistory(worlds, events, d, universe) && Publishes(worlds, events, name) && n < |worlds|
    ensures HeadPublished(worlds[n], name)
  {
    hide Happens, WorldInv, Link, Observable, Followable, Sendables, PlannableAll, HeadPublished, Carries;
    if n == 0 {
      NothingWritten(worlds[0], name);
    } else {
      HeadPublishedAlong(worlds, events, d, universe, name, n - 1);
      var k := WorldAt(worlds, events, d, universe, n);
      HeadStays(worlds[n - 1], worlds[n], events[n - 1], d, k, name);
    }
  }

  lemma NothingWritten(a: World, name: Text)
    requires a.sys.queue == []
    ensures HeadPublished(a, name)
  {}

  ghost predicate AllPublished(a: World, name: Text, plans: seq<Plan>)
  {
    forall i :: 0 <= i < |plans| ==> HasPackage(a.st, a.sys.s, name, plans[i])
  }

  // What memory takes was published when the store took it.
  lemma OwnPackage(a: World, b: World, ev: Event, d: Definition, k: nat, name: Text)
    requires WorldInv(a, k, d) && Happens(a, b, ev, d) && HeadPublished(a, name) && TakenBy(a, ev).Some?
    requires (b.sys.s.cfg, b.sys.s.epoch, b.sys.s.key) == (a.sys.s.cfg, a.sys.s.epoch, a.sys.s.key)
    ensures HasPackage(b.st, b.sys.s, name, TakenBy(a, ev).value)
  {
    hide InvAt, Agree, CanonHashes, CanonQueue, StorableQueue, Stored, PackageBytes, DiffKey, Mounted, LoadsFrom, AfterReset,
         AfterCommit;
    ObjectsAfter(a, b, ev, d);
  }

  // The plans taken carry the numbers up to memory's.
  lemma TakenNumbers(worlds: seq<World>, events: seq<Event>, d: Definition, universe: set<Text>, m: nat, n: nat)
    requires SendableHistory(worlds, events, d, universe) && m <= n < |worlds|
    ensures var plans := Taken(TakenAlong(worlds, events)[m..n]);
            && worlds[n].sys.s.num == worlds[m].sys.s.num + |plans|
            && forall i :: 0 <= i < |plans| ==> plans[i].num == worlds[m].sys.s.num + i + 1
    ensures (worlds[n].sys.s.cfg, worlds[n].sys.s.epoch, worlds[n].sys.s.key)
         == (worlds[m].sys.s.cfg, worlds[m].sys.s.epoch, worlds[m].sys.s.key)
  {
    hide History, Link, Mirrored, Observable, Followable, Sendables, Taken, WorldInv, Chain, ReplayAll, CanonQueue;
    HistoryLength(worlds, events, d);
    HistoryLinks(worlds, events, d, universe, |events|);
    var states, taken := Systems(worlds), TakenAlong(worlds, events);
    LinkedPart(states, taken, universe, m, n);
    assert states[m..n + 1][0] == worlds[m].sys && states[m..n + 1][n - m] == worlds[n].sys;
    TakenLeads(states[m..n + 1], taken[m..n], universe);
    var s, plans := worlds[m].sys.s, Taken(taken[m..n]);
    forall i | 0 <= i < |plans|
      ensures plans[i].num == s.num + i + 1
    {
      ChainNumbers(s.entries, s.num, plans, i);
    }
  }

  function AndThen(plans: seq<Plan>, p: Option<Plan>): seq<Plan>
  {
    plans + if p.Some? then [p.value] else []
  }

  lemma PublishedNext(a: World, b: World, ev: Event, d: Definition, k: nat, name: Text, before: seq<Plan>)
    requires WorldInv(a, k, d) && Happens(a, b, ev, d) && Carries(a, ev, name) && HeadPublished(a, name)
    requires AllPublished(a, name, before) && forall i :: 0 <= i < |before| ==> before[i].num <= a.sys.s.num
    requires (b.sys.s.cfg, b.sys.s.epoch, b.sys.s.key) == (a.sys.s.cfg, a.sys.s.epoch, a.sys.s.key)
    ensures AllPublished(b, name, AndThen(before, TakenBy(a, ev)))
  {
    hide WorldInv, Happens, Carries, HeadPublished, HasPackage, TakenBy;
    forall i | 0 <= i < |before|
      ensures HasPackage(b.st, b.sys.s, name, before[i])
    {
      PackageStays(a, b, ev, d, k, name, before[i]);
    }
    if TakenBy(a, ev).Some? {
      OwnPackage(a, b, ev, d, k, name);
    }
  }

  lemma TakenSnoc(taken: seq<Option<Plan>>, m: nat, n: nat)
    requires m < n <= |taken|
    ensures Taken(taken[m..n]) == AndThen(Taken(taken[m..n - 1]), taken[n - 1])
  {
    assert taken[m..n][..n - 1 - m] == taken[m..n - 1];
  }

  // Every plan taken between two worlds has its package in the store of the second.
  lemma {:induction false} AllPublishedAlong(worlds: seq<World>, events: seq<Event>, d: Definition, universe: set<Text>,
                                             name: Text, m: nat, n: nat)
    requires SendableHistory(worlds, events, d, universe) && Publishes(worlds, events, name) && m <= n < |worlds|
    ensures AllPublished(worlds[n], name, Taken(TakenAlong(worlds, events)[m..n]))
    decreases n
  {
    hide SendableHistory, Carries, AllPublished, HeadPublished, TakenBy, Taken, Happens, WorldInv;
    if m < n {
      AllPublishedAlong(worlds, events, d, universe, name, m, n - 1);
      HeadPublishedAlong(worlds, events, d, universe, name, n - 1);
      var k := WorldAt(worlds, events, d, universe, n);
      TakenNumbers(worlds, events, d, universe, m, n - 1);
      TakenSnoc(TakenAlong(worlds, events), m, n);
      PublishedNext(worlds[n - 1], worlds[n], events[n - 1], d, k, name, Taken(TakenAlong(worlds, events)[m..n - 1]));
    } else {
      assert TakenAlong(worlds, events)[m..n] == [];
      NonePublished(worlds[n], name);
    }
  }

  lemma NonePublished(a: World, name: Text)
    ensures AllPublished(a, name, Taken([]))
  {}

  lemma WorldAt(worlds: seq<World>, events: seq<Event>, d: Definition, universe: set<Text>, n: nat) returns (k: nat)
    requires SendableHistory(worlds, events, d, universe) && 0 < n < |worlds| && |worlds| == |events| + 1
    ensures WorldInv(worlds[n - 1], k, d) && Happens(worlds[n - 1], worlds[n], events[n - 1], d)
    ensures (worlds[n].sys.s.cfg, worlds[n].sys.s.epoch, worlds[n].sys.s.key)
         == (worlds[n - 1].sys.s.cfg, worlds[n - 1].sys.s.epoch, worlds[n - 1].sys.s.key)
  {
    hide Happens, Link, Observable, Followable, Sendables, PlannableAll, InvAt, Agree, CanonHashes;
    k := HistoryAgrees(worlds, events, d, n - 1);
    assert Happens(worlds[n - 1], worlds[n - 1 + 1], events[n - 1], d);
    HistoryLinks(worlds, events, d, universe, n);
    LinkKeepsConfig(worlds[n - 1].sys, worlds[n].sys, TakenBy(worlds[n - 1], events[n - 1]), universe);
  }

  lemma HistoryLength(worlds: seq<World>, events: seq<Event>, d: Definition)
    requires History(worlds, events, d)
    ensures |worlds| == |events| + 1
  {}

  // The objects with the next numbers.
  function FromStore(st: StoreState, name: Text, num: nat, count: nat): (r: seq<Bytes>)
    requires forall i :: num < i <= num + count ==> DiffKey(name, i) in st.objects
    ensures |r| == count
  {
    seq(count, i requires 0 <= i < count => st.objects[DiffKey(name, num + 1 + i)])
  }

  lemma PublishedAre(a: World, name: Text, num: nat, plans: seq<Plan>)
    requires AllPublished(a, name, plans) && forall i :: 0 <= i < |plans| ==> plans[i].num == num + i + 1
    ensures forall i :: 0 <= i < |plans| ==> Unwrapped(plans[i].num)
    ensures forall i :: num < i <= num + |plans| ==> DiffKey(name, i) in a.st.objects
    ensures FromStore(a.st, name, num, |plans|) == Packages(a.sys.s.cfg, a.sys.s.epoch, a.sys.s.key, plans)
  {
    hide PackageBytes, DiffKey;
    forall i | num < i <= num + |plans|
      ensures DiffKey(name, i) in a.st.objects
    {
      assert HasPackage(a.st, a.sys.s, name, plans[i - num - 1]);
    }
    forall i | 0 <= i < |plans|
      ensures Unwrapped(plans[i].num)
      ensures a.st.objects[DiffKey(name, num + 1 + i)] == PackageBytes(a.sys.s.cfg, a.sys.s.epoch, a.sys.s.key, plans[i])
    {
      assert HasPackage(a.st, a.sys.s, name, plans[i]);
    }
  }

  // What a mirror gets that has read a snapshot of first and then reads the store number by
  // number up to the keeper's: it finds every object, and ends with the keeper's contents.
  ghost predicate StoreGives(st: StoreState, name: Text, first: SetState, s: SetState, sorted: seq<PackRecord>)
  {
    && first.num <= s.num && Unwrapped(first.num)
    && (forall i :: first.num < i <= s.num ==> DiffKey(name, i) in st.objects)
    && var snapshot := SnapshotBytes(first.cfg, first.epoch, first.key, first.num, XorOf(first.entries), sorted);
       var read := MirrorReadAll(map[], [snapshot] + FromStore(st, name, first.num, s.num - first.num));
       && read.Some? && Mirrors(s.cfg, s.entries, read.value)
       && GivesKey(first, s, sorted, read.value)
  }

  lemma PublishedGive(a: World, universe: set<Text>, name: Text, first: SetState, sorted: seq<PackRecord>, plans: seq<Plan>)
    requires MirrorGets(universe, first, a.sys.s, sorted, plans) && AllPublished(a, name, plans)
    requires a.sys.s.num == first.num + |plans| && forall i :: 0 <= i < |plans| ==> plans[i].num == first.num + i + 1
    requires (a.sys.s.cfg, a.sys.s.epoch, a.sys.s.key) == (first.cfg, first.epoch, first.key)
    ensures StoreGives(a.st, name, first, a.sys.s, sorted)
  {
    hide Mirrors, MirrorHash, XorOf, SnapshotBytes, MirrorReadAll, PackageBytes, DiffKey, AllPublished, Sendable, FromStore,
         Packages, UnpackBytes, GivesKey, Announces;
    PublishedAre(a, name, first.num, plans);
  }

  // Whatever crashes come in between, the store serves every mirror.
  lemma MirrorReadsStore(worlds: seq<World>, events: seq<Event>, d: Definition, universe: set<Text>, name: Text,
                         m: nat, n: nat, sorted: seq<PackRecord>)
    requires SendableHistory(worlds, events, d, universe) && Publishes(worlds, events, name) && m <= n < |worlds|
    requires SnapshotOf(worlds[m].sys.s.cfg, worlds[m].sys.s.entries, sorted)
    ensures StoreGives(worlds[n].st, name, worlds[m].sys.s, worlds[n].sys.s, sorted)
  {
    hide SendableHistory, Taken, SnapshotOf, AllPublished, MirrorGets, StoreGives, TakenBy, Carries;
    MirrorSurvivesCrashes(worlds, events, d, universe, m, n, sorted);
    TakenNumbers(worlds, events, d, universe, m, n);
    AllPublishedAlong(worlds, events, d, universe, name, m, n);
    PublishedGive(worlds[n], universe, name, worlds[m].sys.s, sorted, Taken(TakenAlong(worlds, events)[m..n]));
  }
}
