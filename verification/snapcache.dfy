// How long a snapshot reference is good for (internal/keeper/keeper.go, Snapshot, packSnapshot,
// commit and New). Times are nanoseconds on a clock that never goes back; an object put at t
// with lifetime d is in the store while the clock is below t + d.
module SnapCache {
  import opened Types

  const SECOND: int := 1_000_000_000
  const SNAP_MARGIN: int := 5 * SECOND

  datatype Options = Options(snapshotTTL: int, diffTTL: int)

  // num is what memory was at when it was read, at readAt; put is when the store took the
  // object, at what the keeper notes once the store has answered.
  datatype SnapObj = SnapObj(epoch: u64, num: nat, readAt: int, put: int, at: int)

  // A reference as a mirror gets it: ttl in whole seconds, computed for the time the request
  // was taken up, given when it was handed out.
  datatype Reference = Reference(obj: SnapObj, ttl: int, asked: int, given: int)

  // What the store keeps under an object's key, which names no more than epoch and number: a
  // second snapshot at the same number takes the first one's place.
  datatype Stored = Stored(readAt: int, put: int)

  // New: options that make no sense are replaced.
  function Normal(o: Options): (r: Options)
    ensures r.snapshotTTL > 0 && r.diffTTL >= 2 * r.snapshotTTL
    ensures o.snapshotTTL > 0 && o.diffTTL >= 2 * o.snapshotTTL ==> r == o
    ensures o.snapshotTTL > 0 ==> r.snapshotTTL == o.snapshotTTL
    ensures r.diffTTL >= o.diffTTL
    ensures o.snapshotTTL <= 0 ==> r.snapshotTTL == 30_000_000_000
    ensures r.diffTTL == o.diffTTL || r.diffTTL == 2 * r.snapshotTTL
  {
    var ttl := if o.snapshotTTL <= 0 then 30 * SECOND else o.snapshotTTL;
    Options(ttl, if o.diffTTL < 2 * ttl then 2 * ttl else o.diffTTL)
  }

  predicate Usable(o: Options)
  {
    o.snapshotTTL > 0 && o.diffTTL >= 2 * o.snapshotTTL
  }

  predicate IsStale(o: Options, snap: Option<SnapObj>, epoch: u64, now: int)
  {
    snap.None? || snap.value.epoch != epoch || now - snap.value.at > o.snapshotTTL - SNAP_MARGIN
  }

  function SecondsLeft(o: Options, obj: SnapObj, now: int): int
  {
    (o.snapshotTTL - (now - obj.at)) / SECOND
  }

  function Least(x: int, y: int): int
  {
    if x < y then x else y
  }

  // ---------- the cache of one holder ----------

  class Cache {
    const opts: Options
    var snap: Option<SnapObj>

    constructor (o: Options)
      ensures opts == Normal(o) && snap == None
    {
      opts, snap := Normal(o), None;
    }

    // Snapshot, once a set is found. packed is what packing comes to, should it be needed:
    // an object of the current epoch, or None when the store refuses it. A reference is
    // never to an object of another epoch, and never announces less than the margin.
    method Snapshot(now: int, epoch: u64, packed: Option<SnapObj>) returns (ref: Option<Reference>)
      requires Usable(opts)
      requires packed.Some? ==> packed.value.epoch == epoch && now <= packed.value.at
      modifies this`snap
      ensures ref.None? <==> IsStale(opts, old(snap), epoch, now) && packed.None?
      ensures snap == if IsStale(opts, old(snap), epoch, now) && packed.Some? then packed else old(snap)
      ensures ref.Some? ==>
                && Some(ref.value.obj) == snap && ref.value.obj.epoch == epoch
                && ref.value.ttl == SecondsLeft(opts, ref.value.obj, now)
                && ref.value.ttl * SECOND >= Least(SNAP_MARGIN, opts.snapshotTTL) - SECOND + 1
                && (opts.snapshotTTL >= SNAP_MARGIN ==> ref.value.ttl >= 5)
                && 0 <= opts.snapshotTTL - (now - ref.value.obj.at) - 1_000_000_000 * ref.value.ttl < 1_000_000_000
      ensures var again := old(snap).Some? && old(snap).value.epoch == epoch
                           && old(snap).value.at + opts.snapshotTTL - now >= 5_000_000_000;
              && (again ==> snap == old(snap) && ref.Some?)
              && (!again ==> if packed.Some? then snap == packed else ref.None?)
    {
      var o := snap;
      if IsStale(opts, o, epoch, now) {
        if packed.None? {
          return None;
        }
        snap := packed;
        o := packed;
      }
      ref := Some(Reference(o.value, SecondsLeft(opts, o.value, now), now, now));
      assert opts.snapshotTTL - (now - o.value.at) >= Least(SNAP_MARGIN, opts.snapshotTTL);
      WholeSeconds(opts.snapshotTTL - (now - o.value.at));
    }
  }

  lemma WholeSeconds(d: int)
    ensures d - SECOND < d / SECOND * SECOND <= d
    ensures d >= SNAP_MARGIN ==> d / SECOND >= 5
  {}

  // ---------- runs of one holder ----------

  datatype Packing =
    | Idle
    | Asked(now: int)
    | Read(now: int, num: nat, readAt: int)
    | Put(now: int, num: nat, readAt: int, put: int)

  datatype Life = Life(
    clock: int, epoch: u64, num: nat,
    writing: Option<int>,          // when the store took a package memory has not committed yet
    packages: map<nat, int>,       // when each package was stored
    objects: map<nat, Stored>,     // the snapshot objects, by number
    packing: Packing,              // a request that holds snapMu
    snap: Option<SnapObj>,
    handed: seq<Reference>)

  datatype Move =
    | Tick(d: nat)
    | StorePackage     // state.Commit of the next plan
    | CommitMemory     // Set.Commit of it
    | Ask              // Snapshot takes snapMu and looks at the cached object
    | ReadSet          // s.Snapshot
    | PutObject        // state.Put
    | PutFails
    | HandOut          // the store has answered

  // A package is in memory at most lag after the store took it, and a request that packs is
  // answered at most pack after it came: both zero when store writes take no time.
  datatype Delays = Delays(lag: nat, pack: nat)

  predicate InTime(l: Life, dl: Delays, clock: int)
  {
    && (l.writing.Some? ==> clock <= l.writing.value + dl.lag)
    && (!l.packing.Idle? ==> clock <= l.packing.now + dl.pack)
  }

  predicate Enabled(o: Options, dl: Delays, l: Life, m: Move)
  {
    match m
    case Tick(d) => InTime(l, dl, l.clock + d)
    case StorePackage => l.writing.None?
    case CommitMemory => l.writing.Some?
    case Ask => l.packing.Idle?
    case ReadSet => l.packing.Asked?
    case PutObject => l.packing.Read?
    case PutFails => l.packing.Read?
    case HandOut => l.packing.Put?
  }

  function HandOver(o: Options, l: Life, obj: SnapObj, now: int): Life
  {
    l.(snap := Some(obj), packing := Idle, handed := l.handed + [Reference(obj, SecondsLeft(o, obj, now), now, l.clock)])
  }

  function After(o: Options, dl: Delays, l: Life, m: Move): Life
    requires Enabled(o, dl, l, m)
  {
    match m
    case Tick(d) => l.(clock := l.clock + d)
    case StorePackage => l.(packages := l.packages[l.num + 1 := l.clock], writing := Some(l.clock))
    case CommitMemory => l.(num := l.num + 1, writing := None)
    case Ask =>
      if IsStale(o, l.snap, l.epoch, l.clock) then l.(packing := Asked(l.clock))
      else HandOver(o, l, l.snap.value, l.clock)
    case ReadSet => l.(packing := Read(l.packing.now, l.num, l.clock))
    case PutObject =>
      var p := l.packing;
      l.(packing := Put(p.now, p.num, p.readAt, l.clock), objects := l.objects[p.num := Stored(p.readAt, l.clock)])
    case PutFails => l.(packing := Idle)
    case HandOut =>
      var p := l.packing;
      HandOver(o, l, SnapObj(l.epoch, p.num, p.readAt, p.put, l.clock), p.now)
  }

  function Start(clock: int, epoch: u64, num: nat): Life
  {
    Life(clock, epoch, num, None, map[], map[], Idle, None, [])
  }

  function Runs(o: Options, dl: Delays, first: Life, moves: seq<Move>): (l: Option<Life>)
  {
    if moves == [] then Some(first) else
      var n := |moves| - 1;
      match Runs(o, dl, first, moves[..n])
      case None => None
      case Some(l) => if Enabled(o, dl, l, moves[n]) then Some(After(o, dl, l, moves[n])) else None
  }

  // ---------- the invariant ----------

  // Every package after num that is stored was stored no earlier than lag before readAt, and
  // those that memory has reached are all there.
  predicate Covered(l: Life, dl: Delays, num: nat, readAt: int)
  {
    && num <= l.num
    && forall m :: num < m <= l.num + (if l.writing.Some? then 1 else 0) ==>
         (m in l.packages && readAt - dl.lag <= l.packages[m])
  }

  // Noted objects are stored, by themselves or by a later one of the same number.
  predicate Held(l: Life, num: nat, put: int)
  {
    num in l.objects && put <= l.objects[num].put
  }

  predicate GoodObject(l: Life, dl: Delays, obj: SnapObj)
  {
    && obj.epoch == l.epoch && Held(l, obj.num, obj.put)
    && obj.readAt <= obj.put <= obj.at <= l.clock && obj.at <= obj.put + dl.pack
  }

  predicate GoodStored(l: Life, dl: Delays, num: nat)
    requires num in l.objects
  {
    var x := l.objects[num];
    Covered(l, dl, num, x.readAt) && x.readAt <= x.put <= l.clock && x.put <= x.readAt + dl.pack
  }

  predicate Fresh(dl: Delays, r: Reference)
  {
    r.given == r.obj.at && r.asked <= r.obj.put && r.given - r.asked <= dl.pack
  }

  predicate Cached(o: Options, r: Reference)
  {
    r.asked == r.given && 0 <= r.given - r.obj.at <= o.snapshotTTL - SNAP_MARGIN
  }

  // A fresh object, handed out when it was noted, or a cached one within its margin.
  predicate GoodReference(o: Options, l: Life, dl: Delays, r: Reference)
  {
    GoodObject(l, dl, r.obj) && r.ttl == SecondsLeft(o, r.obj, r.asked) && (Fresh(dl, r) || Cached(o, r))
  }

  predicate GoodPacking(l: Life, dl: Delays)
  {
    match l.packing
    case Idle => true
    case Asked(now) => now <= l.clock
    case Read(now, num, readAt) => now <= readAt <= l.clock && Covered(l, dl, num, readAt)
    case Put(now, num, readAt, put) => now <= readAt <= put <= l.clock && Held(l, num, put)
  }

  predicate Kept(o: Options, dl: Delays, l: Life)
  {
    && InTime(l, dl, l.clock) && GoodPacking(l, dl)
    && (l.writing.Some? ==> l.num + 1 in l.packages && l.packages[l.num + 1] == l.writing.value)
    && (l.snap.Some? ==> GoodObject(l, dl, l.snap.value))
    && (forall n :: n in l.objects ==> GoodStored(l, dl, n))
    && forall i :: 0 <= i < |l.handed| ==> GoodReference(o, l, dl, l.handed[i])
  }

  // Nothing but a new number matters to what covers what.
  lemma CoverKept(o: Options, dl: Delays, l: Life, m: Move, num: nat, readAt: int)
    requires Enabled(o, dl, l, m) && Covered(l, dl, num, readAt) && readAt <= l.clock
    ensures Covered(After(o, dl, l, m), dl, num, readAt)
  {
    hide IsStale, SecondsLeft;
  }

  predicate PutBefore(l: Life)
  {
    forall n :: n in l.objects ==> l.objects[n].put <= l.clock
  }

  lemma ObjectKept(o: Options, dl: Delays, l: Life, m: Move, obj: SnapObj)
    requires Enabled(o, dl, l, m) && GoodObject(l, dl, obj) && PutBefore(l)
    ensures GoodObject(After(o, dl, l, m), dl, obj)
  {
    hide IsStale, SecondsLeft;
  }

  lemma HandedKept(o: Options, dl: Delays, l: Life, m: Move)
    requires Enabled(o, dl, l, m) && PutBefore(l)
    requires forall i :: 0 <= i < |l.handed| ==> GoodReference(o, l, dl, l.handed[i])
    ensures forall i :: 0 <= i < |l.handed| ==> GoodReference(o, After(o, dl, l, m), dl, l.handed[i])
  {
    hide GoodObject, After, PutBefore, Fresh, Cached;
    forall i | 0 <= i < |l.handed|
      ensures GoodReference(o, After(o, dl, l, m), dl, l.handed[i])
    {
      ObjectKept(o, dl, l, m, l.handed[i].obj);
    }
  }

  // What is handed out by Ask from the cache, or by HandOut.
  lemma GivenWell(o: Options, dl: Delays, l: Life, m: Move)
    requires Kept(o, dl, l) && Enabled(o, dl, l, m)
    requires m.HandOut? || (m.Ask? && !IsStale(o, l.snap, l.epoch, l.clock))
    ensures var l' := After(o, dl, l, m);
            && l'.snap.Some? && GoodObject(l', dl, l'.snap.value)
            && l'.handed == l.handed + [l'.handed[|l.handed|]]
            && GoodReference(o, l', dl, l'.handed[|l.handed|])
  {
    hide GoodStored, SecondsLeft;
  }

  lemma PackingKept(o: Options, dl: Delays, l: Life, m: Move)
    requires Kept(o, dl, l) && Enabled(o, dl, l, m) && PutBefore(l)
    ensures GoodPacking(After(o, dl, l, m), dl)
  {
    hide IsStale, SecondsLeft, GoodReference, GoodObject, GoodStored;
    if l.packing.Read? {
      CoverKept(o, dl, l, m, l.packing.num, l.packing.readAt);
    }
  }

  lemma StoredKept(o: Options, dl: Delays, l: Life, m: Move, n: nat)
    requires Kept(o, dl, l) && Enabled(o, dl, l, m) && n in After(o, dl, l, m).objects
    ensures GoodStored(After(o, dl, l, m), dl, n)
  {
    hide IsStale, SecondsLeft, GoodReference, GoodObject, Covered;
    var l' := After(o, dl, l, m);
    CoverKept(o, dl, l, m, n, l'.objects[n].readAt);
  }

  lemma AllBefore(o: Options, dl: Delays, l: Life)
    requires Kept(o, dl, l)
    ensures PutBefore(l)
  {
    hide GoodReference, GoodObject, GoodPacking, Covered;
    forall n | n in l.objects
      ensures l.objects[n].put <= l.clock
    {
      assert GoodStored(l, dl, n);
    }
  }

  lemma MoveKeeps(o: Options, dl: Delays, l: Life, m: Move)
    requires Kept(o, dl, l) && Enabled(o, dl, l, m)
    ensures Kept(o, dl, After(o, dl, l, m))
  {
    hide GoodReference, GoodObject, GoodPacking, SecondsLeft, GoodStored, PutBefore;
    AllBefore(o, dl, l);
    PackingKept(o, dl, l, m);
    HandedKept(o, dl, l, m);
    forall n | n in After(o, dl, l, m).objects
      ensures GoodStored(After(o, dl, l, m), dl, n)
    {
      StoredKept(o, dl, l, m, n);
    }
    if l.snap.Some? {
      ObjectKept(o, dl, l, m, l.snap.value);
    }
    if m.HandOut? || (m.Ask? && !IsStale(o, l.snap, l.epoch, l.clock)) {
      GivenWell(o, dl, l, m);
    }
  }

  lemma {:induction false} RunKeeps(o: Options, dl: Delays, clock: int, epoch: u64, num: nat, moves: seq<Move>)
    requires Runs(o, dl, Start(clock, epoch, num), moves).Some?
    ensures Kept(o, dl, Runs(o, dl, Start(clock, epoch, num), moves).value)
  {
    hide Kept, After, Enabled;
    if moves == [] {
      StartKept(o, dl, clock, epoch, num);
    } else {
      var n := |moves| - 1;
      RunKeeps(o, dl, clock, epoch, num, moves[..n]);
      MoveKeeps(o, dl, Runs(o, dl, Start(clock, epoch, num), moves[..n]).value, moves[n]);
    }
  }

  lemma StartKept(o: Options, dl: Delays, clock: int, epoch: u64, num: nat)
    ensures Kept(o, dl, Start(clock, epoch, num))
  {}

  // ---------- what a mirror may rely on ----------

  // The object a reference names is in the store, from whichever put of its number.
  predicate ObjectStored(o: Options, l: Life, obj: SnapObj)
  {
    obj.num in l.objects && l.clock < l.objects[obj.num].put + o.snapshotTTL
  }

  predicate PackageStored(o: Options, l: Life, m: nat)
  {
    m in l.packages && l.clock < l.packages[m] + o.diffTTL
  }

  // While the object of any reference is still stored, so is every package after it that
  // memory has reached.
  predicate Followable(o: Options, l: Life)
  {
    forall i, m :: 0 <= i < |l.handed| && ObjectStored(o, l, l.handed[i].obj) && l.handed[i].obj.num < m <= l.num ==>
      PackageStored(o, l, m)
  }

  // In every run a reference has the margin left when it is handed out, less what the write
  // took, and does not promise more than it has.
  lemma ReferencesLast(o: Options, dl: Delays, clock: int, epoch: u64, num: nat, moves: seq<Move>, r: Reference)
    requires Usable(o) && Runs(o, dl, Start(clock, epoch, num), moves).Some?
    requires r in Runs(o, dl, Start(clock, epoch, num), moves).value.handed
    ensures r.obj.put + o.snapshotTTL - r.given >= Least(SNAP_MARGIN, o.snapshotTTL) - dl.pack
    ensures r.ttl * SECOND <= r.obj.put + o.snapshotTTL - r.given + 2 * dl.pack
    ensures r.obj.epoch == epoch
    ensures var l := Runs(o, dl, Start(clock, epoch, num), moves).value;
            l.clock < r.obj.put + o.snapshotTTL ==> ObjectStored(o, l, r.obj)
  {
    hide Runs, GoodStored, SecondsLeft;
    RunKeeps(o, dl, clock, epoch, num, moves);
    RunKeepsEpoch(o, dl, clock, epoch, num, moves);
    WholeSeconds(o.snapshotTTL - (r.asked - r.obj.at));
    TTLIs(o, r);
  }

  lemma TTLIs(o: Options, r: Reference)
    requires r.ttl == SecondsLeft(o, r.obj, r.asked)
    ensures r.ttl == (o.snapshotTTL - (r.asked - r.obj.at)) / SECOND
  {}

  lemma {:induction false} RunKeepsEpoch(o: Options, dl: Delays, clock: int, epoch: u64, num: nat, moves: seq<Move>)
    requires Runs(o, dl, Start(clock, epoch, num), moves).Some?
    ensures Runs(o, dl, Start(clock, epoch, num), moves).value.epoch == epoch
  {
    hide IsStale, SecondsLeft;
    if moves != [] {
      RunKeepsEpoch(o, dl, clock, epoch, num, moves[..|moves| - 1]);
    }
  }

  lemma PackagesLast(o: Options, dl: Delays, clock: int, epoch: u64, num: nat, moves: seq<Move>)
    requires dl.lag + dl.pack <= o.diffTTL - o.snapshotTTL
    requires Runs(o, dl, Start(clock, epoch, num), moves).Some?
    ensures Followable(o, Runs(o, dl, Start(clock, epoch, num), moves).value)
  {
    hide Runs;
    RunKeeps(o, dl, clock, epoch, num, moves);
    var l := Runs(o, dl, Start(clock, epoch, num), moves).value;
    forall i, m | 0 <= i < |l.handed| && ObjectStored(o, l, l.handed[i].obj) && l.handed[i].obj.num < m <= l.num
      ensures PackageStored(o, l, m)
    {
      assert GoodStored(l, dl, l.handed[i].obj.num);
    }
  }

  lemma {:induction false} OneMore(o: Options, dl: Delays, first: Life, moves: seq<Move>, m: Move)
    requires Runs(o, dl, first, moves).Some? && Enabled(o, dl, Runs(o, dl, first, moves).value, m)
    ensures Runs(o, dl, first, moves + [m]) == Some(After(o, dl, Runs(o, dl, first, moves).value, m))
  {
    hide Enabled, After;
    assert (moves + [m])[..|moves|] == moves;
  }

  // A package is written before memory shows it, and a snapshot taken in between is put late.
  function LateRun(o: Options, dl: Delays): seq<Move>
    requires Usable(o)
  {
    var end := dl.lag + dl.pack;
    [StorePackage, Tick(dl.lag), Ask, ReadSet, CommitMemory, Tick(dl.pack), PutObject, HandOut,
     Tick(if end < o.diffTTL then o.diffTTL - end else 0)]
  }

  lemma LateRunOvertakes(o: Options, dl: Delays)
    requires Usable(o) && dl.lag + dl.pack > o.diffTTL - o.snapshotTTL
    ensures Runs(o, dl, Start(0, 0, 0), LateRun(o, dl)).Some?
    ensures !Followable(o, Runs(o, dl, Start(0, 0, 0), LateRun(o, dl)).value)
  {
    hide Runs;
    var first, ms := Start(0, 0, 0), LateRun(o, dl);
    RunsNone(o, dl, first);
    var l := first;
    var i := 0;
    while i < |ms|
      invariant 0 <= i <= |ms| && Runs(o, dl, first, ms[..i]) == Some(l)
      invariant l == LateState(o, dl, i)
    {
      assert Enabled(o, dl, l, ms[i]);
      OneMore(o, dl, first, ms[..i], ms[i]);
      assert ms[..i] + [ms[i]] == ms[..i + 1];
      l := After(o, dl, l, ms[i]);
      i := i + 1;
    }
    assert ms[..i] == ms;
    assert ObjectStored(o, l, l.handed[0].obj) && l.handed[0].obj.num < 1 <= l.num && !PackageStored(o, l, 1);
  }

  lemma RunsNone(o: Options, dl: Delays, first: Life)
    ensures Runs(o, dl, first, []) == Some(first)
  {}

  function LateState(o: Options, dl: Delays, i: nat): Life
    requires Usable(o)
  {
    var end := dl.lag + dl.pack;
    var obj := SnapObj(0, 0, dl.lag, end, end);
    var done := if end < o.diffTTL then o.diffTTL else end;
    Life(if i < 2 then 0 else if i < 6 then dl.lag else if i < 9 then end else done,
         0, if i < 5 then 0 else 1,
         if 0 < i < 5 then Some(0) else None,
         if i == 0 then map[] else map[1 := 0],
         if i < 7 then map[] else map[0 := Stored(dl.lag, end)],
         if i < 3 then Idle else if i == 3 then Asked(dl.lag) else if i < 7 then Read(dl.lag, 0, dl.lag)
         else if i == 7 then Put(dl.lag, 0, dl.lag, end) else Idle,
         if i < 8 then None else Some(obj),
         if i < 8 then [] else [Reference(obj, SecondsLeft(o, obj, dl.lag), dl.lag, end)])
  }

  // All runs are followable exactly when the two delays together fit between the lifetimes.
  lemma FollowableExactly(o: Options, dl: Delays)
    requires Usable(o)
    ensures dl.lag + dl.pack <= o.diffTTL - o.snapshotTTL
       <==> forall clock, epoch, num, moves :: Runs(o, dl, Start(clock, epoch, num), moves).Some? ==>
              Followable(o, Runs(o, dl, Start(clock, epoch, num), moves).value)
  {
    hide Runs, Followable, Start;
    if dl.lag + dl.pack <= o.diffTTL - o.snapshotTTL {
      forall clock: int, epoch: u64, num: nat, moves | Runs(o, dl, Start(clock, epoch, num), moves).Some?
        ensures Followable(o, Runs(o, dl, Start(clock, epoch, num), moves).value)
      {
        PackagesLast(o, dl, clock, epoch, num, moves);
      }
    } else {
      LateRunOvertakes(o, dl);
    }
  }

  // ---------- honest announcements ----------

  // The seconds announced are not more than the object's own put leaves it.
  predicate Honest(o: Options, r: Reference)
  {
    r.ttl * SECOND <= r.obj.put + o.snapshotTTL - r.given
  }

  predicate AllHonest(o: Options, l: Life)
  {
    forall i :: 0 <= i < |l.handed| ==> Honest(o, l.handed[i])
  }

  // Packing takes no time; or every request packs, and what it takes is lost in rounding.
  predicate HonestDelay(o: Options, pack: nat)
  {
    var rest := o.snapshotTTL % SECOND;
    pack == 0 || (o.snapshotTTL < SNAP_MARGIN && pack <= rest && pack < SECOND - rest)
  }

  lemma GoodIsHonest(o: Options, l: Life, dl: Delays, r: Reference)
    requires Usable(o) && HonestDelay(o, dl.pack) && GoodReference(o, l, dl, r)
    ensures Honest(o, r)
  {
    hide Held, SecondsLeft;
    TTLIs(o, r);
    WholeSeconds(o.snapshotTTL - (r.asked - r.obj.at));
    if dl.pack != 0 {
      var d := r.obj.at - r.asked;
      RoundsDown(o.snapshotTTL, d);
    }
  }

  lemma RoundsDown(ttl: int, d: int)
    requires 0 <= d < SECOND - ttl % SECOND
    ensures (ttl + d) / SECOND * SECOND == ttl - ttl % SECOND
  {}

  lemma RunHonest(o: Options, dl: Delays, clock: int, epoch: u64, num: nat, moves: seq<Move>)
    requires Usable(o) && HonestDelay(o, dl.pack) && Runs(o, dl, Start(clock, epoch, num), moves).Some?
    ensures AllHonest(o, Runs(o, dl, Start(clock, epoch, num), moves).value)
  {
    hide Runs, HonestDelay, Honest, GoodReference;
    RunKeeps(o, dl, clock, epoch, num, moves);
    var l := Runs(o, dl, Start(clock, epoch, num), moves).value;
    forall i | 0 <= i < |l.handed|
      ensures Honest(o, l.handed[i])
    {
      GoodIsHonest(o, l, dl, l.handed[i]);
    }
  }

  // The store takes the object at once and answers late; the same object is handed out again
  // when a whole number of seconds is left.
  function HastyRun(o: Options, dl: Delays): seq<Move>
    requires Usable(o)
  {
    [Ask, ReadSet, PutObject, Tick(dl.pack), HandOut, Tick(o.snapshotTTL % SECOND), Ask]
  }

  function HastyState(o: Options, dl: Delays, i: nat): Life
    requires Usable(o)
  {
    var rest := o.snapshotTTL % SECOND;
    var obj := SnapObj(0, 0, 0, 0, dl.pack);
    var again := i == 7 && !IsStale(o, Some(obj), 0, dl.pack + rest);
    Life(if i < 4 then 0 else if i < 6 then dl.pack else dl.pack + rest, 0, 0, None, map[],
         if i < 3 then map[] else map[0 := Stored(0, 0)],
         if i == 0 then Idle else if i == 1 then Asked(0) else if i == 2 then Read(0, 0, 0)
         else if i < 5 then Put(0, 0, 0, 0) else if i == 7 && !again then Asked(dl.pack + rest) else Idle,
         if i < 5 then None else Some(obj),
         if i < 5 then [] else
           [Reference(obj, SecondsLeft(o, obj, 0), 0, dl.pack)]
             + if again then [Reference(obj, SecondsLeft(o, obj, dl.pack + rest), dl.pack + rest, dl.pack + rest)] else [])
  }

  lemma HastyRunReaches(o: Options, dl: Delays)
    requires Usable(o)
    ensures Runs(o, dl, Start(0, 0, 0), HastyRun(o, dl)) == Some(HastyState(o, dl, 7))
  {
    hide Runs, SecondsLeft;
    var first, ms := Start(0, 0, 0), HastyRun(o, dl);
    RunsNone(o, dl, first);
    var l := first;
    var i := 0;
    while i < |ms|
      invariant 0 <= i <= |ms| && Runs(o, dl, first, ms[..i]) == Some(l)
      invariant l == HastyState(o, dl, i)
    {
      assert Enabled(o, dl, l, ms[i]);
      OneMore(o, dl, first, ms[..i], ms[i]);
      assert ms[..i] + [ms[i]] == ms[..i + 1];
      l := After(o, dl, l, ms[i]);
      i := i + 1;
    }
    assert ms[..i] == ms;
  }

  lemma HastyRunBoasts(o: Options, dl: Delays)
    requires Usable(o) && !HonestDelay(o, dl.pack)
    ensures !AllHonest(o, HastyState(o, dl, 7))
  {
    var l, ttl, rest := HastyState(o, dl, 7), o.snapshotTTL, o.snapshotTTL % SECOND;
    if ttl >= SNAP_MARGIN {
      assert !Honest(o, l.handed[1]);
    } else {
      RoundedUp(ttl, dl.pack);
      assert !Honest(o, l.handed[0]);
    }
  }

  lemma RoundedUp(ttl: int, d: int)
    requires 0 < d && (d > ttl % SECOND || d >= SECOND - ttl % SECOND)
    ensures (ttl + d) / SECOND * SECOND > ttl - d
  {}

  // All runs announce honestly if and only if packing takes no time, or lifetimes are so short
  // that no object is handed out twice and the delay disappears in the rounding.
  lemma HonestExactly(o: Options, dl: Delays)
    requires Usable(o)
    ensures HonestDelay(o, dl.pack)
       <==> forall clock, epoch, num, moves :: Runs(o, dl, Start(clock, epoch, num), moves).Some? ==>
              AllHonest(o, Runs(o, dl, Start(clock, epoch, num), moves).value)
  {
    hide Runs, AllHonest, Start, HonestDelay, HastyState, HastyRun;
    if HonestDelay(o, dl.pack) {
      forall clock: int, epoch: u64, num: nat, moves | Runs(o, dl, Start(clock, epoch, num), moves).Some?
        ensures AllHonest(o, Runs(o, dl, Start(clock, epoch, num), moves).value)
      {
        RunHonest(o, dl, clock, epoch, num, moves);
      }
    } else {
      HastyRunReaches(o, dl);
      HastyRunBoasts(o, dl);
    }
  }
}
