// Memory and store together: what the store holds after every step, and what mount makes
// of it after a crash (internal/keeper/keeper.go, mount and commit).
module Durable {
  import opened Types
  import opened NetPrefix
  import opened SetModel
  import opened Expiry
  import opened MetaText
  import opened Store
  import opened Dataset
  import Float64

  // ---------- agreement ----------

  function HashNum(h: Hash): u64
  {
    h as int
  }

  function AsHash(n: u64): Hash
  {
    n as bv64
  }

  // A hash is written as its number and read back from it.
  lemma HashNumBack(h: Hash)
    ensures AsHash(HashNum(h)) == h
  {}

  function TypeNum(t: SetType): i64
  {
    match t
    case TypeString => 0
    case TypeCIDR => 1
    case TypeNumeric => 2
  }

  // The counter is a uint64; it starts near 2^45 and grows by one a commit.
  predicate Unwrapped(num: nat)
  {
    num < 0x1_0000_0000_0000_0000
  }

  function MetaOf(s: SetState, id: Text): Meta
    requires Unwrapped(s.num)
  {
    Meta(id, TypeNum(s.cfg.typ), s.epoch, s.key, s.num, HashNum(s.hash))
  }

  // Entries as plain records, the way a store gives them back.
  function Plain(e: Entries): map<Text, Record>
  {
    map v | v in e :: SnapRecord(v, e[v])
  }

  // The store holds exactly the set: members, scores, reasons, and the meta.
  ghost predicate Agree(st: StoreState, s: SetState, id: Text)
  {
    Unwrapped(s.num) && Contents(st) == Plain(s.entries) && ParseMeta(st.meta) == Some(MetaOf(s, id))
  }

  // ---------- the store follows the entries ----------

  predicate AllStorable(deltas: seq<Delta>)
  {
    forall i :: 0 <= i < |deltas| && deltas[i].op == Add ==> Storable(deltas[i].rec)
  }

  lemma DeltaStored(st: StoreState, e: Entries, d: Delta)
    requires Contents(st) == Plain(e) && (d.op == Add ==> Storable(d.rec))
    ensures Contents(StoreDelta(st, d)) == Plain(Apply(e, d))
  {
    hide Storable, Float64.Score, Float64.FromScore, Cut, Why;
    var st', e' := StoreDelta(st, d), Apply(e, d);
    assert st.members.Keys == Contents(st).Keys == Plain(e).Keys == e.Keys;
    if d.op == Add {
      StoredExactly(st, d);
    }
    forall v | v in st'.members
      ensures StoredRecord(st', v) == SnapRecord(v, e'[v])
    {
      if v != d.rec.value {
        assert Contents(st)[v] == Plain(e)[v];
      }
    }
  }

  lemma {:induction false} DeltasStored(st: StoreState, e: Entries, deltas: seq<Delta>)
    requires Contents(st) == Plain(e) && AllStorable(deltas)
    ensures Contents(StoreDeltas(st, deltas)) == Plain(Replay(e, deltas))
    ensures StoreDeltas(st, deltas).meta == st.meta
  {
    hide Storable, Contents, Plain;
    if deltas != [] {
      var before, d := deltas[..|deltas| - 1], deltas[|deltas| - 1];
      DeltasStored(st, e, before);
      DeltaStored(StoreDeltas(st, before), Replay(e, before), d);
    }
  }

  lemma MetaAfterCommit(f: map<Field, Text>, m: Meta, num: u64, hash: u64)
    requires ParseMeta(f) == Some(m)
    ensures ParseMeta(f + CommitFields(num, hash)) == Some(m.(num := num, hash := hash))
  {
    hide Print, Hex16, ParseUint, Atoi, HexDecode;
    UintBack(num);
    UintBack(hash);
  }

  lemma MetaAfterReset(f: map<Field, Text>, m: Meta)
    ensures ParseMeta(f + MetaFields(m)) == Some(m)
  {
    hide Print, Hex16, ParseUint, Atoi, Itoa, HexEncode, HexDecode;
    MetaBack(m);
    forall k: Field
      ensures k in MetaFields(m)
    {
      match k
      case FId => case FType => case FEpoch => case FKey => case FSeq => case FHash =>
    }
  }

  // A store transaction and the memory commit that follows it agree again.
  lemma CommitAgrees(st: StoreState, s: SetState, id: Text, p: Plan, key: Text, pkg: Bytes)
    requires Agree(st, s, id) && AllStorable(p.deltas) && p.deltas != [] && Unwrapped(p.num)
    requires AfterCommit(s, p).hash == p.hash
    ensures Agree(AfterStoreCommit(st, p.deltas, p.num, HashNum(p.hash), key, pkg), AfterCommit(s, p), id)
  {
    hide Contents, Plain, ParseMeta, HashNum, CommitFields, Replay, StoreDeltas, ReplayHash, ReplayExp, DropOwn;
    DeltasStored(st, s.entries, p.deltas);
    MetaAfterCommit(st.meta, MetaOf(s, id), p.num, HashNum(p.hash));
    var st' := AfterStoreCommit(st, p.deltas, p.num, HashNum(p.hash), key, pkg);
    ContentsElsewhere(StoreDeltas(st, p.deltas), st');
  }

  lemma ContentsElsewhere(a: StoreState, b: StoreState)
    requires a.members == b.members && a.whys == b.whys
    ensures Contents(a) == Contents(b)
  {}

  // ---------- loading ----------

  // A record whose own prefix, if it carries one, is the one its text parses to.
  predicate RecordOk(c: Config, r: Record)
  {
    c.typ == TypeCIDR && IsValid(r.prefix) ==> c.parse(r.value) == Some(r.prefix)
  }

  // Every stored hash is that of the value's text.
  predicate CanonHashes(c: Config, key: Key, e: Entries)
  {
    forall v :: v in e ==> e[v].hash == TextHash(c, key, v)
  }

  predicate Occurs(recs: seq<Record>, v: Text)
  {
    exists i :: 0 <= i < |recs| && recs[i].value == v
  }

  lemma OccursLonger(before: seq<Record>, r: Record, v: Text)
    ensures Occurs(before + [r], v) <==> Occurs(before, v) || r.value == v
  {
    var recs := before + [r];
    assert recs[|before|] == r;
    if Occurs(before, v) {
      var i :| 0 <= i < |before| && before[i].value == v;
      assert recs[i].value == v;
    }
  }

  // Loading finds the values listed and no others.
  lemma {:induction false} LoadsListed(c: Config, key: Key, recs: seq<Record>, v: Text)
    ensures v in LoadEntries(c, key, recs) <==> Occurs(recs, v)
  {
    hide HashOf;
    if recs != [] {
      hide Occurs;
      var n := |recs| - 1;
      assert recs[..n] + [recs[n]] == recs;
      OccursLonger(recs[..n], recs[n], v);
      LoadsListed(c, key, recs[..n], v);
    }
  }

  // Of the records with one value the first gives the hash.
  lemma {:induction false} FirstGivesHash(c: Config, key: Key, recs: seq<Record>, i: nat)
    requires i < |recs| && !Occurs(recs[..i], recs[i].value)
    ensures var v, e := recs[i].value, LoadEntries(c, key, recs); v in e && e[v].hash == HashOf(c, key, recs[i])
  {
    hide HashOf, Occurs;
    var n := |recs| - 1;
    if i < n {
      assert recs[..n][..i] == recs[..i];
      FirstGivesHash(c, key, recs[..n], i);
    } else {
      LoadsListed(c, key, recs[..n], recs[n].value);
    }
  }

  // And the last one gives everything else.
  lemma {:induction false} LastGivesFields(c: Config, key: Key, recs: seq<Record>, i: nat)
    requires i < |recs| && !Occurs(recs[i + 1..], recs[i].value)
    ensures var v, e := recs[i].value, LoadEntries(c, key, recs); v in e && e[v] == EntryOf(recs[i], e[v].hash)
  {
    hide HashOf, Occurs;
    var n := |recs| - 1;
    if i < n {
      assert recs[i + 1..] == recs[..n][i + 1..] + [recs[n]];
      OccursLonger(recs[..n][i + 1..], recs[n], recs[i].value);
      LastGivesFields(c, key, recs[..n], i);
    }
  }

  // Distinct records load to themselves, whatever their order.
  lemma LoadedEntries(c: Config, key: Key, recs: seq<Record>)
    requires forall i, j :: 0 <= i < j < |recs| ==> recs[i].value != recs[j].value
    ensures var e := LoadEntries(c, key, recs);
            && (forall v :: v in e ==> exists i :: 0 <= i < |recs| && recs[i].value == v)
            && (forall i :: 0 <= i < |recs| ==>
                  (recs[i].value in e && e[recs[i].value] == EntryOf(recs[i], HashOf(c, key, recs[i]))))
  {
    hide HashOf, LoadEntries;
    forall v
      ensures v in LoadEntries(c, key, recs) <==> Occurs(recs, v)
    {
      LoadsListed(c, key, recs, v);
    }
    forall i | 0 <= i < |recs|
      ensures var v, e := recs[i].value, LoadEntries(c, key, recs);
              v in e && e[v] == EntryOf(recs[i], HashOf(c, key, recs[i]))
    {
      FirstGivesHash(c, key, recs, i);
      LastGivesFields(c, key, recs, i);
    }
  }

  lemma LoadedPlain(c: Config, key: Key, st: StoreState, recs: seq<Record>)
    requires ListsMembers(st, recs)
    ensures Plain(LoadEntries(c, key, recs)) == Contents(st)
    ensures CanonHashes(c, key, LoadEntries(c, key, recs))
  {
    hide LoadEntries, TextHash, Cut, Float64.FromScore;
    LoadedEntries(c, key, recs);
    var e := LoadEntries(c, key, recs);
    forall i | 0 <= i < |recs|
      ensures var v := recs[i].value;
              v in e && v in st.members && SnapRecord(v, e[v]) == StoredRecord(st, v) && e[v].hash == TextHash(c, key, v)
    {
      assert recs[i] == StoredRecord(st, recs[i].value);
    }
  }

  // Plain content and canonical hashes determine the entries.
  lemma PlainCanonical(c: Config, key: Key, a: Entries, b: Entries)
    requires Plain(a) == Plain(b) && CanonHashes(c, key, a) && CanonHashes(c, key, b)
    ensures a == b
  {
    hide TextHash;
    assert a.Keys == Plain(a).Keys == Plain(b).Keys == b.Keys;
    forall v | v in a
      ensures a[v] == b[v]
    {
      assert Plain(a)[v] == Plain(b)[v];
    }
  }

  // ---------- mount ----------

  datatype Definition = Definition(id: Text, cfg: Config)

  // What New draws at random, and the number it starts from.
  datatype Draw = Draw(epoch: u64, key: Key, num: nat)

  function NewSet(c: Config, r: Draw): SetState
  {
    SetState(c, r.epoch, r.key, r.num, 0, map[], multiset{}, map[], r.num, 0, 0, 0)
  }

  predicate Keeps(l: Loaded, d: Definition)
  {
    l.Loaded? && (l.meta.None? || (l.meta.value.id == d.id && l.meta.value.typ == TypeNum(d.cfg.typ)))
  }

  predicate Resumes(l: Loaded, d: Definition, fresh': bool)
  {
    Keeps(l, d) && !fresh' && l.meta.Some?
  }

  // The set mount builds; first and second are the two sets it may have to create.
  ghost function Mounted(l: Loaded, d: Definition, fresh': bool, first: Draw, second: Draw): SetState
  {
    if Resumes(l, d, fresh') then
      var m := l.meta.value;
      var s := AfterLoad(NewSet(d.cfg, first).(epoch := m.epoch, key := m.key, num := m.num), l.recs);
      if HashNum(s.hash) == m.hash then s else AfterLoad(NewSet(d.cfg, second), l.recs)
    else if Keeps(l, d) then AfterLoad(NewSet(d.cfg, first), l.recs)
    else NewSet(d.cfg, first)
  }

  // What Load can answer about this store.
  ghost predicate LoadsFrom(st: StoreState, l: Loaded)
  {
    && (l == NoSet <==> st.meta == map[])
    && (l != NoSet ==> l.meta == ParseMeta(st.meta) && ListsMembers(st, l.recs))
  }

  // A freshly mounted set has nothing planned, and its hash is that of its entries.
  ghost predicate Settled(s: SetState)
  {
    && s.hash == XorOf(s.entries) && s.gen == 0
    && s.pend == map[] && s.pendNum == s.num && s.pendHash == s.hash && s.pendSize == |s.entries|
  }

  lemma LoadShape(s: SetState, recs: seq<Record>)
    ensures var t := AfterLoad(s, recs);
            && t.entries == LoadEntries(s.cfg, s.key, recs) && (s.gen == 0 ==> Settled(t))
            && (t.cfg, t.epoch, t.key, t.num) == (s.cfg, s.epoch, s.key, s.num)
  {
    hide LoadEntries, LoadItems, XorOf;
  }

  lemma MountedShape(l: Loaded, d: Definition, fresh': bool, first: Draw, second: Draw)
    ensures var s := Mounted(l, d, fresh', first, second);
            && s.cfg == d.cfg && Settled(s)
            && s.entries == if Keeps(l, d) then LoadEntries(d.cfg, s.key, l.recs) else map[]
    ensures Unwrapped(first.num) && Unwrapped(second.num) ==> Unwrapped(Mounted(l, d, fresh', first, second).num)
  {
    hide LoadEntries, LoadItems, HashNum, XorOf, AfterLoad;
    XorOfNone();
    if Keeps(l, d) {
      LoadShape(NewSet(d.cfg, first), l.recs);
      LoadShape(NewSet(d.cfg, second), l.recs);
    }
    if Resumes(l, d, fresh') {
      var m := l.meta.value;
      LoadShape(NewSet(d.cfg, first).(epoch := m.epoch, key := m.key, num := m.num), l.recs);
    }
  }

  // In every branch of mount, whatever the store held, memory and store agree afterwards.
  lemma MountAgrees(st: StoreState, l: Loaded, d: Definition, fresh': bool, first: Draw, second: Draw)
    requires LoadsFrom(st, l) && Unwrapped(first.num) && Unwrapped(second.num)
    ensures var s := Mounted(l, d, fresh', first, second);
            && Unwrapped(s.num) && s.cfg == d.cfg && Settled(s)
            && Agree(AfterReset(st, MetaOf(s, d.id), Keeps(l, d)), s, d.id)
            && CanonHashes(d.cfg, s.key, s.entries)
  {
    hide Contents, LoadEntries, HashNum, ParseMeta, MetaFields, ListsMembers, CanonHashes, Plain, Mounted, Settled;
    MountedShape(l, d, fresh', first, second);
    var s := Mounted(l, d, fresh', first, second);
    var st' := AfterReset(st, MetaOf(s, d.id), Keeps(l, d));
    MetaAfterReset(st.meta, MetaOf(s, d.id));
    if Keeps(l, d) {
      LoadedPlain(d.cfg, s.key, st, l.recs);
      ContentsElsewhere(st, st');
    } else {
      NothingStored(st', d.cfg, s.key);
    }
  }

  // The meta is of this definition; types are numbered in the order they are declared.
  predicate SameDefinition(m: Meta, d: Definition)
  {
    m.id == d.id && m.typ == match d.cfg.typ case TypeString => 0 case TypeCIDR => 1 case TypeNumeric => 2
  }

  // What mount keeps: the contents of a store whose meta cannot be read or is of the same
  // definition, in memory and in the store, and nothing of any other.
  lemma MountKeepsExactly(st: StoreState, l: Loaded, d: Definition, fresh': bool, first: Draw, second: Draw)
    requires LoadsFrom(st, l) && Unwrapped(first.num) && Unwrapped(second.num)
    ensures var s := Mounted(l, d, fresh', first, second);
            Unwrapped(s.num) &&
            var st' := AfterReset(st, MetaOf(s, d.id), Keeps(l, d));
            if st.meta != map[] && (ParseMeta(st.meta).None? || SameDefinition(ParseMeta(st.meta).value, d)) then
              Plain(s.entries) == Contents(st) && st'.members == st.members && st'.whys == st.whys
            else s.entries == map[] && st'.members == map[] && st'.whys == map[]
  {
    hide Contents, LoadEntries, ParseMeta, ListsMembers, Plain, Mounted, CanonHashes, Settled, MetaFields;
    MountedShape(l, d, fresh', first, second);
    var s := Mounted(l, d, fresh', first, second);
    if Keeps(l, d) {
      LoadedPlain(d.cfg, s.key, st, l.recs);
    }
  }

  // Under which epoch, key and number: those of the meta if it is of the same definition, no new
  // epoch was asked for and its hash is that of the contents under its key; freshly drawn ones
  // otherwise, once more if only the hash was wrong.
  lemma MountNamesExactly(st: StoreState, l: Loaded, d: Definition, fresh': bool, first: Draw, second: Draw)
    requires LoadsFrom(st, l)
    ensures var s, meta := Mounted(l, d, fresh', first, second), ParseMeta(st.meta);
            var tried := st.meta != map[] && meta.Some? && SameDefinition(meta.value, d) && !fresh';
            if !tried then (s.epoch, s.key, s.num) == (first.epoch, first.key, first.num)
            else if HashNum(XorOf(LoadEntries(d.cfg, meta.value.key, l.recs))) == meta.value.hash
            then (s.epoch, s.key, s.num) == (meta.value.epoch, meta.value.key, meta.value.num)
            else (s.epoch, s.key, s.num) == (second.epoch, second.key, second.num)
  {
    hide ParseMeta, HashNum, XorOf, LoadEntries, LoadItems, ListsMembers;
  }

  lemma NothingStored(st: StoreState, c: Config, key: Key)
    requires st.members == map[]
    ensures Contents(st) == Plain(map[]) && CanonHashes(c, key, map[]) && XorOf(map[]) == 0
  {
    XorOfNone();
  }

  // The epoch of the meta survives a mount exactly when the definition is still the same, no
  // new epoch was asked for, and the hash recomputed from the stored contents is the meta's.
  lemma EpochKeptExactly(st: StoreState, l: Loaded, d: Definition, fresh': bool, first: Draw, second: Draw, m: Meta)
    requires LoadsFrom(st, l) && st.meta != map[] && ParseMeta(st.meta) == Some(m)
    requires first.epoch != m.epoch && second.epoch != m.epoch
    ensures Mounted(l, d, fresh', first, second).epoch == m.epoch <==>
            && m.id == d.id && m.typ == TypeNum(d.cfg.typ) && !fresh'
            && HashNum(XorOf(LoadEntries(d.cfg, m.key, l.recs))) == m.hash
  {
    hide ParseMeta, HashNum, XorOf, LoadEntries, LoadItems, ListsMembers;
  }

  // A restart resumes the set the store agrees with: same epoch, key, number and entries.
  lemma MountResumes(st: StoreState, s: SetState, l: Loaded, d: Definition, first: Draw, second: Draw)
    requires LoadsFrom(st, l) && Agree(st, s, d.id) && s.cfg == d.cfg
    requires CanonHashes(s.cfg, s.key, s.entries) && s.hash == XorOf(s.entries)
    ensures var t := Mounted(l, d, false, first, second);
            && (t.epoch, t.key, t.num, t.entries, t.hash) == (s.epoch, s.key, s.num, s.entries, s.hash)
            && Agree(AfterReset(st, MetaOf(t, d.id), Keeps(l, d)), t, d.id)
            && IndexedBy(t.entries, t.exp)
  {
    hide Contents, HashNum, ParseMeta, ListsMembers, CanonHashes, Plain, XorOf, MetaFields, IndexedBy, LoadEntries, LoadItems;
    NoMetaNoParse();
    LoadedPlain(d.cfg, s.key, st, l.recs);
    PlainCanonical(d.cfg, s.key, LoadEntries(d.cfg, s.key, l.recs), s.entries);
    var t := Mounted(l, d, false, first, second);
    MetaAfterReset(st.meta, MetaOf(t, d.id));
    ContentsElsewhere(st, AfterReset(st, MetaOf(t, d.id), true));
    LoadIndexes(d.cfg, s.key, l.recs);
  }

  lemma NoMetaNoParse()
    ensures ParseMeta(map[]).None?
  {}

  datatype MountResult = Kept | MountFailed | Mount(s: Set)

  // old: the definition of the set already mounted under this name, if any.
  method MountSet(r: Redis, d: Definition, fresh': bool, same: bool, first: Draw, second: Draw,
                  loadFails: bool, resetFails: bool)
    returns (res: MountResult, ghost l: Loaded)
    requires Unwrapped(first.num) && Unwrapped(second.num)
    modifies r
    ensures same && !fresh' ==> res == Kept
    ensures !(same && !fresh') ==> (res.MountFailed? <==> loadFails || resetFails) && !res.Kept?
    ensures !res.Mount? ==> r.st == old(r.st)
    ensures res.Mount? ==>
              && fresh(res.s) && fresh(res.s.exp) && res.s.Valid()
              && LoadsFrom(old(r.st), l)
              && res.s.Model() == Mounted(l, d, fresh', first, second)
              && Unwrapped(res.s.num)
              && r.st == AfterReset(old(r.st), MetaOf(res.s.Model(), d.id), Keeps(l, d))
  {
    hide HashNum, ParseMeta, ListsMembers, LoadEntries, LoadItems, XorOf;
    l := NoSet;
    if same && !fresh' {
      return Kept, l;
    }
    if loadFails {
      return MountFailed, l;
    }
    var loaded := r.Load();
    l := loaded;
    var keep := Keeps(loaded, d);
    var resume := Resumes(loaded, d, fresh');
    var s := new Set(d.cfg, first.num, first.epoch, first.key);
    if resume {
      var m := loaded.meta.value;
      s.Resume(m.epoch, m.key, m.num, loaded.recs);
      if HashNum(s.hash) != m.hash {
        s := new Set(d.cfg, second.num, second.epoch, second.key);
        s.LoadRecords(loaded.recs);
      }
    } else if keep {
      s.LoadRecords(loaded.recs);
    }
    var ok := r.Reset(Meta(d.id, TypeNum(d.cfg.typ), s.epoch, s.key, s.num, HashNum(s.hash)), keep, resetFails);
    if !ok {
      return MountFailed, l;
    }
    res := Mount(s);
  }
}
