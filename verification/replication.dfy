// What travels to mirrors: packages and snapshots, and what a mirror holds after them
// (internal/keeper/keeper.go pack and packSnapshot, internal/wire/pack.go).
module Replication {
  import opened Types
  import opened NetPrefix
  import opened XorFold
  import opened SetModel
  import opened SetLaws
  import opened Pipeline
  import opened Codec
  import opened PackOrder
  import opened Packing
  import opened Dataset
  import opened Durable
  import opened Canon

  // ---------- records on the wire ----------

  function PackType(t: SetType): u8
  {
    if t == TypeCIDR then PACK_TYPE_CIDR else PACK_TYPE_STRING
  }

  function PackFlags(t: SetType): u8
  {
    if t == TypeCIDR then 0 else 1
  }

  function RecordOf(c: Config, op: u8, r: Record): PackRecord
  {
    var prefix :=
      if c.typ != TypeCIDR then NO_PREFIX
      else if IsValid(r.prefix) then r.prefix
      else if c.parse(r.value).Some? then c.parse(r.value).value
      else NO_PREFIX;
    PackRecord(op, prefix, r.value, r.exp, r.reason)
  }

  function WireOp(op: Op): u8
  {
    if op == Remove then REC_REMOVE else REC_ADD
  }

  function DeltaRecords(c: Config, deltas: seq<Delta>): (r: seq<PackRecord>)
    ensures |r| == |deltas|
  {
    seq(|deltas|, i requires 0 <= i < |deltas| => RecordOf(c, WireOp(deltas[i].op), deltas[i].rec))
  }

  function SnapRecords(c: Config, recs: seq<Record>): (r: seq<PackRecord>)
    ensures |r| == |recs|
  {
    seq(|recs|, i requires 0 <= i < |recs| => RecordOf(c, REC_ADD, recs[i]))
  }

  function HeadOf(c: Config, kind: u8, epoch: u64, key: Key, num: nat, hash: Hash): PackHead
    requires Unwrapped(num)
  {
    PackHead(kind, PackType(c.typ), PackFlags(c.typ), epoch, num, HashNum(hash), key, 0)
  }

  function PackageBytes(c: Config, epoch: u64, key: Key, p: Plan): Bytes
    requires Unwrapped(p.num)
  {
    PackBytes(HeadOf(c, KIND_PACKAGE, epoch, key, p.num, p.hash), DeltaRecords(c, p.deltas))
  }

  // ---------- a mirror ----------

  datatype MirrorKey = ByText(text: Text) | ByPrefix(prefix: Prefix)

  type Mirror = map<MirrorKey, i64>

  function MirrorKeyOf(t: u8, r: PackRecord): MirrorKey
  {
    if t == PACK_TYPE_CIDR then ByPrefix(r.prefix) else ByText(r.value)
  }

  function MirrorApply(m: Mirror, t: u8, r: PackRecord): Mirror
  {
    if r.op == REC_REMOVE then m - {MirrorKeyOf(t, r)} else m[MirrorKeyOf(t, r) := r.exp]
  }

  function MirrorApplyAll(m: Mirror, t: u8, recs: seq<PackRecord>): Mirror
  {
    if recs == [] then m
    else MirrorApply(MirrorApplyAll(m, t, recs[..|recs| - 1]), t, recs[|recs| - 1])
  }

  // A mirror reads an object; None when it does not unpack.
  function MirrorRead(m: Mirror, data: Bytes): Option<Mirror>
  {
    match UnpackBytes(data)
    case Err(_) => None
    case Ok((head, recs, _)) => Some(MirrorApplyAll(if head.kind == KIND_SNAPSHOT then map[] else m, head.typ, recs))
  }

  // Material of a record with this key.
  function KeyMaterial(k: MirrorKey): Bytes
  {
    match k
    case ByText(v) => v
    case ByPrefix(p) => PrefixMaterial(p)
  }

  ghost function MirrorHash(c: Config, key: Key, m: Mirror): Hash
  {
    XorAll(map k | k in m :: c.sip(key, KeyMaterial(k)))
  }

  // ---------- the values of a set, seen by a mirror ----------

  function WireKey(c: Config, v: Text): MirrorKey
  {
    if c.typ != TypeCIDR then ByText(v)
    else ByPrefix(if c.parse(v).Some? then c.parse(v).value else NO_PREFIX)
  }

  // Values that parse where they must, and no two of which are the same on the wire.
  predicate Separable(c: Config, values: set<Text>)
  {
    && (c.typ == TypeCIDR ==> forall v :: v in values ==> c.parse(v).Some? && IsValid(c.parse(v).value))
    && (forall v, w :: v in values && w in values && WireKey(c, v) == WireKey(c, w) ==> v == w)
  }

  // The mirror holds exactly the values and expiries of the entries.
  ghost predicate Mirrors(c: Config, e: Entries, m: Mirror)
  {
    && (forall v :: v in e ==> WireKey(c, v) in m && m[WireKey(c, v)] == e[v].exp)
    && (forall k :: k in m ==> exists v :: v in e && WireKey(c, v) == k)
  }

  lemma MirrorHashIs(c: Config, key: Key, e: Entries, m: Mirror)
    requires Mirrors(c, e, m) && CanonHashes(c, key, e) && Separable(c, e.Keys)
    ensures MirrorHash(c, key, m) == XorOf(e)
  {
    var f := map v | v in e :: WireKey(c, v);
    var b := map k | k in m :: c.sip(key, KeyMaterial(k));
    forall v | v in e
      ensures f[v] in b && b[f[v]] == Hashes(e)[v]
    {
      assert e[v].hash == TextHash(c, key, v);
    }
    forall k | k in b
      ensures exists v :: v in Hashes(e) && f[v] == k
    {
      var v :| v in e && WireKey(c, v) == k;
      assert f[v] == k;
    }
    XorRename(Hashes(e), b, f);
  }

  // A record of the set that its text identifies on the wire.
  predicate WireOk(c: Config, r: Record)
  {
    RecordOk(c, r) && (c.typ == TypeCIDR ==> c.parse(r.value).Some? && IsValid(c.parse(r.value).value))
  }

  lemma RecordOfKey(c: Config, op: u8, r: Record)
    requires WireOk(c, r)
    ensures var w := Cleared(PackType(c.typ), PackFlags(c.typ), RecordOf(c, op, r));
            w.op == op && w.exp == r.exp && MirrorKeyOf(PackType(c.typ), w) == WireKey(c, r.value)
  {}

  lemma PutMirrors(c: Config, e: Entries, m: Mirror, v: Text, x: Entry)
    requires Mirrors(c, e, m) && Separable(c, e.Keys + {v})
    ensures Mirrors(c, e[v := x], m[WireKey(c, v) := x.exp])
  {
    hide WireKey;
    var e', m' := e[v := x], m[WireKey(c, v) := x.exp];
    forall k | k in m'
      ensures exists w :: w in e' && WireKey(c, w) == k
    {
      if k == WireKey(c, v) {
        assert v in e';
      } else {
        var w :| w in e && WireKey(c, w) == k;
        assert w in e';
      }
    }
  }

  lemma DropMirrors(c: Config, e: Entries, m: Mirror, v: Text)
    requires Mirrors(c, e, m) && Separable(c, e.Keys + {v})
    ensures Mirrors(c, e - {v}, m - {WireKey(c, v)})
  {
    hide WireKey;
    var e', m' := e - {v}, m - {WireKey(c, v)};
    forall k | k in m'
      ensures exists w :: w in e' && WireKey(c, w) == k
    {
      var w :| w in e && WireKey(c, w) == k;
      assert w in e';
    }
  }

  // One delta on the keeper is one record on the mirror.
  lemma DeltaMirrors(c: Config, e: Entries, m: Mirror, d: Delta)
    requires Mirrors(c, e, m) && WireOk(c, d.rec) && Separable(c, e.Keys + {d.rec.value})
    ensures Mirrors(c, Apply(e, d),
              MirrorApply(m, PackType(c.typ), Cleared(PackType(c.typ), PackFlags(c.typ), RecordOf(c, WireOp(d.op), d.rec))))
  {
    hide Cleared, RecordOf, MirrorKeyOf, WireOk, WireKey, Mirrors, Separable;
    RecordOfKey(c, WireOp(d.op), d.rec);
    if d.op == Add {
      PutMirrors(c, e, m, d.rec.value, EntryOf(d.rec, d.hash));
    } else {
      DropMirrors(c, e, m, d.rec.value);
    }
  }

  // ---------- separable exactly where mirrors can follow ----------

  // Every value parses as the type demands.
  predicate AllParse(c: Config, values: set<Text>)
  {
    c.typ == TypeCIDR ==> forall v :: v in values ==> c.parse(v).Some? && IsValid(c.parse(v).value)
  }

  // The record of a delta takes a mirror of e to a mirror of e with the delta applied.
  ghost predicate Follows(c: Config, e: Entries, m: Mirror, d: Delta)
  {
    Mirrors(c, Apply(e, d),
      MirrorApply(m, PackType(c.typ), Cleared(PackType(c.typ), PackFlags(c.typ), RecordOf(c, WireOp(d.op), d.rec))))
  }

  // Every delta over these values that can be sent is followed by every mirror.
  ghost predicate AlwaysFollows(c: Config, values: set<Text>)
  {
    forall e: Entries, m: Mirror, d: Delta :: e.Keys <= values && d.rec.value in values && Mirrors(c, e, m) && WireOk(c, d.rec) && TextFits(c, d.rec)
      ==> Follows(c, e, m, d)
  }

  lemma CollisionStops(c: Config, values: set<Text>, v: Text, w: Text)
    requires AllParse(c, values) && v in values && w in values && v != w && WireKey(c, v) == WireKey(c, w)
    ensures !AlwaysFollows(c, values)
  {
    hide WireKey, Cleared, RecordOf, MirrorKeyOf;
    var r := Record(w, 1, [], [], NO_PREFIX);
    var e, m, d := map[v := Entry(0, [], [], 0)], map[WireKey(c, v) := 0], Delta(Add, r, 0);
    SameKeysParse(c, v, w);
    assert Mirrors(c, e, m);
    RecordOfKey(c, WireOp(d.op), r);
    assert v in Apply(e, d) && w in Apply(e, d);
    assert !Follows(c, e, m, d);
  }

  // Only prefixes can share a wire key.
  lemma SameKeysParse(c: Config, v: Text, w: Text)
    requires v != w && WireKey(c, v) == WireKey(c, w)
    ensures c.typ == TypeCIDR
  {}

  // Over values that parse, mirrors can follow whatever is sent if and only if no two of the
  // values are the same on the wire.
  lemma SeparableExactly(c: Config, values: set<Text>)
    requires AllParse(c, values)
    ensures Separable(c, values) <==> AlwaysFollows(c, values)
  {
    hide WireKey, Follows, Mirrors, WireOk, TextFits, AlwaysFollows;
    if Separable(c, values) {
      SeparableFollows(c, values);
    } else {
      var v, w :| v in values && w in values && WireKey(c, v) == WireKey(c, w) && v != w;
      CollisionStops(c, values, v, w);
    }
  }

  lemma SeparableFollows(c: Config, values: set<Text>)
    requires Separable(c, values)
    ensures AlwaysFollows(c, values)
  {
    hide Mirrors, WireOk, TextFits, Separable;
    forall e: Entries, m: Mirror, d: Delta | e.Keys <= values && d.rec.value in values && Mirrors(c, e, m) && WireOk(c, d.rec) && TextFits(c, d.rec)
      ensures Follows(c, e, m, d)
    {
      SeparableSubset(c, e.Keys + {d.rec.value}, values);
      DeltaMirrors(c, e, m, d);
    }
  }

  lemma SeparableSubset(c: Config, a: set<Text>, b: set<Text>)
    requires a <= b && Separable(c, b)
    ensures Separable(c, a)
  {
    hide WireKey;
  }

  lemma {:induction false} ReplayKeys(e: Entries, deltas: seq<Delta>)
    ensures Replay(e, deltas).Keys <= e.Keys + Touched(deltas)
  {
    if deltas != [] {
      var before, d := deltas[..|deltas| - 1], deltas[|deltas| - 1];
      ReplayKeys(e, before);
      TouchedSnoc(before, d);
      assert before + [d] == deltas;
    }
  }

  predicate AllWireOk(c: Config, deltas: seq<Delta>)
  {
    forall i :: 0 <= i < |deltas| ==> WireOk(c, deltas[i].rec)
  }

  // A package applied by a mirror does what its plan does to the entries.
  lemma {:induction false} DeltasMirror(c: Config, e: Entries, m: Mirror, deltas: seq<Delta>)
    requires Mirrors(c, e, m) && AllWireOk(c, deltas) && Separable(c, e.Keys + Touched(deltas))
    ensures Mirrors(c, Replay(e, deltas),
              MirrorApplyAll(m, PackType(c.typ), ClearedAll(PackType(c.typ), PackFlags(c.typ), DeltaRecords(c, deltas))))
  {
    hide Mirrors, WireOk, RecordOf, Cleared, MirrorApply, WireKey, Separable, Apply, Touched;
    var t, f := PackType(c.typ), PackFlags(c.typ);
    var recs := ClearedAll(t, f, DeltaRecords(c, deltas));
    if deltas != [] {
      var before, d := deltas[..|deltas| - 1], deltas[|deltas| - 1];
      TouchedSnoc(before, d);
      assert before + [d] == deltas;
      SeparableSubset(c, e.Keys + Touched(before), e.Keys + Touched(deltas));
      DeltasMirror(c, e, m, before);
      ReplayKeys(e, before);
      SeparableSubset(c, Replay(e, before).Keys + {d.rec.value}, e.Keys + Touched(deltas));
      assert recs[..|recs| - 1] == ClearedAll(t, f, DeltaRecords(c, before));
      assert recs[|recs| - 1] == Cleared(t, f, RecordOf(c, WireOp(d.op), d.rec));
      DeltaMirrors(c, Replay(e, before), MirrorApplyAll(m, t, recs[..|recs| - 1]), d);
    }
  }

  // ---------- what fits the format ----------

  // A set of prefixes sends neither text.
  predicate TextFits(c: Config, r: Record)
  {
    c.typ != TypeCIDR ==> |r.value| < 0x1_0000 && |r.reason| < 0x1_0000
  }

  // A list of records a package can carry.
  predicate Carriable(c: Config, deltas: seq<Delta>)
  {
    && |deltas| < 0x1_0000_0000
    && forall i :: 0 <= i < |deltas| ==> (WireOk(c, deltas[i].rec) && TextFits(c, deltas[i].rec))
  }

  lemma RecordOfFits(c: Config, op: u8, r: Record)
    requires WireOk(c, r) && TextFits(c, r)
    ensures RecordFits(PackType(c.typ), PackFlags(c.typ), RecordOf(c, op, r))
  {}

  lemma PackageUnpacks(c: Config, epoch: u64, key: Key, p: Plan)
    requires Unwrapped(p.num) && Carriable(c, p.deltas)
    ensures var head := HeadOf(c, KIND_PACKAGE, epoch, key, p.num, p.hash);
            var recs := DeltaRecords(c, p.deltas);
            var data := PackageBytes(c, epoch, key, p);
            UnpackBytes(data) == Ok((head.(count := |p.deltas|), ClearedAll(head.typ, head.flags, recs), |data|))
  {
    hide PackBytes, UnpackBytes, RecordOf, RecordFits, WireOk, TextFits, HashNum, ClearedAll;
    var recs := DeltaRecords(c, p.deltas);
    var head := HeadOf(c, KIND_PACKAGE, epoch, key, p.num, p.hash);
    forall i | 0 <= i < |recs|
      ensures RecordFits(head.typ, head.flags, recs[i])
    {
      RecordOfFits(c, WireOp(p.deltas[i].op), p.deltas[i].rec);
    }
    RoundTripExactly(head, recs);
  }

  // ---------- what objects say ----------

  // A header read names these, the hash as the number it is written as.
  predicate Announces(h: PackHead, kind: u8, epoch: u64, key: Key, num: nat, hash: Hash, count: nat)
  {
    h.kind == kind && h.epoch == epoch && h.key == key && h.num == num && AsHash(h.hash) == hash && h.count == count
  }

  // A record read says what was done with r: 1 for added, 2 for removed; its expiry; and its
  // prefix, or its text and reason.
  predicate Tells(c: Config, q: PackRecord, added: bool, r: Record)
  {
    && q.op == (if added then 1 else 2) && q.exp == r.exp
    && if c.typ == TypeCIDR then c.parse(r.value) == Some(q.prefix) else q.value == r.value && q.reason == r.reason
  }

  lemma RecordTells(c: Config, op: Op, r: Record)
    requires WireOk(c, r)
    ensures Tells(c, Cleared(PackType(c.typ), PackFlags(c.typ), RecordOf(c, WireOp(op), r)), op == Add, r)
  {}

  lemma HeadAnnounces(c: Config, kind: u8, epoch: u64, key: Key, num: nat, hash: Hash, count: u32)
    requires Unwrapped(num)
    ensures Announces(HeadOf(c, kind, epoch, key, num, hash).(count := count), kind, epoch, key, num, hash, count)
  {
    hide HashNum, AsHash;
    HashNumBack(hash);
  }

  // A package, read back, announces the plan and tells its deltas in order.
  lemma PackageTells(c: Config, epoch: u64, key: Key, p: Plan)
    requires Unwrapped(p.num) && Carriable(c, p.deltas)
    ensures var r := UnpackBytes(PackageBytes(c, epoch, key, p));
            && r.Ok? && Announces(r.value.0, 2, epoch, key, p.num, p.hash, |p.deltas|)
            && |r.value.1| == |p.deltas|
            && forall i :: 0 <= i < |p.deltas| ==> Tells(c, r.value.1[i], p.deltas[i].op == Add, p.deltas[i].rec)
  {
    hide UnpackBytes, PackageBytes, HeadOf, RecordOf, Cleared, Tells, Announces, WireOk, TextFits;
    PackageUnpacks(c, epoch, key, p);
    HeadAnnounces(c, KIND_PACKAGE, epoch, key, p.num, p.hash, |p.deltas|);
    HeadType(c, KIND_PACKAGE, epoch, key, p.num, p.hash);
    forall i | 0 <= i < |p.deltas|
      ensures Tells(c, UnpackBytes(PackageBytes(c, epoch, key, p)).value.1[i], p.deltas[i].op == Add, p.deltas[i].rec)
    {
      RecordTells(c, p.deltas[i].op, p.deltas[i].rec);
    }
  }

  lemma HeadType(c: Config, kind: u8, epoch: u64, key: Key, num: nat, hash: Hash)
    requires Unwrapped(num)
    ensures var h := HeadOf(c, kind, epoch, key, num, hash); h.typ == PackType(c.typ) && h.flags == PackFlags(c.typ)
  {}

  // ---------- snapshots ----------

  ghost predicate HasRecord(t: u8, recs: seq<PackRecord>, k: MirrorKey)
  {
    exists i :: 0 <= i < |recs| && MirrorKeyOf(t, recs[i]) == k
  }

  lemma {:induction false} AddsMirror(t: u8, recs: seq<PackRecord>)
    requires forall i :: 0 <= i < |recs| ==> recs[i].op == REC_ADD
    requires forall i, j :: 0 <= i < |recs| && 0 <= j < |recs| && MirrorKeyOf(t, recs[i]) == MirrorKeyOf(t, recs[j]) ==>
               recs[i].exp == recs[j].exp
    ensures var m := MirrorApplyAll(map[], t, recs);
            && (forall i :: 0 <= i < |recs| ==> (MirrorKeyOf(t, recs[i]) in m && m[MirrorKeyOf(t, recs[i])] == recs[i].exp))
            && (forall k :: k in m ==> HasRecord(t, recs, k))
  {
    hide MirrorKeyOf;
    if recs != [] {
      var before, r := recs[..|recs| - 1], recs[|recs| - 1];
      AddsMirror(t, before);
      var m0, m := MirrorApplyAll(map[], t, before), MirrorApplyAll(map[], t, recs);
      assert m == m0[MirrorKeyOf(t, r) := r.exp];
      forall i | 0 <= i < |recs|
        ensures MirrorKeyOf(t, recs[i]) in m && m[MirrorKeyOf(t, recs[i])] == recs[i].exp
      {
        if i < |before| {
          assert before[i] == recs[i];
        }
      }
      forall k | k in m
        ensures HasRecord(t, recs, k)
      {
        if k in m0 {
          var i :| 0 <= i < |before| && MirrorKeyOf(t, before[i]) == k;
          assert recs[i] == before[i];
        } else {
          assert MirrorKeyOf(t, recs[|recs| - 1]) == k;
        }
      }
    }
  }

  // The records of a snapshot of e, in whatever order sorting left them.
  ghost predicate SnapshotOf(c: Config, e: Entries, sorted: seq<PackRecord>)
  {
    exists recs: seq<Record> :: Lists(e, recs) && multiset(sorted) == multiset(SnapRecords(c, recs))
  }

  function SnapPack(c: Config, e: Entries, v: Text): PackRecord
    requires v in e
  {
    RecordOf(c, REC_ADD, SnapRecord(v, e[v]))
  }

  // The entry behind a record, and the record of an entry.
  lemma EntryOfRecord(c: Config, e: Entries, sorted: seq<PackRecord>, i: nat) returns (v: Text)
    requires SnapshotOf(c, e, sorted) && i < |sorted|
    ensures v in e && sorted[i] == SnapPack(c, e, v)
  {
    hide RecordOf;
    var recs: seq<Record> :| Lists(e, recs) && multiset(sorted) == multiset(SnapRecords(c, recs));
    var packed := SnapRecords(c, recs);
    SameElements(sorted, packed, sorted[i]);
    var j :| 0 <= j < |packed| && packed[j] == sorted[i];
    v := recs[j].value;
  }

  lemma RecordOfEntry(c: Config, e: Entries, sorted: seq<PackRecord>, v: Text) returns (i: nat)
    requires SnapshotOf(c, e, sorted) && v in e
    ensures i < |sorted| && sorted[i] == SnapPack(c, e, v)
  {
    hide RecordOf;
    var recs: seq<Record> :| Lists(e, recs) && multiset(sorted) == multiset(SnapRecords(c, recs));
    var packed := SnapRecords(c, recs);
    var j :| 0 <= j < |recs| && recs[j].value == v;
    assert packed[j] == SnapPack(c, e, v);
    SameElements(sorted, packed, packed[j]);
    i :| 0 <= i < |sorted| && sorted[i] == packed[j];
  }

  // What a mirror reads of an entry's record.
  lemma SnapPackReads(c: Config, e: Entries, v: Text)
    requires v in e && Separable(c, e.Keys)
    ensures var w := Cleared(PackType(c.typ), PackFlags(c.typ), SnapPack(c, e, v));
            w.op == REC_ADD && w.exp == e[v].exp && MirrorKeyOf(PackType(c.typ), w) == WireKey(c, v)
    ensures TextFits(c, SnapRecord(v, e[v])) ==> RecordFits(PackType(c.typ), PackFlags(c.typ), SnapPack(c, e, v))
  {
    hide RecordOf, Cleared, MirrorKeyOf, WireKey, RecordFits;
    assert WireOk(c, SnapRecord(v, e[v]));
    RecordOfKey(c, REC_ADD, SnapRecord(v, e[v]));
    if TextFits(c, SnapRecord(v, e[v])) {
      RecordOfFits(c, REC_ADD, SnapRecord(v, e[v]));
    }
  }

  // Record i stands for the entry of v.
  predicate Stands(c: Config, e: Entries, r: PackRecord, v: Text)
  {
    v in e && r.op == REC_ADD && MirrorKeyOf(PackType(c.typ), r) == WireKey(c, v) && r.exp == e[v].exp
  }

  lemma StandingMirrors(c: Config, e: Entries, recs: seq<PackRecord>, behind: seq<Text>)
    requires |behind| == |recs|
    requires forall i :: 0 <= i < |recs| ==> Stands(c, e, recs[i], behind[i])
    requires forall v :: v in e ==> v in behind
    requires Separable(c, e.Keys)
    ensures Mirrors(c, e, MirrorApplyAll(map[], PackType(c.typ), recs))
  {
    hide MirrorKeyOf, WireKey, MirrorApplyAll;
    var t := PackType(c.typ);
    forall i, j | 0 <= i < |recs| && 0 <= j < |recs| && MirrorKeyOf(t, recs[i]) == MirrorKeyOf(t, recs[j])
      ensures recs[i].exp == recs[j].exp
    {
      assert Stands(c, e, recs[i], behind[i]) && Stands(c, e, recs[j], behind[j]);
      assert behind[i] == behind[j];
    }
    AddsMirror(t, recs);
    var m := MirrorApplyAll(map[], t, recs);
    forall k | k in m
      ensures exists v :: v in e && WireKey(c, v) == k
    {
      assert HasRecord(t, recs, k);
      var i :| 0 <= i < |recs| && MirrorKeyOf(t, recs[i]) == k;
      assert Stands(c, e, recs[i], behind[i]);
    }
    forall v | v in e
      ensures WireKey(c, v) in m && m[WireKey(c, v)] == e[v].exp
    {
      var i :| 0 <= i < |behind| && behind[i] == v;
      assert Stands(c, e, recs[i], behind[i]);
    }
  }

  lemma SnapStands(c: Config, e: Entries, v: Text)
    requires v in e && Separable(c, e.Keys)
    ensures Stands(c, e, Cleared(PackType(c.typ), PackFlags(c.typ), SnapPack(c, e, v)), v)
  {
    hide Cleared, MirrorKeyOf, WireKey, SnapPack;
    SnapPackReads(c, e, v);
  }

  lemma {:induction false} EntriesBehind(c: Config, e: Entries, sorted: seq<PackRecord>) returns (behind: seq<Text>)
    requires SnapshotOf(c, e, sorted)
    ensures |behind| == |sorted|
    ensures forall i :: 0 <= i < |sorted| ==> (behind[i] in e && sorted[i] == SnapPack(c, e, behind[i]))
    ensures forall v :: v in e ==> v in behind
  {
    hide SnapshotOf;
    behind := [];
    for n := 0 to |sorted|
      invariant |behind| == n
      invariant forall i :: 0 <= i < n ==> (behind[i] in e && sorted[i] == SnapPack(c, e, behind[i]))
    {
      hide SnapPack;
      var v := EntryOfRecord(c, e, sorted, n);
      behind := behind + [v];
    }
    forall v | v in e
      ensures v in behind
    {
      var i := RecordOfEntry(c, e, sorted, v);
      assert behind[i] == v;
    }
  }

  lemma SnapshotMirrors(c: Config, e: Entries, sorted: seq<PackRecord>)
    requires SnapshotOf(c, e, sorted) && Separable(c, e.Keys)
    ensures Mirrors(c, e, MirrorApplyAll(map[], PackType(c.typ), ClearedAll(PackType(c.typ), PackFlags(c.typ), sorted)))
  {
    hide Cleared, SnapshotOf, MirrorApplyAll, SnapPack, Separable, Mirrors, Stands;
    var t, f := PackType(c.typ), PackFlags(c.typ);
    var recs := ClearedAll(t, f, sorted);
    var behind := EntriesBehind(c, e, sorted);
    forall i | 0 <= i < |recs|
      ensures Stands(c, e, recs[i], behind[i])
    {
      SnapStands(c, e, behind[i]);
      assert recs[i] == Cleared(t, f, sorted[i]);
    }
    StandingMirrors(c, e, recs, behind);
  }

  function SnapshotBytes(c: Config, epoch: u64, key: Key, num: nat, hash: Hash, sorted: seq<PackRecord>): Bytes
    requires Unwrapped(num)
  {
    PackBytes(HeadOf(c, KIND_SNAPSHOT, epoch, key, num, hash), sorted)
  }

  // Entries a snapshot can carry.
  predicate EntriesFit(c: Config, e: Entries)
  {
    |e| < 0x1_0000_0000 && forall v :: v in e ==> TextFits(c, SnapRecord(v, e[v]))
  }

  lemma ListsLength(e: Entries, recs: seq<Record>)
    requires Lists(e, recs)
    ensures |recs| == |e|
    decreases |recs|
  {
    if recs == [] {
      assert e.Keys == {};
    } else {
      var r := recs[|recs| - 1];
      var e', before := e - {r.value}, recs[..|recs| - 1];
      forall v | v in e'
        ensures exists i :: 0 <= i < |before| && before[i].value == v
      {
        var i :| 0 <= i < |recs| && recs[i].value == v;
        assert before[i].value == v;
      }
      ListsLength(e', before);
      SizeDrop(e, r.value);
    }
  }

  lemma SnapshotLength(c: Config, e: Entries, sorted: seq<PackRecord>)
    requires SnapshotOf(c, e, sorted)
    ensures |sorted| == |e|
  {
    hide RecordOf;
    var recs: seq<Record> :| Lists(e, recs) && multiset(sorted) == multiset(SnapRecords(c, recs));
    assert |sorted| == |multiset(sorted)| == |SnapRecords(c, recs)|;
    ListsLength(e, recs);
  }

  lemma SnapshotUnpacks(c: Config, epoch: u64, key: Key, num: nat, e: Entries, sorted: seq<PackRecord>)
    requires Unwrapped(num) && SnapshotOf(c, e, sorted) && Separable(c, e.Keys) && EntriesFit(c, e)
    ensures var data := SnapshotBytes(c, epoch, key, num, XorOf(e), sorted);
            var head := HeadOf(c, KIND_SNAPSHOT, epoch, key, num, XorOf(e));
            |sorted| == |e|
            && UnpackBytes(data) == Ok((head.(count := |e|), ClearedAll(head.typ, head.flags, sorted), |data|))
  {
    hide PackBytes, UnpackBytes, RecordFits, TextFits, HashNum, XorOf, ClearedAll, SnapshotOf, SnapPack, Separable;
    var head := HeadOf(c, KIND_SNAPSHOT, epoch, key, num, XorOf(e));
    SnapshotLength(c, e, sorted);
    forall i | 0 <= i < |sorted|
      ensures RecordFits(head.typ, head.flags, sorted[i])
    {
      var v := EntryOfRecord(c, e, sorted, i);
      SnapPackReads(c, e, v);
    }
    RoundTripExactly(head, sorted);
  }

  // Some entry is told by the record.
  ghost predicate TellsSome(c: Config, q: PackRecord, e: Entries)
  {
    exists v :: v in e && Tells(c, q, true, SnapRecord(v, e[v]))
  }

  ghost predicate ToldBySome(c: Config, recs: seq<PackRecord>, e: Entries, v: Text)
    requires v in e
  {
    exists i :: 0 <= i < |recs| && Tells(c, recs[i], true, SnapRecord(v, e[v]))
  }

  // A snapshot, read back, announces the state and tells its entries, each of them and only them.
  lemma SnapshotTells(c: Config, epoch: u64, key: Key, num: nat, e: Entries, sorted: seq<PackRecord>)
    requires Unwrapped(num) && SnapshotOf(c, e, sorted) && Separable(c, e.Keys) && EntriesFit(c, e)
    ensures var r := UnpackBytes(SnapshotBytes(c, epoch, key, num, XorOf(e), sorted));
            && r.Ok? && Announces(r.value.0, 1, epoch, key, num, XorOf(e), |e|) && |r.value.1| == |e|
            && (forall i :: 0 <= i < |e| ==> TellsSome(c, r.value.1[i], e))
            && forall v :: v in e ==> ToldBySome(c, r.value.1, e, v)
  {
    hide UnpackBytes, SnapshotBytes, HeadOf, RecordOf, Cleared, Tells, Announces, SnapshotOf, EntriesFit, WireOk, XorOf,
         SnapRecord, Separable;
    SnapshotUnpacks(c, epoch, key, num, e, sorted);
    HeadAnnounces(c, KIND_SNAPSHOT, epoch, key, num, XorOf(e), |e|);
    HeadType(c, KIND_SNAPSHOT, epoch, key, num, XorOf(e));
    var recs := UnpackBytes(SnapshotBytes(c, epoch, key, num, XorOf(e), sorted)).value.1;
    forall i | 0 <= i < |e|
      ensures TellsSome(c, recs[i], e)
    {
      var v := EntryOfRecord(c, e, sorted, i);
      EntryTells(c, e, v);
    }
    forall v | v in e
      ensures ToldBySome(c, recs, e, v)
    {
      var i := RecordOfEntry(c, e, sorted, v);
      EntryTells(c, e, v);
      assert recs[i] == Cleared(PackType(c.typ), PackFlags(c.typ), SnapPack(c, e, v));
    }
  }

  lemma EntryTells(c: Config, e: Entries, v: Text)
    requires v in e && Separable(c, e.Keys)
    ensures Tells(c, Cleared(PackType(c.typ), PackFlags(c.typ), SnapPack(c, e, v)), true, SnapRecord(v, e[v]))
  {
    hide Tells, Cleared, RecordOf;
    assert WireOk(c, SnapRecord(v, e[v]));
    RecordTells(c, Add, SnapRecord(v, e[v]));
  }

  // ---------- a mirror follows the keeper ----------

  function MirrorReadAll(m: Mirror, objects: seq<Bytes>): Option<Mirror>
    decreases |objects|
  {
    if objects == [] then Some(m) else
      match MirrorRead(m, objects[0])
      case None => None
      case Some(m') => MirrorReadAll(m', objects[1..])
  }

  // Plans a mirror can be sent, over the given universe of values.
  ghost predicate Sendable(c: Config, universe: set<Text>, plans: seq<Plan>)
  {
    forall i :: 0 <= i < |plans| ==>
      (Unwrapped(plans[i].num) && Carriable(c, plans[i].deltas) && Touched(plans[i].deltas) <= universe)
  }

  function Packages(c: Config, epoch: u64, key: Key, plans: seq<Plan>): (r: seq<Bytes>)
    requires forall i :: 0 <= i < |plans| ==> Unwrapped(plans[i].num)
    ensures |r| == |plans|
  {
    seq(|plans|, i requires 0 <= i < |plans| => PackageBytes(c, epoch, key, plans[i]))
  }

  lemma PackageMirrors(c: Config, epoch: u64, key: Key, e: Entries, m: Mirror, p: Plan)
    requires Unwrapped(p.num) && Carriable(c, p.deltas)
    requires Mirrors(c, e, m) && Separable(c, e.Keys + Touched(p.deltas))
    ensures var m' := MirrorRead(m, PackageBytes(c, epoch, key, p));
            m'.Some? && Mirrors(c, Replay(e, p.deltas), m'.value)
  {
    hide UnpackBytes, PackageBytes, Mirrors, MirrorApplyAll, ClearedAll, DeltaRecords, Touched, Separable, WireOk, TextFits, HashNum, Replay;
    PackageUnpacks(c, epoch, key, p);
    assert AllWireOk(c, p.deltas);
    DeltasMirror(c, e, m, p.deltas);
  }

  // Packages in order take a mirror of the entries before them to one of the entries after.
  lemma {:induction false} PackagesMirror(c: Config, epoch: u64, key: Key, e: Entries, m: Mirror, plans: seq<Plan>,
                                          universe: set<Text>)
    requires Sendable(c, universe, plans) && Separable(c, universe) && e.Keys <= universe
    requires Mirrors(c, e, m)
    ensures var m' := MirrorReadAll(m, Packages(c, epoch, key, plans));
            m'.Some? && Mirrors(c, ReplayAll(e, plans), m'.value)
    ensures ReplayAll(e, plans).Keys <= universe
    decreases |plans|
  {
    hide MirrorRead, PackageBytes, Mirrors, Touched, Separable, Carriable, Replay;
    if plans != [] {
      var p, objects := plans[0], Packages(c, epoch, key, plans);
      SeparableSubset(c, e.Keys + Touched(p.deltas), universe);
      PackageMirrors(c, epoch, key, e, m, p);
      ReplayKeys(e, p.deltas);
      assert objects[1..] == Packages(c, epoch, key, plans[1..]);
      PackagesMirror(c, epoch, key, Replay(e, p.deltas), MirrorRead(m, objects[0]).value, plans[1..], universe);
    }
  }

  lemma {:induction false} ChainEnds(e: Entries, num: nat, plans: seq<Plan>)
    requires Chain(e, num, plans) && plans != []
    ensures plans[|plans| - 1].hash == XorOf(ReplayAll(e, plans))
    ensures plans[|plans| - 1].num == num + |plans|
    decreases |plans|
  {
    hide XorOf, Fits, Replay;
    if |plans| > 1 {
      ChainEnds(Replay(e, plans[0].deltas), num + 1, plans[1..]);
    } else {
      assert plans[1..] == [];
    }
  }

  // ---------- a snapshot, then packages ----------

  // Entries a mirror can follow from: of the given universe, and as their texts hash.
  ghost predicate Followable(c: Config, key: Key, universe: set<Text>, e: Entries)
  {
    && e.Keys <= universe && CanonHashes(c, key, e)
    && forall v :: v in e ==> TextFits(c, SnapRecord(v, e[v]))
  }

  // A universe of values a mirror can tell apart.
  predicate Observable(c: Config, universe: set<Text>)
  {
    Separable(c, universe) && |universe| < 0x1_0000_0000
  }

  // What was read from the snapshot of e and the packages of the plans committed since.
  ghost function ReadSince(c: Config, epoch: u64, key: Key, e: Entries, num: nat, sorted: seq<PackRecord>, plans: seq<Plan>)
    : Option<Mirror>
    requires Unwrapped(num) && forall i :: 0 <= i < |plans| ==> Unwrapped(plans[i].num)
  {
    MirrorReadAll(map[], [SnapshotBytes(c, epoch, key, num, XorOf(e), sorted)] + Packages(c, epoch, key, plans))
  }

  lemma FollowableFits(c: Config, key: Key, universe: set<Text>, e: Entries)
    requires Observable(c, universe) && Followable(c, key, universe, e)
    ensures EntriesFit(c, e) && Separable(c, e.Keys)
  {
    hide TextFits, SnapRecord, CanonHashes, Separable;
    SmallerSet(e.Keys, universe);
    assert |e| == |e.Keys|;
    SeparableSubset(c, e.Keys, universe);
  }

  lemma SnapshotRead(c: Config, epoch: u64, key: Key, universe: set<Text>, e: Entries, num: nat, sorted: seq<PackRecord>)
    requires Observable(c, universe) && Followable(c, key, universe, e) && Unwrapped(num) && SnapshotOf(c, e, sorted)
    ensures var res := MirrorRead(map[], SnapshotBytes(c, epoch, key, num, XorOf(e), sorted));
            res.Some? && Mirrors(c, e, res.value)
  {
    hide UnpackBytes, SnapshotBytes, Mirrors, MirrorApplyAll, ClearedAll, Separable, HashNum, XorOf, EntriesFit,
         SnapshotOf, Followable, Observable;
    FollowableFits(c, key, universe, e);
    SnapshotUnpacks(c, epoch, key, num, e, sorted);
    SnapshotMirrors(c, e, sorted);
  }

  // The snapshot hands the mirror the key.
  lemma SnapshotHead(c: Config, epoch: u64, key: Key, universe: set<Text>, e: Entries, num: nat, sorted: seq<PackRecord>)
    requires Observable(c, universe) && Followable(c, key, universe, e) && Unwrapped(num) && SnapshotOf(c, e, sorted)
    ensures var head := UnpackBytes(SnapshotBytes(c, epoch, key, num, XorOf(e), sorted));
            head.Ok? && Announces(head.value.0, 1, epoch, key, num, XorOf(e), |e|)
  {
    hide UnpackBytes, SnapshotBytes, Separable, XorOf, EntriesFit, SnapshotOf, Followable, Observable, Announces, Tells;
    FollowableFits(c, key, universe, e);
    SnapshotTells(c, epoch, key, num, e, sorted);
  }

  // A mirror that reads a snapshot of e and then the packages of any plans that fit it holds
  // exactly the entries with those plans replayed, and the XOR of the keyed hashes of its
  // records' material is theirs.
  lemma SnapshotThenPackages(c: Config, epoch: u64, key: Key, universe: set<Text>, e: Entries, num: nat,
                             sorted: seq<PackRecord>, plans: seq<Plan>)
    requires Observable(c, universe) && Followable(c, key, universe, e) && SnapshotOf(c, e, sorted) && Unwrapped(num)
    requires Sendable(c, universe, plans) && CanonQueue(c, key, plans)
    ensures var m, e' := ReadSince(c, epoch, key, e, num, sorted, plans), ReplayAll(e, plans);
            && m.Some? && Mirrors(c, e', m.value)
            && MirrorHash(c, key, m.value) == XorOf(e')
  {
    hide Mirrors, Separable, XorOf, Sendable, CanonQueue, CanonHashes, SnapshotOf, MirrorRead, SnapshotBytes,
         PackageBytes, MirrorHash, ReplayAll, TextFits;
    SnapshotRead(c, epoch, key, universe, e, num, sorted);
    var first := SnapshotBytes(c, epoch, key, num, XorOf(e), sorted);
    PlansUnwrapped(c, universe, plans);
    var packages := Packages(c, epoch, key, plans);
    assert ([first] + packages)[1..] == packages;
    var m0 := MirrorRead(map[], first).value;
    PackagesMirror(c, epoch, key, e, m0, plans, universe);
    ReplayAllCanon(c, key, e, plans);
    SeparableSubset(c, ReplayAll(e, plans).Keys, universe);
    MirrorHashIs(c, key, ReplayAll(e, plans), MirrorReadAll(m0, packages).value);
  }

  lemma PlansUnwrapped(c: Config, universe: set<Text>, plans: seq<Plan>)
    requires Sendable(c, universe, plans)
    ensures forall i :: 0 <= i < |plans| ==> Unwrapped(plans[i].num)
  {}

  // The last header read carries the epoch, the key, the number and the hash of that state: the
  // check a mirror makes succeeds.
  lemma LastPackageHead(c: Config, epoch: u64, key: Key, universe: set<Text>, e: Entries, num: nat, plans: seq<Plan>)
    requires Chain(e, num, plans) && plans != [] && Sendable(c, universe, plans)
    ensures Unwrapped(plans[|plans| - 1].num)
    ensures var head := UnpackBytes(PackageBytes(c, epoch, key, plans[|plans| - 1]));
            && head.Ok?
            && Announces(head.value.0, 2, epoch, key, num + |plans|, XorOf(ReplayAll(e, plans)), |plans[|plans| - 1].deltas|)
  {
    hide UnpackBytes, PackageBytes, XorOf, Chain, ReplayAll, Carriable, Tells, Announces, Touched;
    ChainEnds(e, num, plans);
    PackageTells(c, epoch, key, plans[|plans| - 1]);
  }

  // ---------- the program ----------

  method PackPlan(s: Set, p: Plan) returns (pkg: Bytes)
    requires Unwrapped(p.num)
    ensures pkg == PackageBytes(s.cfg, s.epoch, s.key, p)
  {
    hide PackBytes, RecordOf, HashNum;
    var recs := new PackRecord[|p.deltas|];
    for i := 0 to |p.deltas|
      invariant recs[..i] == DeltaRecords(s.cfg, p.deltas)[..i]
    {
      recs[i] := RecordOf(s.cfg, WireOp(p.deltas[i].op), p.deltas[i].rec);
    }
    assert recs[..] == recs[..recs.Length] == DeltaRecords(s.cfg, p.deltas);
    var size;
    pkg, size := Pack(HeadOf(s.cfg, KIND_PACKAGE, s.epoch, s.key, p.num, p.hash), recs);
  }

  method PackSnapshot(s: Set) returns (data: Bytes, num: nat, hash: Hash, count: nat, ghost sorted: seq<PackRecord>)
    requires Unwrapped(s.num)
    ensures num == s.num && hash == s.hash && count == |s.entries|
    ensures SnapshotOf(s.cfg, s.entries, sorted) && Sorted(PackType(s.cfg.typ), sorted)
    ensures data == SnapshotBytes(s.cfg, s.epoch, s.key, num, hash, sorted)
  {
    hide PackBytes, RecordOf, HashNum, Lists, Less;
    var epoch, key, records;
    epoch, num, hash, key, records := s.Snapshot();
    ListsLength(s.entries, records);
    count := |records|;
    var recs := new PackRecord[|records|];
    for i := 0 to |records|
      invariant recs[..i] == SnapRecords(s.cfg, records)[..i]
    {
      recs[i] := RecordOf(s.cfg, REC_ADD, records[i]);
    }
    assert recs[..] == recs[..recs.Length] == SnapRecords(s.cfg, records);
    var size;
    data, size := Pack(HeadOf(s.cfg, KIND_SNAPSHOT, epoch, key, num, hash), recs);
    sorted := recs[..];
  }

  // Two packings of the same contents have the same bytes, in whatever order the map was read.
  lemma SnapshotUnique(c: Config, e: Entries, epoch: u64, key: Key, num: nat, hash: Hash,
                       a: seq<PackRecord>, b: seq<PackRecord>)
    requires Unwrapped(num) && Separable(c, e.Keys)
    requires SnapshotOf(c, e, a) && Sorted(PackType(c.typ), a)
    requires SnapshotOf(c, e, b) && Sorted(PackType(c.typ), b)
    ensures SnapshotBytes(c, epoch, key, num, hash, a) == SnapshotBytes(c, epoch, key, num, hash, b)
  {
    hide PackBytes, HashNum, Sorted;
    SameRecords(c, e, a, b);
    SnapshotDistinct(c, e, a);
    SnapshotBytesCanonical(HeadOf(c, KIND_SNAPSHOT, epoch, key, num, hash), a, b, a, b);
  }

  lemma SnapshotDistinct(c: Config, e: Entries, a: seq<PackRecord>)
    requires SnapshotOf(c, e, a) && Separable(c, e.Keys)
    ensures DistinctKeys(PackType(c.typ), a)
  {
    hide SnapshotOf;
    var behind := EntriesBehind(c, e, a);
    forall r, q | r in a && q in a && SameKey(PackType(c.typ), r, q)
      ensures r == q
    {
      var i :| 0 <= i < |a| && a[i] == r;
      var j :| 0 <= j < |a| && a[j] == q;
      SnapPackKey(c, e, behind[i]);
      SnapPackKey(c, e, behind[j]);
      assert WireKey(c, behind[i]) == WireKey(c, behind[j]);
    }
  }

  lemma SnapPackKey(c: Config, e: Entries, v: Text)
    requires v in e && Separable(c, e.Keys)
    ensures MirrorKeyOf(PackType(c.typ), SnapPack(c, e, v)) == WireKey(c, v)
  {}

  // Two listings of the same entries are permutations of each other.
  lemma SameRecords(c: Config, e: Entries, a: seq<PackRecord>, b: seq<PackRecord>)
    requires SnapshotOf(c, e, a) && SnapshotOf(c, e, b)
    ensures multiset(a) == multiset(b)
  {
    hide RecordOf;
    var r: seq<Record> :| Lists(e, r) && multiset(a) == multiset(SnapRecords(c, r));
    var q: seq<Record> :| Lists(e, q) && multiset(b) == multiset(SnapRecords(c, q));
    ListsPermute(c, e, r, q);
  }

  lemma {:induction false} ListsPermute(c: Config, e: Entries, r: seq<Record>, q: seq<Record>)
    requires Lists(e, r) && Lists(e, q)
    ensures multiset(SnapRecords(c, r)) == multiset(SnapRecords(c, q))
    decreases |r|
  {
    hide RecordOf, Lists, SnapRecords;
    ListsLength(e, r);
    ListsLength(e, q);
    if r == [] {
      assert q == [];
    } else {
      var n := |r| - 1;
      var j := ListedAt(e, r, q, n);
      var r', q' := r[..n] + r[n + 1..], q[..j] + q[j + 1..];
      assert |r'| < |r|;
      ListsWithout(e, r, n);
      ListsWithout(e, q, j);
      ListsPermute(c, e - {r[n].value}, r', q');
      TakeOut(c, r, n);
      TakeOut(c, q, j);
    }
  }

  lemma ListedAt(e: Entries, r: seq<Record>, q: seq<Record>, i: nat) returns (j: nat)
    requires Lists(e, r) && Lists(e, q) && i < |r|
    ensures j < |q| && q[j] == r[i]
  {
    hide SnapRecord;
    var v := r[i].value;
    j :| 0 <= j < |q| && q[j].value == v;
  }

  lemma ListsWithout(e: Entries, r: seq<Record>, j: nat)
    requires Lists(e, r) && j < |r|
    ensures Lists(e - {r[j].value}, r[..j] + r[j + 1..])
  {
    hide SnapRecord;
    var e', r' := e - {r[j].value}, r[..j] + r[j + 1..];
    WithoutAt(r, j);
    forall v | v in e'
      ensures exists i :: 0 <= i < |r'| && r'[i].value == v
    {
      var i :| 0 <= i < |r| && r[i].value == v;
      assert r'[if i < j then i else i - 1] == r[i];
    }
  }

  lemma WithoutAt(r: seq<Record>, j: nat)
    requires j < |r|
    ensures var r' := r[..j] + r[j + 1..];
            |r'| == |r| - 1 && forall i :: 0 <= i < |r'| ==> r'[i] == r[if i < j then i else i + 1]
  {}

  lemma TakeOut(c: Config, r: seq<Record>, j: nat)
    requires j < |r|
    ensures multiset(SnapRecords(c, r)) == multiset(SnapRecords(c, r[..j] + r[j + 1..])) + multiset{RecordOf(c, REC_ADD, r[j])}
  {
    hide RecordOf;
    var p := SnapRecords(c, r);
    assert p == p[..j] + [p[j]] + p[j + 1..];
    assert SnapRecords(c, r[..j] + r[j + 1..]) == p[..j] + p[j + 1..];
  }
}
