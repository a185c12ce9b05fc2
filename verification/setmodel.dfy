// The state of one dataset and what each locked method of internal/set/set.go makes of it.
module SetModel {
  import opened Types
  import opened NetPrefix
  import opened XorFold

  datatype SetType = TypeString | TypeCIDR | TypeNumeric

  // The definition of a set, with the two things the model leaves abstract: the keyed
  // hash of a byte string, and how netip parses a text (ParsePrefix of material.go).
  datatype Config = Config(typ: SetType, limit: int, sip: (Key, Bytes) -> Hash, parse: Text -> Option<Prefix>)

  datatype Entry = Entry(exp: i64, origin: Text, reason: Text, hash: Hash)

  datatype Record = Record(value: Text, exp: i64, origin: Text, reason: Text, prefix: Prefix)

  datatype Op = Add | Remove

  datatype Delta = Delta(op: Op, rec: Record, hash: Hash)

  datatype PendEntry = PendEntry(e: Entry, present: bool, num: nat)

  datatype Plan = Plan(deltas: seq<Delta>, rejected: seq<Record>, num: nat, hash: Hash, gen: nat)

  datatype ExpItem = ExpItem(value: Text, exp: i64)

  type Entries = map<Text, Entry>

  type Pending = map<Text, PendEntry>

  datatype SetState = SetState(
    cfg: Config, epoch: u64, key: Key,
    num: nat, hash: Hash, entries: Entries, exp: multiset<ExpItem>,
    pend: Pending, pendNum: nat, pendHash: Hash, pendSize: int, gen: nat)

  const ZERO_ENTRY := Entry(0, [], [], 0)

  // ---------- lists of values ----------

  function AsSet(values: seq<Text>): set<Text>
  {
    set i | 0 <= i < |values| :: values[i]
  }

  lemma AsSetEmpty()
    ensures AsSet([]) == {}
  {}

  lemma AsSetSnoc(values: seq<Text>, v: Text)
    ensures AsSet(values + [v]) == AsSet(values) + {v}
  {
    var all := values + [v];
    assert forall i :: 0 <= i < |values| ==> all[i] == values[i];
    assert all[|values|] == v;
  }

  // ---------- hashes ----------

  function Material(c: Config, value: Text): Bytes
  {
    if c.typ == TypeCIDR && c.parse(value).Some? then PrefixMaterial(c.parse(value).value) else value
  }

  function TextHash(c: Config, key: Key, value: Text): Hash
  {
    c.sip(key, Material(c, value))
  }

  function HashOf(c: Config, key: Key, r: Record): Hash
  {
    if c.typ == TypeCIDR && IsValid(r.prefix) then c.sip(key, PrefixMaterial(r.prefix))
    else TextHash(c, key, r.value)
  }

  function Hashes(entries: Entries): map<Text, Hash>
  {
    map v | v in entries :: entries[v].hash
  }

  ghost function XorOf(entries: Entries): Hash
  {
    XorAll(Hashes(entries))
  }

  // ---------- the view: committed entries under what is planned ----------

  function View(entries: Entries, pend: Pending): Entries
  {
    map v | v in entries.Keys + pend.Keys && (v in pend ==> pend[v].present) ::
      if v in pend then pend[v].e else entries[v]
  }

  // lookup: the entry, whether it exists, whether a plan in flight touches it.
  function Lookup(s: SetState, v: Text): (Entry, bool, bool)
  {
    if v in s.pend then (s.pend[v].e, s.pend[v].present, true)
    else if v in s.entries then (s.entries[v], true, false)
    else (ZERO_ENTRY, false, false)
  }

  function FreshCount(s: SetState, values: seq<Text>, seen: set<Text>): nat
  {
    if values == [] then 0 else
      var v := values[|values| - 1];
      FreshCount(s, values[..|values| - 1], seen)
        + if v in seen || Lookup(s, v).1 then 0 else 1
  }

  // ---------- Plan ----------

  datatype Source = FromCommitted | FromBatch | FromFlight

  // The local variables of Plan's loop.
  datatype Draft = Draft(over: Pending, size: int, hash: Hash, applied: seq<Delta>, rejected: seq<Record>)

  function Find(s: SetState, over: Pending, v: Text): (Entry, bool, Source)
  {
    if v in over then (over[v].e, over[v].present, FromBatch) else
      var (e, found, planned) := Lookup(s, v);
      (e, found, if planned then FromFlight else FromCommitted)
  }

  function EntryOf(r: Record, h: Hash): Entry
  {
    Entry(r.exp, r.origin, r.reason, h)
  }

  predicate SameContent(e: Entry, r: Record)
  {
    e.exp == r.exp && e.origin == r.origin && e.reason == r.reason
  }

  function PlanStep(s: SetState, dr: Draft, d: Delta): Draft
  {
    var r := d.rec;
    var (cur, found, source) := Find(s, dr.over, r.value);
    match d.op
    case Add =>
      if !found then
        if s.cfg.limit > 0 && dr.size >= s.cfg.limit then dr.(rejected := dr.rejected + [r])
        else
          var h := HashOf(s.cfg, s.key, r);
          Draft(dr.over[r.value := PendEntry(EntryOf(r, h), true, 0)], dr.size + 1, Xor(dr.hash, h),
                dr.applied + [Delta(Add, r, h)], dr.rejected)
      else if source != FromFlight && SameContent(cur, r) then dr
      else
        dr.(over := dr.over[r.value := PendEntry(EntryOf(r, cur.hash), true, 0)],
            applied := dr.applied + [Delta(Add, r, cur.hash)])
    case Remove =>
      if !found then dr
      else
        Draft(dr.over[r.value := PendEntry(ZERO_ENTRY, false, 0)], dr.size - 1, Xor(dr.hash, cur.hash),
              dr.applied + [Delta(Remove, r.(exp := 0), cur.hash)], dr.rejected)
  }

  function PlanDraft(s: SetState, deltas: seq<Delta>): Draft
  {
    if deltas == [] then Draft(map[], s.pendSize, s.pendHash, [], [])
    else PlanStep(s, PlanDraft(s, deltas[..|deltas| - 1]), deltas[|deltas| - 1])
  }

  function Stamp(over: Pending, n: nat): Pending
  {
    map v | v in over :: over[v].(num := n)
  }

  function PlanOf(s: SetState, deltas: seq<Delta>): Plan
  {
    var dr := PlanDraft(s, deltas);
    if dr.applied == [] then Plan([], dr.rejected, s.num, s.hash, s.gen)
    else Plan(dr.applied, dr.rejected, s.pendNum + 1, dr.hash, s.gen)
  }

  function AfterPlan(s: SetState, deltas: seq<Delta>): SetState
  {
    var dr := PlanDraft(s, deltas);
    if dr.applied == [] then s
    else s.(pend := s.pend + Stamp(dr.over, s.pendNum + 1),
            pendNum := s.pendNum + 1, pendHash := dr.hash, pendSize := dr.size)
  }

  // ---------- Commit ----------

  // Entries after one delta, as Commit writes them.
  function Apply(entries: Entries, d: Delta): Entries
  {
    match d.op
    case Add => entries[d.rec.value := EntryOf(d.rec, d.hash)]
    case Remove => entries - {d.rec.value}
  }

  function Replay(entries: Entries, deltas: seq<Delta>): Entries
  {
    if deltas == [] then entries
    else Apply(Replay(entries, deltas[..|deltas| - 1]), deltas[|deltas| - 1])
  }

  // Commit's running hash after one delta; it trusts the hash the delta carries.
  function ApplyHash(entries: Entries, hash: Hash, d: Delta): Hash
  {
    var v := d.rec.value;
    match d.op
    case Add => if v in entries then hash else Xor(hash, d.hash)
    case Remove => if v in entries then Xor(hash, entries[v].hash) else hash
  }

  function ReplayHash(entries: Entries, hash: Hash, deltas: seq<Delta>): Hash
  {
    if deltas == [] then hash else
      var before := deltas[..|deltas| - 1];
      ApplyHash(Replay(entries, before), ReplayHash(entries, hash, before), deltas[|deltas| - 1])
  }

  // Commit pushes only a value that is new, was permanent, or now expires earlier.
  predicate Pushes(entries: Entries, d: Delta)
  {
    var v, x := d.rec.value, d.rec.exp;
    d.op == Add && x > 0 && (v !in entries || entries[v].exp == 0 || x < entries[v].exp)
  }

  function ApplyExp(entries: Entries, exp: multiset<ExpItem>, d: Delta): multiset<ExpItem>
  {
    if Pushes(entries, d) then exp + multiset{ExpItem(d.rec.value, d.rec.exp)} else exp
  }

  function ReplayExp(entries: Entries, exp: multiset<ExpItem>, deltas: seq<Delta>): multiset<ExpItem>
  {
    if deltas == [] then exp else
      var before := deltas[..|deltas| - 1];
      ApplyExp(Replay(entries, before), ReplayExp(entries, exp, before), deltas[|deltas| - 1])
  }

  function Touched(deltas: seq<Delta>): set<Text>
  {
    set i | 0 <= i < |deltas| :: deltas[i].rec.value
  }

  // Commit drops the overlay entries its own plan put there and leaves those of later plans.
  function DropOwn(pend: Pending, touched: set<Text>, n: nat): Pending
  {
    map v | v in pend && !(v in touched && pend[v].num == n) :: pend[v]
  }

  function AfterCommit(s: SetState, p: Plan): SetState
  {
    if p.deltas == [] then s else
    var entries := Replay(s.entries, p.deltas);
    var hash := ReplayHash(s.entries, s.hash, p.deltas);
    var pend := DropOwn(s.pend, Touched(p.deltas), p.num);
    var s' := s.(entries := entries, hash := hash, exp := ReplayExp(s.entries, s.exp, p.deltas),
                 pend := pend, num := p.num);
    if pend == map[] then s'.(pendNum := p.num, pendHash := hash, pendSize := |entries|) else s'
  }

  // ---------- load, settle, Abort ----------

  function Settle(s: SetState): SetState
  {
    s.(pend := map[], pendNum := s.num, pendHash := s.hash, pendSize := |s.entries|)
  }

  function AfterAbort(s: SetState): SetState
  {
    Settle(s).(gen := s.gen + 1)
  }

  // load keeps the hash of the first record of a value and the fields of its last one.
  function LoadEntries(c: Config, key: Key, recs: seq<Record>): Entries
  {
    if recs == [] then map[] else
      var e, r := LoadEntries(c, key, recs[..|recs| - 1]), recs[|recs| - 1];
      e[r.value := EntryOf(r, if r.value in e then e[r.value].hash else HashOf(c, key, r))]
  }

  function LoadItems(recs: seq<Record>): multiset<ExpItem>
  {
    if recs == [] then multiset{} else
      var m, r := LoadItems(recs[..|recs| - 1]), recs[|recs| - 1];
      if r.exp > 0 then m + multiset{ExpItem(r.value, r.exp)} else m
  }

  ghost function AfterLoad(s: SetState, recs: seq<Record>): SetState
  {
    var entries := LoadEntries(s.cfg, s.key, recs);
    Settle(s.(entries := entries, hash := XorOf(entries), exp := LoadItems(recs)))
  }

  // ---------- Expired ----------

  predicate Due(item: ExpItem, now: int)
  {
    item.exp <= now
  }

  // What one popped item puts back on the heap: itself, or its value's later expiry.
  function Back(s: SetState, item: ExpItem): seq<ExpItem>
  {
    if item.value in s.entries && s.entries[item.value].exp >= item.exp
    then [ExpItem(item.value, s.entries[item.value].exp)] else []
  }

  // What one popped item reports.
  function Report(s: SetState, item: ExpItem): seq<Text>
  {
    if item.value in s.entries && s.entries[item.value].exp == item.exp && item.value !in s.pend
    then [item.value] else []
  }

  function Backs(s: SetState, items: seq<ExpItem>): seq<ExpItem>
  {
    if items == [] then [] else Backs(s, items[..|items| - 1]) + Back(s, items[|items| - 1])
  }

  function Reports(s: SetState, items: seq<ExpItem>): seq<Text>
  {
    if items == [] then [] else Reports(s, items[..|items| - 1]) + Report(s, items[|items| - 1])
  }

  // popped is a sorted listing of exactly the due items.
  ghost predicate PopsDue(exp: multiset<ExpItem>, now: int, popped: seq<ExpItem>)
  {
    && multiset(popped) <= exp
    && (forall i :: 0 <= i < |popped| ==> Due(popped[i], now))
    && (forall it :: it in exp - multiset(popped) ==> !Due(it, now))
    && (forall i, j :: 0 <= i < j < |popped| ==> popped[i].exp <= popped[j].exp)
  }

  function AfterExpired(s: SetState, popped: seq<ExpItem>): SetState
  {
    s.(exp := s.exp - multiset(popped) + multiset(Backs(s, popped)))
  }
}
