// The store of one set (internal/state/state.go over Redis): a sorted set of members with
// scores, a hash of whys, a hash of meta fields, and packages under keys of their own.
module Store {
  import opened Types
  import opened NetPrefix
  import opened SetModel
  import opened MetaText
  import Float64

  datatype StoreState = StoreState(members: map<Text, int>, whys: map<Text, Text>, meta: map<Field, Text>,
                                   objects: map<Text, Bytes>)

  // The queued commands of a transaction.
  datatype Cmd =
    | ZAdd(pairs: seq<(Text, int)>)
    | HSetWhys(whys: seq<(Text, Text)>)
    | ZRem(values: seq<Text>)
    | HDelWhys(values: seq<Text>)
    | SetObject(key: Text, data: Bytes)
    | HSetMeta(fields: map<Field, Text>)
    | DelContents

  // Later pairs of one command overwrite earlier ones.
  function Put<V>(m: map<Text, V>, pairs: seq<(Text, V)>): map<Text, V>
  {
    if pairs == [] then m else Put(m, pairs[..|pairs| - 1])[pairs[|pairs| - 1].0 := pairs[|pairs| - 1].1]
  }

  function Exec1(st: StoreState, c: Cmd): StoreState
  {
    match c
    case ZAdd(pairs) => st.(members := Put(st.members, pairs))
    case HSetWhys(whys) => st.(whys := Put(st.whys, whys))
    case ZRem(values) => st.(members := st.members - AsSet(values))
    case HDelWhys(values) => st.(whys := st.whys - AsSet(values))
    case SetObject(key, data) => st.(objects := st.objects[key := data])
    case HSetMeta(fields) => st.(meta := st.meta + fields)
    case DelContents => st.(members := map[], whys := map[])
  }

  function Exec(st: StoreState, cmds: seq<Cmd>): StoreState
  {
    if cmds == [] then st else Exec1(Exec(st, cmds[..|cmds| - 1]), cmds[|cmds| - 1])
  }

  // ---------- the reference: one delta at a time ----------

  const WHY_SEP: u8 := 0x1f

  function Why(r: Record): Text
  {
    r.origin + [WHY_SEP] + r.reason
  }

  function StoreDelta(st: StoreState, d: Delta): StoreState
  {
    var v := d.rec.value;
    match d.op
    case Add => st.(members := st.members[v := Float64.Score(d.rec.exp)], whys := st.whys[v := Why(d.rec)])
    case Remove => st.(members := st.members - {v}, whys := st.whys - {v})
  }

  function StoreDeltas(st: StoreState, deltas: seq<Delta>): StoreState
  {
    if deltas == [] then st else StoreDelta(StoreDeltas(st, deltas[..|deltas| - 1]), deltas[|deltas| - 1])
  }

  function AfterStoreCommit(st: StoreState, deltas: seq<Delta>, num: u64, hash: u64, key: Text, pkg: Bytes): StoreState
  {
    var s := StoreDeltas(st, deltas);
    s.(objects := s.objects[key := pkg], meta := s.meta + CommitFields(num, hash))
  }

  // ---------- runs of one operation ----------

  function Scores(run: seq<Delta>): seq<(Text, int)>
  {
    seq(|run|, i requires 0 <= i < |run| => (run[i].rec.value, Float64.Score(run[i].rec.exp)))
  }

  function Whys(run: seq<Delta>): seq<(Text, Text)>
  {
    seq(|run|, i requires 0 <= i < |run| => (run[i].rec.value, Why(run[i].rec)))
  }

  function Values(run: seq<Delta>): seq<Text>
  {
    seq(|run|, i requires 0 <= i < |run| => run[i].rec.value)
  }

  predicate Uniform(run: seq<Delta>, op: Op)
  {
    forall i :: 0 <= i < |run| ==> run[i].op == op
  }

  function RunCmds(run: seq<Delta>, op: Op): seq<Cmd>
  {
    match op
    case Add => [ZAdd(Scores(run)), HSetWhys(Whys(run))]
    case Remove => [ZRem(Values(run)), HDelWhys(Values(run))]
  }

  lemma {:induction false} ExecSplit(st: StoreState, a: seq<Cmd>, b: seq<Cmd>)
    ensures Exec(st, a + b) == Exec(Exec(st, a), b)
  {
    hide Exec1;
    if b == [] {
      assert a + b == a;
    } else {
      assert (a + b)[..|a + b| - 1] == a + b[..|b| - 1];
      ExecSplit(st, a, b[..|b| - 1]);
    }
  }

  lemma ExecTwo(st: StoreState, a: Cmd, b: Cmd)
    ensures Exec(st, [a, b]) == Exec1(Exec1(st, a), b)
  {
    hide Exec1;
    assert [a, b][..1] == [a];
    assert Exec(st, [a]) == Exec1(Exec(st, []), a);
  }

  // One bulk add stores what the adds store one by one: the last of equal values wins.
  lemma {:induction false} AddRun(st: StoreState, run: seq<Delta>)
    requires Uniform(run, Add)
    ensures StoreDeltas(st, run) == st.(members := Put(st.members, Scores(run)), whys := Put(st.whys, Whys(run)))
  {
    hide Float64.Score, Why;
    if run != [] {
      var before := run[..|run| - 1];
      AddRun(st, before);
      assert Scores(run)[..|run| - 1] == Scores(before);
      assert Whys(run)[..|run| - 1] == Whys(before);
    }
  }

  lemma {:induction false} RemoveRun(st: StoreState, run: seq<Delta>)
    requires Uniform(run, Remove)
    ensures StoreDeltas(st, run) == st.(members := st.members - AsSet(Values(run)), whys := st.whys - AsSet(Values(run)))
  {
    if run == [] {
      assert AsSet(Values(run)) == {};
    } else {
      var before, v := run[..|run| - 1], run[|run| - 1].rec.value;
      RemoveRun(st, before);
      assert Values(run) == Values(before) + [v];
      AsSetSnoc(Values(before), v);
      var k := AsSet(Values(before));
      assert (st.members - k) - {v} == st.members - (k + {v});
      assert (st.whys - k) - {v} == st.whys - (k + {v});
    }
  }

  lemma RunStores(st: StoreState, run: seq<Delta>, op: Op)
    requires Uniform(run, op)
    ensures Exec(st, RunCmds(run, op)) == StoreDeltas(st, run)
  {
    match op
    case Add =>
      AddRun(st, run);
      ExecTwo(st, ZAdd(Scores(run)), HSetWhys(Whys(run)));
    case Remove =>
      RemoveRun(st, run);
      ExecTwo(st, ZRem(Values(run)), HDelWhys(Values(run)));
  }

  lemma {:induction false} StoreDeltasSplit(st: StoreState, a: seq<Delta>, b: seq<Delta>)
    ensures StoreDeltas(st, a + b) == StoreDeltas(StoreDeltas(st, a), b)
  {
    hide StoreDelta;
    if b == [] {
      assert a + b == a;
    } else {
      assert (a + b)[..|a + b| - 1] == a + b[..|b| - 1];
      StoreDeltasSplit(st, a, b[..|b| - 1]);
    }
  }

  // ---------- reading back ----------

  // strings.Cut at the first separator.
  function Cut(w: Text): (Text, Text)
  {
    if w == [] then ([], [])
    else if w[0] == WHY_SEP then ([], w[1..])
    else
      var (a, b) := Cut(w[1..]);
      ([w[0]] + a, b)
  }

  lemma {:induction false} CutJoined(origin: Text, reason: Text)
    ensures Cut(origin + [WHY_SEP] + reason) == (origin, reason) <==> WHY_SEP !in origin
  {
    var w := origin + [WHY_SEP] + reason;
    if origin == [] {
      assert w[1..] == reason;
    } else {
      assert w[1..] == origin[1..] + [WHY_SEP] + reason;
      CutJoined(origin[1..], reason);
      assert origin == [origin[0]] + origin[1..];
      if origin[0] == WHY_SEP {
        assert Cut(w).0 == [];
      }
    }
  }

  // The record Load makes of a member.
  function StoredRecord(st: StoreState, v: Text): Record
    requires v in st.members
  {
    var (origin, reason) := if v in st.whys then Cut(st.whys[v]) else ([], []);
    Record(v, Float64.FromScore(st.members[v]), origin, reason, NO_PREFIX)
  }

  // recs lists each member once.
  ghost predicate ListsMembers(st: StoreState, recs: seq<Record>)
  {
    && (forall i :: 0 <= i < |recs| ==> recs[i].value in st.members && recs[i] == StoredRecord(st, recs[i].value))
    && (forall i, j :: 0 <= i < j < |recs| ==> recs[i].value != recs[j].value)
    && (forall v :: v in st.members ==> exists i :: 0 <= i < |recs| && recs[i].value == v)
  }

  // What the store says about the contents of the set.
  function Contents(st: StoreState): map<Text, Record>
  {
    map v | v in st.members :: StoredRecord(st, v)
  }

  // A record the store gives back unchanged.
  predicate Storable(r: Record)
  {
    Float64.Exact(r.exp) && WHY_SEP !in r.origin
  }

  // The exact domain of storing one record.
  lemma StoredExactly(st: StoreState, d: Delta)
    requires d.op == Add
    ensures StoredRecord(StoreDelta(st, d), d.rec.value) == d.rec.(prefix := NO_PREFIX) <==> Storable(d.rec)
  {
    hide Float64.Score, Float64.FromScore, Float64.Exact, Cut;
    Float64.ScoreExactly(d.rec.exp);
    CutJoined(d.rec.origin, d.rec.reason);
  }

  // Every member has its reason, and no reason is left of a removed one.
  predicate WhysMatch(st: StoreState)
  {
    st.whys.Keys == st.members.Keys
  }

  lemma {:induction false} DeltasKeepWhys(st: StoreState, deltas: seq<Delta>)
    requires WhysMatch(st)
    ensures WhysMatch(StoreDeltas(st, deltas))
  {
    if deltas != [] {
      DeltasKeepWhys(st, deltas[..|deltas| - 1]);
    }
  }

  lemma CommitKeepsWhys(st: StoreState, deltas: seq<Delta>, num: u64, hash: u64, key: Text, pkg: Bytes, m: Meta, keep: bool)
    requires WhysMatch(st)
    ensures WhysMatch(AfterStoreCommit(st, deltas, num, hash, key, pkg)) && WhysMatch(AfterReset(st, m, keep))
  {
    hide StoreDeltas, CommitFields, MetaFields;
    DeltasKeepWhys(st, deltas);
  }

  // ---------- the program ----------

  datatype Loaded = NoSet | Loaded(meta: Option<Meta>, recs: seq<Record>)  // no meta: ErrBadMeta

  class Redis {
    var st: StoreState

    constructor (s: StoreState)
      ensures st == s
    {
      st := s;
    }

    // A transaction applies all its commands or, when it fails, none.
    method Transact(cmds: seq<Cmd>, fails: bool) returns (ok: bool)
      modifies this
      ensures ok == !fails
      ensures st == if ok then Exec(old(st), cmds) else old(st)
    {
      ok := !fails;
      if ok {
        st := Exec(st, cmds);
      }
    }

    // The deltas go out as bulk commands, one pair for each maximal run of one operation.
    method Commit(deltas: seq<Delta>, num: u64, hash: u64, key: Text, pkg: Bytes, fails: bool)
      returns (ok: bool, ghost runs: seq<seq<Delta>>)
      modifies this
      ensures ok == !fails
      ensures st == if ok then AfterStoreCommit(old(st), deltas, num, hash, key, pkg) else old(st)
      ensures Partition(runs, deltas)
    {
      hide Exec1, StoreDelta, RunCmds, CommitFields;
      var cmds: seq<Cmd> := [];
      runs := [];
      var i := 0;
      while i < |deltas|
        invariant 0 <= i <= |deltas|
        invariant Exec(st, cmds) == StoreDeltas(st, deltas[..i])
        invariant Partition(runs, deltas[..i])
        invariant 0 < i < |deltas| ==> deltas[i].op != deltas[i - 1].op
        invariant st == old(st)
      {
        var j := i;
        while j < |deltas| && deltas[j].op == deltas[i].op
          invariant i <= j <= |deltas| && (j == i ==> deltas[j].op == deltas[i].op)
          invariant Uniform(deltas[i..j], deltas[i].op)
        {
          assert deltas[i..j + 1] == deltas[i..j] + [deltas[j]];
          j := j + 1;
        }
        var run, op := deltas[i..j], deltas[i].op;
        var bulk := RunCommands(run, op);
        PartitionSnoc(runs, deltas[..i], run, op);
        assert deltas[..i] + run == deltas[..j];
        ExecSplit(st, cmds, bulk);
        RunStores(Exec(st, cmds), run, op);
        StoreDeltasSplit(st, deltas[..i], run);
        cmds := cmds + bulk;
        runs := runs + [run];
        i := j;
      }
      assert deltas[..|deltas|] == deltas;
      ExecTwo(Exec(st, cmds), SetObject(key, pkg), HSetMeta(CommitFields(num, hash)));
      ExecSplit(st, cmds, [SetObject(key, pkg), HSetMeta(CommitFields(num, hash))]);
      TailCommands(StoreDeltas(st, deltas), num, hash, key, pkg);
      ok := Transact(cmds + [SetObject(key, pkg), HSetMeta(CommitFields(num, hash))], fails);
    }

    // The argument lists of a run's two commands.
    method RunCommands(run: seq<Delta>, op: Op) returns (bulk: seq<Cmd>)
      ensures bulk == RunCmds(run, op)
    {
      if op == Add {
        var zs: seq<(Text, int)>, whys: seq<(Text, Text)> := [], [];
        for n := 0 to |run|
          invariant zs == Scores(run)[..n] && whys == Whys(run)[..n]
        {
          zs := zs + [(run[n].rec.value, Float64.Score(run[n].rec.exp))];
          whys := whys + [(run[n].rec.value, Why(run[n].rec))];
        }
        assert Scores(run)[..|run|] == Scores(run) && Whys(run)[..|run|] == Whys(run);
        return [ZAdd(zs), HSetWhys(whys)];
      }
      var vals: seq<Text> := [];
      for n := 0 to |run|
        invariant vals == Values(run)[..n]
      {
        vals := vals + [run[n].rec.value];
      }
      assert Values(run)[..|run|] == Values(run);
      return [ZRem(vals), HDelWhys(vals)];
    }

    // The members come in the store's order, which nothing here relies on.
    method Load() returns (l: Loaded)
      ensures l == NoSet <==> st.meta == map[]
      ensures l != NoSet ==> l.meta == ParseMeta(st.meta) && ListsMembers(st, l.recs)
    {
      if st.meta == map[] {
        return NoSet;
      }
      var recs: seq<Record> := [];
      var todo := st.members.Keys;
      while todo != {}
        invariant todo <= st.members.Keys
        invariant forall i :: 0 <= i < |recs| ==>
                    recs[i].value in st.members && recs[i].value !in todo && recs[i] == StoredRecord(st, recs[i].value)
        invariant forall i, j :: 0 <= i < j < |recs| ==> recs[i].value != recs[j].value
        invariant forall v :: v in st.members && v !in todo ==> exists i :: 0 <= i < |recs| && recs[i].value == v
      {
        hide StoredRecord;
        var v :| v in todo;
        ghost var before := recs;
        recs := recs + [StoredRecord(st, v)];
        StoredValue(st, v);
        forall w | w in st.members && w !in todo - {v}
          ensures exists i :: 0 <= i < |recs| && recs[i].value == w
        {
          if w == v {
            assert recs[|before|].value == w;
          } else {
            var i :| 0 <= i < |before| && before[i].value == w;
            assert recs[i].value == w;
          }
        }
        todo := todo - {v};
      }
      l := Loaded(ParseMeta(st.meta), recs);
    }

    method Reset(m: Meta, keep: bool, fails: bool) returns (ok: bool)
      modifies this
      ensures ok == !fails
      ensures st == if ok then AfterReset(old(st), m, keep) else old(st)
    {
      var cmds := if keep then [] else [DelContents];
      ExecSplit(st, cmds, [HSetMeta(MetaFields(m))]);
      ok := Transact(cmds + [HSetMeta(MetaFields(m))], fails);
    }
  }

  lemma StoredValue(st: StoreState, v: Text)
    requires v in st.members
    ensures StoredRecord(st, v).value == v
  {}

  lemma TailCommands(st: StoreState, num: u64, hash: u64, key: Text, pkg: Bytes)
    ensures Exec1(Exec1(st, SetObject(key, pkg)), HSetMeta(CommitFields(num, hash)))
         == st.(objects := st.objects[key := pkg], meta := st.meta + CommitFields(num, hash))
  {}

  function AfterReset(st: StoreState, m: Meta, keep: bool): StoreState
  {
    var s := if keep then st else st.(members := map[], whys := map[]);
    s.(meta := s.meta + MetaFields(m))
  }

  // ---------- the runs partition the deltas ----------

  function Concat(runs: seq<seq<Delta>>): seq<Delta>
  {
    if runs == [] then [] else Concat(runs[..|runs| - 1]) + runs[|runs| - 1]
  }

  // Non-empty runs of one operation each, as long as possible, that make up the deltas.
  ghost predicate Partition(runs: seq<seq<Delta>>, deltas: seq<Delta>)
  {
    && Concat(runs) == deltas
    && (forall i :: 0 <= i < |runs| ==> runs[i] != [] && Uniform(runs[i], runs[i][0].op))
    && (forall i :: 0 < i < |runs| ==> runs[i][0].op != runs[i - 1][0].op)
  }

  lemma PartitionSnoc(runs: seq<seq<Delta>>, deltas: seq<Delta>, run: seq<Delta>, op: Op)
    requires Partition(runs, deltas) && run != [] && Uniform(run, op)
    requires deltas != [] ==> deltas[|deltas| - 1].op != op
    ensures Partition(runs + [run], deltas + run)
  {
    var all := runs + [run];
    assert all[..|all| - 1] == runs;
    if runs != [] {
      var last := runs[|runs| - 1];
      assert deltas[|deltas| - 1] == last[|last| - 1];
    }
  }
}
