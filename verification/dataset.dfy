// The Set of internal/set/set.go: its fields, and its methods with their loops. Each
// method holds the mutex, so each is one atomic step on the model of the fields.
module Dataset {
  import opened Types
  import opened NetPrefix
  import opened SetModel
  import opened SetLaws
  import opened ExpiryHeap

  class Set {
    const cfg: Config
    var epoch: u64
    var key: Key
    var num: nat
    var hash: Hash
    var entries: Entries
    const exp: ExpHeap
    var pend: Pending
    var pendNum: nat
    var pendHash: Hash
    var pendSize: int
    var gen: nat

    ghost predicate Valid()
      reads this, exp
    {
      exp.Valid()
    }

    function Model(): SetState
      reads this, exp
    {
      SetState(cfg, epoch, key, num, hash, entries, multiset(exp.items), pend, pendNum, pendHash, pendSize, gen)
    }

    // New; the random epoch (never zero) and key are given by the caller.
    constructor (c: Config, num0: nat, epoch0: u64, key0: Key)
      ensures Valid() && fresh(exp)
      ensures Model() == SetState(c, epoch0, key0, num0, 0, map[], multiset{}, map[], num0, 0, 0, 0)
    {
      cfg, epoch, key, num, hash := c, epoch0, key0, num0, 0;
      entries := map[];
      exp := new ExpHeap();
      pend, pendNum, pendHash, pendSize, gen := map[], num0, 0, 0, 0;
    }

    method SettleAll()
      modifies this
      ensures Model() == Settle(old(Model()))
    {
      pend := map[];
      pendNum, pendHash, pendSize := num, hash, |entries|;
    }

    method LoadRecords(recs: seq<Record>)
      modifies this, exp
      ensures Valid() && Model() == AfterLoad(old(Model()), recs)
    {
      hide Xor, XorOf, HashOf;
      hash := 0;
      entries := map[];
      exp.items := [];
      assert XorOf(map[]) == 0 by { XorOfNone(); }
      for i := 0 to |recs|
        invariant entries == LoadEntries(cfg, key, recs[..i])
        invariant hash == XorOf(entries)
        invariant multiset(exp.items) == LoadItems(recs[..i])
        invariant (epoch, key, num, gen) == old((epoch, key, num, gen))
      {
        var r := recs[i];
        assert recs[..i + 1][..i] == recs[..i];
        var h := HashOf(cfg, key, r);
        if r.value in entries {
          h := entries[r.value].hash;
        } else {
          hash := Xor(hash, h);
        }
        XorPut(entries, r.value, EntryOf(r, h));
        entries := entries[r.value := EntryOf(r, h)];
        if r.exp > 0 {
          exp.items := exp.items + [ExpItem(r.value, r.exp)];
        }
      }
      assert recs[..|recs|] == recs;
      exp.Init();
      SettleAll();
    }

    method Resume(epoch0: u64, key0: Key, num0: nat, recs: seq<Record>)
      modifies this, exp
      ensures Valid() && Model() == AfterLoad(old(Model()).(epoch := epoch0, key := key0, num := num0), recs)
    {
      epoch, key, num := epoch0, key0, num0;
      LoadRecords(recs);
    }

    method Fresh(values: seq<Text>, seen: set<Text>) returns (n: nat)
      ensures n == FreshCount(Model(), values, seen)
    {
      n := 0;
      for i := 0 to |values|
        invariant n == FreshCount(Model(), values[..i], seen)
      {
        assert values[..i + 1][..i] == values[..i];
        if values[i] !in seen && !Lookup(Model(), values[i]).1 {
          n := n + 1;
        }
      }
      assert values[..|values|] == values;
    }

    // One round of Plan's loop, on its local variables.
    method DraftDelta(dr: Draft, d: Delta) returns (dr': Draft)
      ensures dr' == PlanStep(Model(), dr, d)
    {
      hide Xor, HashOf;
      var r := d.rec;
      var (cur, found, source) := Find(Model(), dr.over, r.value);
      dr' := dr;
      match d.op
      case Add =>
        var h: Hash;
        if !found {
          if cfg.limit > 0 && dr.size >= cfg.limit {
            return dr.(rejected := dr.rejected + [r]);
          }
          h := HashOf(cfg, key, r);
          dr' := dr'.(hash := Xor(dr.hash, h), size := dr.size + 1);
        } else {
          if source != FromFlight && SameContent(cur, r) {
            return;
          }
          h := cur.hash;
        }
        dr' := dr'.(over := dr.over[r.value := PendEntry(EntryOf(r, h), true, 0)]);
        dr' := dr'.(applied := dr.applied + [Delta(Add, r, h)]);
      case Remove =>
        if !found {
          return;
        }
        dr' := dr'.(over := dr.over[r.value := PendEntry(ZERO_ENTRY, false, 0)]);
        dr' := dr'.(hash := Xor(dr.hash, cur.hash), size := dr.size - 1);
        dr' := dr'.(applied := dr.applied + [Delta(Remove, r.(exp := 0), cur.hash)]);
    }

    // The loop of Plan: it reads the set and works on local variables only.
    method DraftPlan(deltas: seq<Delta>) returns (dr: Draft)
      ensures dr == PlanDraft(Model(), deltas)
    {
      hide PlanStep;
      dr := Draft(map[], pendSize, pendHash, [], []);
      for i := 0 to |deltas|
        invariant dr == PlanDraft(Model(), deltas[..i])
      {
        assert deltas[..i + 1][..i] == deltas[..i];
        dr := DraftDelta(dr, deltas[i]);
      }
      assert deltas[..|deltas|] == deltas;
    }

    // The overlay of the batch goes over what is already in flight.
    method MergeOver(over: Pending, n: nat)
      modifies this`pend
      ensures pend == old(pend) + Stamp(over, n)
    {
      var todo := over.Keys;
      while todo != {}
        invariant todo <= over.Keys
        invariant pend == old(pend) + Stamp(map v | v in over && v !in todo :: over[v], n)
      {
        var v :| v in todo;
        pend := pend[v := over[v].(num := n)];
        todo := todo - {v};
      }
      assert (map v | v in over && v !in todo :: over[v]) == over;
    }

    method PlanDeltas(deltas: seq<Delta>) returns (p: Plan)
      modifies this
      ensures p == PlanOf(old(Model()), deltas)
      ensures Model() == AfterPlan(old(Model()), deltas)
    {
      hide PlanDraft, Stamp;
      var dr := DraftPlan(deltas);
      if dr.applied == [] {
        return Plan([], dr.rejected, num, hash, gen);
      }
      var n := pendNum + 1;
      MergeOver(dr.over, n);
      pendNum, pendHash, pendSize := n, dr.hash, dr.size;
      p := Plan(dr.applied, dr.rejected, n, dr.hash, gen);
    }

    // One delta of Commit's loop, the overlay aside.
    method ApplyDelta(d: Delta)
      requires Valid()
      modifies this`entries, this`hash, exp
      ensures Valid()
      ensures entries == Apply(old(entries), d)
      ensures hash == ApplyHash(old(entries), old(hash), d)
      ensures multiset(exp.items) == ApplyExp(old(entries), old(multiset(exp.items)), d)
    {
      hide Xor;
      var r := d.rec;
      var exists' := r.value in entries;
      match d.op
      case Add =>
        if !exists' {
          hash := Xor(hash, d.hash);
        }
        var cur := if exists' then entries[r.value] else ZERO_ENTRY;
        entries := entries[r.value := EntryOf(r, d.hash)];
        if r.exp > 0 && (!exists' || cur.exp == 0 || r.exp < cur.exp) {
          exp.Push(ExpItem(r.value, r.exp));
        }
      case Remove =>
        if exists' {
          hash := Xor(hash, entries[r.value].hash);
          entries := entries - {r.value};
        }
        assert entries == old(entries) - {r.value};
    }

    // The loop of Commit.
    method ApplyDeltas(deltas: seq<Delta>, n: nat)
      requires Valid()
      modifies this`entries, this`hash, this`pend, exp
      ensures Valid()
      ensures entries == Replay(old(entries), deltas)
      ensures hash == ReplayHash(old(entries), old(hash), deltas)
      ensures multiset(exp.items) == ReplayExp(old(entries), old(multiset(exp.items)), deltas)
      ensures pend == DropOwn(old(pend), Touched(deltas), n)
    {
      hide Apply, ApplyHash, ApplyExp, DropOwn, Touched;
      TouchedNone(pend, n);
      for i := 0 to |deltas|
        invariant Valid()
        invariant entries == Replay(old(entries), deltas[..i])
        invariant hash == ReplayHash(old(entries), old(hash), deltas[..i])
        invariant multiset(exp.items) == ReplayExp(old(entries), old(multiset(exp.items)), deltas[..i])
        invariant pend == DropOwn(old(pend), Touched(deltas[..i]), n)
      {
        var d := deltas[i];
        ghost var before := deltas[..i];
        assert deltas[..i + 1] == before + [d] && deltas[..i + 1][..i] == before;
        ApplyDelta(d);
        TouchedSnoc(before, d);
        DropOwnStep(old(pend), Touched(before), d.rec.value, n);
        if d.rec.value in pend && pend[d.rec.value].num == n {
          pend := pend - {d.rec.value};
        }
      }
      assert deltas[..|deltas|] == deltas;
    }

    // Returns the number and hash of the Change it reports, if there is one.
    method Commit(p: Plan) returns (change: Option<(nat, Hash)>)
      requires Valid()
      modifies this, exp
      ensures Valid() && Model() == AfterCommit(old(Model()), p)
      ensures change == if p.deltas == [] then None else Some((num, hash))
    {
      hide Replay, ReplayHash, ReplayExp, DropOwn, Touched, AfterCommit;
      ghost var was := Model();
      if p.deltas == [] {
        CommitsNothing(was, p);
        return None;
      }
      ApplyDeltas(p.deltas, p.num);
      num := p.num;
      if pend == map[] {
        pendNum, pendHash, pendSize := num, hash, |entries|;
      }
      CommitIs(was, p, Model());
      change := Some((num, hash));
    }

    method Abort()
      modifies this
      ensures Model() == AfterAbort(old(Model()))
    {
      SettleAll();
      gen := gen + 1;
    }

    // What the sweep makes of one popped item: put back, and reported.
    method Judge(top: ExpItem) returns (back: seq<ExpItem>, out: seq<Text>)
      ensures back == Back(Model(), top) && out == Report(Model(), top)
    {
      if top.value !in entries {
        return [], [];
      }
      var cur := entries[top.value];
      if cur.exp != top.exp {
        return if cur.exp > top.exp then [ExpItem(top.value, cur.exp)] else [], [];
      }
      if top.value in pend {
        return [top], [];
      }
      return [top], [top.value];
    }

    // The due values. popped lists the heap items taken off on the way, in their order.
    method Expired(now: int) returns (out: seq<Text>, ghost popped: seq<ExpItem>)
      requires Valid()
      modifies exp
      ensures Valid() && PopsDue(old(Model()).exp, now, popped)
      ensures out == Reports(old(Model()), popped)
      ensures Model() == AfterExpired(old(Model()), popped)
    {
      hide Back, Report, PopsSoFar, PopsDue;
      ghost var s := Model();
      PopsNone(now, exp.items);
      var back: seq<ExpItem> := [];
      out, popped := [], [];
      while exp.items != [] && exp.items[0].exp <= now
        invariant Valid()
        invariant PopsSoFar(s.exp, now, popped, exp.items)
        invariant back == Backs(s, popped) && out == Reports(s, popped)
        decreases |exp.items|
      {
        ghost var items := exp.items;
        var top := exp.Pop();
        PopsOneMore(s.exp, now, popped, items, top, exp.items);
        assert (popped + [top])[..|popped|] == popped;
        var b, o := Judge(top);
        BackElsewhere(s, Model(), top);
        popped := popped + [top];
        back := back + b;
        out := out + o;
      }
      ghost var rest := exp.items;
      PopsAll(s.exp, now, popped, rest);
      PushAll(back);
    }

    method PushAll(back: seq<ExpItem>)
      requires Valid()
      modifies exp
      ensures Valid() && multiset(exp.items) == old(multiset(exp.items)) + multiset(back)
    {
      for i := 0 to |back|
        invariant Valid()
        invariant multiset(exp.items) == old(multiset(exp.items)) + multiset(back[..i])
      {
        assert back[..i + 1] == back[..i] + [back[i]];
        exp.Push(back[i]);
      }
      assert back[..|back|] == back;
    }

    // The records of a snapshot come in the map's own, unspecified order.
    method Snapshot() returns (e: u64, n: nat, h: Hash, k: Key, recs: seq<Record>)
      ensures (e, n, h, k) == (epoch, num, hash, key)
      ensures Lists(entries, recs)
    {
      e, n, h, k, recs := epoch, num, hash, key, [];
      var todo := entries.Keys;
      while todo != {}
        invariant todo <= entries.Keys
        invariant Lists(map v | v in entries && v !in todo :: entries[v], recs)
      {
        var v :| v in todo;
        ghost var recs0 := recs;
        recs := recs + [SnapRecord(v, entries[v])];
        ListsSnoc(entries, todo, recs0, v);
        todo := todo - {v};
      }
      assert (map v | v in entries && v !in todo :: entries[v]) == entries;
    }
  }

  // The heap after some pops: what was taken is due, sorted, and no later than what is left.
  ghost predicate PopsSoFar(exp: multiset<ExpItem>, now: int, popped: seq<ExpItem>, items: seq<ExpItem>)
  {
    && exp == multiset(popped) + multiset(items)
    && (forall i :: 0 <= i < |popped| ==> Due(popped[i], now))
    && (forall i, it :: 0 <= i < |popped| && it in multiset(items) ==> popped[i].exp <= it.exp)
    && (forall i, j :: 0 <= i < j < |popped| ==> popped[i].exp <= popped[j].exp)
  }

  lemma PopsNone(now: int, items: seq<ExpItem>)
    ensures PopsSoFar(multiset(items), now, [], items)
  {}

  lemma TopIsLeastItem(items: seq<ExpItem>, it: ExpItem)
    requires Ordered(items) && it in multiset(items)
    ensures items[0].exp <= it.exp
  {
    var k :| 0 <= k < |items| && items[k] == it;
    TopIsLeast(items, k);
  }

  lemma PopsOneMore(exp: multiset<ExpItem>, now: int, popped: seq<ExpItem>, items: seq<ExpItem>,
                    top: ExpItem, left: seq<ExpItem>)
    requires PopsSoFar(exp, now, popped, items)
    requires Ordered(items) && items != [] && top == items[0] && Due(top, now)
    requires multiset(items) == multiset(left) + multiset{top}
    ensures PopsSoFar(exp, now, popped + [top], left)
  {
    forall it | it in multiset(left)
      ensures top.exp <= it.exp
    {
      TopIsLeastItem(items, it);
    }
    assert top in multiset(items);
  }

  lemma PopsAll(exp: multiset<ExpItem>, now: int, popped: seq<ExpItem>, rest: seq<ExpItem>)
    requires PopsSoFar(exp, now, popped, rest) && Ordered(rest)
    requires rest == [] || !Due(rest[0], now)
    ensures PopsDue(exp, now, popped) && exp - multiset(popped) == multiset(rest)
  {
    assert exp - multiset(popped) == multiset(rest);
    forall it | it in multiset(rest)
      ensures !Due(it, now)
    {
      TopIsLeastItem(rest, it);
    }
  }

  // The sweep's verdict on an item reads the entries and the overlay only.
  lemma BackElsewhere(s: SetState, t: SetState, item: ExpItem)
    requires s.entries == t.entries && s.pend == t.pend
    ensures Back(s, item) == Back(t, item) && Report(s, item) == Report(t, item)
  {}

  lemma CommitsNothing(s: SetState, p: Plan)
    requires p.deltas == []
    ensures AfterCommit(s, p) == s
  {}

  lemma CommitIs(s: SetState, p: Plan, t: SetState)
    requires p.deltas != []
    requires (t.cfg, t.epoch, t.key, t.gen, t.num) == (s.cfg, s.epoch, s.key, s.gen, p.num)
    requires t.entries == Replay(s.entries, p.deltas) && t.hash == ReplayHash(s.entries, s.hash, p.deltas)
    requires t.exp == ReplayExp(s.entries, s.exp, p.deltas) && t.pend == DropOwn(s.pend, Touched(p.deltas), p.num)
    requires (t.pendNum, t.pendHash, t.pendSize)
          == if t.pend == map[] then (t.num, t.hash, |t.entries|) else (s.pendNum, s.pendHash, s.pendSize)
    ensures t == AfterCommit(s, p)
  {
    hide Replay, ReplayHash, ReplayExp, DropOwn, Touched;
  }

  function SnapRecord(v: Text, e: Entry): Record
  {
    Record(v, e.exp, e.origin, e.reason, NO_PREFIX)
  }

  // recs holds each entry exactly once, without its prefix.
  ghost predicate Lists(entries: Entries, recs: seq<Record>)
  {
    && (forall i :: 0 <= i < |recs| ==> recs[i].value in entries && recs[i] == SnapRecord(recs[i].value, entries[recs[i].value]))
    && (forall i, j :: 0 <= i < j < |recs| ==> recs[i].value != recs[j].value)
    && (forall v :: v in entries ==> exists i :: 0 <= i < |recs| && recs[i].value == v)
  }

  lemma TouchedNone(pend: Pending, n: nat)
    ensures DropOwn(pend, Touched([]), n) == pend
  {}

  lemma DropOwnStep(pend: Pending, touched: set<Text>, v: Text, n: nat)
    ensures var left := DropOwn(pend, touched, n);
            DropOwn(pend, touched + {v}, n) == if v in left && left[v].num == n then left - {v} else left
  {}

  lemma ListsSnoc(entries: Entries, todo: set<Text>, recs: seq<Record>, v: Text)
    requires v in todo && todo <= entries.Keys
    requires Lists(map w | w in entries && w !in todo :: entries[w], recs)
    ensures Lists(map w | w in entries && w !in todo - {v} :: entries[w], recs + [SnapRecord(v, entries[v])])
  {
    var all := recs + [SnapRecord(v, entries[v])];
    forall w | w in entries && w !in todo - {v}
      ensures exists i :: 0 <= i < |all| && all[i].value == w
    {
      if w == v {
        assert all[|recs|].value == w;
      } else {
        assert w in (map w | w in entries && w !in todo :: entries[w]);
        var i :| 0 <= i < |recs| && recs[i].value == w;
        assert all[i].value == w;
      }
    }
  }

  lemma XorOfNone()
    ensures XorOf(map[]) == 0
  {
    assert Hashes(map[]) == map[];
  }

  lemma TouchedSnoc(deltas: seq<Delta>, d: Delta)
    ensures Touched(deltas + [d]) == Touched(deltas) + {d.rec.value}
  {
    var all := deltas + [d];
    assert forall i :: 0 <= i < |deltas| ==> all[i] == deltas[i];
    assert all[|deltas|] == d;
  }
}
