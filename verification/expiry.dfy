// The expiry index: the heap may hold stale and duplicate items, yet misses no entry.
module Expiry {
  import opened Types
  import opened SetModel
  import opened Pipeline

  ghost predicate Covered(m: multiset<ExpItem>, v: Text, x: int)
  {
    exists it: ExpItem :: it in m && it.value == v && it.exp <= x
  }

  // Every entry that expires has an item no later than its expiry.
  ghost predicate IndexedBy(e: Entries, m: multiset<ExpItem>)
  {
    && (forall it :: it in m ==> it.exp > 0)
    && (forall v :: v in e && e[v].exp > 0 ==> Covered(m, v, e[v].exp))
  }

  // ---------- Commit ----------

  // The one case the push rule overlooks: a negative expiry is neither permanent nor indexed.
  predicate Overlooked(e: Entries, d: Delta)
  {
    d.op == Add && d.rec.exp > 0 && d.rec.value in e && e[d.rec.value].exp < 0
  }

  lemma ApplyKeepsIndex(e: Entries, m: multiset<ExpItem>, d: Delta)
    requires IndexedBy(e, m) && !Overlooked(e, d)
    ensures IndexedBy(Apply(e, d), ApplyExp(e, m, d))
  {
    var e', m' := Apply(e, d), ApplyExp(e, m, d);
    forall v | v in e' && e'[v].exp > 0
      ensures Covered(m', v, e'[v].exp)
    {
      if v == d.rec.value && Pushes(e, d) {
        assert ExpItem(v, d.rec.exp) in m';
      } else {
        var it :| it in m && it.value == v && it.exp <= e[v].exp;
        assert it in m';
      }
    }
  }

  function ExactItems(e: Entries): multiset<ExpItem>
  {
    multiset(set v | v in e && e[v].exp > 0 :: ExpItem(v, e[v].exp))
  }

  lemma ExactItemsIndex(e: Entries)
    ensures IndexedBy(e, ExactItems(e))
  {
    forall v | v in e && e[v].exp > 0
      ensures Covered(ExactItems(e), v, e[v].exp)
    {
      assert ExpItem(v, e[v].exp) in ExactItems(e);
    }
  }

  // The push rule keeps every index right if and only if the delta is not of that case.
  lemma PushRuleExact(e: Entries, d: Delta)
    ensures (forall m :: IndexedBy(e, m) ==> IndexedBy(Apply(e, d), ApplyExp(e, m, d))) <==> !Overlooked(e, d)
  {
    if Overlooked(e, d) {
      var m, v := ExactItems(e), d.rec.value;
      ExactItemsIndex(e);
      assert !Covered(ApplyExp(e, m, d), v, Apply(e, d)[v].exp);
    } else {
      forall m | IndexedBy(e, m)
        ensures IndexedBy(Apply(e, d), ApplyExp(e, m, d))
      {
        ApplyKeepsIndex(e, m, d);
      }
    }
  }

  // Some right index would be wrong after the delta if nothing were pushed.
  ghost predicate NeedsPush(e: Entries, d: Delta)
  {
    exists m :: IndexedBy(e, m) && !IndexedBy(Apply(e, d), m)
  }

  // And it pushes only when it has to.
  lemma PushNeededExactly(e: Entries, d: Delta)
    requires !Overlooked(e, d)
    ensures Pushes(e, d) <==> NeedsPush(e, d)
  {
    if Pushes(e, d) {
      ExactItemsIndex(e);
      assert !Covered(ExactItems(e), d.rec.value, Apply(e, d)[d.rec.value].exp);
      assert !IndexedBy(Apply(e, d), ExactItems(e));
    } else {
      forall m | IndexedBy(e, m)
        ensures IndexedBy(Apply(e, d), m)
      {
        ApplyKeepsIndex(e, m, d);
      }
    }
  }

  predicate NoNegative(e: Entries)
  {
    forall v :: v in e ==> e[v].exp >= 0
  }

  predicate NoNegativeDeltas(deltas: seq<Delta>)
  {
    forall i :: 0 <= i < |deltas| ==> deltas[i].rec.exp >= 0
  }

  lemma {:induction false} ReplayKeepsIndex(e: Entries, m: multiset<ExpItem>, deltas: seq<Delta>)
    requires NoNegative(e) && NoNegativeDeltas(deltas) && IndexedBy(e, m)
    ensures NoNegative(Replay(e, deltas)) && IndexedBy(Replay(e, deltas), ReplayExp(e, m, deltas))
  {
    hide IndexedBy;
    if deltas != [] {
      var before := deltas[..|deltas| - 1];
      ReplayKeepsIndex(e, m, before);
      ApplyKeepsIndex(Replay(e, before), ReplayExp(e, m, before), deltas[|deltas| - 1]);
    }
  }

  // ---------- load ----------

  lemma {:induction false} LoadIndexes(c: Config, key: Key, recs: seq<Record>)
    ensures IndexedBy(LoadEntries(c, key, recs), LoadItems(recs))
  {
    hide HashOf;
    if recs != [] {
      var before, r := recs[..|recs| - 1], recs[|recs| - 1];
      LoadIndexes(c, key, before);
      var e, m := LoadEntries(c, key, recs), LoadItems(recs);
      forall v | v in e && e[v].exp > 0
        ensures Covered(m, v, e[v].exp)
      {
        if v == r.value {
          assert ExpItem(v, r.exp) in m;
        } else {
          var old' := LoadItems(before);
          assert Covered(old', v, e[v].exp);
          var it :| it in old' && it.value == v && it.exp <= e[v].exp;
          assert it in m;
        }
      }
    }
  }

  // ---------- the sweep ----------

  predicate PutsBack(s: SetState, it: ExpItem)
  {
    it.value in s.entries && s.entries[it.value].exp >= it.exp
  }

  function Fixed(s: SetState, it: ExpItem): ExpItem
    requires PutsBack(s, it)
  {
    ExpItem(it.value, s.entries[it.value].exp)
  }

  lemma {:induction false} BacksAre(s: SetState, items: seq<ExpItem>)
    ensures forall i :: 0 <= i < |items| && PutsBack(s, items[i]) ==> Fixed(s, items[i]) in Backs(s, items)
    ensures forall b :: b in Backs(s, items) ==>
              exists i :: 0 <= i < |items| && PutsBack(s, items[i]) && b == Fixed(s, items[i])
  {
    if items != [] {
      var before, last := items[..|items| - 1], items[|items| - 1];
      BacksAre(s, before);
      var all := Backs(s, items);
      assert all == Backs(s, before) + Back(s, last);
      forall b | b in all
        ensures exists i :: 0 <= i < |items| && PutsBack(s, items[i]) && b == Fixed(s, items[i])
      {
        if b in Backs(s, before) {
          var i :| 0 <= i < |before| && PutsBack(s, before[i]) && b == Fixed(s, before[i]);
          assert items[i] == before[i];
        } else {
          assert b in Back(s, last);
          assert items[|items| - 1] == last;
        }
      }
      forall i | 0 <= i < |items| && PutsBack(s, items[i])
        ensures Fixed(s, items[i]) in all
      {
        if i < |before| {
          assert items[i] == before[i];
        } else {
          assert Back(s, last) == [Fixed(s, last)];
        }
      }
    }
  }

  lemma {:induction false} ReportsAre(s: SetState, items: seq<ExpItem>, v: Text)
    ensures v in Reports(s, items) <==>
            v in s.entries && v !in s.pend && ExpItem(v, s.entries[v].exp) in items
  {
    if items != [] {
      var before, last := items[..|items| - 1], items[|items| - 1];
      ReportsAre(s, before, v);
      assert items == before + [last];
      assert Reports(s, items) == Reports(s, before) + Report(s, last);
    }
  }

  lemma PoppedAre(exp: multiset<ExpItem>, now: int, popped: seq<ExpItem>, it: ExpItem)
    requires PopsDue(exp, now, popped)
    ensures it in popped <==> it in exp && Due(it, now)
  {
    if it in popped {
      assert it in multiset(popped);
    } else if it in exp {
      assert it !in multiset(popped);
      assert it in exp - multiset(popped);
    }
  }

  // One sweep reports an unplanned value exactly when its own item, not just an earlier
  // stale one, is on the heap and due.
  lemma SweepReports(s: SetState, now: int, popped: seq<ExpItem>, v: Text)
    requires PopsDue(s.exp, now, popped)
    ensures v in Reports(s, popped) <==>
            && v in s.entries && v !in s.pend
            && s.entries[v].exp <= now && ExpItem(v, s.entries[v].exp) in s.exp
  {
    ReportsAre(s, popped, v);
    if v in s.entries {
      PoppedAre(s.exp, now, popped, ExpItem(v, s.entries[v].exp));
    }
  }

  // After a sweep every entry that is due has its own item on the heap.
  lemma SweepFixes(s: SetState, now: int, popped: seq<ExpItem>)
    requires IndexedBy(s.entries, s.exp) && PopsDue(s.exp, now, popped)
    ensures IndexedBy(s.entries, AfterExpired(s, popped).exp)
    ensures forall v :: v in s.entries && 0 < s.entries[v].exp <= now ==>
              ExpItem(v, s.entries[v].exp) in AfterExpired(s, popped).exp
  {
    hide Backs;
    var m := AfterExpired(s, popped).exp;
    BacksAre(s, popped);
    forall it | it in m
      ensures it.exp > 0
    {
      if it !in s.exp {
        assert it in Backs(s, popped);
        var i :| 0 <= i < |popped| && PutsBack(s, popped[i]) && it == Fixed(s, popped[i]);
        assert popped[i] in multiset(popped);
      }
    }
    forall v | v in s.entries && s.entries[v].exp > 0
      ensures Covered(m, v, s.entries[v].exp)
      ensures s.entries[v].exp <= now ==> ExpItem(v, s.entries[v].exp) in m
    {
      var it :| it in s.exp && it.value == v && it.exp <= s.entries[v].exp;
      PoppedAre(s.exp, now, popped, it);
      if Due(it, now) {
        var i :| 0 <= i < |popped| && popped[i] == it;
        assert Fixed(s, it) in multiset(Backs(s, popped));
        assert Fixed(s, it) in m;
      } else {
        assert it !in multiset(popped);
        assert it in m;
      }
    }
  }

  // Two sweeps at the same time with nothing in between: the second reports exactly the
  // unplanned entries that are due, even one the first only re-queued.
  lemma SecondSweepComplete(s: SetState, now: int, first: seq<ExpItem>, second: seq<ExpItem>, v: Text)
    requires IndexedBy(s.entries, s.exp) && PopsDue(s.exp, now, first)
    requires PopsDue(AfterExpired(s, first).exp, now, second)
    ensures v in Reports(AfterExpired(s, first), second) <==>
            v in s.entries && v !in s.pend && 0 < s.entries[v].exp <= now
  {
    hide Reports, Backs;
    SweepFixes(s, now, first);
    SweepReports(AfterExpired(s, first), now, second, v);
  }

  // ---------- runs ----------

  ghost predicate IndexInv(a: Sys)
  {
    && IndexedBy(a.s.entries, a.s.exp) && NoNegative(a.s.entries)
    && forall i :: 0 <= i < |a.queue| ==> NoNegativeDeltas(a.queue[i].deltas)
  }

  lemma {:induction false} PlanKeepsSigns(s: SetState, deltas: seq<Delta>)
    requires NoNegativeDeltas(deltas)
    ensures NoNegativeDeltas(PlanDraft(s, deltas).applied)
  {
    hide HashOf, Find;
    if deltas != [] {
      var before := deltas[..|deltas| - 1];
      assert NoNegativeDeltas(before);
      PlanKeepsSigns(s, before);
    }
  }

  lemma StepKeepsIndex(a: Sys, b: Sys, step: Step)
    requires IndexInv(a) && Next(a, b, step)
    requires step.DoPlan? ==> NoNegativeDeltas(step.deltas)
    ensures IndexInv(b)
  {
    hide IndexedBy, PlanDraft, NoNegativeDeltas, NoNegative, Replay, ReplayExp, ReplayHash, DropOwn;
    match step
    case DoPlan(deltas) =>
      PlanKeepsSigns(a.s, deltas);
      NoSigns();
    case DoCommit =>
      ReplayKeepsIndex(a.s.entries, a.s.exp, a.queue[0].deltas);
    case DoFail =>
    case DoDrop =>
    case DoExpired(now, popped) =>
      SweepFixes(a.s, now, popped);
  }

  lemma NoSigns()
    ensures NoNegativeDeltas([])
  {}

  // In every run whose records have no negative expiry the index stays complete.
  lemma {:induction false} RunIndexed(states: seq<Sys>, steps: seq<Step>, i: nat)
    requires Run(states, steps) && i < |states|
    requires IndexInv(states[0])
    requires forall j :: 0 <= j < |steps| && steps[j].DoPlan? ==> NoNegativeDeltas(steps[j].deltas)
    ensures IndexInv(states[i])
  {
    hide IndexInv, Next, Init;
    if i > 0 {
      RunIndexed(states, steps, i - 1);
      assert Next(states[i - 1], states[i - 1 + 1], steps[i - 1]);
      StepKeepsIndex(states[i - 1], states[i], steps[i - 1]);
    }
  }
}
