// What the state functions of SetModel mean: planning is the plain application of the
// requests to the view, replaying a plan's deltas reproduces it, and both hashes are
// the XOR of the hashes stored in the entries.
module SetLaws {
  import opened Types
  import opened XorFold
  import opened SetModel

  // ---------- hashes of changed entries ----------

  lemma XorPut(e: Entries, v: Text, x: Entry)
    ensures v !in e ==> XorOf(e[v := x]) == Xor(XorOf(e), x.hash)
    ensures v in e && e[v].hash == x.hash ==> XorOf(e[v := x]) == XorOf(e)
  {
    hide Xor;
    assert Hashes(e[v := x]) == Hashes(e)[v := x.hash];
    if v !in e {
      XorInsert(Hashes(e), v, x.hash);
    } else if e[v].hash == x.hash {
      assert Hashes(e)[v := x.hash] == Hashes(e);
    }
  }

  lemma XorDrop(e: Entries, v: Text)
    ensures v in e ==> XorOf(e - {v}) == Xor(XorOf(e), e[v].hash)
    ensures v !in e ==> e - {v} == e
  {
    hide Xor;
    if v in e {
      assert Hashes(e - {v}) == Hashes(e) - {v};
      XorDelete(Hashes(e), v);
    }
  }

  // ---------- replaying deltas ----------

  // A delta made for these entries: it removes something, and carries the stored hash.
  predicate DeltaFits(e: Entries, d: Delta)
  {
    match d.op
    case Add => d.rec.value in e ==> d.hash == e[d.rec.value].hash
    case Remove => d.rec.value in e && d.hash == e[d.rec.value].hash
  }

  predicate Fits(e: Entries, deltas: seq<Delta>)
  {
    deltas == [] ||
    var before := deltas[..|deltas| - 1];
    Fits(e, before) && DeltaFits(Replay(e, before), deltas[|deltas| - 1])
  }

  lemma XorOfApply(e: Entries, d: Delta)
    requires DeltaFits(e, d)
    ensures XorOf(Apply(e, d)) == if d.op == Add && d.rec.value in e then XorOf(e) else Xor(XorOf(e), d.hash)
  {
    hide Xor;
    match d.op
    case Add => XorPut(e, d.rec.value, EntryOf(d.rec, d.hash));
    case Remove => XorDrop(e, d.rec.value);
  }

  // The hash Commit accumulates is the XOR over the entries it ends with.
  lemma {:induction false} ReplayHashIsXor(e: Entries, deltas: seq<Delta>)
    requires Fits(e, deltas)
    ensures ReplayHash(e, XorOf(e), deltas) == XorOf(Replay(e, deltas))
  {
    hide Xor, XorOf;
    if deltas != [] {
      var before, d := deltas[..|deltas| - 1], deltas[|deltas| - 1];
      ReplayHashIsXor(e, before);
      XorOfApply(Replay(e, before), d);
    }
  }

  // ---------- overlays ----------

  function Mark(d: Delta, n: nat): PendEntry
  {
    match d.op
    case Add => PendEntry(EntryOf(d.rec, d.hash), true, n)
    case Remove => PendEntry(ZERO_ENTRY, false, n)
  }

  // The overlay a list of deltas amounts to, stamped with the number of its plan.
  function OverOf(deltas: seq<Delta>, n: nat): Pending
  {
    if deltas == [] then map[] else
      var d := deltas[|deltas| - 1];
      OverOf(deltas[..|deltas| - 1], n)[d.rec.value := Mark(d, n)]
  }

  lemma ViewOfView(e: Entries, a: Pending, b: Pending)
    ensures View(View(e, a), b) == View(e, a + b)
  {}

  lemma ViewPut(e: Entries, over: Pending, d: Delta, n: nat)
    ensures View(e, over[d.rec.value := Mark(d, n)]) == Apply(View(e, over), d)
  {}

  // Looking through the overlay of some deltas is replaying them.
  lemma {:induction false} ReplayIsView(e: Entries, deltas: seq<Delta>, n: nat)
    ensures Replay(e, deltas) == View(e, OverOf(deltas, n))
  {
    if deltas == [] {
      assert View(e, map[]) == e;
    } else {
      var before, d := deltas[..|deltas| - 1], deltas[|deltas| - 1];
      ReplayIsView(e, before, n);
      ViewPut(e, OverOf(before, n), d, n);
    }
  }

  lemma {:induction false} StampOverOf(deltas: seq<Delta>, n: nat)
    ensures Stamp(OverOf(deltas, 0), n) == OverOf(deltas, n)
  {
    if deltas != [] {
      StampOverOf(deltas[..|deltas| - 1], n);
    }
  }

  lemma {:induction false} OverOfTouches(deltas: seq<Delta>, n: nat)
    ensures OverOf(deltas, n).Keys == Touched(deltas)
    ensures forall v :: v in OverOf(deltas, n) ==> OverOf(deltas, n)[v].num == n
  {
    if deltas != [] {
      var before := deltas[..|deltas| - 1];
      OverOfTouches(before, n);
      assert forall i :: 0 <= i < |before| ==> deltas[i] == before[i];
      assert Touched(deltas) == Touched(before) + {deltas[|deltas| - 1].rec.value};
    }
  }

  // ---------- the reference: requests applied to a plain map ----------

  // What a writer asks for, with no overlay, no skipping and no bookkeeping.
  function Request(c: Config, key: Key, e: Entries, d: Delta): Entries
  {
    var v := d.rec.value;
    match d.op
    case Add =>
      if v in e then e[v := EntryOf(d.rec, e[v].hash)]
      else if c.limit > 0 && |e| >= c.limit then e
      else e[v := EntryOf(d.rec, HashOf(c, key, d.rec))]
    case Remove => e - {v}
  }

  function Requests(c: Config, key: Key, e: Entries, deltas: seq<Delta>): Entries
  {
    if deltas == [] then e
    else Request(c, key, Requests(c, key, e, deltas[..|deltas| - 1]), deltas[|deltas| - 1])
  }

  // The bookkeeping of a draft is that of its own deltas over the view it started from.
  ghost predicate DraftFits(e: Entries, dr: Draft)
  {
    && dr.over == OverOf(dr.applied, 0)
    && Fits(e, dr.applied)
    && dr.size == |Replay(e, dr.applied)|
    && dr.hash == XorOf(Replay(e, dr.applied))
  }

  ghost predicate ViewCounted(s: SetState)
  {
    var view := View(s.entries, s.pend);
    s.pendSize == |view| && s.pendHash == XorOf(view)
  }

  lemma FindIsView(s: SetState, over: Pending, v: Text)
    ensures var (cur, found, source) := Find(s, over, v);
            var now := View(View(s.entries, s.pend), over);
            (found <==> v in now) && (found ==> cur == now[v])
  {}

  lemma SmallerSet<T>(a: set<T>, b: set<T>)
    requires a <= b
    ensures |a| <= |b|
  {
    if a != {} {
      var x :| x in a;
      SmallerSet(a - {x}, b - {x});
    }
  }

  lemma SizePut(e: Entries, v: Text, x: Entry)
    ensures |e[v := x]| == if v in e then |e| else |e| + 1
  {
    assert e[v := x].Keys == e.Keys + {v};
    if v in e {
      assert e[v := x].Keys == e.Keys;
    }
  }

  lemma SizeDrop(e: Entries, v: Text)
    ensures |e - {v}| == if v in e then |e| - 1 else |e|
  {
    assert (e - {v}).Keys == e.Keys - {v};
    if v !in e {
      assert (e - {v}).Keys == e.Keys;
    }
  }

  // How a fitting delta moves the size and the hash of the view.
  function SizeAfter(e: Entries, size: int, d: Delta): int
  {
    if d.op == Remove then size - 1 else if d.rec.value in e then size else size + 1
  }

  function HashAfter(e: Entries, hash: Hash, d: Delta): Hash
  {
    if d.op == Add && d.rec.value in e then hash else Xor(hash, d.hash)
  }

  lemma ApplyMeasures(e: Entries, d: Delta)
    requires DeltaFits(e, d)
    ensures |Apply(e, d)| == SizeAfter(e, |e|, d)
    ensures XorOf(Apply(e, d)) == HashAfter(e, XorOf(e), d)
  {
    hide Xor, XorOf;
    XorOfApply(e, d);
    SizePut(e, d.rec.value, EntryOf(d.rec, d.hash));
    SizeDrop(e, d.rec.value);
  }

  lemma DraftGrows(e: Entries, dr: Draft, d: Delta, dr': Draft)
    requires DraftFits(e, dr)
    requires var now := Replay(e, dr.applied);
             && DeltaFits(now, d)
             && dr' == Draft(dr.over[d.rec.value := Mark(d, 0)], SizeAfter(now, dr.size, d),
                             HashAfter(now, dr.hash, d), dr.applied + [d], dr.rejected)
    ensures DraftFits(e, dr')
    ensures Replay(e, dr'.applied) == Apply(Replay(e, dr.applied), d)
  {
    hide Xor, XorOf, Apply, SizeAfter, HashAfter, Mark, DeltaFits;
    assert dr'.applied[..|dr'.applied| - 1] == dr.applied;
    ApplyMeasures(Replay(e, dr.applied), d);
  }

  // One round of Plan's loop either leaves its draft's deltas alone, when the request
  // changes nothing, or appends the delta that does what the request asks.
  lemma PlanStepCases(s: SetState, dr: Draft, d: Delta, now: Entries)
    requires now == View(View(s.entries, s.pend), dr.over)
    requires dr.size == |now|
    ensures var dr' := PlanStep(s, dr, d);
            var want := Request(s.cfg, s.key, now, d);
            || (want == now && dr' == dr.(rejected := dr'.rejected))
            || (|dr'.applied| == |dr.applied| + 1 &&
                var a := dr'.applied[|dr.applied|..];
                && |a| == 1 && DeltaFits(now, a[0]) && a[0].rec.value == d.rec.value
                && want == Apply(now, a[0])
                && dr' == Draft(dr.over[d.rec.value := Mark(a[0], 0)], SizeAfter(now, dr.size, a[0]),
                                HashAfter(now, dr.hash, a[0]), dr.applied + a, dr.rejected))
  {
    hide Xor, HashOf, View, Find;
    FindIsView(s, dr.over, d.rec.value);
  }

  // One round of Plan's loop is one request on the view, whatever branch it takes.
  lemma PlanStepMeaning(s: SetState, dr: Draft, d: Delta)
    requires DraftFits(View(s.entries, s.pend), dr)
    ensures var view := View(s.entries, s.pend);
            var dr' := PlanStep(s, dr, d);
            && DraftFits(view, dr')
            && Replay(view, dr'.applied) == Request(s.cfg, s.key, Replay(view, dr.applied), d)
  {
    hide Xor, XorOf, PlanStep, Request, View, SizeAfter, HashAfter, DeltaFits, Apply, Mark, OverOf, Fits;
    var view := View(s.entries, s.pend);
    var now := Replay(view, dr.applied);
    ReplayIsView(view, dr.applied, 0);
    PlanStepCases(s, dr, d, now);
    var dr' := PlanStep(s, dr, d);
    if dr' != dr.(rejected := dr'.rejected) || Request(s.cfg, s.key, now, d) != now {
      var a := dr'.applied[|dr.applied|];
      assert dr'.applied == dr.applied + [a];
      DraftGrows(view, dr, a, dr');
    }
  }

  // Plan refines the reference: its draft leaves the view exactly the requests leave.
  lemma {:induction false} PlanDraftMeaning(s: SetState, deltas: seq<Delta>)
    requires ViewCounted(s)
    ensures var view := View(s.entries, s.pend);
            var dr := PlanDraft(s, deltas);
            DraftFits(view, dr) && Replay(view, dr.applied) == Requests(s.cfg, s.key, view, deltas)
  {
    hide Xor, XorOf, PlanStep, Request;
    if deltas != [] {
      var before := deltas[..|deltas| - 1];
      PlanDraftMeaning(s, before);
      PlanStepMeaning(s, PlanDraft(s, before), deltas[|deltas| - 1]);
    }
  }

  // The state after Plan shows the requests through its overlay, counted and hashed.
  lemma AfterPlanMeaning(s: SetState, deltas: seq<Delta>)
    requires ViewCounted(s)
    ensures var s' := AfterPlan(s, deltas);
            && View(s'.entries, s'.pend) == Requests(s.cfg, s.key, View(s.entries, s.pend), deltas)
            && ViewCounted(s')
  {
    hide Xor, XorOf, PlanDraft, Requests, View, Fits;
    var view := View(s.entries, s.pend);
    var dr := PlanDraft(s, deltas);
    PlanDraftMeaning(s, deltas);
    if dr.applied != [] {
      StampOverOf(dr.applied, s.pendNum + 1);
      ReplayIsView(view, dr.applied, s.pendNum + 1);
      ViewOfView(s.entries, s.pend, OverOf(dr.applied, s.pendNum + 1));
    }
  }
}
