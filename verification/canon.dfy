// What plans inherit from the requests they were made of, and that live hashes are those of
// the values' texts (internal/set/set.go, hashOf and Plan).
module Canon {
  import opened Types
  import opened SetModel
  import opened SetLaws
  import opened Pipeline
  import opened Durable

  // ---------- hashes ----------

  // The record's prefix belongs to its text, and an add carries the hash of that text.
  predicate CanonDelta(c: Config, key: Key, d: Delta)
  {
    RecordOk(c, d.rec) && (d.op == Add ==> d.hash == TextHash(c, key, d.rec.value))
  }

  predicate CanonDeltas(c: Config, key: Key, deltas: seq<Delta>)
  {
    forall i :: 0 <= i < |deltas| ==> CanonDelta(c, key, deltas[i])
  }

  ghost predicate CanonQueue(c: Config, key: Key, plans: seq<Plan>)
  {
    forall i :: 0 <= i < |plans| ==> CanonDeltas(c, key, plans[i].deltas)
  }

  predicate AllRecordsOk(c: Config, deltas: seq<Delta>)
  {
    forall i :: 0 <= i < |deltas| ==> RecordOk(c, deltas[i].rec)
  }

  lemma RecordOkHash(c: Config, key: Key, r: Record)
    requires RecordOk(c, r)
    ensures HashOf(c, key, r) == TextHash(c, key, r.value)
  {}

  lemma {:induction false} ReplayCanon(c: Config, key: Key, e: Entries, deltas: seq<Delta>)
    requires CanonHashes(c, key, e) && CanonDeltas(c, key, deltas)
    ensures CanonHashes(c, key, Replay(e, deltas))
  {
    hide TextHash, RecordOk;
    if deltas != [] {
      var before := deltas[..|deltas| - 1];
      ReplayCanon(c, key, e, before);
      assert CanonDelta(c, key, deltas[|deltas| - 1]);
    }
  }

  lemma {:induction false} ReplayAllCanon(c: Config, key: Key, e: Entries, plans: seq<Plan>)
    requires CanonHashes(c, key, e) && CanonQueue(c, key, plans)
    ensures CanonHashes(c, key, ReplayAll(e, plans))
    decreases |plans|
  {
    hide CanonHashes, CanonDeltas;
    if plans != [] {
      ReplayCanon(c, key, e, plans[0].deltas);
      ReplayAllCanon(c, key, Replay(e, plans[0].deltas), plans[1..]);
    }
  }

  // What a delta keeps of the request it answers: a removal forgets the expiry.
  predicate MadeFrom(d: Delta, asked: Delta)
  {
    d.op == asked.op && d.rec == if d.op == Add then asked.rec else asked.rec.(exp := 0)
  }

  lemma StepMadeFrom(s: SetState, dr: Draft, d: Delta) returns (x: Delta)
    ensures PlanStep(s, dr, d).applied == dr.applied || PlanStep(s, dr, d).applied == dr.applied + [x]
    ensures MadeFrom(x, d)
    ensures var (cur, found, source) := Find(s, dr.over, d.rec.value);
            x.op == Add ==> x.hash == if found then cur.hash else HashOf(s.cfg, s.key, d.rec)
  {
    hide HashOf, Xor, Find, SameContent;
    var (cur, found, source) := Find(s, dr.over, d.rec.value);
    if d.op == Add {
      x := Delta(Add, d.rec, if found then cur.hash else HashOf(s.cfg, s.key, d.rec));
    } else {
      x := Delta(Remove, d.rec.(exp := 0), cur.hash);
    }
  }

  lemma FoundCanon(s: SetState, dr: Draft, d: Delta, x: Delta)
    requires CanonHashes(s.cfg, s.key, View(View(s.entries, s.pend), dr.over)) && RecordOk(s.cfg, d.rec) && MadeFrom(x, d)
    requires var (cur, found, source) := Find(s, dr.over, d.rec.value);
             x.op == Add ==> x.hash == if found then cur.hash else HashOf(s.cfg, s.key, d.rec)
    ensures CanonDelta(s.cfg, s.key, x)
  {
    hide View, HashOf, TextHash, Find;
    RecordOkHash(s.cfg, s.key, d.rec);
    FindIsView(s, dr.over, d.rec.value);
  }

  lemma StepCanon(s: SetState, dr: Draft, d: Delta)
    requires DraftFits(View(s.entries, s.pend), dr)
    requires CanonHashes(s.cfg, s.key, View(s.entries, s.pend)) && CanonDeltas(s.cfg, s.key, dr.applied)
    requires RecordOk(s.cfg, d.rec)
    ensures CanonDeltas(s.cfg, s.key, PlanStep(s, dr, d).applied)
  {
    hide View, XorOf, Fits, HashOf, OverOf, CanonDelta, CanonHashes, MadeFrom, Find, PlanStep, Replay, RecordOk;
    var view := View(s.entries, s.pend);
    ReplayCanon(s.cfg, s.key, view, dr.applied);
    ReplayIsView(view, dr.applied, 0);
    var x := StepMadeFrom(s, dr, d);
    FoundCanon(s, dr, d, x);
  }

  lemma {:induction false} DraftCanon(s: SetState, deltas: seq<Delta>)
    requires ViewCounted(s) && CanonHashes(s.cfg, s.key, View(s.entries, s.pend)) && AllRecordsOk(s.cfg, deltas)
    ensures CanonDeltas(s.cfg, s.key, PlanDraft(s, deltas).applied)
  {
    hide View, XorOf, CanonHashes, CanonDelta, PlanStep, DraftFits, RecordOk, Requests;
    if deltas != [] {
      var before := deltas[..|deltas| - 1];
      DraftCanon(s, before);
      PlanDraftMeaning(s, before);
      StepCanon(s, PlanDraft(s, before), deltas[|deltas| - 1]);
    }
  }

  lemma PlannedCanon(s: SetState, live: seq<Plan>, deltas: seq<Delta>)
    requires SetInv(s, live) && CanonHashes(s.cfg, s.key, s.entries) && CanonQueue(s.cfg, s.key, live)
    requires AllRecordsOk(s.cfg, deltas)
    ensures CanonDeltas(s.cfg, s.key, PlanOf(s, deltas).deltas)
  {
    hide Chain, XorOf, View, CanonHashes, CanonDelta, PlanDraft, Overlay, ReplayAll, RecordOk;
    ReplayAllCanon(s.cfg, s.key, s.entries, live);
    OverlayIsView(s.entries, live);
    DraftCanon(s, deltas);
  }

  // ---------- records ----------

  ghost predicate AllMadeFrom(applied: seq<Delta>, asked: seq<Delta>)
  {
    && |applied| <= |asked|
    && forall i :: 0 <= i < |applied| ==> exists j :: 0 <= j < |asked| && MadeFrom(applied[i], asked[j])
  }

  // Every delta of a plan is a request's, and there are no more of them.
  lemma {:induction false} DraftMadeFrom(s: SetState, deltas: seq<Delta>)
    ensures AllMadeFrom(PlanDraft(s, deltas).applied, deltas)
  {
    hide PlanStep, MadeFrom;
    if deltas != [] {
      var n := |deltas| - 1;
      DraftMadeFrom(s, deltas[..n]);
      var x := StepMadeFrom(s, PlanDraft(s, deltas[..n]), deltas[n]);
      var before, a := PlanDraft(s, deltas[..n]).applied, PlanDraft(s, deltas).applied;
      forall i | 0 <= i < |a|
        ensures exists j :: 0 <= j < |deltas| && MadeFrom(a[i], deltas[j])
      {
        if i < |before| {
          assert a[i] == before[i];
          var j :| 0 <= j < n && MadeFrom(before[i], deltas[..n][j]);
          assert deltas[j] == deltas[..n][j];
        } else {
          assert a[i] == x && MadeFrom(x, deltas[n]);
        }
      }
    }
  }
}
