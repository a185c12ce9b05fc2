// The planned/committed pipeline: the planner appends plans to a queue, the committer
// takes them in order. Every step holds the set's mutex, so steps are atomic.
module Pipeline {
  import opened SetModel
  import opened SetLaws

  // ---------- plans in flight ----------

  // p was made for entries e holding the number num, and its predictions are right.
  ghost predicate PlanFits(e: Entries, num: nat, p: Plan)
  {
    && p.deltas != []
    && Fits(e, p.deltas)
    && p.num == num + 1
    && p.hash == XorOf(Replay(e, p.deltas))
  }

  ghost predicate Chain(e: Entries, num: nat, plans: seq<Plan>)
    decreases |plans|
  {
    plans == [] || (PlanFits(e, num, plans[0]) && Chain(Replay(e, plans[0].deltas), num + 1, plans[1..]))
  }

  function ReplayAll(e: Entries, plans: seq<Plan>): Entries
    decreases |plans|
  {
    if plans == [] then e else ReplayAll(Replay(e, plans[0].deltas), plans[1..])
  }

  function Overlay(plans: seq<Plan>): Pending
  {
    if plans == [] then map[] else OverOf(plans[0].deltas, plans[0].num) + Overlay(plans[1..])
  }

  // The entries before the plans, between any two of them and after the last stay within bound.
  predicate Within(e: Entries, plans: seq<Plan>, bound: int)
    decreases |plans|
  {
    |e| <= bound && (plans != [] ==> Within(Replay(e, plans[0].deltas), plans[1..], bound))
  }

  lemma {:induction false} ReplayAllSnoc(e: Entries, plans: seq<Plan>, p: Plan)
    ensures ReplayAll(e, plans + [p]) == Replay(ReplayAll(e, plans), p.deltas)
    decreases |plans|
  {
    if plans != [] {
      assert (plans + [p])[1..] == plans[1..] + [p];
      ReplayAllSnoc(Replay(e, plans[0].deltas), plans[1..], p);
    }
  }

  lemma {:induction false} ChainSnoc(e: Entries, num: nat, plans: seq<Plan>, p: Plan)
    requires Chain(e, num, plans) && PlanFits(ReplayAll(e, plans), num + |plans|, p)
    ensures Chain(e, num, plans + [p])
    decreases |plans|
  {
    hide PlanFits;
    if plans != [] {
      assert (plans + [p])[1..] == plans[1..] + [p];
      ChainSnoc(Replay(e, plans[0].deltas), num + 1, plans[1..], p);
    }
  }

  lemma MapAssoc(a: Pending, b: Pending, c: Pending)
    ensures (a + b) + c == a + (b + c)
  {}

  lemma {:induction false} OverlaySnoc(plans: seq<Plan>, p: Plan)
    ensures Overlay(plans + [p]) == Overlay(plans) + OverOf(p.deltas, p.num)
  {
    hide OverOf;
    if plans != [] {
      assert (plans + [p])[1..] == plans[1..] + [p];
      OverlaySnoc(plans[1..], p);
      MapAssoc(OverOf(plans[0].deltas, plans[0].num), Overlay(plans[1..]), OverOf(p.deltas, p.num));
    }
  }

  lemma {:induction false} WithinSnoc(e: Entries, plans: seq<Plan>, p: Plan, bound: int)
    requires Within(e, plans, bound) && |ReplayAll(e, plans + [p])| <= bound
    ensures Within(e, plans + [p], bound)
    decreases |plans|
  {
    hide Replay;
    if plans != [] {
      assert (plans + [p])[1..] == plans[1..] + [p];
      WithinSnoc(Replay(e, plans[0].deltas), plans[1..], p, bound);
    }
  }

  // Looking through the overlay is replaying all plans in flight, in order.
  lemma {:induction false} OverlayIsView(e: Entries, plans: seq<Plan>)
    ensures View(e, Overlay(plans)) == ReplayAll(e, plans)
    decreases |plans|
  {
    if plans != [] {
      var p := plans[0];
      ReplayIsView(e, p.deltas, p.num);
      OverlayIsView(Replay(e, p.deltas), plans[1..]);
      ViewOfView(e, OverOf(p.deltas, p.num), Overlay(plans[1..]));
    }
  }

  lemma {:induction false} OverlayNums(e: Entries, num: nat, plans: seq<Plan>)
    requires Chain(e, num, plans)
    ensures forall v :: v in Overlay(plans) ==> num < Overlay(plans)[v].num <= num + |plans|
    ensures Overlay(plans) == map[] <==> plans == []
    decreases |plans|
  {
    if plans != [] {
      var p := plans[0];
      OverOfTouches(p.deltas, p.num);
      OverlayNums(Replay(e, p.deltas), num + 1, plans[1..]);
      assert p.deltas[0].rec.value in Touched(p.deltas);
    }
  }

  // Committing the oldest plan leaves exactly the overlay of the later ones.
  lemma DropOwnHead(e: Entries, num: nat, plans: seq<Plan>)
    requires plans != [] && Chain(e, num, plans)
    ensures DropOwn(Overlay(plans), Touched(plans[0].deltas), plans[0].num) == Overlay(plans[1..])
  {
    OverOfTouches(plans[0].deltas, plans[0].num);
    OverlayNums(Replay(e, plans[0].deltas), num + 1, plans[1..]);
  }

  // ---------- the set between steps ----------

  // live: the plans in flight of the set's current generation, oldest first.
  ghost predicate SetInv(s: SetState, live: seq<Plan>)
  {
    && s.hash == XorOf(s.entries)
    && Chain(s.entries, s.num, live)
    && s.pend == Overlay(live)
    && s.pendNum == s.num + |live|
    && ViewCounted(s)
  }

  // A plan with deltas fits the view it was made for.
  lemma PlanOfFits(s: SetState, live: seq<Plan>, deltas: seq<Delta>)
    requires SetInv(s, live) && PlanOf(s, deltas).deltas != []
    ensures PlanFits(ReplayAll(s.entries, live), s.pendNum, PlanOf(s, deltas))
  {
    hide XorOf, Fits, View, PlanDraft, Chain, Overlay, ReplayAll, Replay, Requests, OverOf;
    PlanDraftMeaning(s, deltas);
    OverlayIsView(s.entries, live);
  }

  lemma DraftOverlays(s: SetState, deltas: seq<Delta>)
    requires ViewCounted(s)
    ensures PlanDraft(s, deltas).over == OverOf(PlanDraft(s, deltas).applied, 0)
  {
    hide XorOf, Fits, View, OverOf, PlanDraft, Replay, Requests, ViewCounted;
    PlanDraftMeaning(s, deltas);
  }

  lemma PlanOverlays(s: SetState, deltas: seq<Delta>)
    requires ViewCounted(s) && PlanOf(s, deltas).deltas != []
    ensures AfterPlan(s, deltas).pend == s.pend + OverOf(PlanOf(s, deltas).deltas, s.pendNum + 1)
  {
    hide OverOf, Stamp, PlanDraft, ViewCounted;
    DraftOverlays(s, deltas);
    StampOverOf(PlanDraft(s, deltas).applied, s.pendNum + 1);
  }

  lemma PlanKeepsSet(s: SetState, live: seq<Plan>, deltas: seq<Delta>)
    requires SetInv(s, live)
    ensures var p := PlanOf(s, deltas);
            SetInv(AfterPlan(s, deltas), if p.deltas == [] then live else live + [p])
  {
    hide XorOf, Fits, View, OverOf, PlanDraft, ViewCounted, PlanFits, Chain, Overlay;
    var p := PlanOf(s, deltas);
    AfterPlanMeaning(s, deltas);
    if p.deltas != [] {
      PlanOfFits(s, live, deltas);
      PlanOverlays(s, deltas);
      OverlaySnoc(live, p);
      ChainSnoc(s.entries, s.num, live, p);
    }
  }

  // The safety claim of keeper.go:743: the committed hash and number are those the plan
  // predicted, the reset at set.go:358-360 changes nothing, and no later plan sees a change.
  lemma CommitMatchesPlan(s: SetState, live: seq<Plan>)
    requires SetInv(s, live) && live != []
    ensures var p, s' := live[0], AfterCommit(s, live[0]);
            && s'.hash == p.hash && s'.num == p.num == s.num + 1
            && s'.entries == Replay(s.entries, p.deltas)
            && (s'.pendNum, s'.pendHash, s'.pendSize) == (s.pendNum, s.pendHash, s.pendSize)
            && View(s'.entries, s'.pend) == View(s.entries, s.pend)
            && (s'.pend == map[] <==> |live| == 1)
            && SetInv(s', live[1..])
  {
    hide XorOf, Fits, View, OverOf, DropOwn, Touched, ReplayHash, ReplayExp;
    var p, rest := live[0], live[1..];
    var e := Replay(s.entries, p.deltas);
    ReplayHashIsXor(s.entries, p.deltas);
    DropOwnHead(s.entries, s.num, live);
    OverlayIsView(s.entries, live);
    OverlayIsView(e, rest);
    OverlayNums(e, s.num + 1, rest);
  }

  lemma HeadHasDeltas(s: SetState, live: seq<Plan>)
    requires SetInv(s, live) && live != []
    ensures live[0].deltas != []
  {
    hide XorOf, Fits, View, Overlay;
  }

  lemma SettledSet(s: SetState)
    requires s.hash == XorOf(s.entries)
    ensures SetInv(Settle(s), [])
  {
    assert View(s.entries, map[]) == s.entries;
  }

  // ---------- runs ----------

  // base and log are history: the entries the set was mounted with, and the plans committed since.
  datatype Sys = Sys(s: SetState, queue: seq<Plan>, base: Entries, baseNum: nat, log: seq<Plan>)

  predicate HeadLive(a: Sys)
  {
    a.queue != [] && a.queue[0].gen == a.s.gen
  }

  datatype Step =
    | DoPlan(deltas: seq<Delta>)                       // planner: Plan, and the batch is queued
    | DoCommit                                         // committer: the store took the head
    | DoFail                                           // committer: the store refused it, Abort
    | DoDrop                                           // committer: the head is of an old generation
    | DoExpired(now: int, popped: seq<ExpItem>)        // planner: the sweep looks at the index

  ghost predicate Next(a: Sys, b: Sys, step: Step)
  {
    match step
    case DoPlan(deltas) =>
      var p := PlanOf(a.s, deltas);
      b == a.(s := AfterPlan(a.s, deltas), queue := if p.deltas == [] then a.queue else a.queue + [p])
    case DoCommit =>
      && HeadLive(a)
      && b == a.(s := AfterCommit(a.s, a.queue[0]), queue := a.queue[1..], log := a.log + [a.queue[0]])
    case DoFail =>
      HeadLive(a) && b == a.(s := AfterAbort(a.s), queue := a.queue[1..])
    case DoDrop =>
      a.queue != [] && !HeadLive(a) && b == a.(queue := a.queue[1..])
    case DoExpired(now, popped) =>
      PopsDue(a.s.exp, now, popped) && b == a.(s := AfterExpired(a.s, popped))
  }

  ghost predicate Init(a: Sys)
  {
    && SetInv(a.s, []) && a.s.gen == 0
    && a.queue == [] && a.log == []
    && a.base == a.s.entries && a.baseNum == a.s.num
  }

  // The queue is stale plans followed by live ones; the log leads from the base to now.
  ghost predicate InvAt(a: Sys, k: nat)
  {
    && k <= |a.queue|
    && (forall i :: 0 <= i < k ==> a.queue[i].gen < a.s.gen)
    && (forall i :: k <= i < |a.queue| ==> a.queue[i].gen == a.s.gen)
    && SetInv(a.s, a.queue[k..])
    && Chain(a.base, a.baseNum, a.log)
    && ReplayAll(a.base, a.log) == a.s.entries
    && a.s.num == a.baseNum + |a.log|
  }

  ghost predicate Inv(a: Sys)
  {
    exists k: nat :: InvAt(a, k)
  }

  lemma PlanKeeps(a: Sys, b: Sys, deltas: seq<Delta>, k: nat)
    requires InvAt(a, k) && Next(a, b, DoPlan(deltas))
    ensures InvAt(b, k)
  {
    hide SetInv, Chain, PlanDraft;
    PlanKeepsSet(a.s, a.queue[k..], deltas);
    var p := PlanOf(a.s, deltas);
    assert p.deltas != [] ==> b.queue[k..] == a.queue[k..] + [p];
  }

  lemma CommitKeeps(a: Sys, b: Sys, k: nat)
    requires InvAt(a, k) && Next(a, b, DoCommit)
    ensures k == 0 && InvAt(b, 0)
  {
    hide Fits, XorOf, View;
    assert a.queue[0..] == a.queue;
    var p := a.queue[0];
    CommitMatchesPlan(a.s, a.queue);
    assert PlanFits(a.s.entries, a.s.num, p);
    ChainSnoc(a.base, a.baseNum, a.log, p);
    ReplayAllSnoc(a.base, a.log, p);
    assert b.queue[0..] == a.queue[1..];
  }

  lemma FailKeeps(a: Sys, b: Sys, k: nat)
    requires InvAt(a, k) && Next(a, b, DoFail)
    ensures InvAt(b, |b.queue|)
  {
    hide XorOf, View, Chain, Overlay, ViewCounted;
    SettledSet(a.s);
    assert b.queue[|b.queue|..] == [];
    assert SetInv(b.s, []) by { AbortIsSettled(a.s); }
  }

  lemma AbortIsSettled(s: SetState)
    requires SetInv(Settle(s), [])
    ensures SetInv(AfterAbort(s), [])
  {}

  lemma ExpiredKeeps(a: Sys, b: Sys, now: int, popped: seq<ExpItem>, k: nat)
    requires InvAt(a, k) && Next(a, b, DoExpired(now, popped))
    ensures InvAt(b, k)
  {
    hide Chain, Overlay, ViewCounted, XorOf, ReplayAll;
    assert ViewCounted(b.s) by { ViewCountedElsewhere(a.s, b.s); }
  }

  lemma ViewCountedElsewhere(s: SetState, t: SetState)
    requires ViewCounted(s)
    requires s.entries == t.entries && s.pend == t.pend && s.pendSize == t.pendSize && s.pendHash == t.pendHash
    ensures ViewCounted(t)
  {}

  lemma StepKeeps(a: Sys, b: Sys, step: Step)
    requires Inv(a) && Next(a, b, step)
    ensures Inv(b)
  {
    hide SetInv, Chain;
    var k: nat :| InvAt(a, k);
    match step
    case DoPlan(deltas) =>
      PlanKeeps(a, b, deltas, k);
    case DoCommit =>
      CommitKeeps(a, b, k);
    case DoFail =>
      FailKeeps(a, b, k);
    case DoDrop =>
      assert b.queue[k - 1..] == a.queue[k..];
      assert InvAt(b, k - 1);
    case DoExpired(now, popped) =>
      ExpiredKeeps(a, b, now, popped, k);
  }

  lemma InitInv(a: Sys)
    requires Init(a)
    ensures InvAt(a, 0)
  {
    hide SetInv;
    assert a.queue[0..] == [];
  }

  // A run: states joined by steps.
  ghost predicate Run(states: seq<Sys>, steps: seq<Step>)
  {
    && |states| == |steps| + 1
    && Init(states[0])
    && forall i :: 0 <= i < |steps| ==> Next(states[i], states[i + 1], steps[i])
  }

  lemma {:induction false} RunKeeps(states: seq<Sys>, steps: seq<Step>, i: nat)
    requires Run(states, steps) && i < |states|
    ensures Inv(states[i])
  {
    hide SetInv, Chain, Next;
    if i == 0 {
      InitInv(states[0]);
    } else {
      RunKeeps(states, steps, i - 1);
      assert Next(states[i - 1], states[i - 1 + 1], steps[i - 1]);
      StepKeeps(states[i - 1], states[i], steps[i - 1]);
    }
  }

  // In every run, every commit lands on the hash and number its plan announced, leaves the
  // planner's view as it was, and a head of an old generation is never committed.
  lemma RunIsSafe(states: seq<Sys>, steps: seq<Step>, i: nat)
    requires Run(states, steps) && i < |steps| && steps[i] == DoCommit
    ensures var a, b, p := states[i], states[i + 1], states[i].queue[0];
            && b.s.hash == p.hash == XorOf(b.s.entries)
            && b.s.num == p.num == a.s.num + 1
            && View(b.s.entries, b.s.pend) == View(a.s.entries, a.s.pend)
  {
    hide XorOf, View, Chain;
    RunKeeps(states, steps, i);
    assert Next(states[i], states[i + 1], steps[i]);
    var a := states[i];
    var k: nat :| InvAt(a, k);
    assert a.queue[0..] == a.queue;
    CommitMatchesPlan(a.s, a.queue);
  }
}
