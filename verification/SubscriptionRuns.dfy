/**
 Subscriptions of one connection under every interleaving of subscribing, finishing and closing. Finishing takes
 several steps after its once-only entry, and other actors may run between any two of them.
 */
module SubscriptionRuns {
  import opened Texts

  /** Why a subscription ended: cleanly, or with a fault. */
  datatype Reason = Clean | Fault(code: string)

  /** Opening: known to the broker client but not yet recorded in the connection. */
  datatype Stage = Opening | Live | Entered | Recorded | Forgotten | Finished

  datatype Subscription = Subscription(
    subject: string,
    stage: Stage,
    reason: Option<Reason>,
    err: Option<Reason>,
    finishes: nat)

  datatype Closing = Open | Draining(snapshot: set<nat>, remaining: set<nat>) | Closed(snapshot: set<nat>)

  datatype Hub = Hub(subs: map<nat, Subscription>, registry: set<nat>, closing: Closing)

  const DIALED := Hub(map[], {}, Open)

  datatype Action =
    | Subscribe(s: nat, subject: string)
    | Register(s: nat)
    | Finish(s: nat, reason: Reason)
    | Record(s: nat)
    | Forget(s: nat)
    | CloseDone(s: nat)
    | CloseBegins
    | CloseFinishes(s: nat)
    | ClosePasses(s: nat)
    | CloseEnds

  const WITHDRAWN := Fault("withdrawn")

  /** The once-only entry: the first caller's reason is taken, every other caller's is dropped. */
  function Enter(sub: Subscription, reason: Reason): Subscription {
    if sub.stage == Live then sub.(stage := Entered, reason := Some(reason)) else sub
  }

  function Step(h: Hub, a: Action): Hub {
    match a
    case Subscribe(s, subject) =>
      if s in h.subs then h else h.(subs := h.subs[s := Subscription(subject, Opening, None, None, 0)])
    case Register(s) =>
      if s in h.subs && h.subs[s].stage == Opening
      then h.(subs := h.subs[s := h.subs[s].(stage := Live)], registry := h.registry + {s})
      else h
    case Finish(s, reason) => if s in h.subs then h.(subs := h.subs[s := Enter(h.subs[s], reason)]) else h
    case Record(s) =>
      if s in h.subs && h.subs[s].stage == Entered
      then h.(subs := h.subs[s := h.subs[s].(stage := Recorded, err := h.subs[s].reason)])
      else h
    case Forget(s) =>
      if s in h.subs && h.subs[s].stage == Recorded
      then h.(subs := h.subs[s := h.subs[s].(stage := Forgotten)], registry := h.registry - {s})
      else h
    case CloseDone(s) =>
      if s in h.subs && h.subs[s].stage == Forgotten
      then h.(subs := h.subs[s := h.subs[s].(stage := Finished, finishes := h.subs[s].finishes + 1)])
      else h
    case CloseBegins => if h.closing.Open? then h.(closing := Draining(h.registry, h.registry)) else h
    case CloseFinishes(s) =>
      if h.closing.Draining? && s in h.closing.remaining && s in h.subs
      then h.(subs := h.subs[s := Enter(h.subs[s], WITHDRAWN)])
      else h
    case ClosePasses(s) =>
      if h.closing.Draining? && s in h.subs && h.subs[s].stage == Finished
      then h.(closing := h.closing.(remaining := h.closing.remaining - {s}))
      else h
    case CloseEnds =>
      if h.closing.Draining? && h.closing.remaining == {} then h.(closing := Closed(h.closing.snapshot)) else h
  }

  function Run(h: Hub, actions: seq<Action>): Hub
    decreases |actions|
  {
    if actions == [] then h else Run(Step(h, actions[0]), actions[1..])
  }

  function Rank(stage: Stage): nat {
    match stage
    case Opening => 0
    case Live => 1
    case Entered => 2
    case Recorded => 3
    case Forgotten => 4
    case Finished => 5
  }

  ghost predicate SoundSub(sub: Subscription) {
    && (sub.reason.Some? <==> Rank(sub.stage) >= 2)
    && sub.err == (if Rank(sub.stage) >= 3 then sub.reason else None)
    && sub.finishes == (if sub.stage == Finished then 1 else 0)
  }

  ghost predicate SoundClose(h: Hub) {
    match h.closing
    case Open => true
    case Draining(snapshot, remaining) =>
      remaining <= snapshot
      && forall s :: s in snapshot ==> s in h.subs && Rank(h.subs[s].stage) >= 1 && (s !in remaining ==> h.subs[s].stage == Finished)
    case Closed(snapshot) => forall s :: s in snapshot ==> s in h.subs && h.subs[s].stage == Finished
  }

  ghost predicate Inv(h: Hub) {
    && (forall s :: s in h.subs ==> SoundSub(h.subs[s]))
    && (forall s :: s in h.registry <==> s in h.subs && 1 <= Rank(h.subs[s].stage) <= 3)
    && SoundClose(h)
  }

  /** Moving one subscription forward, with the record following its stage, keeps the invariant. */
  lemma MoveKeeps(h: Hub, s: nat, sub: Subscription, registry: set<nat>)
    requires Inv(h) && SoundSub(sub)
    requires s in h.subs ==> Rank(h.subs[s].stage) <= Rank(sub.stage)
    requires registry == if 1 <= Rank(sub.stage) <= 3 then h.registry + {s} else h.registry - {s}
    ensures Inv(h.(subs := h.subs[s := sub], registry := registry))
  {
    var after := h.(subs := h.subs[s := sub], registry := registry);
    assert SoundClose(after) by {
      if !h.closing.Open? {
        forall t | t in h.closing.snapshot ensures t in after.subs && Rank(after.subs[t].stage) >= Rank(h.subs[t].stage) {
        }
      }
    }
  }

  lemma StepKeeps(h: Hub, a: Action)
    requires Inv(h)
    ensures Inv(Step(h, a))
  {
    var after := Step(h, a);
    if a.CloseBegins? || a.ClosePasses? || a.CloseEnds? {
    } else if after != h {
      MoveKeeps(h, a.s, after.subs[a.s], after.registry);
    }
  }

  lemma {:induction false} RunKeeps(h: Hub, actions: seq<Action>)
    requires Inv(h)
    ensures Inv(Run(h, actions))
    decreases |actions|
  {
    if actions != [] {
      StepKeeps(h, actions[0]);
      RunKeeps(Step(h, actions[0]), actions[1..]);
    }
  }

  /** How one subscription may change: forward only, its subject and its reason fixed once there is one. */
  ghost predicate Advances(a: Subscription, b: Subscription) {
    && a.subject == b.subject && Rank(a.stage) <= Rank(b.stage) && a.finishes <= b.finishes
    && (a.reason.Some? ==> b.reason == a.reason)
    && (a.err.Some? ==> b.err == a.err)
  }

  lemma StepAdvances(h: Hub, a: Action, s: nat)
    requires Inv(h) && s in h.subs
    ensures s in Step(h, a).subs && Advances(h.subs[s], Step(h, a).subs[s])
  {
    assert SoundSub(h.subs[s]);
  }

  lemma AdvancesChain(a: Subscription, b: Subscription, c: Subscription)
    requires Advances(a, b) && Advances(b, c)
    ensures Advances(a, c)
  {
  }

  lemma {:induction false} RunAdvances(h: Hub, actions: seq<Action>, s: nat)
    requires Inv(h) && s in h.subs
    ensures s in Run(h, actions).subs && Advances(h.subs[s], Run(h, actions).subs[s])
    decreases |actions|
  {
    if actions != [] {
      var next := Step(h, actions[0]);
      StepKeeps(h, actions[0]);
      StepAdvances(h, actions[0], s);
      RunAdvances(next, actions[1..], s);
      AdvancesChain(h.subs[s], next.subs[s], Run(next, actions[1..]).subs[s]);
    }
  }

  /**
   On every run: a subscription finishes at most once; when its done channel is closed its reason has already been
   recorded, it is out of the connection's record, and it never comes back there.
   */
  lemma FinishesOnceAndForGood(before: seq<Action>, later: seq<Action>, s: nat)
    requires s in Run(DIALED, before).subs
    ensures var sub := Run(DIALED, before).subs[s];
            sub.finishes <= 1
            && (sub.finishes == 1 ==> sub.err.Some? && sub.err == sub.reason && s !in Run(DIALED, before).registry)
    ensures var h, after := Run(DIALED, before), Run(Run(DIALED, before), later);
            s in after.subs
            && (h.subs[s].err.Some? ==> after.subs[s].err == h.subs[s].err)
            && (Rank(h.subs[s].stage) >= 1 && s !in h.registry ==> s !in after.registry)
  {
    RunKeeps(DIALED, before);
    RunKeeps(Run(DIALED, before), later);
    RunAdvances(Run(DIALED, before), later, s);
  }

  /** The first actor to finish a live subscription gives the reason that every later reader sees. */
  lemma FirstReasonWins(before: seq<Action>, s: nat, reason: Reason, later: seq<Action>)
    requires var h := Run(DIALED, before); s in h.subs && h.subs[s].stage == Live
    ensures var after := Run(Step(Run(DIALED, before), Finish(s, reason)), later);
            s in after.subs && after.subs[s].reason == Some(reason)
            && (after.subs[s].stage == Finished ==> after.subs[s].err == Some(reason))
  {
    RunKeeps(DIALED, before);
    var h := Step(Run(DIALED, before), Finish(s, reason));
    StepKeeps(Run(DIALED, before), Finish(s, reason));
    RunKeeps(h, later);
    RunAdvances(h, later, s);
  }

  /** What the close, begun or over, found on record. */
  function Found(h: Hub): set<nat> { if h.closing.Open? then {} else h.closing.snapshot }

  lemma StepHasACause(h: Hub, a: Action, s: nat)
    requires Inv(h)
    ensures Found(h) <= Found(Step(h, a))
    ensures var after := Step(h, a);
            s in after.subs && after.subs[s].reason.Some? ==>
              || (s in h.subs && h.subs[s].reason == after.subs[s].reason)
              || a == Finish(s, after.subs[s].reason.value)
              || (after.subs[s].reason == Some(Fault("withdrawn")) && s in Found(h))
  {
  }

  /** Whatever ends a subscription was asked to, by name and for that reason; Close ends only what it found, as withdrawn. */
  lemma {:induction false} EndsForACause(h: Hub, actions: seq<Action>, s: nat)
    requires Inv(h)
    ensures Found(h) <= Found(Run(h, actions))
    ensures var after := Run(h, actions);
            s in after.subs && after.subs[s].reason.Some? ==>
              || (s in h.subs && h.subs[s].reason == after.subs[s].reason)
              || Finish(s, after.subs[s].reason.value) in actions
              || (after.subs[s].reason == Some(Fault("withdrawn")) && s in Found(after))
    decreases |actions|
  {
    if actions != [] {
      StepHasACause(h, actions[0], s);
      StepKeeps(h, actions[0]);
      EndsForACause(Step(h, actions[0]), actions[1..], s);
    }
  }

  /** Subscribing and recording make any new subscription live, whatever the state of the connection. */
  lemma OpensAndLives(h: Hub, s: nat, subject: string)
    requires s !in h.subs
    ensures var after := Step(Step(h, Subscribe(s, subject)), Register(s));
            s in after.subs && after.subs[s] == Subscription(subject, Live, None, None, 0) && s in after.registry
  {
  }

  // ----- Close -----

  ghost predicate NoneOpening(h: Hub) { forall s :: s in h.subs ==> h.subs[s].stage != Opening }

  /** No subscription is begun. */
  ghost predicate NoSubscribe(actions: seq<Action>) { forall k :: 0 <= k < |actions| ==> !actions[k].Subscribe? }

  /** Nothing is live that the close in progress does not know of. */
  ghost predicate CloseCovers(h: Hub) {
    match h.closing
    case Open => false
    case Draining(snapshot, _) => forall s :: s in h.subs && s !in snapshot ==> Rank(h.subs[s].stage) >= 4
    case Closed(snapshot) => forall s :: s in h.subs && s !in snapshot ==> Rank(h.subs[s].stage) >= 4
  }

  lemma {:induction false} CoverLasts(h: Hub, actions: seq<Action>)
    requires Inv(h) && CloseCovers(h) && NoneOpening(h)
    requires NoSubscribe(actions)
    ensures CloseCovers(Run(h, actions)) && Inv(Run(h, actions))
    decreases |actions|
  {
    if actions != [] {
      StepKeeps(h, actions[0]);
      CoverStep(h, actions[0]);
      CoverLasts(Step(h, actions[0]), actions[1..]);
    }
  }

  lemma CoverStep(h: Hub, a: Action)
    requires Inv(h) && CloseCovers(h) && NoneOpening(h) && !a.Subscribe?
    ensures CloseCovers(Step(h, a)) && NoneOpening(Step(h, a))
  {
  }

  /** Once Close has returned, every subscription it found has finished, with whatever reason came first. */
  lemma CloseReleasesWhatItFound(actions: seq<Action>)
    ensures var h := Run(DIALED, actions);
            h.closing.Closed? ==> forall s :: s in h.closing.snapshot ==> s in h.subs && h.subs[s].stage == Finished
  {
    RunKeeps(DIALED, actions);
  }

  /** If no Subscribe is between the broker and the record when Close begins, and none starts later, Close leaves nothing live. */
  lemma QuietCloseReleasesAll(before: seq<Action>, later: seq<Action>)
    requires var h := Run(DIALED, before); h.closing.Open? && NoneOpening(h)
    requires NoSubscribe(later)
    ensures var after := Run(Step(Run(DIALED, before), CloseBegins), later);
            after.closing.Closed? ==> after.registry == {} && forall s :: s in after.subs ==> Rank(after.subs[s].stage) >= 4
  {
    RunKeeps(DIALED, before);
    var h := Step(Run(DIALED, before), CloseBegins);
    StepKeeps(Run(DIALED, before), CloseBegins);
    CoverLasts(h, later);
  }

  // ----- The race -----

  /** The steps by which Close finishes the subscriptions it has found, one after another. */
  function Finishing(s: nat): seq<Action> { [CloseFinishes(s), Record(s), Forget(s), CloseDone(s), ClosePasses(s)] }

  lemma RunsFive(h: Hub, a: Action, b: Action, c: Action, d: Action, e: Action)
    ensures Run(h, [a, b, c, d, e]) == Step(Step(Step(Step(Step(h, a), b), c), d), e)
  {
    var s4 := [b, c, d, e];
    var s3 := [c, d, e];
    var s2 := [d, e];
    assert [a, b, c, d, e][1..] == s4 && s4[1..] == s3 && s3[1..] == s2 && s2[1..] == [e] && [e][1..] == [];
    assert Run(h, [a, b, c, d, e]) == Run(Step(h, a), s4) == Run(Step(Step(h, a), b), s3)
        == Run(Step(Step(Step(h, a), b), c), s2) == Run(Step(Step(Step(Step(h, a), b), c), d), [e]);
  }

  lemma {:induction false} RunAppend(h: Hub, a: seq<Action>, b: seq<Action>)
    ensures Run(h, a + b) == Run(Run(h, a), b)
    decreases |a|
  {
    if a == [] {
      assert a + b == b;
    } else {
      assert (a + b)[1..] == a[1..] + b;
      RunAppend(Step(h, a[0]), a[1..], b);
    }
  }

  lemma OneFinishing(h: Hub, s: nat)
    requires Inv(h) && h.closing.Draining? && s in h.closing.remaining
    ensures var after := Run(h, Finishing(s));
            after.closing == h.closing.(remaining := h.closing.remaining - {s})
            && (forall t :: t in h.subs && t != s ==> t in after.subs && after.subs[t] == h.subs[t])
  {
    RunsFive(h, CloseFinishes(s), Record(s), Forget(s), CloseDone(s), ClosePasses(s));
    var entered := Step(h, CloseFinishes(s));
    EnteringByClose(h, s);
    EndingSteps(entered, s);
    var ended := Step(Step(Step(entered, Record(s)), Forget(s)), CloseDone(s));
    Passing(ended, s);
    assert forall t :: t in h.subs && t != s ==> t in ended.subs && ended.subs[t] == h.subs[t];
  }

  lemma EnteringByClose(h: Hub, s: nat)
    requires Inv(h) && h.closing.Draining? && s in h.closing.remaining
    ensures var entered := Step(h, CloseFinishes(s));
            && Inv(entered) && s in h.subs && entered.subs == h.subs[s := Enter(h.subs[s], WITHDRAWN)]
            && entered.closing == h.closing && Rank(entered.subs[s].stage) >= 2
  {
    StepKeeps(h, CloseFinishes(s));
  }

  lemma Passing(h: Hub, s: nat)
    requires h.closing.Draining? && s in h.subs && h.subs[s].stage == Finished
    ensures Step(h, ClosePasses(s)) == h.(closing := h.closing.(remaining := h.closing.remaining - {s}))
  {
  }

  /** Once entered, a subscription is ended by the three steps that follow, which touch nothing else. */
  lemma EndingSteps(h: Hub, s: nat)
    requires Inv(h) && s in h.subs && Rank(h.subs[s].stage) >= 2
    ensures var after := Step(Step(Step(h, Record(s)), Forget(s)), CloseDone(s));
            && after.subs == h.subs[s := h.subs[s].(stage := Finished, err := h.subs[s].reason, finishes := 1)]
            && after.registry == h.registry - {s} && after.closing == h.closing
  {
    var sub := h.subs[s];
    assert h.subs[s := sub] == h.subs && SoundSub(sub);
  }

  /** What ending does to a subscription, uninterrupted. */
  function Ended(sub: Subscription, reason: Reason): Subscription {
    if sub.stage == Live then sub.(stage := Finished, reason := Some(reason), err := Some(reason), finishes := 1) else sub
  }

  /** The objects end a subscription in one call: that is the run of its four steps with nothing in between. */
  lemma EndingIsRun(h: Hub, s: nat, reason: Reason)
    requires Inv(h) && s in h.subs && h.subs[s].stage in {Live, Finished}
    ensures var after := Run(Step(h, Finish(s, reason)), [Record(s), Forget(s), CloseDone(s)]);
            after.subs == h.subs[s := Ended(h.subs[s], reason)] && after.registry == h.registry - {s} && after.closing == h.closing
  {
    var entered := Step(h, Finish(s, reason));
    StepKeeps(h, Finish(s, reason));
    EndingSteps(entered, s);
    RunsThree(entered, Record(s), Forget(s), CloseDone(s));
    assert SoundSub(h.subs[s]);
  }

  lemma RunsThree(h: Hub, a: Action, b: Action, c: Action)
    ensures Run(h, [a, b, c]) == Step(Step(Step(h, a), b), c)
  {
    var s2 := [b, c];
    assert [a, b, c][1..] == s2 && s2[1..] == [c] && [c][1..] == [];
    assert Run(h, [a, b, c]) == Run(Step(h, a), s2) == Run(Step(Step(h, a), b), [c]);
  }

  /** A close in progress always has a way to its end that leaves every other subscription alone. */
  lemma {:induction false} CloseCanEnd(h: Hub) returns (actions: seq<Action>)
    requires Inv(h) && h.closing.Draining?
    ensures Run(h, actions).closing == Closed(h.closing.snapshot)
    ensures forall t :: t in h.subs && t !in h.closing.remaining ==>
              t in Run(h, actions).subs && Run(h, actions).subs[t] == h.subs[t]
    ensures NoSubscribe(actions)
    decreases |h.closing.remaining|
  {
    if h.closing.remaining == {} {
      actions := [CloseEnds];
      assert [CloseEnds][1..] == [];
      assert Run(h, actions) == Run(Step(h, CloseEnds), []);
    } else {
      var s :| s in h.closing.remaining;
      OneFinishing(h, s);
      RunKeeps(h, Finishing(s));
      var h' := Run(h, Finishing(s));
      var rest := CloseCanEnd(h');
      actions := Finishing(s) + rest;
      RunAppend(h, Finishing(s), rest);
      assert Run(h, actions) == Run(h', rest);
      assert NoSubscribe(Finishing(s));
    }
  }

  /**
   The condition is needed: if some Subscribe has reached the broker but not the record when Close begins, Close can
   return and that subscription then go live, with nothing left to finish it.
   */
  lemma OpeningOutlivesClose(before: seq<Action>, s: nat) returns (later: seq<Action>)
    requires var h := Run(DIALED, before); h.closing.Open? && s in h.subs && h.subs[s].stage == Opening
    ensures var after := Run(Step(Run(DIALED, before), CloseBegins), later);
            after.closing.Closed? && s in after.registry && s in after.subs && after.subs[s].stage == Live
    ensures NoSubscribe(later)
  {
    RunKeeps(DIALED, before);
    var h := Step(Run(DIALED, before), CloseBegins);
    StepKeeps(Run(DIALED, before), CloseBegins);
    var actions := CloseCanEnd(h);
    later := actions + [Register(s)];
    RunAppend(h, actions, [Register(s)]);
    var closed := Run(h, actions);
    assert [Register(s)][1..] == [];
    assert Run(closed, [Register(s)]) == Step(closed, Register(s));
  }

  /** Close leaves nothing on record, whatever happens short of new Subscribes, exactly when none was half-way as it began. */
  lemma CloseReleasesAllExactlyWhenQuiet(before: seq<Action>)
    requires Run(DIALED, before).closing.Open?
    ensures NoneOpening(Run(DIALED, before)) <==>
            forall later :: NoSubscribe(later) ==>
              var after := Run(Step(Run(DIALED, before), CloseBegins), later);
              after.closing.Closed? ==> after.registry == {}
  {
    var h := Run(DIALED, before);
    if NoneOpening(h) {
      forall later | NoSubscribe(later)
        ensures var after := Run(Step(h, CloseBegins), later); after.closing.Closed? ==> after.registry == {}
      {
        QuietCloseReleasesAll(before, later);
      }
    } else {
      var s :| s in h.subs && h.subs[s].stage == Opening;
      var later := OpeningOutlivesClose(before, s);
    }
  }
}
