/** What holds over whole runs of the assigned component client. */
module ComponentClientRuns {
  import opened Texts
  import opened ComponentControllers
  import opened ComponentClients

  // ----- The invariant of every run -----

  ghost predicate StrictlyAscending(s: seq<int>) { forall i, j :: 0 <= i < j < |s| ==> s[i] < s[j] }

  /** The installed revisions only ever grow, end in the current one, and the snapshot shown is valid. */
  ghost predicate Shows<S>(link: Link<S>, c: Client<S>) {
    && c.component.Some?
    && (c.component.value.disposed <==> c.closed)
    && link.schema.valid(c.component.value.snapshot)
    && c.applied != [] && c.applied[|c.applied| - 1] == c.revision
    && StrictlyAscending(c.applied)
  }

  ghost predicate Inv<S>(link: Link<S>, c: Client<S>) {
    && c.unsubscribes == (if c.closed then 1 else 0)
    && (c.phase.Subscribing? || c.phase.Awaiting? ==> c.component.None? && c.revision == -1)
    && (c.phase.Subscribing? ==> !c.closed)
    && (c.phase.Serving? ==> c.component.Some? && c.queued == [])
    && (c.phase.Rejected? ==> c.closed)
    && (c.aborted && !c.phase.Subscribing? ==> c.closed)
    && (c.component.Some? ==> Shows(link, c))
  }

  lemma ApplyKeeps<S>(link: Link<S>, c: Client<S>, e: Event<S>)
    requires Shows(link, c) && c.unsubscribes == (if c.closed then 1 else 0)
    ensures var r := Apply(link, c, e).client;
            Shows(link, r) && r.unsubscribes == (if r.closed then 1 else 0) && r.revision >= c.revision
            && r.aborted == c.aborted && r.queued == c.queued && (c.closed ==> r.closed)
  {
  }

  lemma {:induction false} ApplyAllKeeps<S>(link: Link<S>, c: Client<S>, es: seq<Event<S>>)
    requires Shows(link, c) && c.unsubscribes == (if c.closed then 1 else 0)
    ensures var r := ApplyAll(link, c, es).client;
            Shows(link, r) && r.unsubscribes == (if r.closed then 1 else 0) && r.revision >= c.revision
            && r.aborted == c.aborted && (c.closed ==> r.closed)
    decreases |es|
  {
    if es != [] {
      ApplyKeeps(link, c, es[0]);
      if Apply(link, c, es[0]).Done? {
        ApplyAllKeeps(link, Apply(link, c, es[0]).client, es[1..]);
      }
    }
  }

  lemma ResponseKeeps<S>(link: Link<S>, c: Client<S>, r: Response<S>)
    requires Inv(link, c) && c.phase.Awaiting?
    ensures Inv(link, OnResponse(link, c, r)) && OnResponse(link, c, r).revision >= c.revision
  {
    if ResponseFault(link, c, r).None? && Supported(link.target.identity.family, r.capabilities.value) && link.schema.valid(r.snapshot) {
      var d := c.(revision := r.revision.value, component := Some(Component(r.snapshot, false)), applied := [r.revision.value]);
      var ordered := SortByRevision(d.queued);
      ApplyAllKeeps(link, d.(queued := ordered), ordered);
    }
  }

  /** Every step keeps the invariant and never lowers the applied revision. */
  lemma StepKeeps<S>(link: Link<S>, c: Client<S>, a: Action<S>)
    requires Inv(link, c)
    ensures Inv(link, Step(link, c, a)) && Step(link, c, a).revision >= c.revision
  {
    match a
    case Deliver(e) =>
      if c.component.Some? {
        ApplyKeeps(link, c, e);
      }
    case Respond(r) =>
      if c.phase.Awaiting? {
        ResponseKeeps(link, c, r);
      }
    case _ =>
  }

  lemma {:induction false} RunKeeps<S>(link: Link<S>, c: Client<S>, actions: seq<Action<S>>)
    requires Inv(link, c)
    ensures Inv(link, Run(link, c, actions)) && Run(link, c, actions).revision >= c.revision
    decreases |actions|
  {
    if actions != [] {
      StepKeeps(link, c, actions[0]);
      RunKeeps(link, Step(link, c, actions[0]), actions[1..]);
    }
  }

  // ----- Closing -----

  /** Once closed, nothing changes the client but the fate of its promise; in particular no controller appears. */
  lemma {:induction false} ClosedIsFinal<S>(link: Link<S>, c: Client<S>, actions: seq<Action<S>>)
    requires Inv(link, c) && c.closed
    ensures var after := Run(link, c, actions);
            after.closed && after.unsubscribes == 1 && after.component == c.component
            && after.revision == c.revision && after.applied == c.applied && after.queued == c.queued
    decreases |actions|
  {
    if actions != [] {
      StepKeeps(link, c, actions[0]);
      ClosedIsFinal(link, Step(link, c, actions[0]), actions[1..]);
    }
  }

  /** A withdrawal waiting in the queue beats every queued snapshot: none is shown, and the client is refused. */
  lemma QueuedWithdrawalWins<S>(link: Link<S>, c: Client<S>, r: Response<S>)
    requires Inv(link, c) && c.phase.Awaiting? && AnyWithdrawn(c.queued)
    ensures var after := OnResponse(link, c, r);
            after.phase.Rejected? && after.closed
            && (after.component.Some? ==> after.component.value == Component(r.snapshot, true) && after.applied == [r.revision.value])
  {
  }

  /** Meant for another identity, in any of its fields, or for another lease. */
  predicate Foreign<S>(link: Link<S>, e: Event<S>) {
    e.identity != Some(link.target.identity) || e.lease != Some(link.target.lease)
  }

  /** Comparing the six fields one by one is comparing identities. */
  lemma SameIdentityIsEquality(a: Option<Identity>, b: Identity)
    ensures SameIdentity(a, b) <==> a == Some(b)
  {
  }

  /** A run without the foreign events. */
  function OwnActions<S>(link: Link<S>, actions: seq<Action<S>>): seq<Action<S>> {
    if actions == [] then []
    else (if actions[0].Deliver? && Foreign(link, actions[0].event) then [] else [actions[0]]) + OwnActions(link, actions[1..])
  }

  /** Foreign events are invisible: dropping them from a run leaves its end state as it was. */
  lemma {:induction false} ForeignEventsInvisible<S>(link: Link<S>, c: Client<S>, actions: seq<Action<S>>)
    ensures Run(link, c, OwnActions(link, actions)) == Run(link, c, actions)
    decreases |actions|
  {
    if actions != [] {
      var rest := OwnActions(link, actions[1..]);
      if actions[0].Deliver? {
        SameIdentityIsEquality(actions[0].event.identity, link.target.identity);
      }
      ForeignEventsInvisible(link, Step(link, c, actions[0]), actions[1..]);
      assert ([actions[0]] + rest)[1..] == rest && [] + rest == rest;
    }
  }

  // ----- Confluence -----

  /** A well-behaved event: for this assignment, not a withdrawal, and showing what the host showed at its revision. */
  ghost predicate Good<S>(link: Link<S>, history: int -> string, e: Event<S>) {
    && Matches(link, e) && !e.withdrawn && ValidRevision(e.revision)
    && link.schema.valid(e.snapshot) && link.schema.json(e.snapshot) == history(e.revision.value)
  }

  ghost predicate AllGood<S>(link: Link<S>, history: int -> string, es: seq<Event<S>>) {
    forall i :: 0 <= i < |es| ==> Good(link, history, es[i])
  }

  ghost predicate GoodResponse<S>(link: Link<S>, history: int -> string, r: Response<S>) {
    && SameIdentity(r.identity, link.target.identity) && r.capabilities.Some?
    && Supported(link.target.identity.family, r.capabilities.value)
    && ValidRevision(r.revision) && link.schema.valid(r.snapshot)
    && link.schema.json(r.snapshot) == history(r.revision.value)
  }

  function Greatest<S>(n: int, es: seq<Event<S>>): int
    decreases |es|
  {
    if es == [] then n else Greatest(if RevisionOf(es[0]) > n then RevisionOf(es[0]) else n, es[1..])
  }

  /** The greatest revision is one of those seen, and no smaller than any. */
  lemma {:induction false} GreatestIsMaximum<S>(n: int, es: seq<Event<S>>)
    ensures Greatest(n, es) >= n && forall e :: e in es ==> Greatest(n, es) >= RevisionOf(e)
    ensures Greatest(n, es) == n || exists e :: e in es && RevisionOf(e) == Greatest(n, es)
    decreases |es|
  {
    if es != [] {
      var m := if RevisionOf(es[0]) > n then RevisionOf(es[0]) else n;
      GreatestIsMaximum(m, es[1..]);
      assert es == [es[0]] + es[1..];
      assert es[0] in es && forall e :: e in es[1..] ==> e in es;
      assert forall e :: e in es ==> e == es[0] || e in es[1..];
    }
  }

  lemma GreatestOfSame<S>(n: int, a: seq<Event<S>>, b: seq<Event<S>>)
    requires forall e :: e in a <==> e in b
    ensures Greatest(n, a) == Greatest(n, b)
  {
    GreatestIsMaximum(n, a);
    GreatestIsMaximum(n, b);
  }

  lemma {:induction false} GreatestAppend<S>(n: int, a: seq<Event<S>>, b: seq<Event<S>>)
    ensures Greatest(n, a + b) == Greatest(Greatest(n, a), b)
    decreases |a|
  {
    if a == [] {
      assert a + b == b;
    } else {
      assert (a + b)[1..] == a[1..] + b;
      GreatestAppend(if RevisionOf(a[0]) > n then RevisionOf(a[0]) else n, a[1..], b);
    }
  }

  /** The client shows the host's snapshot of its current revision. */
  ghost predicate InStep<S>(link: Link<S>, history: int -> string, c: Client<S>) {
    && !c.closed && c.component.Some? && !c.component.value.disposed
    && link.schema.json(c.component.value.snapshot) == history(c.revision)
  }

  lemma {:induction false} ApplyAllFollows<S>(link: Link<S>, history: int -> string, c: Client<S>, es: seq<Event<S>>)
    requires InStep(link, history, c) && AllGood(link, history, es)
    ensures ApplyAll(link, c, es).Done?
    ensures var r := ApplyAll(link, c, es).client;
            InStep(link, history, r) && r.revision == Greatest(c.revision, es) && r.phase == c.phase && r.aborted == c.aborted
    decreases |es|
  {
    if es != [] {
      assert Good(link, history, es[0]);
      ApplyAllFollows(link, history, Apply(link, c, es[0]).client, es[1..]);
    }
  }

  function Deliveries<S>(es: seq<Event<S>>): seq<Action<S>> {
    if es == [] then [] else [Deliver(es[0])] + Deliveries(es[1..])
  }

  lemma {:induction false} RunAppend<S>(link: Link<S>, c: Client<S>, a: seq<Action<S>>, b: seq<Action<S>>)
    ensures Run(link, c, a + b) == Run(link, Run(link, c, a), b)
    decreases |a|
  {
    if a == [] {
      assert a + b == b;
    } else {
      assert (a + b)[1..] == a[1..] + b;
      RunAppend(link, Step(link, c, a[0]), a[1..], b);
    }
  }

  lemma {:induction false} DeliveriesQueue<S>(link: Link<S>, history: int -> string, c: Client<S>, es: seq<Event<S>>)
    requires !c.closed && c.component.None? && AllGood(link, history, es)
    ensures Run(link, c, Deliveries(es)) == c.(queued := c.queued + es)
    decreases |es|
  {
    if es == [] {
      assert c.queued + es == c.queued;
    } else {
      assert Good(link, history, es[0]);
      var next := Step(link, c, Deliver(es[0]));
      DeliveriesQueue(link, history, next, es[1..]);
      assert c.queued + [es[0]] + es[1..] == c.queued + es;
    }
  }

  lemma {:induction false} DeliveriesFollow<S>(link: Link<S>, history: int -> string, c: Client<S>, es: seq<Event<S>>)
    requires InStep(link, history, c) && AllGood(link, history, es)
    ensures var r := Run(link, c, Deliveries(es));
            InStep(link, history, r) && r.revision == Greatest(c.revision, es) && r.phase == c.phase
    decreases |es|
  {
    if es != [] {
      assert Good(link, history, es[0]);
      DeliveriesFollow(link, history, Step(link, c, Deliver(es[0])), es[1..]);
    }
  }

  /** A session: some events arrive while subscribing, some while the snapshot is awaited, the rest once live. */
  function Session<S>(early: seq<Event<S>>, waiting: seq<Event<S>>, r: Response<S>, live: seq<Event<S>>): seq<Action<S>> {
    Deliveries(early) + ([SubscribeReturns] + (Deliveries(waiting) + ([Respond(r)] + Deliveries(live))))
  }

  lemma SortKeepsGood<S>(link: Link<S>, history: int -> string, es: seq<Event<S>>)
    requires AllGood(link, history, es)
    ensures AllGood(link, history, SortByRevision(es)) && AllRevised(es) && !AnyWithdrawn(es)
    ensures forall e :: e in SortByRevision(es) <==> e in es
  {
    SortSorts(es);
    var sorted := SortByRevision(es);
    forall e ensures e in sorted <==> e in es {
      assert e in multiset(sorted) <==> e in multiset(es);
    }
    forall i | 0 <= i < |sorted| ensures Good(link, history, sorted[i]) {
      var e := sorted[i];
      assert e in multiset(sorted) && e in multiset(es);
    }
    forall i | 0 <= i < |es| ensures ValidRevision(es[i].revision) && !es[i].withdrawn {
      assert Good(link, history, es[i]);
    }
  }

  /** The client a good response is merged into, with its queue put in order. */
  function Seeded<S>(c: Client<S>, r: Response<S>): Client<S>
    requires r.revision.Some?
  {
    c.(revision := r.revision.value, component := Some(Component(r.snapshot, false)), applied := [r.revision.value],
       queued := SortByRevision(c.queued))
  }

  lemma ResponseMerges<S>(link: Link<S>, history: int -> string, c: Client<S>, r: Response<S>)
    requires !c.closed && !c.aborted
    requires AllGood(link, history, c.queued) && GoodResponse(link, history, r)
    ensures InStep(link, history, Seeded(c, r)) && AllGood(link, history, SortByRevision(c.queued))
    ensures OnResponse(link, c, r)
         == ApplyAll(link, Seeded(c, r), SortByRevision(c.queued)).client.(queued := [], phase := Serving)
  {
    SortKeepsGood(link, history, c.queued);
    ApplyAllFollows(link, history, Seeded(c, r), SortByRevision(c.queued));
  }

  lemma ResponseFollows<S>(link: Link<S>, history: int -> string, c: Client<S>, r: Response<S>)
    requires !c.closed && !c.aborted
    requires AllGood(link, history, c.queued) && GoodResponse(link, history, r)
    ensures var after := OnResponse(link, c, r);
            InStep(link, history, after) && after.phase.Serving? && after.revision == Greatest(r.revision.value, c.queued)
  {
    ResponseMerges(link, history, c, r);
    SortKeepsGood(link, history, c.queued);
    ApplyAllFollows(link, history, Seeded(c, r), SortByRevision(c.queued));
    GreatestOfSame(r.revision.value, SortByRevision(c.queued), c.queued);
  }

  /** Every session of good events ends live, showing the host's snapshot of the greatest revision seen. */
  lemma SessionConverges<S>(link: Link<S>, history: int -> string,
                            early: seq<Event<S>>, waiting: seq<Event<S>>, r: Response<S>, live: seq<Event<S>>)
    requires AllGood(link, history, early + waiting + live) && GoodResponse(link, history, r)
    ensures var after := Run(link, Fresh(), Session(early, waiting, r, live));
            after.phase.Serving? && InStep(link, history, after)
            && after.revision == Greatest(r.revision.value, early + waiting + live)
  {
    var all := early + waiting + live;
    assert AllGood(link, history, early) && AllGood(link, history, waiting) && AllGood(link, history, live) by {
      assert forall i :: 0 <= i < |early| ==> early[i] == all[i];
      assert forall i :: 0 <= i < |waiting| ==> waiting[i] == all[|early| + i];
      assert forall i :: 0 <= i < |live| ==> live[i] == all[|early| + |waiting| + i];
    }
    var tail := [Respond(r)] + Deliveries(live);
    RunAppend(link, Fresh(), Deliveries(early), [SubscribeReturns] + (Deliveries(waiting) + tail));
    DeliveriesQueue(link, history, Fresh(), early);
    assert [] + early == early;
    var c1 := Fresh<S>().(queued := early, phase := Awaiting);
    assert ([SubscribeReturns] + (Deliveries(waiting) + tail))[1..] == Deliveries(waiting) + tail;
    RunAppend(link, c1, Deliveries(waiting), tail);
    DeliveriesQueue(link, history, c1, waiting);
    var c2 := c1.(queued := early + waiting);
    assert AllGood(link, history, early + waiting);
    ResponseFollows(link, history, c2, r);
    assert tail[1..] == Deliveries(live);
    DeliveriesFollow(link, history, OnResponse(link, c2, r), live);
    GreatestAppend(r.revision.value, early + waiting, live);
  }

  /**
   Confluence: two sessions that saw the same events, in any orders, any number of times, and split in any way
   around the same response, end at the same revision showing the same snapshot.
   */
  lemma SessionsAgree<S>(link: Link<S>, history: int -> string, r: Response<S>,
                         early: seq<Event<S>>, waiting: seq<Event<S>>, live: seq<Event<S>>,
                         early': seq<Event<S>>, waiting': seq<Event<S>>, live': seq<Event<S>>)
    requires GoodResponse(link, history, r)
    requires AllGood(link, history, early + waiting + live) && AllGood(link, history, early' + waiting' + live')
    requires forall e :: e in early + waiting + live <==> e in early' + waiting' + live'
    ensures var a := Run(link, Fresh(), Session(early, waiting, r, live));
            var b := Run(link, Fresh(), Session(early', waiting', r, live'));
            a.component.Some? && b.component.Some? && a.revision == b.revision
            && link.schema.json(a.component.value.snapshot) == link.schema.json(b.component.value.snapshot)
  {
    SessionConverges(link, history, early, waiting, r, live);
    SessionConverges(link, history, early', waiting', r, live');
    GreatestOfSame(r.revision.value, early + waiting + live, early' + waiting' + live');
  }

  // ----- What sorting the queue is for -----

  ghost predicate HasRevision<S>(es: seq<Event<S>>, x: int) { exists e :: e in es && RevisionOf(e) == x }

  lemma SameEventsSameRevisions<S>(a: seq<Event<S>>, b: seq<Event<S>>)
    requires forall e :: e in a <==> e in b
    ensures forall x :: HasRevision(a, x) <==> HasRevision(b, x)
  {
    forall x ensures HasRevision(a, x) <==> HasRevision(b, x) {
      if HasRevision(a, x) {
        var e :| e in a && RevisionOf(e) == x;
        assert e in b;
      }
      if HasRevision(b, x) {
        var e :| e in b && RevisionOf(e) == x;
        assert e in a;
      }
    }
  }

  lemma {:induction false} AscendingApplies<S>(link: Link<S>, history: int -> string, c: Client<S>, es: seq<Event<S>>)
    requires InStep(link, history, c) && AllGood(link, history, es) && Ascending(es)
    ensures ApplyAll(link, c, es).Done?
    ensures forall x :: x in ApplyAll(link, c, es).client.applied
                        <==> x in c.applied || (x > c.revision && HasRevision(es, x))
    decreases |es|
  {
    if es != [] {
      var next := Apply(link, c, es[0]).client;
      assert Good(link, history, es[0]);
      AscendingApplies(link, history, next, es[1..]);
      assert forall e :: e in es <==> e == es[0] || e in es[1..];
      forall e | e in es[1..] ensures RevisionOf(e) >= RevisionOf(es[0]) {
        var k :| 0 <= k < |es[1..]| && es[1..][k] == e;
        assert es[k + 1] == e;
      }
    }
  }

  /** No queued revision newer than the response is skipped: each is installed, in ascending order. */
  lemma QueueLosesNoRevision<S>(link: Link<S>, history: int -> string, c: Client<S>, r: Response<S>)
    requires Inv(link, c) && c.phase.Awaiting? && !c.closed
    requires AllGood(link, history, c.queued) && GoodResponse(link, history, r)
    ensures var after := OnResponse(link, c, r);
            StrictlyAscending(after.applied)
            && forall x :: x in after.applied
                 <==> x == r.revision.value || (x > r.revision.value && HasRevision(c.queued, x))
  {
    ResponseKeeps(link, c, r);
    ResponseMerges(link, history, c, r);
    SortSorts(c.queued);
    SortKeepsGood(link, history, c.queued);
    SameEventsSameRevisions(SortByRevision(c.queued), c.queued);
    AscendingApplies(link, history, Seeded(c, r), SortByRevision(c.queued));
  }
}
