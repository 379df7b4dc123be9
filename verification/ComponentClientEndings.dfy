/** What ends an assigned component client, told from the messages themselves, and with which error. */
module ComponentClientEndings {
  import opened Texts
  import opened ComponentControllers
  import opened ComponentClients
  import opened ComponentClientRuns

  /** The first event of the revision has a snapshot the family does not allow. */
  predicate SpoiledAt<S>(link: Link<S>, es: seq<Event<S>>, x: int) {
    OfRevision(es, x) != [] && !link.schema.valid(OfRevision(es, x)[0].snapshot)
  }

  /** Some revision newer than n is spoiled. */
  ghost predicate Spoiled<S>(link: Link<S>, n: int, es: seq<Event<S>>) { exists x :: x > n && SpoiledAt(link, es, x) }

  /** A revision the host may send: an integer its number type holds exactly. */
  predicate IsRevision(r: Option<int>) { r.Some? && 0 <= r.value <= 9007199254740991 }

  /** The methods of each family. */
  predicate Offers(family: string, name: string) {
    || (family == "workspace" && name == "discover")
    || (family == "session-list" && name in ["select", "reorder", "group", "launch"])
    || (family == "session-tab" && name in ["select", "rename", "pin", "close", "sleep", "wake"])
    || (family == "terminal" && name in ["focus", "reconnect", "setViewMode"])
    || (family == "stage" && name in ["move", "resize", "focus", "restore"])
    || (family == "tasks" && name in ["refresh", "start"])
    || (family == "file-tree" && name in ["select", "expand", "filter", "refresh", "createFile", "createFolder", "rename", "remove"])
    || (family == "project-tools" && name in ["selectView", "refresh", "setExpanded"])
  }

  predicate KnownFamily(family: string) {
    family in ["workspace", "session-list", "session-tab", "terminal", "stage", "tasks", "file-tree", "project-tools"]
  }

  lemma FamiliesAreKnown(family: string)
    ensures family in METHODS_BY_FAMILY <==> KnownFamily(family)
  {
  }

  lemma MethodsAreOffered(family: string, name: string)
    requires family in METHODS_BY_FAMILY
    ensures name in METHODS_BY_FAMILY[family] <==> Offers(family, name)
  {
  }

  lemma SupportedAreOffered(family: string, capabilities: seq<string>)
    ensures Supported(family, capabilities) <==>
            KnownFamily(family) && forall i :: 0 <= i < |capabilities| ==> Offers(family, capabilities[i])
  {
    FamiliesAreKnown(family);
    if family in METHODS_BY_FAMILY {
      forall name
        ensures name in METHODS_BY_FAMILY[family] <==> Offers(family, name)
      {
        MethodsAreOffered(family, name);
      }
    }
  }

  /** What makes a response end the client, told from the response and the queue. */
  ghost predicate ResponseEnds<S>(link: Link<S>, c: Client<S>, r: Response<S>) {
    || c.closed || c.aborted
    || r.identity != Some(link.target.identity) || r.capabilities.None?
    || !IsRevision(r.revision)
    || !KnownFamily(link.target.identity.family)
    || (exists i :: 0 <= i < |r.capabilities.value| && !Offers(link.target.identity.family, r.capabilities.value[i]))
    || !link.schema.valid(r.snapshot)
    || (exists i :: 0 <= i < |c.queued| && c.queued[i].withdrawn)
    || (exists i :: 0 <= i < |c.queued| && !IsRevision(c.queued[i].revision))
    || Spoiled(link, r.revision.value, c.queued)
  }

  /** What ends a client's subscription. */
  ghost predicate Ends<S>(link: Link<S>, c: Client<S>, a: Action<S>) {
    match a
    case Deliver(e) =>
      && c.phase.Serving? && !c.closed && !Foreign(link, e)
      && (e.withdrawn || !IsRevision(e.revision) || (e.revision.value > c.revision && !link.schema.valid(e.snapshot)))
    case Abort => !c.phase.Subscribing?
    case SubscribeReturns => c.phase.Subscribing? && c.aborted
    case Respond(r) => c.phase.Awaiting? && ResponseEnds(link, c, r)
    case RequestFails => c.phase.Awaiting?
    case HandleDispose => c.phase.Serving?
  }

  /** Applying an ascending list throws exactly when it is spoiled. */
  lemma {:induction false} ApplyAllThrows<S>(link: Link<S>, c: Client<S>, es: seq<Event<S>>)
    requires c.component.Some? && !c.component.value.disposed && !c.closed
    requires Ascending(es) && AllRevised(es) && !AnyWithdrawn(es)
    ensures ApplyAll(link, c, es).Threw? <==> Spoiled(link, c.revision, es)
    ensures ApplyAll(link, c, es).Done? ==> !ApplyAll(link, c, es).client.closed
    decreases |es|
  {
    if es != [] {
      var e, tail := es[0], es[1..];
      assert !e.withdrawn && ValidRevision(e.revision);
      assert AllRevised(tail) && !AnyWithdrawn(tail) && Ascending(tail);
      SpoiledHead(link, c.revision, es);
      if Apply(link, c, e).Done? {
        ApplyAllThrows(link, Apply(link, c, e).client, tail);
      }
    }
  }

  lemma SpoiledHead<S>(link: Link<S>, n: int, es: seq<Event<S>>)
    requires es != [] && Ascending(es)
    ensures var x := RevisionOf(es[0]);
            if x <= n then Spoiled(link, n, es) <==> Spoiled(link, n, es[1..])
            else if link.schema.valid(es[0].snapshot) then Spoiled(link, n, es) <==> Spoiled(link, x, es[1..])
            else Spoiled(link, n, es)
  {
    var x := RevisionOf(es[0]);
    assert OfRevision(es, x) == [es[0]] + OfRevision(es[1..], x);
    forall y | y != x
      ensures SpoiledAt(link, es, y) <==> SpoiledAt(link, es[1..], y)
    {
      assert OfRevision(es, y) == [] + OfRevision(es[1..], y) == OfRevision(es[1..], y);
    }
    forall y | y < x
      ensures OfRevision(es[1..], y) == []
    {
      NoneBelow(es[1..], y);
    }
    if x > n && !link.schema.valid(es[0].snapshot) {
      assert SpoiledAt(link, es, x);
    }
  }

  lemma SpoiledSorted<S>(link: Link<S>, n: int, es: seq<Event<S>>)
    ensures Spoiled(link, n, SortByRevision(es)) <==> Spoiled(link, n, es)
  {
    forall x
      ensures SpoiledAt(link, SortByRevision(es), x) <==> SpoiledAt(link, es, x)
    {
      SortIsStable(es, x);
    }
  }

  lemma SortedAlike<S>(es: seq<Event<S>>)
    requires AllRevised(es) && !AnyWithdrawn(es)
    ensures AllRevised(SortByRevision(es)) && !AnyWithdrawn(SortByRevision(es)) && Ascending(SortByRevision(es))
  {
    var sorted := SortByRevision(es);
    SortSorts(es);
    forall i | 0 <= i < |sorted|
      ensures !sorted[i].withdrawn && ValidRevision(sorted[i].revision)
    {
      assert sorted[i] in multiset(sorted);
      assert sorted[i] in es;
    }
  }

  lemma MergeEnds<S>(link: Link<S>, c: Client<S>)
    requires c.component.Some? && !c.component.value.disposed && !c.closed && !c.phase.Rejected?
    ensures Merge(link, c).phase.Rejected? <==> AnyWithdrawn(c.queued) || !AllRevised(c.queued) || Spoiled(link, c.revision, c.queued)
  {
    if !AnyWithdrawn(c.queued) && AllRevised(c.queued) {
      var ordered := SortByRevision(c.queued);
      SortedAlike(c.queued);
      SpoiledSorted(link, c.revision, c.queued);
      ApplyAllThrows(link, c.(queued := ordered), ordered);
    }
  }

  /** A response ends the client exactly when the response or the queue gives cause. */
  lemma ResponseEndsExactly<S>(link: Link<S>, c: Client<S>, r: Response<S>)
    requires Inv(link, c) && c.phase.Awaiting?
    ensures OnResponse(link, c, r).phase.Rejected? <==> ResponseEnds(link, c, r)
  {
    SameIdentityIsEquality(r.identity, link.target.identity);
    if r.capabilities.Some? {
      SupportedAreOffered(link.target.identity.family, r.capabilities.value);
    }
    if ResponseFault(link, c, r).None? && Supported(link.target.identity.family, r.capabilities.value) && link.schema.valid(r.snapshot) {
      var shown := Some(Component(r.snapshot, false));
      MergeEnds(link, c.(revision := r.revision.value, component := shown, applied := [r.revision.value]));
    }
  }

  /**
   On every run from the start, the subscription is given up by exactly the ending steps, and exactly once however
   many of them follow: failure, withdrawal, abort and disposal alike.
   */
  lemma UnsubscribesOnce<S>(link: Link<S>, before: seq<Action<S>>, a: Action<S>, later: seq<Action<S>>)
    ensures var c := Run(link, Fresh(), before);
            var after := Step(link, c, a);
            after.closed <==> c.closed || Ends(link, c, a)
    ensures var after := Step(link, Run(link, Fresh(), before), a);
            Run(link, after, later).unsubscribes <= 1 && (after.closed ==> Run(link, after, later).unsubscribes == 1)
  {
    var c := Run(link, Fresh(), before);
    RunKeeps(link, Fresh(), before);
    StepKeeps(link, c, a);
    RunKeeps(link, Step(link, c, a), later);
    if Step(link, c, a).closed {
      ClosedIsFinal(link, Step(link, c, a), later);
    }
    if a.Deliver? {
      SameIdentityIsEquality(a.event.identity, link.target.identity);
      if c.component.Some? {
        ApplyKeeps(link, c, a.event);
      }
    }
    if a.Respond? && c.phase.Awaiting? {
      ResponseKeeps(link, c, a.response);
      AnsweredServes(link, c, a.response);
      ResponseEndsExactly(link, c, a.response);
    }
  }

  lemma AnsweredServes<S>(link: Link<S>, c: Client<S>, r: Response<S>)
    requires Inv(link, c) && c.phase.Awaiting?
    ensures OnResponse(link, c, r).phase.Serving? || OnResponse(link, c, r).phase.Rejected?
    ensures OnResponse(link, c, r).phase.Serving? ==> !OnResponse(link, c, r).closed
  {
  }

  /** A client knows that its host has been aborted exactly when it has. */
  lemma {:induction false} AbortIsRemembered<S>(link: Link<S>, c: Client<S>, actions: seq<Action<S>>)
    ensures Run(link, c, actions).aborted <==> c.aborted || exists i :: 0 <= i < |actions| && actions[i].Abort?
    decreases |actions|
  {
    if actions != [] {
      var rest := actions[1..];
      AbortIsStepped(link, c, actions[0]);
      AbortIsRemembered(link, Step(link, c, actions[0]), rest);
      assert actions == [actions[0]] + rest;
      assert (exists i :: 0 <= i < |actions| && actions[i].Abort?) <==>
             actions[0].Abort? || exists i :: 0 <= i < |rest| && rest[i].Abort? by {
        assert forall i :: 0 <= i < |rest| ==> rest[i] == actions[i + 1];
        if i :| 0 <= i < |actions| && actions[i].Abort? {
          assert i == 0 || rest[i - 1].Abort?;
        }
      }
    }
  }

  lemma AbortIsStepped<S>(link: Link<S>, c: Client<S>, a: Action<S>)
    ensures Step(link, c, a).aborted <==> c.aborted || a.Abort?
  {
    if a.Respond? && c.phase.Awaiting? && ResponseFault(link, c, a.response).None? {
      var shown := Some(Component(a.response.snapshot, false));
      var d := c.(revision := a.response.revision.value, component := shown, applied := [a.response.revision.value]);
      AbortIsMerged(link, d.(queued := SortByRevision(d.queued)), SortByRevision(d.queued));
    }
  }

  lemma {:induction false} AbortIsMerged<S>(link: Link<S>, c: Client<S>, es: seq<Event<S>>)
    requires c.component.Some?
    ensures ApplyAll(link, c, es).client.aborted == c.aborted
    decreases |es|
  {
    if es != [] && Apply(link, c, es[0]).Done? {
      AbortIsMerged(link, Apply(link, c, es[0]).client, es[1..]);
    }
  }

  // ----- The errors -----

  /**
   The error a response ends with: the first of its causes, in the order of the checks. A queue ends it with the error
   of the queue only once the response itself has passed.
   */
  lemma ResponseErrors<S>(link: Link<S>, c: Client<S>, r: Response<S>)
    requires Inv(link, c) && c.phase.Awaiting?
    ensures var after := OnResponse(link, c, r).phase;
            var family := link.target.identity.family;
            if c.closed || c.aborted then after == Rejected(HostDisposed)
            else if r.identity != Some(link.target.identity) || r.capabilities.None? then after == Rejected(IdentityMismatch)
            else if !IsRevision(r.revision) then after == Rejected(InvalidRevision)
            else if !KnownFamily(family) || exists i :: 0 <= i < |r.capabilities.value| && !Offers(family, r.capabilities.value[i])
            then after == Rejected(UnsupportedCapability)
            else if !link.schema.valid(r.snapshot) then after == Rejected(Controller(InvalidSnapshot))
            else if exists i :: 0 <= i < |c.queued| && c.queued[i].withdrawn then after == Rejected(Withdrawn)
            else if exists i :: 0 <= i < |c.queued| && !IsRevision(c.queued[i].revision) then after == Rejected(InvalidRevision)
            else if Spoiled(link, r.revision.value, c.queued) then after == Rejected(Controller(InvalidSnapshot))
            else after.Serving?
  {
    SameIdentityIsEquality(r.identity, link.target.identity);
    if ResponseFault(link, c, r).None? {
      SupportedAreOffered(link.target.identity.family, r.capabilities.value);
      if Supported(link.target.identity.family, r.capabilities.value) && link.schema.valid(r.snapshot) {
        var shown := Some(Component(r.snapshot, false));
        MergeErrors(link, c.(revision := r.revision.value, component := shown, applied := [r.revision.value]));
      }
    }
  }

  lemma MergeErrors<S>(link: Link<S>, c: Client<S>)
    requires c.component.Some? && !c.component.value.disposed && !c.closed && !c.phase.Rejected?
    ensures var after := Merge(link, c).phase;
            if AnyWithdrawn(c.queued) then after == Rejected(Withdrawn)
            else if !AllRevised(c.queued) then after == Rejected(InvalidRevision)
            else if Spoiled(link, c.revision, c.queued) then after == Rejected(Controller(InvalidSnapshot))
            else after.Serving?
  {
    if !AnyWithdrawn(c.queued) && AllRevised(c.queued) {
      var ordered := SortByRevision(c.queued);
      SortedAlike(c.queued);
      SpoiledSorted(link, c.revision, c.queued);
      ApplyAllThrows(link, c.(queued := ordered), ordered);
      ApplyAllError(link, c.(queued := ordered), ordered);
    }
  }

  lemma {:induction false} ApplyAllError<S>(link: Link<S>, c: Client<S>, es: seq<Event<S>>)
    requires c.component.Some? && !c.component.value.disposed && AllRevised(es) && !AnyWithdrawn(es)
    ensures ApplyAll(link, c, es).Threw? ==> ApplyAll(link, c, es).error == Controller(InvalidSnapshot)
    decreases |es|
  {
    if es != [] {
      assert !es[0].withdrawn && ValidRevision(es[0].revision);
      assert AllRevised(es[1..]) && !AnyWithdrawn(es[1..]);
      if Apply(link, c, es[0]).Done? {
        ApplyAllError(link, Apply(link, c, es[0]).client, es[1..]);
      }
    }
  }

  /** The other errors: an abort while subscribing, and a request that fails. */
  lemma OtherErrors<S>(link: Link<S>, c: Client<S>)
    ensures c.phase.Subscribing? ==>
              Step(link, c, SubscribeReturns).phase == (if c.aborted then Rejected(HostDisposed) else Awaiting)
    ensures c.phase.Awaiting? ==> Step(link, c, RequestFails).phase == Rejected(RequestFailed)
  {
  }
}
