/** The assigned component client: subscribe, queue, read a snapshot, merge by revision, then go live. */
module ComponentClients {
  import opened Texts
  import opened ComponentControllers

  /** The largest integer the host's number type holds exactly. */
  const MAX_SAFE := 9007199254740991

  datatype Identity = Identity(
    id: string,
    family: string,
    ownerId: string,
    generation: string,
    projectId: Option<string>,
    sessionId: Option<string>)

  datatype Assignment = Assignment(identity: Identity, lease: string)

  /** A change event as it arrives; a revision that is not an integer is None. */
  datatype Event<S> = Event(
    identity: Option<Identity>,
    lease: Option<string>,
    withdrawn: bool,
    revision: Option<int>,
    snapshot: S)

  datatype Response<S> = Response(
    identity: Option<Identity>,
    capabilities: Option<seq<string>>,
    revision: Option<int>,
    snapshot: S)

  datatype ClientError =
    | InvalidIdentity
    | AssignmentRequired
    | HostDisposed
    | IdentityMismatch
    | InvalidRevision
    | UnsupportedCapability
    | Withdrawn
    | RequestFailed
    | Controller(fault: ControllerError)

  const METHODS_BY_FAMILY: map<string, set<string>> := map[
    "workspace" := {"discover"},
    "session-list" := {"select", "reorder", "group", "launch"},
    "session-tab" := {"select", "rename", "pin", "close", "sleep", "wake"},
    "terminal" := {"focus", "reconnect", "setViewMode"},
    "stage" := {"move", "resize", "focus", "restore"},
    "tasks" := {"refresh", "start"},
    "file-tree" := {"select", "expand", "filter", "refresh", "createFile", "createFolder", "rename", "remove"},
    "project-tools" := {"selectView", "refresh", "setExpanded"}]

  predicate ValidIdentity(identity: Identity) {
    identity.family in METHODS_BY_FAMILY && identity.id != "" && identity.ownerId != "" && identity.generation != ""
  }

  function AssignmentFault(assignment: Assignment, hostAborted: bool): Option<ClientError> {
    if !ValidIdentity(assignment.identity) then Some(InvalidIdentity)
    else if assignment.lease == "" then Some(AssignmentRequired)
    else if hostAborted then Some(HostDisposed)
    else None
  }

  predicate SameIdentity(a: Option<Identity>, b: Identity) {
    && a.Some?
    && a.value.id == b.id && a.value.family == b.family
    && a.value.ownerId == b.ownerId && a.value.generation == b.generation
    && a.value.projectId == b.projectId && a.value.sessionId == b.sessionId
  }

  predicate ValidRevision(r: Option<int>) { r.Some? && 0 <= r.value <= MAX_SAFE }

  // ----- The replication state and its steps -----

  /** Subscribing lasts while the host's subscribe call runs; Awaiting while the snapshot request is out. */
  datatype Phase = Subscribing | Awaiting | Serving | Rejected(error: ClientError)

  /** The parts of the controller that replication depends on. */
  datatype Component<S> = Component(snapshot: S, disposed: bool)

  datatype Client<S> = Client(
    phase: Phase,
    aborted: bool,
    closed: bool,
    unsubscribes: nat,
    queued: seq<Event<S>>,
    revision: int,
    component: Option<Component<S>>,
    applied: seq<int>)

  /** What a client is connected under: the host-issued assignment and the family's snapshot schema. */
  datatype Link<!S> = Link(target: Assignment, schema: Schema<S>)

  function Fresh<S>(): Client<S> { Client(Subscribing, false, false, 0, [], -1, None, []) }

  predicate Matches<S>(link: Link<S>, e: Event<S>) {
    SameIdentity(e.identity, link.target.identity) && e.lease == Some(link.target.lease)
  }

  function Disposed<S>(c: Client<S>): Client<S> {
    if c.closed then c
    else c.(closed := true, unsubscribes := c.unsubscribes + 1,
            component := if c.component.None? then None else Some(c.component.value.(disposed := true)))
  }

  function Failed<S>(c: Client<S>, error: ClientError): Client<S> { Disposed(c).(phase := Rejected(error)) }

  datatype Outcome<S> = Done(client: Client<S>) | Threw(client: Client<S>, error: ClientError)

  function Install<S>(link: Link<S>, component: Component<S>, snapshot: S): Component<S> {
    if link.schema.json(snapshot) == link.schema.json(component.snapshot) then component
    else component.(snapshot := snapshot)
  }

  function Apply<S>(link: Link<S>, c: Client<S>, e: Event<S>): Outcome<S>
    requires c.component.Some?
  {
    if e.withdrawn then Done(Disposed(c))
    else if !ValidRevision(e.revision) then Threw(Disposed(c), InvalidRevision)
    else if e.revision.value <= c.revision then Done(c)
    else if c.component.value.disposed then Threw(c, Controller(ControllerError.Disposed))
    else if !link.schema.valid(e.snapshot) then Threw(c, Controller(InvalidSnapshot))
    else Done(c.(component := Some(Install(link, c.component.value, e.snapshot)),
                 revision := e.revision.value, applied := c.applied + [e.revision.value]))
  }

  function OnEvent<S>(link: Link<S>, c: Client<S>, e: Event<S>): Client<S> {
    if !Matches(link, e) || c.closed then c
    else if c.component.None? then c.(queued := c.queued + [e])
    else
      match Apply(link, c, e)
      case Done(next) => next
      case Threw(next, _) => Disposed(next)
  }

  /** The abort listener is in place once subscribing is over. */
  function OnAbort<S>(c: Client<S>): Client<S> {
    var c' := c.(aborted := true);
    if c.phase.Subscribing? then c' else Disposed(c')
  }

  function OnSubscribed<S>(c: Client<S>): Client<S> {
    if c.aborted then Failed(c, HostDisposed) else c.(phase := Awaiting)
  }

  function ResponseFault<S>(link: Link<S>, c: Client<S>, r: Response<S>): Option<ClientError> {
    if c.closed || c.aborted then Some(HostDisposed)
    else if !SameIdentity(r.identity, link.target.identity) || r.capabilities.None? then Some(IdentityMismatch)
    else if !ValidRevision(r.revision) then Some(InvalidRevision)
    else None
  }

  predicate Supported(family: string, capabilities: seq<string>) {
    family in METHODS_BY_FAMILY && forall i :: 0 <= i < |capabilities| ==> capabilities[i] in METHODS_BY_FAMILY[family]
  }

  predicate AnyWithdrawn<S>(es: seq<Event<S>>) { exists i :: 0 <= i < |es| && es[i].withdrawn }

  predicate AllRevised<S>(es: seq<Event<S>>) { forall i :: 0 <= i < |es| ==> ValidRevision(es[i].revision) }

  function ApplyAll<S>(link: Link<S>, c: Client<S>, es: seq<Event<S>>): (r: Outcome<S>)
    requires c.component.Some?
    ensures r.client.component.Some?
    decreases |es|
  {
    if es == [] then Done(c)
    else
      match Apply(link, c, es[0])
      case Done(next) => ApplyAll(link, next, es[1..])
      case Threw(next, error) => Threw(next, error)
  }

  /** Merging the queue once the snapshot is installed. */
  function Merge<S>(link: Link<S>, c: Client<S>): Client<S>
    requires c.component.Some?
  {
    if AnyWithdrawn(c.queued) then Failed(Disposed(c).(queued := []), Withdrawn)
    else if !AllRevised(c.queued) then Failed(c, InvalidRevision)
    else
      var ordered := SortByRevision(c.queued);
      match ApplyAll(link, c.(queued := ordered), ordered)
      case Threw(next, error) => Failed(next, error)
      case Done(next) =>
        if next.closed then Failed(next.(queued := []), Withdrawn) else next.(queued := [], phase := Serving)
  }

  function OnResponse<S>(link: Link<S>, c: Client<S>, r: Response<S>): Client<S> {
    match ResponseFault(link, c, r)
    case Some(error) => Failed(c, error)
    case None =>
      var c' := c.(revision := r.revision.value);
      if !Supported(link.target.identity.family, r.capabilities.value) then Failed(c', UnsupportedCapability)
      else if !link.schema.valid(r.snapshot) then Failed(c', Controller(InvalidSnapshot))
      else Merge(link, c'.(component := Some(Component(r.snapshot, false)), applied := [r.revision.value]))
  }

  datatype Action<S> =
    | Deliver(event: Event<S>)
    | Abort
    | SubscribeReturns
    | Respond(response: Response<S>)
    | RequestFails
    | HandleDispose

  /** One step of the host, the network or the caller; a step that cannot occur in a phase changes nothing. */
  function Step<S>(link: Link<S>, c: Client<S>, a: Action<S>): Client<S> {
    match a
    case Deliver(e) => OnEvent(link, c, e)
    case Abort => OnAbort(c)
    case SubscribeReturns => if c.phase.Subscribing? then OnSubscribed(c) else c
    case Respond(r) => if c.phase.Awaiting? then OnResponse(link, c, r) else c
    case RequestFails => if c.phase.Awaiting? then Failed(c, RequestFailed) else c
    case HandleDispose => if c.phase.Serving? then Disposed(c) else c
  }

  function Run<S>(link: Link<S>, c: Client<S>, actions: seq<Action<S>>): Client<S>
    decreases |actions|
  {
    if actions == [] then c else Run(link, Step(link, c, actions[0]), actions[1..])
  }

  // ----- Stable ordering of the queue -----

  function RevisionOf<S>(e: Event<S>): int { if e.revision.Some? then e.revision.value else -1 }

  function InsertByRevision<S>(e: Event<S>, es: seq<Event<S>>): seq<Event<S>> {
    if es == [] then [e]
    else if RevisionOf(e) < RevisionOf(es[0]) then [e] + es
    else [es[0]] + InsertByRevision(e, es[1..])
  }

  /** The queue in ascending revision order, equal revisions in arrival order. */
  function SortByRevision<S>(es: seq<Event<S>>): seq<Event<S>> {
    if es == [] then [] else InsertByRevision(es[|es| - 1], SortByRevision(es[..|es| - 1]))
  }

  ghost predicate Ascending<S>(es: seq<Event<S>>) {
    forall i, j :: 0 <= i < j < |es| ==> RevisionOf(es[i]) <= RevisionOf(es[j])
  }

  lemma {:induction false} InsertSorts<S>(e: Event<S>, es: seq<Event<S>>)
    requires Ascending(es)
    ensures multiset(InsertByRevision(e, es)) == multiset(es) + multiset{e}
    ensures Ascending(InsertByRevision(e, es))
  {
    if es != [] && RevisionOf(e) >= RevisionOf(es[0]) {
      var rest := InsertByRevision(e, es[1..]);
      InsertSorts(e, es[1..]);
      assert es == [es[0]] + es[1..];
      AllAtLeast(RevisionOf(es[0]), e, es[1..], rest);
      AscendingCons(es[0], rest);
    }
  }

  lemma AllAtLeast<S>(n: int, e: Event<S>, es: seq<Event<S>>, whole: seq<Event<S>>)
    requires multiset(whole) == multiset(es) + multiset{e}
    requires n <= RevisionOf(e) && forall k :: 0 <= k < |es| ==> n <= RevisionOf(es[k])
    ensures forall k :: 0 <= k < |whole| ==> n <= RevisionOf(whole[k])
  {
    forall k | 0 <= k < |whole|
      ensures n <= RevisionOf(whole[k])
    {
      assert whole[k] in multiset(whole);
      assert whole[k] == e || whole[k] in es;
    }
  }

  lemma AscendingCons<S>(e: Event<S>, es: seq<Event<S>>)
    requires Ascending(es) && forall k :: 0 <= k < |es| ==> RevisionOf(e) <= RevisionOf(es[k])
    ensures Ascending([e] + es)
  {
  }

  /** The event, if it is of the revision. */
  function OneOf<S>(e: Event<S>, x: int): seq<Event<S>> { if RevisionOf(e) == x then [e] else [] }

  /** The events of one revision, in order. */
  function OfRevision<S>(es: seq<Event<S>>, x: int): seq<Event<S>> {
    if es == [] then [] else OneOf(es[0], x) + OfRevision(es[1..], x)
  }

  lemma OfRevisionCons<S>(e: Event<S>, es: seq<Event<S>>, x: int)
    ensures OfRevision([e] + es, x) == OneOf(e, x) + OfRevision(es, x)
  {
    assert ([e] + es)[1..] == es;
  }

  lemma {:induction false} OfRevisionSnoc<S>(es: seq<Event<S>>, e: Event<S>, x: int)
    ensures OfRevision(es + [e], x) == OfRevision(es, x) + OneOf(e, x)
  {
    if es == [] {
      OfRevisionCons(e, [], x);
      assert [e] + [] == es + [e];
    } else {
      var rest := es[1..];
      assert es + [e] == [es[0]] + (rest + [e]);
      OfRevisionCons(es[0], rest + [e], x);
      OfRevisionSnoc(rest, e, x);
      Assoc(OneOf(es[0], x), OfRevision(rest, x), OneOf(e, x));
    }
  }

  /** In an ascending list, no event comes before the revision of the first. */
  lemma {:induction false} NoneBelow<S>(es: seq<Event<S>>, x: int)
    requires forall e :: e in es ==> RevisionOf(e) > x
    ensures OfRevision(es, x) == []
  {
    if es != [] {
      assert es[0] in es;
      NoneBelow(es[1..], x);
    }
  }

  lemma {:induction false} InsertIsStable<S>(e: Event<S>, es: seq<Event<S>>, x: int)
    requires Ascending(es)
    ensures OfRevision(InsertByRevision(e, es), x) == OfRevision(es, x) + OneOf(e, x)
  {
    if es == [] || RevisionOf(e) < RevisionOf(es[0]) {
      InsertFirst(e, es, x);
    } else {
      var rest := es[1..];
      OfRevisionCons(es[0], InsertByRevision(e, rest), x);
      InsertIsStable(e, rest, x);
      Assoc(OneOf(es[0], x), OfRevision(rest, x), OneOf(e, x));
    }
  }

  lemma InsertFirst<S>(e: Event<S>, es: seq<Event<S>>, x: int)
    requires Ascending(es) && (es == [] || RevisionOf(e) < RevisionOf(es[0]))
    ensures OfRevision([e] + es, x) == OfRevision(es, x) + OneOf(e, x)
  {
    OfRevisionCons(e, es, x);
    if RevisionOf(e) == x {
      NoneBelow(es, x);
    }
  }

  /** Sorting keeps the events of each revision in the order of their arrival. */
  lemma {:induction false} SortIsStable<S>(es: seq<Event<S>>, x: int)
    ensures OfRevision(SortByRevision(es), x) == OfRevision(es, x)
  {
    if es != [] {
      var most, last := es[..|es| - 1], es[|es| - 1];
      SortSorts(most);
      SortIsStable(most, x);
      InsertIsStable(last, SortByRevision(most), x);
      OfRevisionSnoc(most, last, x);
      assert es == most + [last];
    }
  }

  lemma {:induction false} SortSorts<S>(es: seq<Event<S>>)
    ensures multiset(SortByRevision(es)) == multiset(es)
    ensures Ascending(SortByRevision(es))
  {
    if es != [] {
      SortSorts(es[..|es| - 1]);
      InsertSorts(es[|es| - 1], SortByRevision(es[..|es| - 1]));
      assert es == es[..|es| - 1] + [es[|es| - 1]];
    }
  }
}
