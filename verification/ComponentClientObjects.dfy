/** The client as the object whose callbacks update it; each callback performs one step of the replication state. */
module ComponentClientObjects {
  import opened Texts
  import opened ComponentControllers
  import opened ComponentClients

  class ComponentClient<S, V(==)> {
    const link: Link<S>
    var phase: Phase
    var aborted: bool
    var closed: bool
    var unsubscribes: nat
    var queued: seq<Event<S>>
    var revision: int
    var controller: Controller?<S, V>
    ghost var applied: seq<int>

    ghost predicate Valid()
      reads this, controller
    {
      controller != null ==> controller.schema == link.schema
    }

    ghost function View(): Client<S>
      reads this, controller
    {
      Client(phase, aborted, closed, unsubscribes, queued, revision,
             if controller == null then None else Some(Component(controller.current, controller.disposed)), applied)
    }

    constructor (link: Link<S>)
      ensures this.link == link && Valid() && View() == Fresh()
    {
      this.link := link;
      phase, aborted, closed, unsubscribes, queued, revision, applied := Subscribing, false, false, 0, [], -1, [];
      controller := null;
    }

    method Dispose()
      requires Valid()
      modifies this, controller
      ensures Valid() && controller == old(controller)
      ensures View() == ComponentClients.Disposed(old(View()))
    {
      if closed {
        return;
      }
      closed := true;
      unsubscribes := unsubscribes + 1;
      if controller != null {
        controller.Dispose();
      }
    }

    method Fail(error: ClientError)
      requires Valid()
      modifies this, controller
      ensures Valid() && controller == old(controller)
      ensures View() == Failed(old(View()), error)
    {
      Dispose();
      phase := Rejected(error);
    }

    method Apply(e: Event<S>) returns (threw: Option<ClientError>)
      requires Valid() && controller != null
      modifies this, controller
      ensures Valid() && controller == old(controller)
      ensures match ComponentClients.Apply(link, old(View()), e)
              case Done(c) => threw.None? && View() == c
              case Threw(c, error) => threw == Some(error) && View() == c
    {
      if e.withdrawn {
        Dispose();
        return None;
      }
      if !ValidRevision(e.revision) {
        Dispose();
        return Some(InvalidRevision);
      }
      if e.revision.value <= revision {
        return None;
      }
      var fault := controller.Update(e.snapshot);
      if fault.Some? {
        return Some(ClientError.Controller(fault.value));
      }
      revision := e.revision.value;
      applied := applied + [e.revision.value];
      return None;
    }

    /** The listener given to the host's subscribe call. */
    method OnEvent(e: Event<S>)
      requires Valid()
      modifies this, controller
      ensures Valid() && controller == old(controller)
      ensures View() == ComponentClients.OnEvent(link, old(View()), e)
    {
      if !Matches(link, e) || closed {
        return;
      }
      if controller == null {
        queued := queued + [e];
      } else {
        var threw := Apply(e);
        if threw.Some? {
          Dispose();
        }
      }
    }

    method OnAbort()
      requires Valid()
      modifies this, controller
      ensures Valid() && View() == ComponentClients.OnAbort(old(View()))
    {
      aborted := true;
      if !phase.Subscribing? {
        Dispose();
      }
    }

    method OnSubscribed()
      requires Valid()
      modifies this, controller
      ensures Valid() && View() == ComponentClients.OnSubscribed(old(View()))
    {
      if aborted {
        Fail(HostDisposed);
      } else {
        phase := Awaiting;
      }
    }

    /** Merges the queue in revision order, stopping at the first event that throws. */
    method MergeQueue() returns (threw: Option<ClientError>)
      requires Valid() && controller != null
      modifies this, controller
      ensures Valid() && controller == old(controller)
      ensures match ApplyAll(link, old(View()), old(queued))
              case Done(c) => threw.None? && View() == c
              case Threw(c, error) => threw == Some(error) && View() == c
    {
      ghost var start := View();
      var events := queued;
      assert events[0..] == events;
      for i := 0 to |events|
        invariant Valid() && controller == old(controller) && controller != null
        invariant ApplyAll(link, View(), events[i..]) == ApplyAll(link, start, events)
      {
        assert events[i..][0] == events[i] && events[i..][1..] == events[i + 1..];
        threw := Apply(events[i]);
        if threw.Some? {
          return;
        }
      }
      return None;
    }

    /** The continuation of the snapshot request. */
    method OnResponse(r: Response<S>)
      requires Valid() && controller == null
      modifies this
      ensures Valid() && View() == ComponentClients.OnResponse(link, old(View()), r)
    {
      if closed || aborted {
        Fail(HostDisposed);
        return;
      }
      if !SameIdentity(r.identity, link.target.identity) || r.capabilities.None? {
        Fail(IdentityMismatch);
        return;
      }
      if !ValidRevision(r.revision) {
        Fail(InvalidRevision);
        return;
      }
      revision := r.revision.value;
      if !Supported(link.target.identity.family, r.capabilities.value) {
        Fail(UnsupportedCapability);
        return;
      }
      if !link.schema.valid(r.snapshot) {
        Fail(ClientError.Controller(InvalidSnapshot));
        return;
      }
      controller := new Controller(link.schema, r.snapshot, false);
      applied := [r.revision.value];
      if AnyWithdrawn(queued) {
        Dispose();
        queued := [];
        Fail(Withdrawn);
        return;
      }
      if !AllRevised(queued) {
        Fail(InvalidRevision);
        return;
      }
      queued := SortByRevision(queued);
      var threw := MergeQueue();
      if threw.Some? {
        Fail(threw.value);
        return;
      }
      queued := [];
      if closed {
        Fail(Withdrawn);
      } else {
        phase := Serving;
      }
    }

    method OnRequestError()
      requires Valid()
      modifies this, controller
      ensures Valid() && View() == Failed(old(View()), RequestFailed)
    {
      Fail(RequestFailed);
    }
  }

  /** The synchronous opening of a connection: refused before anything is subscribed, or a fresh client. */
  method Connect<S, V(==)>(link: Link<S>, hostAborted: bool) returns (r: Result<ComponentClient<S, V>, ClientError>)
    ensures var identity := link.target.identity;
            if identity.family !in METHODS_BY_FAMILY || "" in [identity.id, identity.ownerId, identity.generation]
            then r == Err(InvalidIdentity)
            else if link.target.lease == "" then r == Err(AssignmentRequired)
            else if hostAborted then r == Err(HostDisposed)
            else r.Ok? && fresh(r.value) && r.value.link == link && r.value.Valid() && r.value.View() == Fresh()
  {
    var fault := AssignmentFault(link.target, hostAborted);
    if fault.Some? {
      return Err(fault.value);
    }
    var client := new ComponentClient<S, V>(link);
    return Ok(client);
  }
}
