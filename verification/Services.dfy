/** Mounting a service: its endpoints and nine discovery subjects, all of them or none. */
module Services {
  import opened Texts
  import opened SubscriptionObjects
  import Runs = SubscriptionRuns

  datatype Endpoint = Endpoint(name: string, subject: string, queueGroup: string, hasHandler: bool)

  datatype Spec = Spec(name: string, queueGroup: string, endpoints: seq<Endpoint>)

  datatype ServeError = NameRequired | NoEndpoints | HandlerRequired | SubscribeFailed

  function GroupOf(spec: Spec, ep: Endpoint): string {
    if ep.queueGroup != "" then ep.queueGroup
    else if spec.queueGroup != "" then spec.queueGroup
    else spec.name
  }

  /** One broker subscription: its subject and its queue group, "" for none. */
  datatype Mount = Mount(subject: string, queue: string)

  function EndpointMounts(spec: Spec, endpoints: seq<Endpoint>): (ms: seq<Mount>)
    ensures |ms| == |endpoints|
    ensures forall i :: 0 <= i < |ms| ==> ms[i] == Mount(endpoints[i].subject, GroupOf(spec, endpoints[i]))
  {
    seq(|endpoints|, i requires 0 <= i < |endpoints| => Mount(endpoints[i].subject, GroupOf(spec, endpoints[i])))
  }

  function ProbeMounts(root: string, name: string, id: string): seq<Mount> {
    [Mount(root, ""), Mount(root + "." + name, ""), Mount(root + "." + name + "." + id, "")]
  }

  function DiscoveryMounts(name: string, id: string): seq<Mount> {
    ProbeMounts("$SRV.PING", name, id) + ProbeMounts("$SRV.INFO", name, id) + ProbeMounts("$SRV.STATS", name, id)
  }

  /** The mounts in text: each endpoint in its own group, else the service's, else its name; then the nine probes. */
  lemma MountsInText(spec: Spec, id: string)
    ensures var n := |spec.endpoints|;
            var ms := EndpointMounts(spec, spec.endpoints) + DiscoveryMounts(spec.name, id);
            && |ms| == n + 9
            && (forall i :: 0 <= i < n ==>
                  ms[i] == Mount(spec.endpoints[i].subject,
                                 if spec.endpoints[i].queueGroup != "" then spec.endpoints[i].queueGroup
                                 else if spec.queueGroup != "" then spec.queueGroup else spec.name))
            && ms[n..] == [
                 Mount("$SRV.PING", ""), Mount("$SRV.PING" + "." + spec.name, ""), Mount("$SRV.PING" + "." + spec.name + "." + id, ""),
                 Mount("$SRV.INFO", ""), Mount("$SRV.INFO" + "." + spec.name, ""), Mount("$SRV.INFO" + "." + spec.name + "." + id, ""),
                 Mount("$SRV.STATS", ""), Mount("$SRV.STATS" + "." + spec.name, ""), Mount("$SRV.STATS" + "." + spec.name + "." + id, "")]
  {
    var own, probes := EndpointMounts(spec, spec.endpoints), DiscoveryMounts(spec.name, id);
    assert (own + probes)[|own|..] == probes;
  }

  // ----- What stands in the way -----

  /** Whether the broker refuses the k-th subscription that one call of Serve asks for. */
  type Refusals = nat -> bool

  /** The k-th mount goes through: the broker takes it, and an endpoint has a handler. */
  predicate Passes(spec: Spec, refuses: Refusals, k: nat) { (k < |spec.endpoints| ==> spec.endpoints[k].hasHandler) && !refuses(k) }

  predicate AllPass(spec: Spec, refuses: Refusals, n: nat) { forall k: nat :: k < n ==> Passes(spec, refuses, k) }

  /** The k-th mount is the first that does not go through. */
  predicate FirstToFail(spec: Spec, refuses: Refusals, k: nat) { AllPass(spec, refuses, k) && !Passes(spec, refuses, k) }

  class Service {
    const spec: Spec
    const id: string
    var subs: seq<Subscription>
    var stopped: bool

    constructor (spec: Spec, connId: string)
      ensures this.spec == spec && id == connId + "-" + spec.name && subs == [] && !stopped
    {
      this.spec, this.id := spec, connId + "-" + spec.name;
      subs, stopped := [], false;
    }

    /** The subscriptions of the service are the given mounts, in order, and all of them are live. */
    ghost predicate Mounted(hub: Hub, others: set<Subscription>, mounts: seq<Mount>)
      reads this, hub, hub.subs
    {
      && hub.Valid() && |subs| == |mounts|
      && hub.subs == others + (set s | s in subs)
      && (forall i :: 0 <= i < |subs| ==> subs[i] !in others && Mount(subs[i].subject, subs[i].queue) == mounts[i])
      && (forall i, j :: 0 <= i < j < |subs| ==> subs[i] != subs[j])
    }

    /** Subscribes one mount and appends it; nothing changes when the broker refuses. */
    method Add(hub: Hub, m: Mount, refused: bool, ghost others: set<Subscription>, ghost mounts: seq<Mount>) returns (ok: bool)
      requires Mounted(hub, others, mounts)
      modifies this`subs, hub`subs
      ensures ok <==> !refused
      ensures ok ==> Mounted(hub, others, mounts + [m])
      ensures !ok ==> Mounted(hub, others, mounts)
      ensures forall s :: s in subs && s !in old(subs) ==> fresh(s)
      ensures old(subs) <= subs
    {
      var s := hub.Subscribe(m.subject, m.queue, refused);
      if s == null {
        return false;
      }
      subs := subs + [s];
      return true;
    }

    /** Mounts the endpoints in order, stopping at the first that has no handler or that the broker refuses. */
    method MountEndpoints(hub: Hub, refuses: Refusals, ghost others: set<Subscription>)
      returns (ghost mounted: seq<Mount>, fault: Option<ServeError>)
      requires Mounted(hub, others, [])
      modifies this`subs, hub`subs
      ensures Mounted(hub, others, mounted)
      ensures fault.None? ==> mounted == EndpointMounts(spec, spec.endpoints)
      ensures fault.None? ==> AllPass(spec, refuses, |spec.endpoints|)
      ensures fault.Some? ==>
                exists k :: 0 <= k < |spec.endpoints| && FirstToFail(spec, refuses, k)
                            && fault.value == if spec.endpoints[k].hasHandler then SubscribeFailed else HandlerRequired
      ensures forall s :: s in subs ==> fresh(s)
    {
      mounted := [];
      for i := 0 to |spec.endpoints|
        invariant Mounted(hub, others, mounted) && mounted == EndpointMounts(spec, spec.endpoints[..i])
        invariant forall s :: s in subs ==> fresh(s)
        invariant AllPass(spec, refuses, i)
      {
        var ep := spec.endpoints[i];
        if !ep.hasHandler {
          assert FirstToFail(spec, refuses, i);
          return mounted, Some(HandlerRequired);
        }
        var ok := Add(hub, Mount(ep.subject, GroupOf(spec, ep)), refuses(i), others, mounted);
        if !ok {
          assert FirstToFail(spec, refuses, i);
          return mounted, Some(SubscribeFailed);
        }
        assert EndpointMounts(spec, spec.endpoints[..i + 1]) == mounted + [Mount(ep.subject, GroupOf(spec, ep))];
        mounted := mounted + [Mount(ep.subject, GroupOf(spec, ep))];
      }
      assert spec.endpoints[..|spec.endpoints|] == spec.endpoints;
      fault := None;
    }

    /** Adds the nine discovery subscriptions, stopping at the first that the broker refuses. */
    method MountDiscovery(hub: Hub, refuses: Refusals, ghost others: set<Subscription>, ghost mounts: seq<Mount>)
      returns (ghost mounted: seq<Mount>, ok: bool)
      requires Mounted(hub, others, mounts) && AllPass(spec, refuses, |spec.endpoints|)
      modifies this`subs, hub`subs
      ensures Mounted(hub, others, mounted)
      ensures ok ==> AllPass(spec, refuses, |spec.endpoints| + 9)
      ensures !ok ==> exists k :: |spec.endpoints| <= k < |spec.endpoints| + 9 && FirstToFail(spec, refuses, k)
      ensures ok ==> mounted == mounts + DiscoveryMounts(spec.name, id)
      ensures forall s :: s in subs && s !in old(subs) ==> fresh(s)
    {
      var discovery := DiscoveryMounts(spec.name, id);
      mounted := mounts;
      for i := 0 to |discovery|
        invariant Mounted(hub, others, mounted) && mounted == mounts + discovery[..i]
        invariant AllPass(spec, refuses, |spec.endpoints| + i)
        invariant forall s :: s in subs && s !in old(subs) ==> fresh(s)
      {
        ok := Add(hub, discovery[i], refuses(|spec.endpoints| + i), others, mounted);
        if !ok {
          assert FirstToFail(spec, refuses, |spec.endpoints| + i);
          return;
        }
        mounted := mounted + [discovery[i]];
      }
      ok := true;
    }

    /** Cancels everything the service mounted, once; what others mounted stays live. */
    method Stop(hub: Hub, ghost others: set<Subscription>, ghost mounts: seq<Mount>)
      requires stopped || Mounted(hub, others, mounts)
      modifies this, hub`subs, subs
      ensures stopped
      ensures old(stopped) ==> subs == old(subs) && hub.subs == old(hub.subs) && forall s :: s in subs ==> unchanged(s)
      ensures !old(stopped) ==> subs == [] && hub.Valid() && hub.subs == others
      ensures !old(stopped) ==> forall s :: s in old(subs) ==> s.done && s.err == Some(Runs.Clean)
    {
      if stopped {
        return;
      }
      var cancelled := subs;
      stopped, subs := true, [];
      for i := 0 to |cancelled|
        invariant hub.Valid() && stopped && subs == []
        invariant hub.subs == others + (set s | s in cancelled[i..])
        invariant forall k :: i <= k < |cancelled| ==> cancelled[k] in hub.subs
        invariant forall k :: 0 <= k < i ==> cancelled[k].done && cancelled[k].err == Some(Runs.Clean) && cancelled[k].Settled()
      {
        assert cancelled[i..] == [cancelled[i]] + cancelled[i + 1..];
        hub.Cancel(cancelled[i]);
      }
    }
  }

  /**
   Serves a specification on a connection. On success exactly its endpoints and discovery subjects have been added to
   the live subscriptions; on failure, at whatever point, nothing has. The first cause decides the answer.
   */
  method Serve(hub: Hub, connId: string, spec: Spec, refuses: Refusals) returns (r: Result<Service, ServeError>)
    requires hub.Valid()
    modifies hub`subs
    ensures hub.Valid()
    ensures r.Err? ==> hub.subs == old(hub.subs)
    ensures IsBlank(spec.name) ==> r == Err(NameRequired)
    ensures !IsBlank(spec.name) && spec.endpoints == [] ==> r == Err(NoEndpoints)
    ensures !IsBlank(spec.name) && spec.endpoints != [] ==>
              && (AllPass(spec, refuses, |spec.endpoints| + 9) ==> r.Ok?)
              && forall k :: 0 <= k < |spec.endpoints| + 9 && FirstToFail(spec, refuses, k) ==>
                   r == Err(if k < |spec.endpoints| && !spec.endpoints[k].hasHandler then HandlerRequired else SubscribeFailed)
    ensures r.Ok? ==> fresh(r.value)
                      && r.value.Mounted(hub, old(hub.subs),
                           EndpointMounts(spec, spec.endpoints) + DiscoveryMounts(spec.name, connId + "-" + spec.name))
  {
    if IsBlank(spec.name) {
      return Err(NameRequired);
    }
    if spec.endpoints == [] {
      return Err(NoEndpoints);
    }
    ghost var others := hub.subs;
    var svc := new Service(spec, connId);
    ghost var mounts;
    var fault;
    mounts, fault := svc.MountEndpoints(hub, refuses, others);
    if fault.None? {
      var ok;
      mounts, ok := svc.MountDiscovery(hub, refuses, others, mounts);
      if ok {
        return Ok(svc);
      }
      fault := Some(SubscribeFailed);
    }
    svc.Stop(hub, others, mounts);
    return Err(fault.value);
  }
}
