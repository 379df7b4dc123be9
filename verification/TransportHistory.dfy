/** What the history of any run of the connection shows: refusals, payload ceilings and the confinement of the token. */
module TransportHistory {
  import opened Texts
  import opened TransportHeaders
  import opened TransportRuns

  lemma Sound(actions: seq<Action>)
    ensures Inv(Run(DIALED, actions))
  {
    RunKeeps(DIALED, actions);
  }

  // ----- Prefixes of the history -----

  lemma {:induction false} TokenOfPrefix(log: seq<Event>, n: nat)
    requires n <= |log| && TokenIn(log[..n]) != ""
    ensures TokenIn(log) == TokenIn(log[..n])
  {
    if n > 0 && !log[0].Binding? {
      assert log[..n][1..] == log[1..][..n - 1];
      TokenOfPrefix(log[1..], n - 1);
    }
  }

  lemma {:induction false} HostOfPrefix(log: seq<Event>, n: nat)
    requires n <= |log| && HostIn(log[..n]).Some?
    ensures HostIn(log) == HostIn(log[..n])
  {
    if n > 0 && !log[0].Negotiation? {
      assert log[..n][1..] == log[1..][..n - 1];
      HostOfPrefix(log[1..], n - 1);
    }
  }

  // ----- The token -----

  lemma HeaderOfIsExact(call: Call, token: string)
    ensures call.kind == Request && IsGateway(call.subject) && token != "" ==> CarriesOnly(HeaderOf(call, token), token)
    ensures !(call.kind == Request && IsGateway(call.subject) && token != "") ==> Confined(HeaderOf(call, token))
  {
    OwnHeadersAreOthers();
    StampedIsExact(call.raw, "", token);
    StampedIsExact(call.raw, call.subject, token);
    assert !IsGateway("");
  }

  /**
   On every run: a request to the gateway carries the bound token, once and in no other spelling, exactly when a
   token was bound by the time it was stamped, and it is the connection's only token; nothing else sent has a header
   of that name in any letter case.
   */
  lemma TokenIsConfined(actions: seq<Action>, k: nat)
    requires k < |Run(DIALED, actions).log| && Run(DIALED, actions).log[k].Sending?
    ensures var c := Run(DIALED, actions);
            var call := c.log[k].call;
            call.stampedAt <= k
            && (call.kind == Request && IsGateway(call.subject) && TokenIn(c.log[..call.stampedAt]) != "" ==>
                  CarriesOnly(call.header, c.token))
            && (!(call.kind == Request && IsGateway(call.subject) && TokenIn(c.log[..call.stampedAt]) != "") ==>
                  Confined(call.header))
  {
    Sound(actions);
    var c := Run(DIALED, actions);
    var call := c.log[k].call;
    assert c.log[..k][..call.stampedAt] == c.log[..call.stampedAt];
    if call.stage == Ready {
      HeaderOfIsExact(call, TokenIn(c.log[..call.stampedAt]));
      if TokenIn(c.log[..call.stampedAt]) != "" {
        TokenOfPrefix(c.log, call.stampedAt);
      }
    }
  }

  lemma {:induction false} TokenNeverChanges(c: Conn, actions: seq<Action>)
    requires c.token != ""
    ensures Run(c, actions).token == c.token
    decreases |actions|
  {
    if actions != [] {
      TokenNeverChanges(Step(c, actions[0]), actions[1..]);
    }
  }

  // ----- Payload ceilings -----

  /** Every published payload is within the transport's ceiling, and within the host's once that had been reported. */
  lemma PublishIsWithinCeilings(actions: seq<Action>, k: nat)
    requires k < |Run(DIALED, actions).log| && Run(DIALED, actions).log[k].Sending?
    requires Run(DIALED, actions).log[k].call.kind == Publish
    ensures var c := Run(DIALED, actions);
            var call := c.log[k].call;
            call.sizedAt <= k && Admits(TRANSPORT, call.size)
            && (HostIn(c.log[..call.sizedAt]).Some? ==> HostIn(c.log).Some? && Admits(HostIn(c.log).value, call.size))
  {
    Sound(actions);
    var c := Run(DIALED, actions);
    var call := c.log[k].call;
    assert c.log[..k][..call.sizedAt] == c.log[..call.sizedAt];
    if HostIn(c.log[..call.sizedAt]).Some? {
      HostOfPrefix(c.log, call.sizedAt);
      IntersectIsMeet(HostIn(c.log).value, TRANSPORT, TRANSPORT);
    }
  }

  /** Whether a fresh call, left to run through its regions, is sent. */
  predicate Passes(c: Conn, kind: Kind, subject: string, size: nat) {
    (kind in {Publish, Request} ==> subject !in c.denied) && (kind == Publish ==> Admits(c.caps, size))
  }

  function Regions(begin: Action): seq<Action>
    requires begin.Begin?
  {
    [begin, Check(begin.id), Size(begin.id), Stamp(begin.id), Send(begin.id)]
  }

  /**
   From any state, a fresh call of any kind is sent exactly when a publish or request finds no refusal of its subject
   and a publish is within the ceiling. In particular only a publish has a ceiling.
   */
  lemma SentExactlyWhenPasses(c: Conn, begin: Action)
    requires begin.Begin? && begin.id !in c.calls
    ensures var after := Run(c, Regions(begin));
            if Passes(c, begin.kind, begin.subject, begin.size)
            then
              && |after.log| == |c.log| + 1 && c.log <= after.log && after.log[|c.log|].Sending?
              && var call := after.log[|c.log|].call;
                 call.kind == begin.kind && call.subject == begin.subject && call.size == begin.size
            else after.log == c.log
  {
    var id := begin.id;
    RunsFive(c, begin, Check(id), Size(id), Stamp(id), Send(id));
    var c2 := Step(Step(c, begin), Check(id));
    var c4 := Step(Step(c2, Size(id)), Stamp(id));
    var call := c2.calls[id];
    assert call.stage == if begin.kind !in {Publish, Request} then Begun else if begin.subject in c.denied then Over else Checked;
    assert c4.log == c.log && CanSend(c4.calls[id]) <==> Passes(c, begin.kind, begin.subject, begin.size);
  }

  /** A request, a reply or a probe of any size is sent when its subject is not refused. */
  lemma OnlyPublishHasACeiling(c: Conn, begin: Action)
    requires begin.Begin? && begin.id !in c.calls && begin.kind != Publish
    requires begin.kind == Request ==> begin.subject !in c.denied
    ensures |Run(c, Regions(begin)).log| == |c.log| + 1 && Run(c, Regions(begin)).log[|c.log|].Sending?
    ensures Run(c, Regions(begin)).log[|c.log|].call.size == begin.size
  {
    SentExactlyWhenPasses(c, begin);
  }

  /** A whole run of that kind from the start. */
  lemma RequestHasNoCeiling(subject: string, size: nat)
    ensures var c := Run(DIALED, [Begin(0, Request, subject, map[], None, size), Check(0), Stamp(0), Send(0)]);
            |c.log| == 1 && c.log[0].Sending? && c.log[0].call.kind == Request && c.log[0].call.size == size
  {
    var begin := Begin(0, Request, subject, map[], None, size);
    RunsFour(DIALED, begin, Check(0), Stamp(0), Send(0));
    var c3 := Step(Step(Step(DIALED, begin), Check(0)), Stamp(0));
    assert Step(c3, Send(0)).log == [Sending(c3.calls[0])];
  }

  // ----- Refusals -----

  predicate Guarded(call: Call, subject: string) { call.kind in {Publish, Request} && call.subject == subject }

  lemma RefusedByThen(log: seq<Event>, n: nat, i: nat, subject: string)
    requires i < n <= |log| && log[i] == Refusal(subject)
    ensures RefusedIn(log[..n], subject)
  {
    assert log[..n][i] == Refusal(subject);
  }

  /** No publish or request is sent whose check came after a refusal of its subject. */
  lemma SentWasCheckedFirst(actions: seq<Action>, k: nat, i: nat)
    requires k < |Run(DIALED, actions).log| && Run(DIALED, actions).log[k].Sending?
    requires i < |Run(DIALED, actions).log|
    requires var call := Run(DIALED, actions).log[k].call;
             call.kind in {Publish, Request} && Run(DIALED, actions).log[i] == Refusal(call.subject)
    ensures Run(DIALED, actions).log[k].call.checkedAt <= i
  {
    Sound(actions);
    var log := Run(DIALED, actions).log;
    var call := log[k].call;
    if call.checkedAt > i {
      assert log[..k][..call.checkedAt] == log[..call.checkedAt];
      RefusedByThen(log, call.checkedAt, i, call.subject);
    }
  }

  /** A publish or request begun after a refusal of its subject is never sent, whatever else is in flight. */
  lemma BegunAfterRefusalIsNeverSent(actions: seq<Action>, k: nat, i: nat)
    requires k < |Run(DIALED, actions).log| && Run(DIALED, actions).log[k].Sending?
    requires i < |Run(DIALED, actions).log|
    requires var call := Run(DIALED, actions).log[k].call;
             call.kind in {Publish, Request} && Run(DIALED, actions).log[i] == Refusal(call.subject)
    ensures Run(DIALED, actions).log[k].call.begunAt <= i
  {
    Sound(actions);
    SentWasCheckedFirst(actions, k, i);
  }

  /** The call has passed its check and nothing in its own path stops it any more. */
  predicate CouldSend(c: Conn, call: Call) {
    || call.stage in {Sized, Ready}
    || (call.stage == Checked && (call.kind == Publish ==> Admits(c.caps, call.size)))
  }

  ghost predicate NonePast(c: Conn, subject: string) {
    forall id :: id in c.calls && Guarded(c.calls[id], subject) ==> !CouldSend(c, c.calls[id])
  }

  ghost predicate SilentSince(log: seq<Event>, n: nat, subject: string) {
    forall k :: n <= k < |log| && log[k].Sending? ==> !Guarded(log[k].call, subject)
  }

  lemma {:induction false} RefusedStaysSilent(c: Conn, subject: string, n: nat, actions: seq<Action>)
    requires Inv(c) && RefusedIn(c.log, subject) && NonePast(c, subject) && n <= |c.log| && SilentSince(c.log, n, subject)
    ensures n <= |Run(c, actions).log| && SilentSince(Run(c, actions).log, n, subject)
    decreases |actions|
  {
    if actions != [] {
      var next := Step(c, actions[0]);
      StepKeeps(c, actions[0]);
      StepStaysSilent(c, subject, n, actions[0]);
      RefusedStaysSilent(next, subject, n, actions[1..]);
    }
  }

  lemma StepStaysSilent(c: Conn, subject: string, n: nat, a: Action)
    requires Inv(c) && RefusedIn(c.log, subject) && NonePast(c, subject) && n <= |c.log| && SilentSince(c.log, n, subject)
    ensures RefusedIn(Step(c, a).log, subject) && NonePast(Step(c, a), subject)
    ensures n <= |Step(c, a).log| && SilentSince(Step(c, a).log, n, subject)
  {
    match a
    case Check(id) => CallStaysPut(c, subject, id);
    case Size(id) => CallStaysPut(c, subject, id);
    case Stamp(id) => CallStaysPut(c, subject, id);
    case Abandon(id) => CallStaysPut(c, subject, id);
    case Send(id) => SendStaysSilent(c, subject, n, id);
    case Negotiate(host) => NegotiateLetsNonePast(c, subject, host);
    case _ =>
  }

  /** No region brings a call for a refused subject past its check. */
  lemma CallStaysPut(c: Conn, subject: string, id: nat)
    requires Inv(c) && RefusedIn(c.log, subject) && NonePast(c, subject)
    ensures NonePast(Step(c, Check(id)), subject) && NonePast(Step(c, Size(id)), subject)
    ensures NonePast(Step(c, Stamp(id)), subject) && NonePast(Step(c, Abandon(id)), subject)
  {
    if id in c.calls && Guarded(c.calls[id], subject) {
      RegionStaysPut(c, c.calls[id], subject);
    }
  }

  lemma RegionStaysPut(c: Conn, call: Call, subject: string)
    requires subject in c.denied && Guarded(call, subject) && !CouldSend(c, call)
    ensures !CouldSend(c, Checking(c, call)) && !CouldSend(c, Sizing(c, call)) && !CouldSend(c, Stamping(c, call))
  {
  }

  lemma SendStaysSilent(c: Conn, subject: string, n: nat, id: nat)
    requires Inv(c) && NonePast(c, subject) && n <= |c.log| && SilentSince(c.log, n, subject)
    ensures NonePast(Step(c, Send(id)), subject) && SilentSince(Step(c, Send(id)).log, n, subject)
  {
    if id in c.calls && CanSend(c.calls[id]) {
      assert !Guarded(c.calls[id], subject);
    }
  }

  lemma NegotiateLetsNonePast(c: Conn, subject: string, host: Capabilities)
    requires Inv(c) && NonePast(c, subject)
    ensures NonePast(Step(c, Negotiate(host)), subject)
  {
    if !c.bound {
      IntersectIsMeet(host, TRANSPORT, TRANSPORT);
    }
  }

  /** A refused subject stays silent on every continuation, as long as no call for it is already past its check. */
  lemma RefusalSilences(before: seq<Action>, subject: string, later: seq<Action>)
    requires RefusedIn(Run(DIALED, before).log, subject) && NonePast(Run(DIALED, before), subject)
    ensures |Run(DIALED, before).log| <= |Run(Run(DIALED, before), later).log|
    ensures SilentSince(Run(Run(DIALED, before), later).log, |Run(DIALED, before).log|, subject)
  {
    Sound(before);
    RefusedStaysSilent(Run(DIALED, before), subject, |Run(DIALED, before).log|, later);
  }

  /** The condition is needed: a call already past its check has a continuation that sends it, refused or not. */
  lemma PastItsCheckStillSends(c: Conn, subject: string, id: nat)
    requires Inv(c) && id in c.calls && Guarded(c.calls[id], subject) && CouldSend(c, c.calls[id])
    ensures var after := Run(c, [Size(id), Stamp(id), Send(id)]);
            |after.log| == |c.log| + 1 && after.log[|c.log|].Sending? && Guarded(after.log[|c.log|].call, subject)
  {
    var actions := [Size(id), Stamp(id), Send(id)];
    RunsThree(c, Size(id), Stamp(id), Send(id));
    var c1 := Step(c, Size(id));
    var c2 := Step(c1, Stamp(id));
    assert c2.calls[id].stage == Ready && CanSend(c2.calls[id]);
    assert Step(c2, Send(id)).log == c.log + [Sending(c2.calls[id])];
  }
}
