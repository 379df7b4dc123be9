/**
 The connection's shared state under concurrent callers. Each call is a chain of lock regions, and any other call,
 refusal, negotiation or binding may run between two of them.
 */
module TransportRuns {
  import opened Texts
  import opened TransportHeaders

  // ----- Capabilities -----

  datatype Capabilities = Capabilities(
    durable: bool,
    kv: bool,
    objects: bool,
    services: bool,
    schedule: bool,
    counters: bool,
    batch: bool,
    trace: bool,
    maxPayload: int)

  /** What this transport implements: services, and payloads of at most 64 KiB. */
  const TRANSPORT := Capabilities(false, false, false, true, false, false, false, false, 0x10000)

  function Intersect(a: Capabilities, b: Capabilities): Capabilities {
    Capabilities(
      a.durable && b.durable, a.kv && b.kv, a.objects && b.objects, a.services && b.services,
      a.schedule && b.schedule, a.counters && b.counters, a.batch && b.batch, a.trace && b.trace,
      if a.maxPayload <= 0 || (b.maxPayload > 0 && b.maxPayload < a.maxPayload) then b.maxPayload else a.maxPayload)
  }

  /** A ceiling of zero or less is no ceiling. */
  predicate Admits(c: Capabilities, size: nat) { c.maxPayload <= 0 || size <= c.maxPayload }

  /** Everything x offers, a offers too. */
  ghost predicate AtMost(x: Capabilities, a: Capabilities) {
    && (x.durable ==> a.durable) && (x.kv ==> a.kv) && (x.objects ==> a.objects) && (x.services ==> a.services)
    && (x.schedule ==> a.schedule) && (x.counters ==> a.counters) && (x.batch ==> a.batch) && (x.trace ==> a.trace)
    && forall n: nat :: Admits(x, n) ==> Admits(a, n)
  }

  /** The same, read off the fields. */
  predicate Within(x: Capabilities, a: Capabilities) {
    && (x.durable ==> a.durable) && (x.kv ==> a.kv) && (x.objects ==> a.objects) && (x.services ==> a.services)
    && (x.schedule ==> a.schedule) && (x.counters ==> a.counters) && (x.batch ==> a.batch) && (x.trace ==> a.trace)
    && (a.maxPayload > 0 ==> 0 < x.maxPayload <= a.maxPayload)
  }

  lemma WithinIsAtMost(x: Capabilities, a: Capabilities)
    ensures Within(x, a) <==> AtMost(x, a)
  {
    if AtMost(x, a) && a.maxPayload > 0 {
      var n: nat := if x.maxPayload <= 0 then a.maxPayload + 1 else x.maxPayload;
      assert Admits(x, n) ==> Admits(a, n);
    }
  }

  /** Intersection is the greatest lower bound, with non-positive ceilings as the unbounded top. */
  lemma IntersectIsMeet(a: Capabilities, b: Capabilities, x: Capabilities)
    ensures AtMost(x, Intersect(a, b)) <==> AtMost(x, a) && AtMost(x, b)
    ensures forall n: nat :: Admits(Intersect(a, b), n) <==> Admits(a, n) && Admits(b, n)
  {
    assert forall n: nat :: Admits(Intersect(a, b), n) <==> Admits(a, n) && Admits(b, n);
    if AtMost(x, Intersect(a, b)) {
      assert forall n: nat :: Admits(x, n) ==> Admits(a, n) && Admits(b, n);
    }
  }

  // ----- Calls and history -----

  datatype Kind = Publish | Request | Respond | Probe

  datatype Stage = Begun | Checked | Sized | Ready | Over

  /** One outbound call; the moments are lengths of the history when the regions ran. */
  datatype Call = Call(
    kind: Kind,
    subject: string,
    raw: Header,
    extra: Option<seq<string>>,
    size: nat,
    stage: Stage,
    header: Header,
    begunAt: nat,
    checkedAt: nat,
    sizedAt: nat,
    stampedAt: nat)

  datatype Event =
    | Refusal(subject: string)
    | Negotiation(host: Capabilities)
    | Binding(token: string)
    | Sending(call: Call)

  datatype Conn = Conn(
    caps: Capabilities,
    bound: bool,
    token: string,
    denied: map<string, string>,
    calls: map<nat, Call>,
    log: seq<Event>)

  const DIALED := Conn(TRANSPORT, false, "", map[], map[], [])

  /** 64 lower-case hexadecimal digits. */
  predicate IsCanonicalToken(s: string) {
    |s| == 64 && forall i :: 0 <= i < 64 ==> '0' <= s[i] <= '9' || 'a' <= s[i] <= 'f'
  }

  /** The headers a call sends: stamped for its subject only when it is a request, then the transport's own header. */
  function HeaderOf(call: Call, token: string): Header {
    match call.kind
    case Publish =>
      var h := Stamped(call.raw, "", token);
      if call.extra.Some? then h[NATS_MSG_ID := call.extra.value] else h
    case Request =>
      var h := Stamped(call.raw, call.subject, token);
      if call.extra.Some? then h[SUBJECT_LEASE := call.extra.value] else h
    case Respond => Stamped(call.raw, "", token)
    case Probe => map[]
  }

  datatype Action =
    | Begin(id: nat, kind: Kind, subject: string, raw: Header, extra: Option<seq<string>>, size: nat)
    | Check(id: nat)
    | Size(id: nat)
    | Stamp(id: nat)
    | Send(id: nat)
    | Abandon(id: nat)
    | Refuse(subject: string, operation: string)
    | Negotiate(host: Capabilities)
    | Bind(token: string)

  predicate CanStamp(call: Call) {
    match call.kind
    case Publish => call.stage.Sized?
    case Request => call.stage.Checked?
    case Respond => call.stage.Begun?
    case Probe => false
  }

  predicate CanSend(call: Call) { call.stage.Ready? || (call.kind.Probe? && call.stage.Begun?) }

  function Checking(c: Conn, call: Call): Call {
    if call.stage != Begun || call.kind !in {Publish, Request} then call
    else if call.subject in c.denied then call.(stage := Over)
    else call.(stage := Checked, checkedAt := |c.log|)
  }

  function Sizing(c: Conn, call: Call): Call {
    if call.stage != Checked || call.kind != Publish then call
    else if !Admits(c.caps, call.size) then call.(stage := Over)
    else call.(stage := Sized, sizedAt := |c.log|)
  }

  function Stamping(c: Conn, call: Call): Call {
    if CanStamp(call) then call.(stage := Ready, stampedAt := |c.log|, header := HeaderOf(call, c.token)) else call
  }

  function Step(c: Conn, a: Action): Conn {
    match a
    case Begin(id, kind, subject, raw, extra, size) =>
      if id in c.calls then c
      else c.(calls := c.calls[id := Call(kind, subject, raw, extra, size, Begun, map[], |c.log|, 0, 0, 0)])
    case Check(id) => if id in c.calls then c.(calls := c.calls[id := Checking(c, c.calls[id])]) else c
    case Size(id) => if id in c.calls then c.(calls := c.calls[id := Sizing(c, c.calls[id])]) else c
    case Stamp(id) => if id in c.calls then c.(calls := c.calls[id := Stamping(c, c.calls[id])]) else c
    case Send(id) =>
      if id in c.calls && CanSend(c.calls[id])
      then c.(calls := c.calls[id := c.calls[id].(stage := Over)], log := c.log + [Sending(c.calls[id])])
      else c
    case Abandon(id) => if id in c.calls then c.(calls := c.calls[id := c.calls[id].(stage := Over)]) else c
    case Refuse(subject, operation) => c.(denied := c.denied[subject := operation], log := c.log + [Refusal(subject)])
    case Negotiate(host) =>
      if c.bound then c
      else c.(bound := true, caps := Intersect(host, TRANSPORT), log := c.log + [Negotiation(host)])
    case Bind(token) =>
      if !IsCanonicalToken(token) || (c.token != "" && c.token != token) then c
      else c.(token := token, log := c.log + [Binding(token)])
  }

  function Run(c: Conn, actions: seq<Action>): Conn
    decreases |actions|
  {
    if actions == [] then c else Run(Step(c, actions[0]), actions[1..])
  }

  lemma RunsTwo(c: Conn, a: Action, b: Action)
    ensures Run(c, [a, b]) == Step(Step(c, a), b)
  {
    assert [a, b][1..] == [b] && [b][1..] == [];
    assert Run(Step(c, a), [b]) == Step(Step(c, a), b);
  }

  lemma RunsThree(c: Conn, a: Action, b: Action, d: Action)
    ensures Run(c, [a, b, d]) == Step(Step(Step(c, a), b), d)
  {
    assert [a, b, d][1..] == [b, d];
    RunsTwo(Step(c, a), b, d);
  }

  lemma RunsFour(c: Conn, a: Action, b: Action, d: Action, e: Action)
    ensures Run(c, [a, b, d, e]) == Step(Step(Step(Step(c, a), b), d), e)
  {
    assert [a, b, d, e][1..] == [b, d, e];
    RunsThree(Step(c, a), b, d, e);
  }

  lemma RunsFive(c: Conn, a: Action, b: Action, d: Action, e: Action, f: Action)
    ensures Run(c, [a, b, d, e, f]) == Step(Step(Step(Step(Step(c, a), b), d), e), f)
  {
    assert [a, b, d, e, f][1..] == [b, d, e, f];
    RunsFour(Step(c, a), b, d, e, f);
  }

  // ----- What the history says -----

  predicate RefusedIn(log: seq<Event>, subject: string) { Refusal(subject) in log }

  /** The token bound by then; the first binding decides. */
  function TokenIn(log: seq<Event>): string {
    if log == [] then ""
    else if log[0].Binding? then log[0].token
    else TokenIn(log[1..])
  }

  /** The capabilities the host had reported by then; the first negotiation decides. */
  function HostIn(log: seq<Event>): Option<Capabilities> {
    if log == [] then None
    else if log[0].Negotiation? then Some(log[0].host)
    else HostIn(log[1..])
  }

  function CapsIn(log: seq<Event>): Capabilities {
    if HostIn(log).Some? then Intersect(HostIn(log).value, TRANSPORT) else TRANSPORT
  }

  lemma {:induction false} InSnoc(log: seq<Event>, e: Event)
    ensures HostIn(log + [e])
         == if HostIn(log).Some? then HostIn(log) else if e.Negotiation? then Some(e.host) else None
    ensures (forall i :: 0 <= i < |log| ==> !log[i].Binding?) ==> TokenIn(log + [e]) == if e.Binding? then e.token else ""
    ensures (exists i :: 0 <= i < |log| && log[i].Binding?) ==> TokenIn(log + [e]) == TokenIn(log)
    ensures (forall i :: 0 <= i < |log| ==> !log[i].Binding?) ==> TokenIn(log) == ""
  {
    if log == [] {
      assert (log + [e])[1..] == [];
    } else {
      assert (log + [e])[1..] == log[1..] + [e];
      InSnoc(log[1..], e);
      assert forall i :: 0 <= i < |log[1..]| ==> log[1..][i] == log[i + 1];
      if !log[0].Binding? && exists i :: 0 <= i < |log| && log[i].Binding? {
        var i :| 0 <= i < |log| && log[i].Binding?;
        assert log[1..][i - 1].Binding?;
      }
    }
  }

  // ----- The invariant -----

  /** What has been established about a call by the regions it has passed. */
  ghost predicate Vouched(call: Call, log: seq<Event>) {
    && call.begunAt <= |log| && call.checkedAt <= |log| && call.sizedAt <= |log| && call.stampedAt <= |log|
    && (call.kind in {Publish, Request} && call.stage in {Checked, Sized, Ready} ==>
          call.begunAt <= call.checkedAt && !RefusedIn(log[..call.checkedAt], call.subject))
    && (call.kind == Publish && call.stage in {Sized, Ready} ==> Admits(CapsIn(log[..call.sizedAt]), call.size))
    && (call.stage == Ready ==> call.kind != Probe && call.header == HeaderOf(call, TokenIn(log[..call.stampedAt])))
    && (call.stage == Begun ==> call.header == map[])
    && (call.stage == Sized ==> call.kind == Publish)
  }

  ghost predicate SoundLog(log: seq<Event>) {
    forall k :: 0 <= k < |log| && log[k].Sending? ==> CanSend(log[k].call) && Vouched(log[k].call, log[..k])
  }

  ghost predicate SoundBindings(log: seq<Event>) {
    forall k :: 0 <= k < |log| && log[k].Binding? ==> IsCanonicalToken(log[k].token) && log[k].token == TokenIn(log)
  }

  ghost predicate Inv(c: Conn) {
    && (forall s :: s in c.denied <==> RefusedIn(c.log, s))
    && c.token == TokenIn(c.log)
    && c.caps == CapsIn(c.log) && (c.bound <==> HostIn(c.log).Some?)
    && (forall id :: id in c.calls ==> Vouched(c.calls[id], c.log))
    && SoundLog(c.log)
    && SoundBindings(c.log)
  }

  lemma VouchedGrows(call: Call, log: seq<Event>, e: Event)
    requires Vouched(call, log)
    ensures Vouched(call, log + [e])
  {
    assert (log + [e])[..call.checkedAt] == log[..call.checkedAt];
    assert (log + [e])[..call.sizedAt] == log[..call.sizedAt];
    assert (log + [e])[..call.stampedAt] == log[..call.stampedAt];
  }

  lemma SoundLogGrows(log: seq<Event>, e: Event)
    requires SoundLog(log)
    requires e.Sending? ==> CanSend(e.call) && Vouched(e.call, log)
    ensures SoundLog(log + [e])
  {
    forall k | 0 <= k < |log + [e]| && (log + [e])[k].Sending?
      ensures CanSend((log + [e])[k].call) && Vouched((log + [e])[k].call, (log + [e])[..k])
    {
      if k < |log| {
        assert (log + [e])[..k] == log[..k];
      } else {
        assert (log + [e])[..k] == log;
      }
    }
  }

  lemma CallsGrow(c: Conn, e: Event)
    requires forall id :: id in c.calls ==> Vouched(c.calls[id], c.log)
    ensures forall id :: id in c.calls ==> Vouched(c.calls[id], c.log + [e])
  {
    forall id | id in c.calls ensures Vouched(c.calls[id], c.log + [e]) {
      VouchedGrows(c.calls[id], c.log, e);
    }
  }

  lemma RegionVouches(c: Conn, call: Call)
    requires Inv(c) && Vouched(call, c.log)
    ensures Vouched(Checking(c, call), c.log) && Vouched(Sizing(c, call), c.log) && Vouched(Stamping(c, call), c.log)
  {
    CheckingVouches(c, call);
    SizingVouches(c, call);
    StampingVouches(c, call);
  }

  lemma CheckingVouches(c: Conn, call: Call)
    requires Inv(c) && Vouched(call, c.log)
    ensures Vouched(Checking(c, call), c.log)
  {
    assert c.log[..|c.log|] == c.log;
  }

  lemma SizingVouches(c: Conn, call: Call)
    requires Inv(c) && Vouched(call, c.log)
    ensures Vouched(Sizing(c, call), c.log)
  {
    assert c.log[..|c.log|] == c.log;
  }

  lemma StampingVouches(c: Conn, call: Call)
    requires Inv(c) && Vouched(call, c.log)
    ensures Vouched(Stamping(c, call), c.log)
  {
    assert c.log[..|c.log|] == c.log;
  }

  lemma EventKeeps(c: Conn, e: Event)
    requires Inv(c) && (e.Sending? ==> CanSend(e.call) && Vouched(e.call, c.log))
    requires e.Binding? ==> IsCanonicalToken(e.token) && (c.token == "" || c.token == e.token)
    ensures SoundLog(c.log + [e]) && SoundBindings(c.log + [e])
    ensures forall id :: id in c.calls ==> Vouched(c.calls[id], c.log + [e])
    ensures TokenIn(c.log + [e]) == if e.Binding? then e.token else c.token
    ensures forall s :: RefusedIn(c.log + [e], s) <==> RefusedIn(c.log, s) || e == Refusal(s)
  {
    SoundLogGrows(c.log, e);
    CallsGrow(c, e);
    InSnoc(c.log, e);
  }

  lemma StepKeeps(c: Conn, a: Action)
    requires Inv(c)
    ensures Inv(Step(c, a))
  {
    match a
    case Begin(id, kind, subject, raw, extra, size) =>
    case Check(id) => RegionKeeps(c, id);
    case Size(id) => RegionKeeps(c, id);
    case Stamp(id) => RegionKeeps(c, id);
    case Send(id) => SendKeeps(c, id);
    case Abandon(id) => RegionKeeps(c, id);
    case Refuse(subject, operation) =>
      EventKeeps(c, Refusal(subject));
      InSnoc(c.log, Refusal(subject));
    case Negotiate(host) =>
      EventKeeps(c, Negotiation(host));
      InSnoc(c.log, Negotiation(host));
    case Bind(token) =>
      if Step(c, a) != c {
        EventKeeps(c, Binding(token));
        InSnoc(c.log, Binding(token));
      }
  }

  lemma RegionKeeps(c: Conn, id: nat)
    requires Inv(c)
    ensures Inv(Step(c, Check(id))) && Inv(Step(c, Size(id))) && Inv(Step(c, Stamp(id))) && Inv(Step(c, Abandon(id)))
  {
    if id in c.calls {
      RegionVouches(c, c.calls[id]);
    }
  }

  lemma SendKeeps(c: Conn, id: nat)
    requires Inv(c)
    ensures Inv(Step(c, Send(id)))
  {
    if id in c.calls && CanSend(c.calls[id]) {
      EventKeeps(c, Sending(c.calls[id]));
      InSnoc(c.log, Sending(c.calls[id]));
      VouchedGrows(c.calls[id], c.log, Sending(c.calls[id]));
    }
  }

  lemma {:induction false} RunKeeps(c: Conn, actions: seq<Action>)
    requires Inv(c)
    ensures Inv(Run(c, actions))
    decreases |actions|
  {
    if actions != [] {
      StepKeeps(c, actions[0]);
      RunKeeps(Step(c, actions[0]), actions[1..]);
    }
  }
}
