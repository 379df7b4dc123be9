/** What a plugin process does, event by event: exactly when each happens, and in what order. */
module PluginEvents {
  import opened Texts
  import opened Protocols
  import Transport = TransportRuns
  import opened PluginLifecycles

  // ----- How far a run gets -----

  predicate Admits(p: Plugin, w: World) {
    p.id != "" && p.manifestId == p.id && w.assignedId in {"", p.id} && p.manifestOk && !w.cancelled
  }

  /** A bus is dialled only when none is handed in, and then with a socket, credentials and a credential file. */
  ghost predicate Dials(p: Plugin, bus: Option<Injected>, w: World) {
    && Admits(p, w) && bus.None? && w.credsArrive
    && (exists i :: 0 <= i < |w.sockets| && !IsBlank(w.sockets[i]))
    && (exists i :: 0 <= i < |w.creds| && !IsBlank(w.creds[i]))
  }

  ghost predicate Asks(p: Plugin, bus: Option<Injected>, w: World) { (Admits(p, w) && bus.Some?) || (Dials(p, bus, w) && w.dials) }

  ghost predicate Hears(p: Plugin, bus: Option<Injected>, w: World) { Asks(p, bus, w) && w.reply.Some? }

  function RequiredMajor(p: Plugin, w: World): nat {
    if p.protocol.None? || p.protocol.value.major == 0 then w.ownMajor else p.protocol.value.major
  }

  function WiredCaps(bus: Option<Injected>, have: Answer): Transport.Capabilities {
    if bus.None? then Transport.Intersect(have.bus, Transport.TRANSPORT) else have.bus
  }

  /** The host speaks the plugin's protocol, with every feature it requires and every need it has. */
  ghost predicate Understands(p: Plugin, bus: Option<Injected>, w: World, missing: Missing, have: Answer) {
    && have.error == "" && have.major == RequiredMajor(p, w)
    && (p.protocol.Some? ==> forall f :: f in p.protocol.value.required ==> !IsBlank(f) && f in have.features)
    && missing(WiredCaps(bus, have), p.needs) == []
  }

  /** The host answers for this plugin, in one generation, and a token comes exactly with the feature that announces it. */
  predicate AnswersFor(p: Plugin, have: Answer) {
    && have.pluginId == p.id && have.identity.pluginId in {"", p.id}
    && have.generation != "" && have.identity.generation in {"", have.generation}
    && ("host.workload-auth.v1" in have.features <==> have.hostCallToken != "")
    && (have.hostCallToken != "" ==>
          |have.hostCallToken| == 64
          && forall i :: 0 <= i < 64 ==> '0' <= have.hostCallToken[i] <= '9' || 'a' <= have.hostCallToken[i] <= 'f')
  }

  ghost predicate Agrees(p: Plugin, bus: Option<Injected>, w: World, missing: Missing) {
    Hears(p, bus, w) && Understands(p, bus, w, missing, w.reply.value) && AnswersFor(p, w.reply.value)
  }

  ghost predicate Binds(p: Plugin, bus: Option<Injected>, w: World, missing: Missing) {
    Agrees(p, bus, w, missing) && (w.reply.value.hostCallToken != "" && bus.Some? ==> bus.value.binder && bus.value.accepts)
  }

  ghost predicate Starts(p: Plugin, bus: Option<Injected>, w: World, missing: Missing) {
    Binds(p, bus, w, missing) && w.binds && (p.validates ==> w.valid)
  }

  ghost predicate Serves(p: Plugin, bus: Option<Injected>, w: World, missing: Missing) {
    Starts(p, bus, w, missing) && w.starts && (p.hooked ==> w.mounts)
  }

  /** When each event happens. */
  ghost predicate Happens(p: Plugin, bus: Option<Injected>, w: World, missing: Missing, e: Event) {
    match e
    case Dial(ok) => Dials(p, bus, w) && ok == w.dials
    case Ask => Asks(p, bus, w)
    case Install(host) => Hears(p, bus, w) && bus.None? && host == w.reply.value.bus
    case BindToken(token) =>
      Agrees(p, bus, w, missing) && token == w.reply.value.hostCallToken != "" && (bus.Some? ==> bus.value.binder)
    case MakeContext => Binds(p, bus, w, missing)
    case Wire(identity, caps) =>
      Binds(p, bus, w, missing) && identity == Identity(p.id, w.reply.value.generation) && caps == WiredCaps(bus, w.reply.value)
    case Validate => Binds(p, bus, w, missing) && w.binds && p.validates
    case Start => Starts(p, bus, w, missing)
    case MountHooks(mounted) => Starts(p, bus, w, missing) && w.starts && p.hooked && mounted == w.mounts
    case ServeHttp => Serves(p, bus, w, missing)
    case StopHooks => Serves(p, bus, w, missing) && p.hooked
    case CancelContext => Binds(p, bus, w, missing)
    case StopPlugin => Starts(p, bus, w, missing)
    case CloseConnection => Asks(p, bus, w) && bus.None?
  }

  // ----- The trace, from the inside out -----

  lemma InHooks(p: Plugin, w: World, e: Event)
    ensures e in FromHooks(p, w) <==>
              match e
              case MountHooks(mounted) => p.hooked && mounted == w.mounts
              case ServeHttp => p.hooked ==> w.mounts
              case StopHooks => p.hooked && w.mounts
              case _ => false
  {
  }

  lemma InStart(p: Plugin, w: World, e: Event)
    ensures e in FromStart(p, w) <==> e in {Start, CancelContext, StopPlugin} || (w.starts && e in FromHooks(p, w))
  {
  }

  lemma InContext(p: Plugin, bus: Option<Injected>, w: World, have: Answer, e: Event)
    ensures e in FromContext(p, bus, w, have) <==>
              || e in {MakeContext, Wire(BoundIdentity(have, p.id), Effective(have, bus)), CancelContext}
              || (w.binds && e == Validate && p.validates)
              || (w.binds && (p.validates ==> w.valid) && e in FromStart(p, w))
  {
  }

  lemma InReply(p: Plugin, bus: Option<Injected>, w: World, missing: Missing, have: Answer, e: Event)
    ensures var gate := GateFault(p, bus, w, missing, have).None? && CheckIdentity(have, p.id).None?;
            var token := have.hostCallToken;
            e in FromReply(p, bus, w, missing, have) <==>
              || (bus.None? && e == Install(have.bus))
              || (gate && token != "" && (bus.Some? ==> bus.value.binder) && e == BindToken(token))
              || (gate && (token != "" && bus.Some? ==> bus.value.binder && bus.value.accepts) && e in FromContext(p, bus, w, have))
  {
  }

  lemma GateAgrees(p: Plugin, bus: Option<Injected>, w: World, missing: Missing, have: Answer)
    ensures GateFault(p, bus, w, missing, have).None? && CheckIdentity(have, p.id).None?
       <==> Understands(p, bus, w, missing, have) && AnswersFor(p, have)
    ensures AnswersFor(p, have) ==> BoundIdentity(have, p.id) == Identity(p.id, have.generation)
    ensures Effective(have, bus) == WiredCaps(bus, have)
  {
    GateIsExact(have, Declared(p.protocol, w.ownMajor), w.ownMajor, missing(Effective(have, bus), p.needs));
    IdentityIsExact(have, p.id);
  }

  lemma InTrace(p: Plugin, bus: Option<Injected>, w: World, missing: Missing, e: Event)
    ensures e in Trace(p, bus, w, missing) <==>
              || (Dials(p, bus, w) && e == Dial(w.dials))
              || (Asks(p, bus, w) && (e == Ask || (bus.None? && e == CloseConnection)))
              || (Hears(p, bus, w) && e in FromReply(p, bus, w, missing, w.reply.value))
  {
    assert Admits(p, w) <==> Admitted(p, w);
    assert Admits(p, w) && bus.None? ==> (Dials(p, bus, w) <==> CanDial(w));
    assert e in FromAsk(p, bus, w, missing) <==> e == Ask || (w.reply.Some? && e in FromReply(p, bus, w, missing, w.reply.value));
  }

  /** Each event happens in a run exactly when all that it waits for has gone well. */
  lemma EventsAreExact(p: Plugin, bus: Option<Injected>, w: World, missing: Missing, e: Event)
    ensures e in Trace(p, bus, w, missing) <==> Happens(p, bus, w, missing, e)
  {
    InTrace(p, bus, w, missing, e);
    if w.reply.Some? {
      var have := w.reply.value;
      InReply(p, bus, w, missing, have, e);
      GateAgrees(p, bus, w, missing, have);
      InContext(p, bus, w, have, e);
      InStart(p, w, e);
      InHooks(p, w, e);
    }
  }

  // ----- Order -----

  /** Where an event that starts or tries something stands; None for the cleanups. */
  function Place(e: Event): Option<nat> {
    match e
    case Dial(_) => Some(0)
    case Ask => Some(1)
    case Install(_) => Some(2)
    case BindToken(_) => Some(3)
    case MakeContext => Some(4)
    case Wire(_, _) => Some(5)
    case Validate => Some(6)
    case Start => Some(7)
    case MountHooks(_) => Some(8)
    case ServeHttp => Some(9)
    case _ => None
  }

  /** What is not a cleanup happens in this order, and nothing twice; nothing stands before the given place. */
  ghost predicate InOrder(events: seq<Event>, from: nat) {
    && (forall j :: 0 <= j < |events| && Place(events[j]).Some? ==> from <= Place(events[j]).value)
    && forall i, j :: 0 <= i < j < |events| && Place(events[i]).Some? && Place(events[j]).Some? ==>
         Place(events[i]).value < Place(events[j]).value
  }

  ghost predicate Cleans(events: seq<Event>) { forall i :: 0 <= i < |events| ==> Place(events[i]).None? }

  lemma OneThen(e: Event, later: seq<Event>, from: nat)
    requires Place(e).Some? && from <= Place(e).value && InOrder(later, Place(e).value + 1)
    ensures InOrder([e] + later, from)
  {
  }

  lemma ThenCleanups(events: seq<Event>, cleanups: seq<Event>, from: nat)
    requires InOrder(events, from) && Cleans(cleanups)
    ensures InOrder(events + cleanups, from)
  {
  }

  lemma StartInOrder(p: Plugin, w: World)
    ensures InOrder(FromStart(p, w), 7)
  {
    var hooks := if w.starts then FromHooks(p, w) else [];
    OneThen(Start, hooks, 7);
    ThenCleanups([Start] + hooks, [CancelContext, StopPlugin], 7);
  }

  lemma ValidateInOrder(p: Plugin, w: World)
    ensures InOrder(FromValidate(p, w), 6)
  {
    StartInOrder(p, w);
    OneThen(Validate, if w.valid then FromStart(p, w) else [], 6);
  }

  lemma ContextInOrder(p: Plugin, bus: Option<Injected>, w: World, have: Answer)
    ensures InOrder(FromContext(p, bus, w, have), 4)
  {
    ValidateInOrder(p, w);
    var checked := if w.binds then FromValidate(p, w) else [];
    var wire := Wire(BoundIdentity(have, p.id), Effective(have, bus));
    OneThen(wire, checked, 5);
    OneThen(MakeContext, [wire] + checked, 4);
    assert [MakeContext] + ([wire] + checked) == [MakeContext, wire] + checked;
    ThenCleanups([MakeContext, wire] + checked, [CancelContext], 4);
  }

  lemma GateInOrder(p: Plugin, bus: Option<Injected>, w: World, missing: Missing, have: Answer)
    ensures InOrder(FromGate(p, bus, w, missing, have), 3)
  {
    ContextInOrder(p, bus, w, have);
    OneThen(BindToken(have.hostCallToken), if bus.None? || bus.value.accepts then FromContext(p, bus, w, have) else [], 3);
  }

  lemma ReplyInOrder(p: Plugin, bus: Option<Injected>, w: World, missing: Missing, have: Answer)
    ensures InOrder(FromReply(p, bus, w, missing, have), 2)
  {
    var gated := FromGate(p, bus, w, missing, have);
    GateInOrder(p, bus, w, missing, have);
    if bus.None? {
      OneThen(Install(have.bus), gated, 2);
    } else {
      assert [] + gated == gated;
    }
  }

  lemma AskInOrder(p: Plugin, bus: Option<Injected>, w: World, missing: Missing)
    ensures InOrder(FromAsk(p, bus, w, missing), 1)
  {
    if w.reply.Some? {
      ReplyInOrder(p, bus, w, missing, w.reply.value);
      OneThen(Ask, FromReply(p, bus, w, missing, w.reply.value), 1);
    }
  }

  /** A run dials, asks, installs, binds, wires, validates, starts, mounts and serves in that order, each at most once. */
  lemma RunsInOrder(p: Plugin, bus: Option<Injected>, w: World, missing: Missing)
    ensures InOrder(Trace(p, bus, w, missing), 0)
  {
    AskInOrder(p, bus, w, missing);
    OneThen(Dial(true), FromAsk(p, bus, w, missing), 0);
    ThenCleanups([Dial(true)] + FromAsk(p, bus, w, missing), [CloseConnection], 0);
  }
}
