/**
 One plugin process from admission to the last cleanup. Everything outside answers through a World, fixed for the run:
 the environment, the credential file, the dial, the host's reply, the plugin's own hooks and the HTTP server.
 */
module PluginLifecycles {
  import opened Texts
  import opened Protocols
  import Transport = TransportRuns
  import opened TransportConnections

  datatype Plugin = Plugin(
    id: string,
    manifestId: string,
    manifestOk: bool,
    protocol: Option<Requirements>,
    needs: seq<string>,
    validates: bool,
    hooked: bool)

  /**
   A bus handed in instead of dialling: whether it can bind a token, whether it accepts the one it is given, and what
   it can do itself.
   */
  datatype Injected = Injected(binder: bool, accepts: bool, caps: Transport.Capabilities)

  datatype World = World(
    assignedId: string,
    cancelled: bool,
    sockets: seq<string>,
    creds: seq<string>,
    credsArrive: bool,
    dials: bool,
    reply: Option<Answer>,
    ownMajor: nat,
    binds: bool,
    valid: bool,
    starts: bool,
    mounts: bool,
    serves: bool,
    stops: bool)

  datatype Event =
    | Dial(ok: bool)
    | Ask
    | Install(host: Transport.Capabilities)
    | BindToken(token: string)
    | MakeContext
    | Wire(identity: Identity, caps: Transport.Capabilities)
    | Validate
    | Start
    | MountHooks(mounted: bool)
    | ServeHttp
    | StopHooks
    | CancelContext
    | StopPlugin
    | CloseConnection

  /** Which needs a set of capabilities does not provide. */
  type Missing = (Transport.Capabilities, seq<string>) -> seq<string>

  predicate Admitted(p: Plugin, w: World) {
    p.id != "" && p.id == p.manifestId && (w.assignedId == "" || w.assignedId == p.id) && p.manifestOk && !w.cancelled
  }

  predicate AllBlank(values: seq<string>) { forall i :: 0 <= i < |values| ==> IsBlank(values[i]) }

  predicate CanDial(w: World) { !AllBlank(w.sockets) && !AllBlank(w.creds) && w.credsArrive }

  /** What the connection the plugin holds can do itself. */
  function Own(bus: Option<Injected>): Transport.Capabilities {
    if bus.None? then Transport.TRANSPORT else bus.value.caps
  }

  /** The effective capabilities: cut down to the transport for a dialled connection only. */
  function Effective(have: Answer, bus: Option<Injected>): Transport.Capabilities {
    if bus.None? then Transport.Intersect(have.bus, Transport.TRANSPORT) else have.bus
  }

  function GateFault(p: Plugin, bus: Option<Injected>, w: World, missing: Missing, have: Answer): Option<Protocols.Fault> {
    CheckProtocol(have, Declared(p.protocol, w.ownMajor), w.ownMajor, missing(Effective(have, bus), p.needs))
  }

  // ----- The run as nested brackets: what is acquired is released around everything after it -----

  function FromHooks(p: Plugin, w: World): seq<Event> {
    if !p.hooked then [ServeHttp]
    else if !w.mounts then [MountHooks(false)]
    else [MountHooks(true), ServeHttp, StopHooks]
  }

  function FromStart(p: Plugin, w: World): seq<Event> {
    [Start] + (if w.starts then FromHooks(p, w) else []) + [CancelContext, StopPlugin]
  }

  function FromValidate(p: Plugin, w: World): seq<Event> {
    if p.validates then [Validate] + (if w.valid then FromStart(p, w) else []) else FromStart(p, w)
  }

  function FromContext(p: Plugin, bus: Option<Injected>, w: World, have: Answer): seq<Event> {
    [MakeContext, Wire(BoundIdentity(have, p.id), Effective(have, bus))]
    + (if w.binds then FromValidate(p, w) else [])
    + [CancelContext]
  }

  function FromToken(p: Plugin, bus: Option<Injected>, w: World, have: Answer): seq<Event> {
    if have.hostCallToken == "" then FromContext(p, bus, w, have)
    else if bus.Some? && !bus.value.binder then []
    else [BindToken(have.hostCallToken)] + (if bus.None? || bus.value.accepts then FromContext(p, bus, w, have) else [])
  }

  function FromGate(p: Plugin, bus: Option<Injected>, w: World, missing: Missing, have: Answer): seq<Event> {
    if GateFault(p, bus, w, missing, have).None? && CheckIdentity(have, p.id).None? then FromToken(p, bus, w, have) else []
  }

  function FromReply(p: Plugin, bus: Option<Injected>, w: World, missing: Missing, have: Answer): seq<Event> {
    (if bus.None? then [Install(have.bus)] else []) + FromGate(p, bus, w, missing, have)
  }

  function FromAsk(p: Plugin, bus: Option<Injected>, w: World, missing: Missing): seq<Event> {
    [Ask] + (if w.reply.Some? then FromReply(p, bus, w, missing, w.reply.value) else [])
  }

  function Trace(p: Plugin, bus: Option<Injected>, w: World, missing: Missing): seq<Event> {
    if !Admitted(p, w) then []
    else if bus.Some? then FromAsk(p, bus, w, missing)
    else if !CanDial(w) then []
    else if !w.dials then [Dial(false)]
    else [Dial(true)] + FromAsk(p, bus, w, missing) + [CloseConnection]
  }

  // ----- The run as code: a list of deferred cleanups, run backwards at the end -----

  datatype Deferred = ClosingConnection | CancellingContext | StoppingPlugin | StoppingHooks

  function Cleanup(d: Deferred): seq<Event> {
    match d
    case ClosingConnection => [CloseConnection]
    case CancellingContext => [CancelContext]
    case StoppingPlugin => [CancelContext, StopPlugin]
    case StoppingHooks => [StopHooks]
  }

  function Unwound(deferred: seq<Deferred>): seq<Event> {
    if deferred == [] then [] else Cleanup(deferred[|deferred| - 1]) + Unwound(deferred[..|deferred| - 1])
  }

  lemma UnwoundMore(deferred: seq<Deferred>, d: Deferred)
    ensures Unwound(deferred + [d]) == Cleanup(d) + Unwound(deferred)
  {
    assert (deferred + [d])[..|deferred|] == deferred;
  }

  /** What has happened, and what is to be cleaned up when it ends. */
  class Process {
    var trace: seq<Event>
    var deferred: seq<Deferred>

    constructor ()
      ensures trace == [] && deferred == []
    {
      trace, deferred := [], [];
    }

    /** What will have happened if it ends now. */
    ghost function Total(): seq<Event>
      reads this
    {
      trace + Unwound(deferred)
    }

    /** Runs the cleanups, the latest first. */
    method Unwind()
      modifies this
      ensures trace == old(Total()) && deferred == []
    {
      while deferred != []
        invariant Total() == old(Total())
        decreases |deferred|
      {
        var d := deferred[|deferred| - 1];
        assert trace + (Cleanup(d) + Unwound(deferred[..|deferred| - 1])) == trace + Cleanup(d) + Unwound(deferred[..|deferred| - 1]);
        trace, deferred := trace + Cleanup(d), deferred[..|deferred| - 1];
      }
    }

    method MountAndServe(p: Plugin, w: World) returns (ok: bool)
      modifies this
      ensures Total() == old(trace) + FromHooks(p, w) + old(Unwound(deferred))
      ensures ok <==> ServeHttp in FromHooks(p, w) && w.serves
    {
      if p.hooked {
        trace := trace + [MountHooks(w.mounts)];
        if !w.mounts {
          return false;
        }
        UnwoundMore(deferred, StoppingHooks);
        deferred := deferred + [StoppingHooks];
      }
      trace := trace + [ServeHttp];
      return w.serves;
    }

    method StartAndServe(p: Plugin, w: World) returns (ok: bool)
      modifies this
      ensures Total() == old(trace) + FromStart(p, w) + old(Unwound(deferred))
      ensures ok <==> ServeHttp in FromStart(p, w) && w.serves
    {
      ghost var inner := if w.starts then FromHooks(p, w) else [];
      Regroup(trace, [Start], inner, [CancelContext, StopPlugin], Unwound(deferred));
      UnwoundMore(deferred, StoppingPlugin);
      deferred := deferred + [StoppingPlugin];
      trace := trace + [Start];
      assert ServeHttp in FromStart(p, w) <==> ServeHttp in inner;
      if !w.starts {
        assert trace + inner == trace;
        return false;
      }
      ok := MountAndServe(p, w);
    }

    method ValidateAndServe(p: Plugin, w: World) returns (ok: bool)
      modifies this
      ensures Total() == old(trace) + FromValidate(p, w) + old(Unwound(deferred))
      ensures ok <==> ServeHttp in FromValidate(p, w) && w.serves
    {
      if p.validates {
        Prefixed(trace, Validate, FromStart(p, w), Unwound(deferred));
        trace := trace + [Validate];
        if !w.valid {
          return false;
        }
      }
      ok := StartAndServe(p, w);
    }

    method WireAndServe(p: Plugin, bus: Option<Injected>, w: World, have: Answer, effective: Transport.Capabilities)
      returns (ok: bool)
      requires effective == Effective(have, bus)
      modifies this
      ensures Total() == old(trace) + FromContext(p, bus, w, have) + old(Unwound(deferred))
      ensures ok <==> ServeHttp in FromContext(p, bus, w, have) && w.serves
    {
      ghost var before, cleanups := trace, Unwound(deferred);
      ghost var wiring := [MakeContext, Wire(BoundIdentity(have, p.id), effective)];
      UnwoundMore(deferred, CancellingContext);
      deferred := deferred + [CancellingContext];
      trace := trace + [MakeContext, Wire(BoundIdentity(have, p.id), effective)];
      Regroup(before, wiring, if w.binds then FromValidate(p, w) else [], [CancelContext], cleanups);
      if !w.binds {
        assert trace + [] == trace;
        return false;
      }
      ok := ValidateAndServe(p, w);
    }

    /** The token goes to the connection, or to the bus that was handed in if it can bind one. */
    method BindAndServe(p: Plugin, bus: Option<Injected>, conn: Connection?, w: World, have: Answer, effective: Transport.Capabilities)
      returns (ok: bool)
      requires effective == Effective(have, bus)
      requires have.hostCallToken != "" ==> Transport.IsCanonicalToken(have.hostCallToken)
      requires conn == null <==> bus.Some?
      requires conn != null ==> conn.hostCallToken == ""
      modifies this, conn
      ensures Total() == old(trace) + FromToken(p, bus, w, have) + old(Unwound(deferred))
      ensures ok <==> ServeHttp in FromToken(p, bus, w, have) && w.serves
    {
      if have.hostCallToken != "" {
        if bus.Some? && !bus.value.binder {
          return false;
        }
        ghost var before, cleanups := trace, Unwound(deferred);
        trace := trace + [BindToken(have.hostCallToken)];
        var bound := BindTo(bus, conn, have.hostCallToken);
        if !bound {
          return false;
        }
        Prefixed(before, BindToken(have.hostCallToken), FromContext(p, bus, w, have), cleanups);
      }
      ok := WireAndServe(p, bus, w, have, effective);
    }

    method GateAndServe(p: Plugin, bus: Option<Injected>, conn: Connection?, w: World, missing: Missing, have: Answer,
                        effective: Transport.Capabilities)
      returns (ok: bool)
      requires effective == Effective(have, bus)
      requires conn == null <==> bus.Some?
      requires conn != null ==> conn.hostCallToken == ""
      modifies this, conn
      ensures Total() == old(trace) + FromGate(p, bus, w, missing, have) + old(Unwound(deferred))
      ensures ok <==> ServeHttp in FromGate(p, bus, w, missing, have) && w.serves
    {
      var need := Declared(p.protocol, w.ownMajor);
      var lacking := missing(effective, p.needs);
      if CheckProtocol(have, need, w.ownMajor, lacking).Some? || CheckIdentity(have, p.id).Some? {
        return false;
      }
      GateIsExact(have, need, w.ownMajor, lacking);
      ok := BindAndServe(p, bus, conn, w, have, effective);
    }

    method InstallAndServe(p: Plugin, bus: Option<Injected>, conn: Connection?, w: World, missing: Missing, have: Answer)
      returns (ok: bool)
      requires conn == null <==> bus.Some?
      requires conn != null ==> conn.View() == Transport.DIALED
      modifies this, conn
      ensures Total() == old(trace) + FromReply(p, bus, w, missing, have) + old(Unwound(deferred))
      ensures ok <==> ServeHttp in FromReply(p, bus, w, missing, have) && w.serves
    {
      ghost var rest := FromGate(p, bus, w, missing, have);
      var effective := InstallOn(bus, conn, have);
      if conn != null {
        Prefixed(trace, Install(have.bus), rest, Unwound(deferred));
        trace := trace + [Install(have.bus)];
        assert ServeHttp in [Install(have.bus)] + rest <==> ServeHttp in rest;
      } else {
        assert [] + rest == rest;
      }
      ok := GateAndServe(p, bus, conn, w, missing, have, effective);
    }

    method NegotiateAndServe(p: Plugin, bus: Option<Injected>, conn: Connection?, w: World, missing: Missing)
      returns (ok: bool)
      requires conn == null <==> bus.Some?
      requires conn != null ==> conn.View() == Transport.DIALED
      modifies this, conn
      ensures Total() == old(trace) + FromAsk(p, bus, w, missing) + old(Unwound(deferred))
      ensures ok <==> ServeHttp in FromAsk(p, bus, w, missing) && w.serves
    {
      ghost var before, cleanups := trace, Unwound(deferred);
      trace := trace + [Ask];
      if w.reply.None? {
        return false;
      }
      Prefixed(before, Ask, FromReply(p, bus, w, missing, w.reply.value), cleanups);
      ok := InstallAndServe(p, bus, conn, w, missing, w.reply.value);
    }
  }

  /** A dialled connection installs the host's capabilities, cut down to its own. */
  method InstallOn(bus: Option<Injected>, conn: Connection?, have: Answer) returns (effective: Transport.Capabilities)
    requires conn == null <==> bus.Some?
    requires conn != null ==> conn.View() == Transport.DIALED
    modifies conn
    ensures effective == Effective(have, bus)
    ensures conn != null ==> conn.hostCallToken == "" && conn.caps == effective
  {
    effective := have.bus;
    if conn != null {
      conn.Negotiated(have.bus);
      effective := conn.caps;
    }
  }

  /** A connection fresh from negotiation binds any token the gate let through. */
  method BindTo(bus: Option<Injected>, conn: Connection?, token: string) returns (bound: bool)
    requires Transport.IsCanonicalToken(token) && (conn == null <==> bus.Some?)
    requires conn != null ==> conn.hostCallToken == ""
    modifies conn
    ensures bound <==> bus.None? || bus.value.accepts
  {
    if conn == null {
      return bus.value.accepts;
    }
    var fault := conn.BindHostCallToken(token);
    return fault.None?;
  }

  lemma Prefixed<T>(before: seq<T>, e: T, inner: seq<T>, after: seq<T>)
    ensures before + [e] + inner + after == before + ([e] + inner) + after
    ensures before + [e] + after == before + ([e] + []) + after
  {
  }

  lemma Regroup<T>(before: seq<T>, first: seq<T>, inner: seq<T>, last: seq<T>, after: seq<T>)
    ensures before + first + inner + (last + after) == before + (first + inner + last) + after
  {
  }

  /** Waits for the credential and dials, unless a bus was handed in. */
  method Connect(process: Process, bus: Option<Injected>, w: World) returns (ok: bool, conn: Connection?)
    requires process.trace == [] && process.deferred == []
    modifies process
    ensures ok <==> bus.Some? || (CanDial(w) && w.dials)
    ensures process.trace == if bus.Some? || !CanDial(w) then [] else [Dial(w.dials)]
    ensures process.deferred == if ok && bus.None? then [ClosingConnection] else []
    ensures ok ==> (conn == null <==> bus.Some?)
    ensures conn != null ==> fresh(conn) && conn.View() == Transport.DIALED
  {
    if bus.Some? {
      return true, null;
    }
    if AllBlank(w.sockets) || AllBlank(w.creds) || !w.credsArrive {
      return false, null;
    }
    process.trace := [Dial(w.dials)];
    if !w.dials {
      return false, null;
    }
    conn := new Connection();
    process.deferred := [ClosingConnection];
    return true, conn;
  }

  method ConnectAndServe(process: Process, p: Plugin, bus: Option<Injected>, w: World, missing: Missing) returns (ok: bool)
    requires process.trace == [] && process.deferred == [] && Admitted(p, w)
    modifies process
    ensures process.Total() == Trace(p, bus, w, missing)
    ensures ok <==> ServeHttp in Trace(p, bus, w, missing) && w.serves
  {
    var conn: Connection?;
    ok, conn := Connect(process, bus, w);
    UnwoundMore([], ClosingConnection);
    TraceOfConnection(p, bus, w, missing);
    if !ok {
      return;
    }
    ok := process.NegotiateAndServe(p, bus, conn, w, missing);
  }

  lemma TraceOfConnection(p: Plugin, bus: Option<Injected>, w: World, missing: Missing)
    requires Admitted(p, w)
    ensures var connected := bus.Some? || (CanDial(w) && w.dials);
            var dial := if bus.Some? || !CanDial(w) then [] else [Dial(w.dials)];
            var cleanup := if bus.None? then [CloseConnection] else [];
            && (connected ==> Trace(p, bus, w, missing) == dial + FromAsk(p, bus, w, missing) + cleanup)
            && (!connected ==> Trace(p, bus, w, missing) == dial + [])
            && (ServeHttp in Trace(p, bus, w, missing) <==> connected && ServeHttp in FromAsk(p, bus, w, missing))
  {
  }

  /**
   Runs a plugin process. What happens, in order, is the nested reading above; the result says whether it succeeded,
   which includes stopping cleanly.
   */
  method ServePlugin(p: Option<Plugin>, bus: Option<Injected>, w: World, missing: Missing)
    returns (trace: seq<Event>, succeeded: bool)
    ensures trace == if p.None? then [] else Trace(p.value, bus, w, missing)
    ensures succeeded <==> ServeHttp in trace && w.serves && w.stops
  {
    if p.None? || !Admitted(p.value, w) {
      return [], false;
    }
    var process := new Process();
    var ok := ConnectAndServe(process, p.value, bus, w, missing);
    process.Unwind();
    return process.trace, ok && w.stops;
  }

  // ----- What every run does -----

  /** What a process holds; a running plugin, and whether its context has been cancelled. */
  datatype Held = AConnection | AContext | APlugin(cancelled: bool) | SomeHooks

  predicate Holds(held: seq<Held>, h: Held) { held != [] && held[|held| - 1] == h }

  /** One event under the discipline of a stack: only what was acquired last may be released. */
  function Settle(held: seq<Held>, e: Event): Option<seq<Held>> {
    match e
    case Dial(ok) => if held != [] then None else Some(if ok then [AConnection] else held)
    case MakeContext => Some(held + [AContext])
    case Wire(_, _) => if Holds(held, AContext) then Some(held) else None
    case Validate => if Holds(held, AContext) then Some(held) else None
    case Start => if Holds(held, AContext) then Some(held + [APlugin(false)]) else None
    case MountHooks(mounted) =>
      if !Holds(held, APlugin(false)) then None else if mounted then Some(held + [SomeHooks]) else Some(held)
    case ServeHttp => if Holds(held, APlugin(false)) || Holds(held, SomeHooks) then Some(held) else None
    case StopHooks => if Holds(held, SomeHooks) then Some(held[..|held| - 1]) else None
    case CancelContext =>
      if Holds(held, APlugin(false)) then Some(held[|held| - 1 := APlugin(true)])
      else if Holds(held, AContext) then Some(held[..|held| - 1])
      else None
    case StopPlugin => if Holds(held, APlugin(true)) then Some(held[..|held| - 1]) else None
    case CloseConnection => if Holds(held, AConnection) then Some(held[..|held| - 1]) else None
    case _ => if held == [] || held == [AConnection] then Some(held) else None
  }

  /** What is held after the events, or None when one of them breaks the discipline. */
  function SettleAll(held: seq<Held>, events: seq<Event>): Option<seq<Held>>
    decreases |events|
  {
    if events == [] then Some(held)
    else if Settle(held, events[0]).None? then None
    else SettleAll(Settle(held, events[0]).value, events[1..])
  }

  lemma {:induction false} SettleConcat(held: seq<Held>, a: seq<Event>, b: seq<Event>)
    requires SettleAll(held, a).Some?
    ensures SettleAll(held, a + b) == SettleAll(SettleAll(held, a).value, b)
    decreases |a|
  {
    if a == [] {
      assert a + b == b;
    } else {
      assert (a + b)[0] == a[0] && (a + b)[1..] == a[1..] + b;
      SettleConcat(Settle(held, a[0]).value, a[1..], b);
    }
  }

  lemma SettleOne(held: seq<Held>, e: Event, rest: seq<Event>)
    requires Settle(held, e).Some?
    ensures SettleAll(held, [e] + rest) == SettleAll(Settle(held, e).value, rest)
  {
    assert ([e] + rest)[1..] == rest;
  }

  ghost predicate LeavesAsFound(held: seq<Held>, events: seq<Event>) { SettleAll(held, events) == Some(held) }

  lemma HooksNest(held: seq<Held>, p: Plugin, w: World)
    requires Holds(held, APlugin(false))
    ensures LeavesAsFound(held, FromHooks(p, w))
  {
    if p.hooked && w.mounts {
      var more := held + [SomeHooks];
      assert more[..|held|] == held;
      SettleOne(held, MountHooks(true), [ServeHttp, StopHooks]);
      SettleOne(more, ServeHttp, [StopHooks]);
      SettleOne(more, StopHooks, []);
      assert FromHooks(p, w) == [MountHooks(true)] + [ServeHttp, StopHooks];
      assert [ServeHttp, StopHooks] == [ServeHttp] + [StopHooks] && [StopHooks] + [] == [StopHooks];
    } else if p.hooked {
      SettleOne(held, MountHooks(false), []);
    } else {
      SettleOne(held, ServeHttp, []);
    }
  }

  lemma StartNests(held: seq<Held>, p: Plugin, w: World)
    requires Holds(held, AContext)
    ensures LeavesAsFound(held, FromStart(p, w))
  {
    var inner := if w.starts then FromHooks(p, w) else [];
    var running, cancelled := held + [APlugin(false)], held + [APlugin(true)];
    HooksNest(running, p, w);
    assert running[|held| := APlugin(true)] == cancelled && cancelled[..|held|] == held;
    SettleOne(held, Start, inner + [CancelContext, StopPlugin]);
    SettleConcat(running, inner, [CancelContext, StopPlugin]);
    SettleOne(running, CancelContext, [StopPlugin]);
    SettleOne(cancelled, StopPlugin, []);
    assert [CancelContext, StopPlugin] == [CancelContext] + [StopPlugin] && [StopPlugin] + [] == [StopPlugin];
    assert FromStart(p, w) == [Start] + (inner + [CancelContext, StopPlugin]);
  }

  lemma ValidateNests(held: seq<Held>, p: Plugin, w: World)
    requires Holds(held, AContext)
    ensures LeavesAsFound(held, FromValidate(p, w))
  {
    StartNests(held, p, w);
    if p.validates {
      SettleOne(held, Validate, if w.valid then FromStart(p, w) else []);
    }
  }

  lemma ContextNests(held: seq<Held>, p: Plugin, bus: Option<Injected>, w: World, have: Answer)
    ensures LeavesAsFound(held, FromContext(p, bus, w, have))
  {
    var inner := if w.binds then FromValidate(p, w) else [];
    var wire := Wire(BoundIdentity(have, p.id), Effective(have, bus));
    var more := held + [AContext];
    ValidateNests(more, p, w);
    assert more[..|held|] == held;
    SettleOne(held, MakeContext, [wire] + (inner + [CancelContext]));
    SettleOne(more, wire, inner + [CancelContext]);
    SettleConcat(more, inner, [CancelContext]);
    SettleOne(more, CancelContext, []);
    assert [CancelContext] + [] == [CancelContext];
    assert FromContext(p, bus, w, have) == [MakeContext] + ([wire] + (inner + [CancelContext]));
  }

  lemma ReplyNests(held: seq<Held>, p: Plugin, bus: Option<Injected>, w: World, missing: Missing, have: Answer)
    requires held == [] || held == [AConnection]
    ensures LeavesAsFound(held, FromReply(p, bus, w, missing, have))
  {
    ContextNests(held, p, bus, w, have);
    SettleOne(held, BindToken(have.hostCallToken), if bus.None? || bus.value.accepts then FromContext(p, bus, w, have) else []);
    assert LeavesAsFound(held, FromGate(p, bus, w, missing, have));
    if bus.None? {
      SettleOne(held, Install(have.bus), FromGate(p, bus, w, missing, have));
    } else {
      assert [] + FromGate(p, bus, w, missing, have) == FromGate(p, bus, w, missing, have);
    }
  }

  lemma AskNests(held: seq<Held>, p: Plugin, bus: Option<Injected>, w: World, missing: Missing)
    requires held == [] || held == [AConnection]
    ensures LeavesAsFound(held, FromAsk(p, bus, w, missing))
  {
    if w.reply.Some? {
      ReplyNests(held, p, bus, w, missing, w.reply.value);
      SettleOne(held, Ask, FromReply(p, bus, w, missing, w.reply.value));
    } else {
      SettleOne(held, Ask, []);
    }
  }

  /** Every run, wherever it stops, releases all it acquired, each once and in reverse order. */
  lemma CleanupIsReversed(p: Plugin, bus: Option<Injected>, w: World, missing: Missing)
    ensures SettleAll([], Trace(p, bus, w, missing)) == Some([])
  {
    AskNests([], p, bus, w, missing);
    AskNests([AConnection], p, bus, w, missing);
    var inner := FromAsk(p, bus, w, missing);
    SettleOne([], Dial(true), inner + [CloseConnection]);
    SettleConcat([AConnection], inner, [CloseConnection]);
    SettleOne([AConnection], CloseConnection, []);
    assert [Dial(true)] + inner + [CloseConnection] == [Dial(true)] + (inner + [CloseConnection]);
    assert [CloseConnection] + [] == [CloseConnection];
    SettleOne([], Dial(false), []);
  }

  // ----- Start and Stop -----

  function Running(held: seq<Held>): nat {
    if held == [] then 0 else Running(held[..|held| - 1]) + if held[|held| - 1].APlugin? then 1 else 0
  }

  function Count(events: seq<Event>, e: Event): nat { multiset(events)[e] }

  lemma CountConcat(a: seq<Event>, b: seq<Event>, e: Event)
    ensures Count(a + b, e) == Count(a, e) + Count(b, e)
  {
  }

  lemma SettleRunning(held: seq<Held>, e: Event)
    requires Settle(held, e).Some?
    ensures Running(Settle(held, e).value) + (if e.StopPlugin? then 1 else 0)
      == Running(held) + if e.Start? then 1 else 0
  {
    var next := Settle(held, e).value;
    if |next| == |held| + 1 {
      assert next[..|held|] == held;
    } else if e.CancelContext? && |next| == |held| {
      assert next[..|held| - 1] == held[..|held| - 1];
    }
  }

  /** Under the discipline, plugins started and stopped account for plugins running. */
  lemma {:induction false} StartsBalanceStops(held: seq<Held>, events: seq<Event>)
    requires SettleAll(held, events).Some?
    ensures Running(SettleAll(held, events).value) + Count(events, StopPlugin) == Running(held) + Count(events, Start)
    decreases |events|
  {
    if events != [] {
      var first, rest := events[0], events[1..];
      assert events == [first] + rest;
      CountConcat([first], rest, Start);
      CountConcat([first], rest, StopPlugin);
      SettleRunning(held, first);
      StartsBalanceStops(Settle(held, first).value, rest);
    }
  }

  /** All that has to hold before the plugin's own code is started. */
  ghost predicate Ready(p: Plugin, bus: Option<Injected>, w: World, missing: Missing) {
    && Admitted(p, w)
    && (bus.None? ==> CanDial(w) && w.dials)
    && w.reply.Some?
    && var have := w.reply.value;
    && Agreed(have, Declared(p.protocol, w.ownMajor), w.ownMajor, missing(Effective(have, bus), p.needs))
    && have.pluginId == p.id && BoundIdentity(have, p.id) == Identity(p.id, have.generation)
    && (have.hostCallToken != "" && bus.Some? ==> bus.value.binder && bus.value.accepts)
    && w.binds
    && (p.validates ==> w.valid)
  }

  lemma HooksCounted(p: Plugin, w: World)
    ensures Count(FromHooks(p, w), Start) == 0
  {
    assert Start !in FromHooks(p, w);
  }

  lemma StartCounted(p: Plugin, w: World)
    ensures Count(FromStart(p, w), Start) == 1
  {
    var inner := if w.starts then FromHooks(p, w) else [];
    HooksCounted(p, w);
    CountConcat([Start], inner, Start);
    CountConcat([Start] + inner, [CancelContext, StopPlugin], Start);
  }

  lemma ValidateCounted(p: Plugin, w: World)
    ensures Count(FromValidate(p, w), Start) == if p.validates && !w.valid then 0 else 1
  {
    StartCounted(p, w);
    CountConcat([Validate], if w.valid then FromStart(p, w) else [], Start);
  }

  lemma ContextCounted(p: Plugin, bus: Option<Injected>, w: World, have: Answer)
    ensures Count(FromContext(p, bus, w, have), Start) == if w.binds && (p.validates ==> w.valid) then 1 else 0
  {
    var inner := if w.binds then FromValidate(p, w) else [];
    var wiring := [MakeContext, Wire(BoundIdentity(have, p.id), Effective(have, bus))];
    ValidateCounted(p, w);
    CountConcat(wiring, inner, Start);
    CountConcat(wiring + inner, [CancelContext], Start);
  }

  lemma ReplyCounted(p: Plugin, bus: Option<Injected>, w: World, missing: Missing, have: Answer)
    ensures Count(FromReply(p, bus, w, missing, have), Start) ==
      if && GateFault(p, bus, w, missing, have).None? && CheckIdentity(have, p.id).None?
         && (have.hostCallToken != "" && bus.Some? ==> bus.value.binder && bus.value.accepts)
         && w.binds && (p.validates ==> w.valid)
      then 1 else 0
  {
    var inner := FromContext(p, bus, w, have);
    ContextCounted(p, bus, w, have);
    CountConcat([BindToken(have.hostCallToken)], if bus.None? || bus.value.accepts then inner else [], Start);
    CountConcat(if bus.None? then [Install(have.bus)] else [], FromGate(p, bus, w, missing, have), Start);
  }

  /** The plugin is started exactly when everything has been agreed, bound and validated, and then once. */
  lemma StartsExactlyWhenReady(p: Plugin, bus: Option<Injected>, w: World, missing: Missing)
    ensures Count(Trace(p, bus, w, missing), Start) == if Ready(p, bus, w, missing) then 1 else 0
  {
    var rest := FromAsk(p, bus, w, missing);
    if w.reply.Some? {
      var have := w.reply.value;
      ReplyCounted(p, bus, w, missing, have);
      CountConcat([Ask], FromReply(p, bus, w, missing, have), Start);
      GateIsExact(have, Declared(p.protocol, w.ownMajor), w.ownMajor, missing(Effective(have, bus), p.needs));
      IdentityIsExact(have, p.id);
    } else {
      CountConcat([Ask], [], Start);
    }
    CountConcat([Dial(true)], rest, Start);
    CountConcat([Dial(true)] + rest, [CloseConnection], Start);
  }

  /** The plugin is stopped exactly as often as it is started: once if at all, even when starting it failed. */
  lemma StopsExactlyAsStarted(p: Plugin, bus: Option<Injected>, w: World, missing: Missing)
    ensures Count(Trace(p, bus, w, missing), StopPlugin) == Count(Trace(p, bus, w, missing), Start) <= 1
  {
    CleanupIsReversed(p, bus, w, missing);
    StartsBalanceStops([], Trace(p, bus, w, missing));
    StartsExactlyWhenReady(p, bus, w, missing);
  }

  /** Every occurrence of y comes after one of x. */
  ghost predicate Precedes(events: seq<Event>, x: Event, y: Event) {
    forall j :: 0 <= j < |events| && events[j] == y ==> x in events[..j]
  }

  lemma PrecedesWithin(a: seq<Event>, events: seq<Event>, b: seq<Event>, x: Event, y: Event)
    requires Precedes(events, x, y) && y !in a && y !in b
    ensures Precedes(a + events + b, x, y)
  {
    var whole := a + events + b;
    forall j | 0 <= j < |whole| && whole[j] == y
      ensures x in whole[..j]
    {
      assert whole[j] == events[j - |a|];
      assert x in events[..j - |a|];
      assert whole[..j] == a + events[..j - |a|];
    }
  }

  lemma TokenFirst(p: Plugin, bus: Option<Injected>, w: World, missing: Missing, have: Answer)
    requires have.hostCallToken != ""
    ensures Precedes(FromReply(p, bus, w, missing, have), BindToken(have.hostCallToken), Start)
  {
    var token := BindToken(have.hostCallToken);
    var events := FromGate(p, bus, w, missing, have);
    forall j | 0 <= j < |events| && events[j] == Start
      ensures token in events[..j]
    {
      assert events[0] == token && j > 0;
      assert events[..j][0] == token;
    }
    var install: seq<Event> := if bus.None? then [Install(have.bus)] else [];
    PrecedesWithin(install, events, [], token, Start);
    assert install + events + [] == FromReply(p, bus, w, missing, have);
  }

  /** A token the host supplied is bound before the plugin starts. */
  lemma TokenIsBoundFirst(p: Plugin, bus: Option<Injected>, w: World, missing: Missing)
    requires w.reply.Some? && w.reply.value.hostCallToken != ""
    ensures Precedes(Trace(p, bus, w, missing), BindToken(w.reply.value.hostCallToken), Start)
  {
    var have, token := w.reply.value, BindToken(w.reply.value.hostCallToken);
    var rest := FromReply(p, bus, w, missing, have);
    TokenFirst(p, bus, w, missing, have);
    PrecedesWithin([Ask], rest, [], token, Start);
    assert [Ask] + rest + [] == FromAsk(p, bus, w, missing);
    PrecedesWithin([Dial(true)], FromAsk(p, bus, w, missing), [CloseConnection], token, Start);
  }

  // ----- Capabilities -----

  /** Cutting x down to a changes nothing, read off the fields. */
  predicate Uncut(x: Transport.Capabilities, a: Transport.Capabilities) {
    && (x.durable ==> a.durable) && (x.kv ==> a.kv) && (x.objects ==> a.objects) && (x.services ==> a.services)
    && (x.schedule ==> a.schedule) && (x.counters ==> a.counters) && (x.batch ==> a.batch) && (x.trace ==> a.trace)
    && if x.maxPayload <= 0 then a.maxPayload == x.maxPayload else a.maxPayload <= 0 || x.maxPayload <= a.maxPayload
  }

  /**
   The effective set is the host's cut down to the connection held, and so within that connection, exactly when the
   connection was dialled or the bus handed in can do all that the host reports.
   */
  lemma EffectiveIsCut(have: Answer, bus: Option<Injected>)
    ensures Effective(have, bus) == Transport.Intersect(have.bus, Own(bus)) <==> bus.None? || Uncut(have.bus, bus.value.caps)
    ensures Transport.AtMost(Effective(have, bus), Own(bus)) <==> bus.None? || Transport.Within(have.bus, bus.value.caps)
    ensures Transport.AtMost(Effective(have, bus), have.bus)
  {
    Transport.IntersectIsMeet(have.bus, Transport.TRANSPORT, Effective(have, bus));
    if bus.Some? {
      Transport.WithinIsAtMost(have.bus, bus.value.caps);
    }
  }

  /** Every wiring of the events is the one given. */
  ghost predicate Wires(events: seq<Event>, wire: Event) { forall e :: e in events && e.Wire? ==> e == wire }

  /** Whatever a plugin is wired with is the effective set of the host's answer. */
  lemma WiredAsAnswered(p: Plugin, bus: Option<Injected>, w: World, missing: Missing)
    ensures w.reply.Some? ==>
              Wires(Trace(p, bus, w, missing), Wire(BoundIdentity(w.reply.value, p.id), Effective(w.reply.value, bus)))
    ensures w.reply.None? ==> forall e :: e in Trace(p, bus, w, missing) ==> !e.Wire?
  {
    if w.reply.Some? {
      var wire := Wire(BoundIdentity(w.reply.value, p.id), Effective(w.reply.value, bus));
      assert Wires(FromValidate(p, w), wire);
      assert Wires(FromContext(p, bus, w, w.reply.value), wire);
      assert Wires(FromReply(p, bus, w, missing, w.reply.value), wire);
      assert Wires(FromAsk(p, bus, w, missing), wire);
    }
  }

  /** A plugin is wired within what its connection can do exactly under that condition. */
  lemma WiredWithinItsBus(p: Plugin, bus: Option<Injected>, w: World, missing: Missing, e: Event)
    ensures e in Trace(p, bus, w, missing) && e.Wire? ==>
              w.reply.Some?
              && (Transport.AtMost(e.caps, Own(bus)) <==> bus.None? || Transport.Within(w.reply.value.bus, bus.value.caps))
  {
    WiredAsAnswered(p, bus, w, missing);
    if w.reply.Some? {
      EffectiveIsCut(w.reply.value, bus);
    }
  }

  /** A bus handed in is never asked what it can do: nothing in any run depends on it. */
  lemma OwnCapabilitiesAreIgnored(p: Plugin, bus: Injected, caps: Transport.Capabilities, w: World, missing: Missing)
    ensures Trace(p, Some(bus.(caps := caps)), w, missing) == Trace(p, Some(bus), w, missing)
  {
    var other := Some(bus.(caps := caps));
    if w.reply.Some? {
      assert FromContext(p, other, w, w.reply.value) == FromContext(p, Some(bus), w, w.reply.value);
    }
  }

  /** No start without that wiring. */
  ghost predicate StartsWired(events: seq<Event>, wire: Event) { Start in events ==> wire in events }

  /** A plugin that is started has been wired with the effective set. */
  lemma StartedIsWired(p: Plugin, bus: Option<Injected>, w: World, missing: Missing)
    requires w.reply.Some?
    ensures StartsWired(Trace(p, bus, w, missing), Wire(BoundIdentity(w.reply.value, p.id), Effective(w.reply.value, bus)))
  {
    var have := w.reply.value;
    var wire := Wire(BoundIdentity(have, p.id), Effective(have, bus));
    assert FromContext(p, bus, w, have)[1] == wire;
    assert StartsWired(FromContext(p, bus, w, have), wire);
    assert StartsWired(FromReply(p, bus, w, missing, have), wire);
    assert StartsWired(FromAsk(p, bus, w, missing), wire);
  }

  const NONE := Transport.Capabilities(false, false, false, false, false, false, false, false, 0)

  const DURABLE := NONE.(durable := true)

  const ANSWER := Answer(2, "p", "g", [], DURABLE, Identity("", ""), "", "")

  const NEEDY := Plugin("p", "p", true, None, ["durable"], false, false)

  const WILLING := World("", false, [], [], false, false, Some(ANSWER), 2, true, true, true, true, true, true)

  function OnlyDurable(caps: Transport.Capabilities, needs: seq<string>): seq<string> { if caps.durable then [] else needs }

  /** The condition can fail: a plugin that needs durable streams is wired with them, and started, on a bus without them. */
  lemma StartsBeyondItsBus()
    ensures var bus := Some(Injected(true, true, NONE));
            var trace := Trace(NEEDY, bus, WILLING, OnlyDurable);
            OnlyDurable(NONE, NEEDY.needs) != [] && Start in trace && Wire(Identity("p", "g"), DURABLE) in trace
  {
    var bus := Some(Injected(true, true, NONE));
    assert Agreed(ANSWER, Declared(NEEDY.protocol, 2), 2, OnlyDurable(Effective(ANSWER, bus), NEEDY.needs));
    assert Ready(NEEDY, bus, WILLING, OnlyDurable);
    StartsExactlyWhenReady(NEEDY, bus, WILLING, OnlyDurable);
    StartedIsWired(NEEDY, bus, WILLING, OnlyDurable);
  }
}
