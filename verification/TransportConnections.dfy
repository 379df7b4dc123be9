/** The connection object: every method is one lock region, or the chain of regions a caller runs. */
module TransportConnections {
  import opened Texts
  import opened TransportHeaders
  import opened TransportRuns
  import opened Violations

  datatype Fault =
    | Denied(operation: string)
    | Malformed
    | Budget
    | Schema
    | Rebound
    | Unavailable

  /** What the caller's headers become: one value each, without the reserved ones and any that name the token. */
  function OwnHeaders(headers: map<string, string>, reserved: Reserved): Header {
    map k | k in headers && !reserved(k) && !SameLetters(k, "X-Bytedesk-Host-Call") :: [headers[k]]
  }

  /** The history has grown by the sending of one message, and by nothing else. */
  predicate IsSent(before: seq<Event>, after: seq<Event>, kind: Kind, subject: string, size: nat, header: Header) {
    && |after| == |before| + 1 && after[..|before|] == before && after[|before|].Sending?
    && var call := after[|before|].call;
       call.kind == kind && call.subject == subject && call.size == size && call.header == header
  }

  lemma OwnHeadersAreStamped(headers: map<string, string>, reserved: Reserved, subject: string, token: string)
    ensures Stamped(WireHeaders(headers, reserved), subject, token)
         == OwnHeaders(headers, reserved)
            + if "cmd.gateway." <= subject && token != "" then map["X-Bytedesk-Host-Call" := [token]] else map[]
  {
    StampedInText(WireHeaders(headers, reserved), subject, token);
  }

  /** The empty subject is not the gateway's. */
  lemma PlainAdds(h: Header, token: string)
    ensures h + (if "cmd.gateway." <= "" && token != "" then map["X-Bytedesk-Host-Call" := [token]] else map[]) == h
  {
    assert h + map[] == h;
  }

  lemma SettingAdds(h: Header, key: string, values: Option<seq<string>>)
    ensures (if values.Some? then h[key := values.value] else h) == h + if values.Some? then map[key := values.value] else map[]
  {
  }

  class Connection {
    var caps: Capabilities
    var bound: bool
    var hostCallToken: string
    var deniedPublish: map<string, string>
    ghost var calls: map<nat, Call>
    ghost var log: seq<Event>

    ghost function View(): Conn
      reads this
    {
      Conn(caps, bound, hostCallToken, deniedPublish, calls, log)
    }

    constructor ()
      ensures View() == DIALED
    {
      caps, bound, hostCallToken, deniedPublish, calls, log := TRANSPORT, false, "", map[], map[], [];
    }

    /** Installs the host's capabilities, once. */
    method Negotiated(host: Capabilities)
      modifies this
      ensures View() == Step(old(View()), Negotiate(host))
      ensures old(bound) ==> caps == old(caps)
      ensures !old(bound) ==>
                && caps.services == host.services && (caps.maxPayload == if 0 < host.maxPayload < 65536 then host.maxPayload else 65536)
                && !(caps.durable || caps.kv || caps.objects || caps.schedule || caps.counters || caps.batch || caps.trace)
    {
      if bound {
        return;
      }
      bound := true;
      caps := Intersect(host, TRANSPORT);
      log := log + [Negotiation(host)];
    }

    method BindHostCallToken(token: string) returns (fault: Option<Fault>)
      modifies this
      ensures View() == Step(old(View()), Bind(token))
      ensures fault.None? <==> hostCallToken == token && IsCanonicalToken(token)
      ensures fault == if !(|token| == 64 && forall i :: 0 <= i < 64 ==> '0' <= token[i] <= '9' || 'a' <= token[i] <= 'f') then Some(Schema)
                       else if old(hostCallToken) in {"", token} then None else Some(Rebound)
      ensures hostCallToken == if fault.None? then token else old(hostCallToken)
    {
      if !IsCanonicalToken(token) {
        return Some(Schema);
      }
      if hostCallToken != "" && hostCallToken != token {
        return Some(Rebound);
      }
      hostCallToken := token;
      log := log + [Binding(token)];
      return None;
    }

    /** A publish violation is recorded against its subject; any other text changes nothing here. */
    method OnPermissionViolation(text: string)
      modifies this
      ensures match ParseViolation(text)
              case Some(Violation(operation, subject)) =>
                View() == if operation == "subscription" then old(View()) else Step(old(View()), Refuse(subject, operation))
              case None => View() == old(View())
      ensures ParseViolation(text).None? || ParseViolation(text).value.operation == "subscription" ==> deniedPublish == old(deniedPublish)
      ensures ParseViolation(text).Some? && ParseViolation(text).value.operation != "subscription" ==>
                deniedPublish == old(deniedPublish)[ParseViolation(text).value.subject := ParseViolation(text).value.operation]
    {
      var violation := ParseViolation(text);
      if violation.None? || violation.value.operation == "subscription" {
        return;
      }
      deniedPublish := deniedPublish[violation.value.subject := violation.value.operation];
      log := log + [Refusal(violation.value.subject)];
    }

    /** The check region of a publish or a request. */
    method CheckDenied(ghost id: nat, subject: string) returns (operation: Option<string>)
      requires id in calls && calls[id].stage == Begun && calls[id].kind in {Kind.Publish, Kind.Request} && calls[id].subject == subject
      modifies this`calls
      ensures View() == Step(old(View()), Check(id))
      ensures operation == if subject in deniedPublish then Some(deniedPublish[subject]) else None
    {
      operation := if subject in deniedPublish then Some(deniedPublish[subject]) else None;
      calls := calls[id := Checking(View(), calls[id])];
    }

    /** The ceiling region of a publish. */
    method CheckSize(ghost id: nat, size: nat) returns (fits: bool)
      requires id in calls && calls[id].stage == Checked && calls[id].kind == Kind.Publish && calls[id].size == size
      modifies this`calls
      ensures View() == Step(old(View()), Size(id))
      ensures fits == Admits(caps, size)
    {
      fits := !(caps.maxPayload > 0 && size > caps.maxPayload);
      calls := calls[id := Sizing(View(), calls[id])];
    }

    /** The stamping region: fills a header map in place. */
    method StampHeader(ghost id: nat, h: HeaderMap, subject: string)
      requires id in calls && CanStamp(calls[id]) && h.entries == calls[id].raw
      requires subject == if calls[id].kind == Kind.Request then calls[id].subject else ""
      modifies this`calls, h
      ensures View() == Step(old(View()), Stamp(id))
      ensures h.entries == Stamped(old(h.entries), subject, hostCallToken)
      ensures id in calls && calls[id] == Stamping(old(View()), old(calls)[id])
    {
      BindHostCallHeader(h, subject, hostCallToken);
      calls := calls[id := Stamping(View(), calls[id])];
    }

    method BeginCall(ghost id: nat, ghost begin: Action)
      requires id !in calls && begin.Begin? && begin.id == id
      modifies this`calls
      ensures View() == Step(old(View()), begin)
    {
      calls := calls[id := Call(begin.kind, begin.subject, begin.raw, begin.extra, begin.size, Begun, map[], |log|, 0, 0, 0)];
    }

    /** Hands the message to the broker client, which may refuse it. */
    method Emit(ghost id: nat, h: HeaderMap, sendFails: bool) returns (fault: Option<Fault>)
      requires id in calls && calls[id].stage == Ready && calls[id].header == h.entries
      modifies this`calls, this`log
      ensures View() == Step(old(View()), if sendFails then Abandon(id) else Send(id))
      ensures fault == if sendFails then Some(Unavailable) else None
      ensures log == if sendFails then old(log) else old(log) + [Sending(old(calls)[id])]
    {
      if sendFails {
        calls := calls[id := calls[id].(stage := Over)];
        return Some(Unavailable);
      }
      log := log + [Sending(calls[id])];
      calls := calls[id := calls[id].(stage := Over)];
      return None;
    }

    /** The last regions of a call: the header is built from the caller's, stamped, given the transport's own, and sent. */
    method PassOn(ghost id: nat, subject: string, headers: map<string, string>, reserved: Reserved,
                  own: string, values: Option<seq<string>>, sendFails: bool)
      returns (fault: Option<Fault>, sent: HeaderMap)
      requires id in calls && CanStamp(calls[id]) && calls[id].raw == WireHeaders(headers, reserved) && calls[id].extra == values
      requires subject == if calls[id].kind == Kind.Request then calls[id].subject else ""
      requires values.Some? ==> own == if calls[id].kind == Kind.Request then SUBJECT_LEASE else NATS_MSG_ID
      requires calls[id].kind == Kind.Respond ==> values.None?
      modifies this`calls, this`log
      ensures View() == Step(Step(old(View()), Stamp(id)), if sendFails then Abandon(id) else Send(id))
      ensures fault == if sendFails then Some(Unavailable) else None
      ensures fault.Some? ==> log == old(log)
      ensures fault.None? ==> IsSent(old(log), log, old(calls[id].kind), old(calls[id].subject), old(calls[id].size), sent.entries)
      ensures sent.entries == OwnHeaders(headers, reserved)
                + (if "cmd.gateway." <= subject && hostCallToken != "" then map["X-Bytedesk-Host-Call" := [hostCallToken]] else map[])
                + (if values.Some? then map[own := values.value] else map[])
    {
      sent := ToNatsHeader(headers, reserved);
      StampHeader(id, sent, subject);
      ghost var stamped := sent.entries;
      if values.Some? {
        sent.SetAll(own, values.value);
      }
      OwnHeadersAreStamped(headers, reserved, subject, hostCallToken);
      SettingAdds(stamped, own, values);
      fault := Emit(id, sent, sendFails);
    }

    /**
     Emits to a subject: refused as not concrete before anything else, refused by record, over budget, or sent with the
     caller's headers stripped of the token and of the reserved ones.
     */
    method Publish(ghost id: nat, subject: string, concrete: bool, headers: map<string, string>, reserved: Reserved,
                   msgId: string, size: nat, sendFails: bool)
      returns (fault: Option<Fault>, sent: HeaderMap?)
      requires id !in calls
      modifies this
      ensures !concrete ==> View() == old(View()) && fault == Some(Malformed)
      ensures concrete ==>
                View() == AfterPublish(old(View()), PublishBegin(id, subject, headers, reserved, msgId, size), sendFails)
      ensures concrete ==>
                fault == if subject in old(deniedPublish) then Some(Fault.Denied(old(deniedPublish)[subject]))
                         else if old(caps.maxPayload) > 0 && size > old(caps.maxPayload) then Some(Budget)
                         else if sendFails then Some(Unavailable) else None
      ensures fault.Some? ==> log == old(log)
      ensures fault.None? ==> sent != null && IsSent(old(log), log, Kind.Publish, subject, size, sent.entries)
      ensures fault.None? ==> sent.entries == OwnHeaders(headers, reserved) + if msgId == "" then map[] else map["Nats-Msg-Id" := [msgId]]
    {
      if !concrete {
        return Some(Malformed), null;
      }
      ghost var begin := PublishBegin(id, subject, headers, reserved, msgId, size);
      BeginCall(id, begin);
      var operation := CheckDenied(id, subject);
      if operation.Some? {
        return Some(Fault.Denied(operation.value)), null;
      }
      var fits := CheckSize(id, size);
      if !fits {
        return Some(Budget), null;
      }
      PlainAdds(OwnHeaders(headers, reserved), hostCallToken);
      fault, sent := PassOn(id, "", headers, reserved, NATS_MSG_ID, if msgId == "" then None else Some([msgId]), sendFails);
    }

    /** Sends and waits for a reply: refused, or sent with the bound token when the subject is the gateway's. */
    method Request(ghost id: nat, subject: string, concrete: bool, headers: map<string, string>, reserved: Reserved,
                   lease: Option<seq<string>>, size: nat, sendFails: bool)
      returns (fault: Option<Fault>, sent: HeaderMap?)
      requires id !in calls
      modifies this
      ensures !concrete ==> View() == old(View()) && fault == Some(Malformed)
      ensures concrete ==>
                View() == AfterRequest(old(View()), RequestBegin(id, subject, headers, reserved, lease, size), sendFails)
      ensures concrete ==>
                fault == if subject in old(deniedPublish) then Some(Fault.Denied(old(deniedPublish)[subject]))
                         else if sendFails then Some(Unavailable) else None
      ensures fault.Some? ==> log == old(log)
      ensures fault.None? ==> sent != null && IsSent(old(log), log, Kind.Request, subject, size, sent.entries)
      ensures fault.None? ==>
                sent.entries == OwnHeaders(headers, reserved)
                  + (if "cmd.gateway." <= subject && hostCallToken != "" then map["X-Bytedesk-Host-Call" := [hostCallToken]] else map[])
                  + (if lease.Some? then map["X-Bytedesk-Subject-Lease" := lease.value] else map[])
    {
      if !concrete {
        return Some(Malformed), null;
      }
      ghost var begin := RequestBegin(id, subject, headers, reserved, lease, size);
      BeginCall(id, begin);
      var operation := CheckDenied(id, subject);
      if operation.Some? {
        return Some(Fault.Denied(operation.value)), null;
      }
      fault, sent := PassOn(id, subject, headers, reserved, SUBJECT_LEASE, lease, sendFails);
    }

    /** Answers an inbound message on its reply subject; never stamped, whatever that subject is. */
    method Respond(ghost id: nat, reply: string, headers: map<string, string>, reserved: Reserved, size: nat, sendFails: bool)
      returns (fault: Option<Fault>, sent: HeaderMap)
      requires id !in calls
      modifies this
      ensures View() == AfterRespond(old(View()), RespondBegin(id, reply, headers, reserved, size), sendFails)
      ensures fault == if sendFails then Some(Unavailable) else None
      ensures fault.Some? ==> log == old(log)
      ensures fault.None? ==> IsSent(old(log), log, Kind.Respond, reply, size, sent.entries)
      ensures fault.None? ==> sent.entries == OwnHeaders(headers, reserved)
    {
      BeginCall(id, RespondBegin(id, reply, headers, reserved, size));
      PlainAdds(OwnHeaders(headers, reserved), hostCallToken);
      fault, sent := PassOn(id, "", headers, reserved, "", None, sendFails);
    }
  }

  // ----- A whole call as a chain of regions -----

  function WireHeaders(headers: map<string, string>, reserved: Reserved): Header {
    map k | k in headers && !reserved(k) :: [headers[k]]
  }

  function PublishBegin(id: nat, subject: string, headers: map<string, string>, reserved: Reserved,
                        msgId: string, size: nat): Action
  {
    Begin(id, Kind.Publish, subject, WireHeaders(headers, reserved), if msgId == "" then None else Some([msgId]), size)
  }

  function RequestBegin(id: nat, subject: string, headers: map<string, string>, reserved: Reserved,
                        lease: Option<seq<string>>, size: nat): Action
  {
    Begin(id, Kind.Request, subject, WireHeaders(headers, reserved), lease, size)
  }

  function AfterPublish(c: Conn, begin: Action, sendFails: bool): Conn
    requires begin.Begin?
  {
    var id := begin.id;
    var checked := Step(Step(c, begin), Check(id));
    if begin.subject in c.denied then checked
    else
      var sized := Step(checked, Size(id));
      if !Admits(c.caps, begin.size) then sized
      else Step(Step(sized, Stamp(id)), if sendFails then Abandon(id) else Send(id))
  }

  function AfterRequest(c: Conn, begin: Action, sendFails: bool): Conn
    requires begin.Begin?
  {
    var id := begin.id;
    var checked := Step(Step(c, begin), Check(id));
    if begin.subject in c.denied then checked
    else Step(Step(checked, Stamp(id)), if sendFails then Abandon(id) else Send(id))
  }

  function RespondBegin(id: nat, reply: string, headers: map<string, string>, reserved: Reserved, size: nat): Action {
    Begin(id, Kind.Respond, reply, WireHeaders(headers, reserved), None, size)
  }

  function AfterRespond(c: Conn, begin: Action, sendFails: bool): Conn
    requires begin.Begin?
  {
    Step(Step(Step(c, begin), Stamp(begin.id)), if sendFails then Abandon(begin.id) else Send(begin.id))
  }

  /** The regions a publish goes through, in order. */
  function PublishRegions(c: Conn, begin: Action, sendFails: bool): seq<Action>
    requires begin.Begin?
  {
    var id := begin.id;
    if begin.subject in c.denied then [begin, Check(id)]
    else if !Admits(c.caps, begin.size) then [begin, Check(id), Size(id)]
    else [begin, Check(id), Size(id), Stamp(id), if sendFails then Abandon(id) else Send(id)]
  }

  function RequestRegions(c: Conn, begin: Action, sendFails: bool): seq<Action>
    requires begin.Begin?
  {
    var id := begin.id;
    if begin.subject in c.denied then [begin, Check(id)]
    else [begin, Check(id), Stamp(id), if sendFails then Abandon(id) else Send(id)]
  }

  function RespondRegions(begin: Action, sendFails: bool): seq<Action>
    requires begin.Begin?
  {
    [begin, Stamp(begin.id), if sendFails then Abandon(begin.id) else Send(begin.id)]
  }

  /** An uninterrupted call is the run of its own regions, in order: one of the runs the histories are about. */
  lemma CallsAreRuns(c: Conn, begin: Action, sendFails: bool)
    requires begin.Begin?
    ensures AfterPublish(c, begin, sendFails) == Run(c, PublishRegions(c, begin, sendFails))
    ensures AfterRequest(c, begin, sendFails) == Run(c, RequestRegions(c, begin, sendFails))
    ensures AfterRespond(c, begin, sendFails) == Run(c, RespondRegions(begin, sendFails))
  {
    var id := begin.id;
    var last := if sendFails then Abandon(id) else Send(id);
    RunsTwo(c, begin, Check(id));
    RunsThree(c, begin, Check(id), Size(id));
    RunsFive(c, begin, Check(id), Size(id), Stamp(id), last);
    RunsFour(c, begin, Check(id), Stamp(id), last);
    RunsThree(c, begin, Stamp(id), last);
  }
}
