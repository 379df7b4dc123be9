/** A refusal of one subject is not felt on any other: what a run does elsewhere is what it would have done without it. */
module TransportIsolation {
  import opened TransportHeaders
  import opened TransportRuns
  import opened TransportHistory

  predicate Refuses(a: Action, subject: string) { a.Refuse? && a.subject == subject }

  /** The run with every refusal of the subject taken out. */
  function Spared(actions: seq<Action>, subject: string): seq<Action> {
    if actions == [] then []
    else (if Refuses(actions[0], subject) then [] else [actions[0]]) + Spared(actions[1..], subject)
  }

  datatype Message = Message(kind: Kind, subject: string, header: Header, size: nat)

  function MessageOf(call: Call): Message { Message(call.kind, call.subject, call.header, call.size) }

  function Elsewhere(e: Event, subject: string): seq<Message> {
    if e.Sending? && !Guarded(e.call, subject) then [MessageOf(e.call)] else []
  }

  /** The messages sent, in order, except the publishes and requests on the subject. */
  function SentElsewhere(log: seq<Event>, subject: string): seq<Message> {
    if log == [] then []
    else SentElsewhere(log[..|log| - 1], subject) + Elsewhere(log[|log| - 1], subject)
  }

  ghost predicate AlikeCalls(a: Call, b: Call, subject: string) {
    && a.kind == b.kind && a.subject == b.subject && a.raw == b.raw && a.extra == b.extra && a.size == b.size
    && (!Guarded(a, subject) ==> a.stage == b.stage && a.header == b.header)
  }

  /** What the two connections answer to a call that is not one of those on the subject. */
  ghost predicate AlikeState(c: Conn, d: Conn, subject: string) {
    && c.caps == d.caps && c.bound == d.bound && c.token == d.token
    && (forall t :: t != subject ==> (t in c.denied <==> t in d.denied))
  }

  ghost predicate AlikeAll(a: map<nat, Call>, b: map<nat, Call>, subject: string) {
    a.Keys == b.Keys && forall id :: id in a ==> AlikeCalls(a[id], b[id], subject)
  }

  /** Two connections that differ in refusals of the subject and in the publishes and requests on it, and no further. */
  ghost predicate Alike(c: Conn, d: Conn, subject: string) {
    AlikeState(c, d, subject) && AlikeAll(c.calls, d.calls, subject) && SentElsewhere(c.log, subject) == SentElsewhere(d.log, subject)
  }

  lemma SentSnoc(log: seq<Event>, e: Event, subject: string)
    ensures SentElsewhere(log + [e], subject) == SentElsewhere(log, subject) + Elsewhere(e, subject)
  {
    assert (log + [e])[..|log|] == log;
  }

  lemma CheckingAlike(c: Conn, d: Conn, a: Call, b: Call, subject: string)
    requires AlikeState(c, d, subject) && AlikeCalls(a, b, subject)
    ensures AlikeCalls(Checking(c, a), Checking(d, b), subject)
  {
  }

  lemma SizingAlike(c: Conn, d: Conn, a: Call, b: Call, subject: string)
    requires AlikeState(c, d, subject) && AlikeCalls(a, b, subject)
    ensures AlikeCalls(Sizing(c, a), Sizing(d, b), subject)
  {
  }

  lemma StampingAlike(c: Conn, d: Conn, a: Call, b: Call, subject: string)
    requires AlikeState(c, d, subject) && AlikeCalls(a, b, subject)
    ensures AlikeCalls(Stamping(c, a), Stamping(d, b), subject)
  {
    assert a.kind == b.kind && a.raw == b.raw && a.extra == b.extra && a.subject == b.subject;
    assert HeaderOf(a, c.token) == HeaderOf(b, d.token);
  }

  lemma MovedAlike(a: map<nat, Call>, b: map<nat, Call>, id: nat, x: Call, y: Call, subject: string)
    requires AlikeAll(a, b, subject) && AlikeCalls(x, y, subject)
    ensures AlikeAll(a[id := x], b[id := y], subject)
  {
  }

  lemma RegionAlike(c: Conn, d: Conn, a: Action, subject: string)
    requires Alike(c, d, subject) && (a.Check? || a.Size? || a.Stamp? || a.Abandon?)
    ensures Alike(Step(c, a), Step(d, a), subject)
  {
    var id := a.id;
    if id in c.calls {
      var x, y := c.calls[id], d.calls[id];
      CheckingAlike(c, d, x, y, subject);
      SizingAlike(c, d, x, y, subject);
      StampingAlike(c, d, x, y, subject);
      MovedAlike(c.calls, d.calls, id, Step(c, a).calls[id], Step(d, a).calls[id], subject);
    }
  }

  lemma BeginAlike(c: Conn, d: Conn, a: Action, subject: string)
    requires Alike(c, d, subject) && a.Begin?
    ensures Alike(Step(c, a), Step(d, a), subject)
  {
    if a.id !in c.calls {
      MovedAlike(c.calls, d.calls, a.id, Step(c, a).calls[a.id], Step(d, a).calls[a.id], subject);
    }
  }

  /** What sending a call adds to the messages elsewhere. */
  function SendingAdds(call: Call, subject: string): seq<Message> {
    if CanSend(call) then Elsewhere(Sending(call), subject) else []
  }

  lemma SendingAlike(a: Call, b: Call, subject: string)
    requires AlikeCalls(a, b, subject)
    ensures SendingAdds(a, subject) == SendingAdds(b, subject)
  {
  }

  lemma SendAdds(c: Conn, id: nat, subject: string)
    requires id in c.calls
    ensures SentElsewhere(Step(c, Send(id)).log, subject) == SentElsewhere(c.log, subject) + SendingAdds(c.calls[id], subject)
  {
    SentSnoc(c.log, Sending(c.calls[id]), subject);
  }

  lemma SendAlike(c: Conn, d: Conn, id: nat, subject: string)
    requires Alike(c, d, subject)
    ensures Alike(Step(c, Send(id)), Step(d, Send(id)), subject)
  {
    if id in c.calls {
      var x, y := c.calls[id], d.calls[id];
      SendingAlike(x, y, subject);
      SendAdds(c, id, subject);
      SendAdds(d, id, subject);
      var x' := if CanSend(x) then x.(stage := Over) else x;
      var y' := if CanSend(y) then y.(stage := Over) else y;
      assert c.calls[id := x] == c.calls && d.calls[id := y] == d.calls;
      assert Step(c, Send(id)).calls == c.calls[id := x'] && Step(d, Send(id)).calls == d.calls[id := y'];
      MovedAlike(c.calls, d.calls, id, x', y', subject);
    }
  }

  function Noticed(a: Action): Event
    requires a.Refuse? || a.Negotiate? || a.Bind?
  {
    if a.Refuse? then Refusal(a.subject) else if a.Negotiate? then Negotiation(a.host) else Binding(a.token)
  }

  lemma NoticeAlike(c: Conn, d: Conn, a: Action, subject: string)
    requires Alike(c, d, subject) && (a.Refuse? || a.Negotiate? || a.Bind?)
    ensures Alike(Step(c, a), Step(d, a), subject)
    ensures Refuses(a, subject) ==> Alike(Step(c, a), d, subject)
  {
    SentSnoc(c.log, Noticed(a), subject);
    SentSnoc(d.log, Noticed(a), subject);
  }

  lemma StepAlike(c: Conn, d: Conn, a: Action, subject: string)
    requires Alike(c, d, subject)
    ensures Alike(Step(c, a), Step(d, a), subject)
    ensures Refuses(a, subject) ==> Alike(Step(c, a), d, subject)
  {
    if a.Begin? {
      BeginAlike(c, d, a, subject);
    } else if a.Send? {
      SendAlike(c, d, a.id, subject);
    } else if a.Refuse? || a.Negotiate? || a.Bind? {
      NoticeAlike(c, d, a, subject);
    } else {
      RegionAlike(c, d, a, subject);
    }
  }

  lemma {:induction false} RunAlike(c: Conn, d: Conn, actions: seq<Action>, subject: string)
    requires Alike(c, d, subject)
    ensures Alike(Run(c, actions), Run(d, Spared(actions, subject)), subject)
    decreases |actions|
  {
    if actions != [] {
      var a, spared := actions[0], Spared(actions[1..], subject);
      StepAlike(c, d, a, subject);
      if Refuses(a, subject) {
        assert [] + spared == spared;
        RunAlike(Step(c, a), d, actions[1..], subject);
      } else {
        assert ([a] + spared)[0] == a && ([a] + spared)[1..] == spared;
        RunAlike(Step(c, a), Step(d, a), actions[1..], subject);
      }
    }
  }

  /**
   For any run, taking out every refusal of a subject changes neither capabilities nor token, nor the stage and header
   of any call but the publishes and requests on that subject, nor the messages sent elsewhere and their order.
   */
  lemma RefusalSparesOthers(actions: seq<Action>, subject: string)
    ensures var c, d := Run(DIALED, actions), Run(DIALED, Spared(actions, subject));
            && c.caps == d.caps && c.token == d.token && c.calls.Keys == d.calls.Keys
            && (forall id :: id in c.calls && !Guarded(c.calls[id], subject) ==>
                  d.calls[id].stage == c.calls[id].stage && d.calls[id].header == c.calls[id].header)
            && SentElsewhere(c.log, subject) == SentElsewhere(d.log, subject)
  {
    RunAlike(DIALED, DIALED, actions, subject);
  }

  /** In particular, one refusal leaves the next check of every other subject as it was. */
  lemma CheckSparesOthers(c: Conn, subject: string, operation: string, call: Call)
    requires call.subject != subject
    ensures Checking(Step(c, Refuse(subject, operation)), call).stage == Checking(c, call).stage
  {
    StepAlike(c, c, Refuse(subject, operation), subject);
    CheckingAlike(Step(c, Refuse(subject, operation)), c, call, call, subject);
  }
}
