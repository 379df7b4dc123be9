/** The command loop of one connection, and its effect on every connection of the broker. */
module BrokerServing {
  import opened Decimals
  import opened Texts
  import opened Subjects
  import opened Wire
  import opened BrokerHeaders
  import opened BrokerPeers

  /** Answers one request from its subject, headers and body; None sends no reply. */
  type Responder = (string, map<string, string>, string) -> Option<string>

  datatype Policy = Policy(refuse: string, violateOn: string, responders: map<string, Responder>, lower: Lowering)

  predicate Violates(policy: Policy, subject: string) { policy.violateOn != "" && policy.violateOn == subject }

  /** Whether a publish is handed to a responder instead of being routed. */
  predicate Answered(policy: Policy, subject: string, reply: string) { reply != "" && subject in policy.responders }

  predicate Routed(policy: Policy, e: Effect) {
    e.Published? && !Violates(policy, e.subject) && !Answered(policy, e.subject, e.reply)
  }

  // ----- What a stream amounts to -----

  /** The effects a connection carries out: all of the stream's, or those through a refused CONNECT. */
  function Handled(policy: Policy, input: string): (seq<Effect>, bool)
    decreases |input|
  {
    match TakeNext(input)
    case End => ([], false)
    case Crash => ([], true)
    case Took(effect, rest) =>
      if effect.Connected? && policy.refuse != "" then ([effect], false)
      else
        var (more, crashed) := Handled(policy, rest);
        ([effect] + more, crashed)
  }

  lemma {:induction false} HandledIsParsed(policy: Policy, input: string)
    requires policy.refuse == ""
    ensures Handled(policy, input) == ParseStream(input)
    decreases |input|
  {
    if TakeNext(input).Took? {
      HandledIsParsed(policy, TakeNext(input).rest);
    }
  }

  /** A client's well-formed commands are carried out one for one, whatever bytes they carry. */
  lemma SpelledIsHandled(policy: Policy, cs: seq<Command>)
    requires policy.refuse == "" && forall i :: 0 <= i < |cs| ==> WellFormed(cs[i])
    ensures Handled(policy, SpellAll(cs)) == (Meanings(cs), false)
  {
    StreamRoundTrip(cs);
    HandledIsParsed(policy, SpellAll(cs));
  }

  function SubsAfter(policy: Policy, subs: map<string, Sub>, e: Effect): map<string, Sub> {
    match e
    case Subscribed(sid, subject, queue) => if Violates(policy, subject) then subs else subs[sid := Listening(subject, queue)]
    case Unsubscribed(sid) => subs - {sid}
    case _ => subs
  }

  function SubsAfterAll(policy: Policy, subs: map<string, Sub>, es: seq<Effect>): map<string, Sub>
    decreases |es|
  {
    if es == [] then subs else SubsAfterAll(policy, SubsAfter(policy, subs, es[0]), es[1..])
  }

  /** What one effect of a connection delivers to another connection with the given subscriptions. */
  ghost function Reaching(policy: Policy, subs: map<string, Sub>, e: Effect): multiset<Frame> {
    if Routed(policy, e) then MessagesFor(subs, e.subject, e.reply, e.body) else multiset{}
  }

  ghost function ReachingAll(policy: Policy, subs: map<string, Sub>, es: seq<Effect>): multiset<Frame> {
    if es == [] then multiset{} else Reaching(policy, subs, es[0]) + ReachingAll(policy, subs, es[1..])
  }

  // ----- Reading -----

  method TakePublish(r: Reader, head: string, withHeaders: bool) returns (crashed: bool, effect: Effect)
    modifies r
    ensures match TakePub(head, withHeaders, old(r.data))
            case End => false
            case Crash => crashed
            case Took(e, rest) => !crashed && effect == e && r.data == rest
  {
    var declared := DeclaredBy(Fields(head), withHeaders);
    if declared.None? {
      return false, Nothing;
    }
    var d := declared.value;
    if d.total + 2 < 0 || d.total + 2 > MAX_INT {
      return true, Nothing;
    }
    var input := r.data;
    var buf := new char[d.total + 2];
    var n, eof := ReadFull(r, buf);
    if eof {
      return false, Nothing;
    }
    if d.total < 0 {
      return true, Nothing;
    }
    assert input == buf[..] + r.data;
    assert input[..d.total] == buf[..d.total] && input[d.total + 2..] == r.data;
    var body := buf[..d.total];
    var header := "";
    if withHeaders && d.headerLength > 0 && d.headerLength <= |body| {
      header, body := body[..d.headerLength], body[d.headerLength..];
    }
    return false, Published(d.subject, d.reply, header, body);
  }

  /** Reads one command; the stream is over, or ill-framed beyond recovery, or an effect has been taken. */
  method ReadCommand(r: Reader) returns (over: bool, crashed: bool, effect: Effect)
    modifies r
    ensures match TakeNext(old(r.data))
            case End => over
            case Crash => !over && crashed
            case Took(e, rest) => !over && !crashed && effect == e && r.data == rest
  {
    over, crashed, effect := false, false, Nothing;
    var line, eof := r.ReadLine();
    if eof {
      return true, false, Nothing;
    }
    line := TrimEnd(line);
    if line == "" {
      return;
    }
    var verb, head := Upper(Before(line, ' ')), After(line, ' ');
    if verb == "CONNECT" {
      effect := Connected;
    } else if verb == "PING" {
      effect := Pinged;
    } else if verb == "SUB" {
      effect := TakeSub(head);
    } else if verb == "UNSUB" {
      effect := Unsubscribed(Before(head, ' '));
    } else if verb == "PUB" {
      crashed, effect := TakePublish(r, head, false);
    } else if verb == "HPUB" {
      crashed, effect := TakePublish(r, head, true);
    }
  }

  // ----- Acting -----

  /** Answers on the connection that asked: at most one message, to one of its matching subscriptions. */
  method Deliver(me: Peer, reply: string, body: string)
    modifies me`out
    ensures Matching(me.subs, reply) == {} ==> me.out == old(me.out)
    ensures Matching(me.subs, reply) != {} ==>
              exists sid :: sid in Matching(me.subs, reply) && me.out == old(me.out) + [Message(reply, sid, "", body)]
  {
    var pending := me.subs.Keys;
    while pending != {}
      invariant pending <= me.subs.Keys && me.out == old(me.out)
      invariant Matching(me.subs, reply) <= pending
      decreases |pending|
    {
      var sid :| sid in pending;
      var hit := Matches(me.subs[sid].subject, reply);
      if hit {
        me.out := me.out + [Message(reply, sid, "", body)];
        return;
      }
      pending := pending - {sid};
    }
  }

  /** The one answer a responder's reply becomes: a message to some subscription that matches it, if there is any. */
  ghost predicate Replied(subs: map<string, Sub>, reply: string, answer: Option<string>, before: seq<Frame>, after: seq<Frame>) {
    if answer.None? || Matching(subs, reply) == {} then after == before
    else exists sid :: sid in Matching(subs, reply) && after == before + [Message(reply, sid, "", answer.value)]
  }

  /** What one effect of a connection writes to that connection itself. */
  ghost predicate Writes(policy: Policy, subs: map<string, Sub>, e: Effect, before: seq<Frame>, after: seq<Frame>) {
    match e
    case Connected => after == before + if policy.refuse != "" then [Line("-ERR '" + policy.refuse + "'")] else []
    case Pinged => after == before + [Line("PONG")]
    case Subscribed(_, subject, _) => after == before + if Violates(policy, subject) then [Violation("Subscription", subject)] else []
    case Published(subject, reply, header, body) =>
      if Violates(policy, subject) then after == before + [Violation("Publish", subject)]
      else if Answered(policy, subject, reply) then
        Replied(subs, reply, policy.responders[subject](subject, ParseHeaders(policy.lower, header), body), before, after)
      else Grew(before, after, MessagesFor(subs, subject, reply, body))
    case _ => after == before
  }

  method HandlePub(me: Peer, peers: seq<Peer>, policy: Policy, e: Effect)
    requires Distinct(peers) && me in peers && e.Published?
    modifies (set p <- peers :: p)`out
    ensures forall p :: p in peers && p != me ==> Grew(old(p.out), p.out, Reaching(policy, p.subs, e))
    ensures Writes(policy, me.subs, e, old(me.out), me.out)
  {
    if Violates(policy, e.subject) {
      me.out := me.out + [Violation("Publish", e.subject)];
    } else if Answered(policy, e.subject, e.reply) {
      var headers := ParseHeaderBlock(policy.lower, e.header);
      var answer := policy.responders[e.subject](e.subject, headers, e.body);
      if answer.Some? {
        Deliver(me, e.reply, answer.value);
      }
    } else {
      Route(peers, e.subject, e.reply, e.body);
    }
  }

  /** Every effect but a publish concerns only the connection it came from. */
  method HandleOwn(me: Peer, policy: Policy, e: Effect)
    requires !e.Published?
    modifies me
    ensures me.subs == SubsAfter(policy, old(me.subs), e)
    ensures Writes(policy, old(me.subs), e, old(me.out), me.out)
  {
    match e {
      case Connected =>
        if policy.refuse != "" {
          me.out := me.out + [Line("-ERR '" + policy.refuse + "'")];
        }
      case Pinged => me.out := me.out + [Line("PONG")];
      case Subscribed(sid, subject, queue) =>
        if Violates(policy, subject) {
          me.out := me.out + [Violation("Subscription", subject)];
        } else {
          me.subs := me.subs[sid := Listening(subject, queue)];
        }
      case Unsubscribed(sid) => me.subs := me.subs - {sid};
      case Nothing =>
    }
  }

  method Handle(me: Peer, peers: seq<Peer>, policy: Policy, e: Effect)
    requires Distinct(peers) && me in peers
    modifies set p <- peers :: p
    ensures me.subs == SubsAfter(policy, old(me.subs), e)
    ensures Writes(policy, old(me.subs), e, old(me.out), me.out)
    ensures forall p :: p in peers && p != me ==> p.subs == old(p.subs) && Grew(old(p.out), p.out, Reaching(policy, p.subs, e))
  {
    if e.Published? {
      HandlePub(me, peers, policy, e);
    } else {
      HandleOwn(me, policy, e);
    }
  }

  lemma GrewTwice(a: seq<Frame>, b: seq<Frame>, c: seq<Frame>, x: multiset<Frame>, y: multiset<Frame>)
    requires Grew(a, b, x) && Grew(b, c, y)
    ensures Grew(a, c, x + y)
  {
  }

  lemma {:induction false} EffectsSnoc(policy: Policy, subs: map<string, Sub>, es: seq<Effect>, e: Effect)
    ensures SubsAfterAll(policy, subs, es + [e]) == SubsAfter(policy, SubsAfterAll(policy, subs, es), e)
    ensures ReachingAll(policy, subs, es + [e]) == ReachingAll(policy, subs, es) + Reaching(policy, subs, e)
    decreases |es|
  {
    if es == [] {
      assert es + [e] == [e] && [e][1..] == [];
    } else {
      assert (es + [e])[1..] == es[1..] + [e];
      EffectsSnoc(policy, SubsAfter(policy, subs, es[0]), es[1..], e);
      EffectsSnoc(policy, subs, es[1..], e);
    }
  }

  /** What a run of effects of a connection writes to that connection itself, one effect after the other. */
  ghost predicate WritesAll(policy: Policy, subs: map<string, Sub>, es: seq<Effect>, before: seq<Frame>, after: seq<Frame>)
    decreases |es|
  {
    if es == [] then after == before
    else
      var most, last := es[..|es| - 1], es[|es| - 1];
      exists between :: WritesAll(policy, subs, most, before, between)
                        && Writes(policy, SubsAfterAll(policy, subs, most), last, between, after)
  }

  lemma WritesSnoc(policy: Policy, subs: map<string, Sub>, es: seq<Effect>, e: Effect,
                   before: seq<Frame>, between: seq<Frame>, after: seq<Frame>)
    requires WritesAll(policy, subs, es, before, between)
    requires Writes(policy, SubsAfterAll(policy, subs, es), e, between, after)
    ensures WritesAll(policy, subs, es + [e], before, after)
  {
    assert (es + [e])[..|es|] == es;
  }

  /** The effects done so far, and those still to be read, are all of the stream's. */
  ghost predicate Accounts(policy: Policy, input: string, done: seq<Effect>, rest: string) {
    Handled(policy, input) == (done + Handled(policy, rest).0, Handled(policy, rest).1)
  }

  lemma SplitStarts(policy: Policy, input: string)
    ensures Accounts(policy, input, [], input)
  {
    assert [] + Handled(policy, input).0 == Handled(policy, input).0;
  }

  lemma SplitEnds(policy: Policy, input: string, done: seq<Effect>, rest: string)
    requires Accounts(policy, input, done, rest) && !TakeNext(rest).Took?
    ensures Handled(policy, input) == (done, TakeNext(rest).Crash?)
  {
    assert done + [] == done;
  }

  lemma SplitSteps(policy: Policy, input: string, done: seq<Effect>, rest: string)
    requires Accounts(policy, input, done, rest) && TakeNext(rest).Took?
    ensures var Took(effect, next) := TakeNext(rest);
            if effect.Connected? && policy.refuse != "" then Handled(policy, input) == (done + [effect], false)
            else Accounts(policy, input, done + [effect], next)
  {
    var next := TakeNext(rest);
    assert done + ([next.effect] + Handled(policy, next.rest).0) == done + [next.effect] + Handled(policy, next.rest).0;
  }

  /** The subscriptions and outputs of some peers at a moment. */
  datatype Moment = Moment(subs: map<Peer, map<string, Sub>>, out: map<Peer, seq<Frame>>)

  ghost predicate Taken(start: Moment, peers: seq<Peer>) {
    forall p :: p in peers ==> p in start.subs && p in start.out
  }

  /** Since the given moment, the effects done so far have had exactly their consequences. */
  ghost predicate Progress(start: Moment, me: Peer, peers: seq<Peer>, policy: Policy, done: seq<Effect>)
    requires me in peers && Taken(start, peers)
    reads peers
  {
    && me.subs == SubsAfterAll(policy, start.subs[me], done)
    && WritesAll(policy, start.subs[me], done, start.out[me], me.out)
    && forall p :: p in peers && p != me ==>
         p.subs == start.subs[p] && Grew(start.out[p], p.out, ReachingAll(policy, p.subs, done))
  }

  method Act(me: Peer, peers: seq<Peer>, policy: Policy, e: Effect, ghost start: Moment, ghost done: seq<Effect>)
    requires Distinct(peers) && me in peers && Taken(start, peers) && Progress(start, me, peers, policy, done)
    modifies set p <- peers :: p
    ensures Progress(start, me, peers, policy, done + [e])
  {
    EffectsSnoc(policy, start.subs[me], done, e);
    Handle(me, peers, policy, e);
    WritesSnoc(policy, start.subs[me], done, e, start.out[me], old(me.out), me.out);
    forall p | p in peers && p != me
      ensures p.subs == start.subs[p] && Grew(start.out[p], p.out, ReachingAll(policy, p.subs, done + [e]))
    {
      EffectsSnoc(policy, p.subs, done, e);
      GrewTwice(start.out[p], old(p.out), p.out, ReachingAll(policy, p.subs, done), Reaching(policy, p.subs, e));
    }
  }

  /** Reads one command and acts on it; more is false once the loop must stop. */
  method ServeOne(me: Peer, peers: seq<Peer>, policy: Policy, r: Reader, ghost start: Moment, ghost input: string, ghost done: seq<Effect>)
    returns (more: bool, crashed: bool, ghost done': seq<Effect>)
    requires Distinct(peers) && me in peers && Taken(start, peers)
    requires Accounts(policy, input, done, r.data) && Progress(start, me, peers, policy, done)
    modifies r, set p <- peers :: p
    ensures Progress(start, me, peers, policy, done')
    ensures more ==> Accounts(policy, input, done', r.data) && |r.data| < |old(r.data)|
    ensures !more ==> Handled(policy, input) == (done', crashed)
  {
    ghost var rest := r.data;
    var over, crash, effect := ReadCommand(r);
    if over || crash {
      SplitEnds(policy, input, done, rest);
      return false, crash && !over, done;
    }
    SplitSteps(policy, input, done, rest);
    Act(me, peers, policy, effect, start, done);
    return !(effect.Connected? && policy.refuse != ""), false, done + [effect];
  }

  method ServeAll(me: Peer, peers: seq<Peer>, policy: Policy, r: Reader, ghost start: Moment) returns (crashed: bool)
    requires Distinct(peers) && me in peers && Taken(start, peers)
    requires Progress(start, me, peers, policy, [])
    modifies r, set p <- peers :: p
    ensures crashed == Handled(policy, old(r.data)).1
    ensures Progress(start, me, peers, policy, Handled(policy, old(r.data)).0)
  {
    ghost var input, done := r.data, [];
    SplitStarts(policy, input);
    var more := true;
    crashed := false;
    while more
      invariant Progress(start, me, peers, policy, done)
      invariant more ==> Accounts(policy, input, done, r.data)
      invariant !more ==> Handled(policy, input) == (done, crashed)
      decreases more, |r.data|
    {
      more, crashed, done := ServeOne(me, peers, policy, r, start, input, done);
    }
  }

  /**
   Serves a whole stream: this connection's subscriptions end as the stream's SUBs and UNSUBs leave them, it has been
   written what each of its commands calls for in turn, and every other connection has received, for each publish
   routed, one message per matching subscription and nothing else.
   */
  method Serve(me: Peer, peers: seq<Peer>, policy: Policy, r: Reader) returns (crashed: bool)
    requires Distinct(peers) && me in peers
    modifies r, set p <- peers :: p
    ensures crashed == Handled(policy, old(r.data)).1
    ensures me.subs == SubsAfterAll(policy, old(me.subs), Handled(policy, old(r.data)).0)
    ensures WritesAll(policy, old(me.subs), Handled(policy, old(r.data)).0, old(me.out), me.out)
    ensures forall p :: p in peers && p != me ==>
              p.subs == old(p.subs) && Grew(old(p.out), p.out, ReachingAll(policy, p.subs, Handled(policy, old(r.data)).0))
  {
    ghost var start := Moment(map p <- peers :: p.subs, map p <- peers :: p.out);
    crashed := ServeAll(me, peers, policy, r, start);
  }
}
