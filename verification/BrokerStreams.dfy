/** What serving a stream of effects amounts to, told by the positions of the effects. */
module BrokerStreams {
  import opened Texts
  import opened Subjects
  import opened Wire
  import opened BrokerPeers
  import opened BrokerHeaders
  import opened BrokerServing

  // ----- Subscriptions -----

  predicate Refused(policy: Policy, subject: string) { policy.violateOn != "" && subject == policy.violateOn }

  /** The effect subscribes the id, and is not refused. */
  predicate Opens(policy: Policy, e: Effect, sid: string) { e.Subscribed? && e.sid == sid && !Refused(policy, e.subject) }

  predicate Closes(e: Effect, sid: string) { e.Unsubscribed? && e.sid == sid }

  predicate Touches(policy: Policy, e: Effect, sid: string) { Opens(policy, e, sid) || Closes(e, sid) }

  /** The effect at n is the last one to touch the id. */
  ghost predicate LastTouch(policy: Policy, es: seq<Effect>, sid: string, n: nat) {
    n < |es| && Touches(policy, es[n], sid) && forall k :: n < k < |es| ==> !Touches(policy, es[k], sid)
  }

  /** After the effects the id is subscribed to that subject and queue: its last touch says so, or it was before and has none. */
  ghost predicate LiveAs(policy: Policy, subs: map<string, Sub>, es: seq<Effect>, sid: string, sub: Sub) {
    || (exists n: nat :: LastTouch(policy, es, sid, n) && es[n] == Subscribed(sid, sub.subject, sub.queue))
    || ((forall k :: 0 <= k < |es| ==> !Touches(policy, es[k], sid)) && sid in subs && subs[sid] == sub)
  }

  lemma LastTouchGrows(policy: Policy, es: seq<Effect>, e: Effect, sid: string, n: nat)
    requires !Touches(policy, e, sid) && n < |es|
    ensures LastTouch(policy, es + [e], sid, n) <==> LastTouch(policy, es, sid, n)
  {
    assert forall k :: 0 <= k < |es| ==> (es + [e])[k] == es[k];
    if LastTouch(policy, es + [e], sid, n) {
      assert forall k :: n < k < |es| ==> !Touches(policy, (es + [e])[k], sid);
    }
  }

  lemma LiveSnoc(policy: Policy, subs: map<string, Sub>, es: seq<Effect>, e: Effect, sid: string, sub: Sub)
    ensures LiveAs(policy, subs, es + [e], sid, sub) <==>
              if Touches(policy, e, sid) then e == Subscribed(sid, sub.subject, sub.queue) else LiveAs(policy, subs, es, sid, sub)
  {
    var all := es + [e];
    assert all[|es|] == e && forall k :: 0 <= k < |es| ==> all[k] == es[k];
    if Touches(policy, e, sid) {
      assert LastTouch(policy, all, sid, |es|);
      assert forall n: nat :: LastTouch(policy, all, sid, n) ==> n == |es|;
    } else {
      forall n: nat | n < |es|
        ensures LastTouch(policy, all, sid, n) <==> LastTouch(policy, es, sid, n)
      {
        LastTouchGrows(policy, es, e, sid, n);
      }
      assert forall n: nat :: LastTouch(policy, all, sid, n) ==> n < |es|;
      assert (forall k :: 0 <= k < |all| ==> !Touches(policy, all[k], sid))
        <==> forall k :: 0 <= k < |es| ==> !Touches(policy, es[k], sid);
    }
  }

  lemma SubscribedByOne(policy: Policy, subs: map<string, Sub>, e: Effect, sid: string, sub: Sub)
    ensures var after := SubsAfter(policy, subs, e);
            sid in after && after[sid] == sub <==>
              if Touches(policy, e, sid) then e == Subscribed(sid, sub.subject, sub.queue) else sid in subs && subs[sid] == sub
  {
  }

  /** After a stream an id is subscribed exactly when its last unrefused SUB or UNSUB is a SUB, and then as that SUB says. */
  lemma {:induction false} SubscribedByLast(policy: Policy, subs: map<string, Sub>, es: seq<Effect>, sid: string, sub: Sub)
    ensures var after := SubsAfterAll(policy, subs, es);
            sid in after && after[sid] == sub <==> LiveAs(policy, subs, es, sid, sub)
    decreases |es|
  {
    if es != [] {
      var most, last := es[..|es| - 1], es[|es| - 1];
      assert most + [last] == es;
      SubscribedByLast(policy, subs, most, sid, sub);
      SubscribedByOne(policy, SubsAfterAll(policy, subs, most), last, sid, sub);
      EffectsSnoc(policy, subs, most, last);
      LiveSnoc(policy, subs, most, last, sid, sub);
    }
  }

  /** The subscriptions that the effects leave. */
  ghost predicate AreLive(policy: Policy, subs: map<string, Sub>, es: seq<Effect>, live: map<string, Sub>) {
    forall sid, sub :: sid in live && live[sid] == sub <==> LiveAs(policy, subs, es, sid, sub)
  }

  lemma LeftAreLive(policy: Policy, subs: map<string, Sub>, es: seq<Effect>)
    ensures AreLive(policy, subs, es, SubsAfterAll(policy, subs, es))
  {
    forall sid, sub {
      SubscribedByLast(policy, subs, es, sid, sub);
    }
  }

  // ----- What each effect writes -----

  /** The message of one publish to one subscription that matches it. */
  predicate IsDelivery(live: map<string, Sub>, e: Effect, f: Frame)
    requires e.Published?
  {
    f.Message? && f.sid in live && SubjectMatches(live[f.sid].subject, e.subject)
    && f.subject == e.subject && f.reply == e.reply && f.body == e.body
  }

  /** What one effect writes to its own connection, with the subscriptions it has then. */
  ghost predicate Caused(policy: Policy, live: map<string, Sub>, e: Effect, chunk: seq<Frame>) {
    && (e.Pinged? ==> chunk == [Line("PONG")])
    && (e.Nothing? || e.Unsubscribed? ==> chunk == [])
    && (e.Connected? && policy.refuse == "" ==> chunk == [])
    && (e.Connected? && policy.refuse != "" ==> chunk == [Line("-ERR '" + policy.refuse + "'")])
    && (e.Subscribed? ==> chunk == if Refused(policy, e.subject) then [Violation("Subscription", e.subject)] else [])
    && (e.Published? ==>
          if Refused(policy, e.subject) then chunk == [Violation("Publish", e.subject)]
          else if e.reply != "" && e.subject in policy.responders then
            var answer := policy.responders[e.subject](e.subject, ParseHeaders(policy.lower, e.header), e.body);
            if answer.Some? && exists sid :: sid in live && SubjectMatches(live[sid].subject, e.reply) then
              exists sid :: sid in live && SubjectMatches(live[sid].subject, e.reply) && chunk == [Message(e.reply, sid, "", answer.value)]
            else chunk == []
          else forall f :: multiset(chunk)[f] == if IsDelivery(live, e, f) then 1 else 0)
  }

  lemma GrewMeans(before: seq<Frame>, after: seq<Frame>, added: multiset<Frame>)
    requires Grew(before, after, added)
    ensures |before| <= |after| && multiset(after[|before|..]) == added
  {
    var appended := after[|before|..];
    assert after == before + appended;
    assert multiset(after) == multiset(before) + multiset(appended);
    assert forall f :: multiset(appended)[f] == multiset(after)[f] - multiset(before)[f] == added[f];
  }

  lemma MessagesCount(live: map<string, Sub>, e: Effect, f: Frame)
    requires e.Published?
    ensures MessagesFor(live, e.subject, e.reply, e.body)[f] == if IsDelivery(live, e, f) then 1 else 0
  {
    var frames := set sid | sid in Matching(live, e.subject) :: Message(e.subject, sid, e.reply, e.body);
    assert MessagesFor(live, e.subject, e.reply, e.body) == multiset(frames);
    if IsDelivery(live, e, f) {
      assert f.sid in Matching(live, e.subject);
    }
    assert f in frames <==> IsDelivery(live, e, f);
  }

  lemma WritesIsCaused(policy: Policy, live: map<string, Sub>, e: Effect, before: seq<Frame>, after: seq<Frame>)
    requires Writes(policy, live, e, before, after)
    ensures before <= after && Caused(policy, live, e, after[|before|..])
  {
    if Routed(policy, e) {
      GrewMeans(before, after, MessagesFor(live, e.subject, e.reply, e.body));
      forall f {
        MessagesCount(live, e, f);
      }
    } else if e.Published? && !Violates(policy, e.subject) {
      assert forall sid :: sid in Matching(live, e.reply) <==> sid in live && SubjectMatches(live[sid].subject, e.reply);
    }
  }

  /** The effect wrote exactly the chunk, with the subscriptions that its predecessors left. */
  ghost predicate Wrote(policy: Policy, subs: map<string, Sub>, earlier: seq<Effect>, e: Effect, chunk: seq<Frame>) {
    exists live :: AreLive(policy, subs, earlier, live) && Caused(policy, live, e, chunk)
  }

  lemma WritesIsWrote(policy: Policy, subs: map<string, Sub>, es: seq<Effect>, e: Effect, before: seq<Frame>, after: seq<Frame>)
    requires Writes(policy, SubsAfterAll(policy, subs, es), e, before, after)
    ensures before <= after && Wrote(policy, subs, es, e, after[|before|..])
  {
    WritesIsCaused(policy, SubsAfterAll(policy, subs, es), e, before, after);
    LeftAreLive(policy, subs, es);
  }

  /** The output is one chunk for each effect, in the effects' order. */
  ghost predicate Written(policy: Policy, subs: map<string, Sub>, es: seq<Effect>, output: seq<Frame>)
    decreases |es|
  {
    if es == [] then output == []
    else
      var most, last := es[..|es| - 1], es[|es| - 1];
      exists n :: 0 <= n <= |output| && Written(policy, subs, most, output[..n]) && Wrote(policy, subs, most, last, output[n..])
  }

  lemma WrittenGrows(policy: Policy, subs: map<string, Sub>, es: seq<Effect>, e: Effect,
                     before: seq<Frame>, between: seq<Frame>, after: seq<Frame>)
    requires before <= between && Written(policy, subs, es, between[|before|..])
    requires between <= after && Wrote(policy, subs, es, e, after[|between|..])
    ensures before <= after && Written(policy, subs, es + [e], after[|before|..])
  {
    var output, n := after[|before|..], |between| - |before|;
    assert (es + [e])[..|es|] == es && output[..n] == between[|before|..] && output[n..] == after[|between|..];
  }

  lemma BeforeLast(policy: Policy, subs: map<string, Sub>, es: seq<Effect>, before: seq<Frame>, after: seq<Frame>)
    returns (between: seq<Frame>)
    requires es != [] && WritesAll(policy, subs, es, before, after)
    ensures WritesAll(policy, subs, es[..|es| - 1], before, between)
    ensures between <= after && Wrote(policy, subs, es[..|es| - 1], es[|es| - 1], after[|between|..])
  {
    var most, last := es[..|es| - 1], es[|es| - 1];
    between :| WritesAll(policy, subs, most, before, between) && Writes(policy, SubsAfterAll(policy, subs, most), last, between, after);
    WritesIsWrote(policy, subs, most, last, between, after);
  }

  /** Serving writes, for each effect in turn, what that effect calls for with the subscriptions its predecessors leave. */
  lemma {:induction false} WritesAreWritten(policy: Policy, subs: map<string, Sub>, es: seq<Effect>, before: seq<Frame>, after: seq<Frame>)
    requires WritesAll(policy, subs, es, before, after)
    ensures before <= after && Written(policy, subs, es, after[|before|..])
    decreases |es|
  {
    if es == [] {
      assert after[|before|..] == [];
    } else {
      var most, last := es[..|es| - 1], es[|es| - 1];
      var between := BeforeLast(policy, subs, es, before, after);
      WritesAreWritten(policy, subs, most, before, between);
      WrittenGrows(policy, subs, most, last, before, between, after);
      assert most + [last] == es;
    }
  }

  // ----- What reaches other connections -----

  /** The publish is delivered to subscribers: its subject is not refused and no responder answers it. */
  predicate Delivered(policy: Policy, e: Effect) {
    e.Published? && !Refused(policy, e.subject) && (e.reply == "" || e.subject !in policy.responders)
  }

  /** The effects that deliver the frame to a connection with the subscriptions. */
  ghost function Sources(policy: Policy, subs: map<string, Sub>, es: seq<Effect>, f: Frame): set<int> {
    set k | 0 <= k < |es| && Delivered(policy, es[k]) && IsDelivery(subs, es[k], f)
  }

  lemma SourcesSnoc(policy: Policy, subs: map<string, Sub>, es: seq<Effect>, e: Effect, f: Frame)
    ensures |Sources(policy, subs, es + [e], f)| == |Sources(policy, subs, es, f)| + Reaching(policy, subs, e)[f]
  {
    var all := es + [e];
    assert all[|es|] == e && forall k :: 0 <= k < |es| ==> all[k] == es[k];
    if Delivered(policy, e) {
      MessagesCount(subs, e, f);
    }
    if Delivered(policy, e) && IsDelivery(subs, e, f) {
      assert Sources(policy, subs, all, f) == Sources(policy, subs, es, f) + {|es|};
    } else {
      assert Sources(policy, subs, all, f) == Sources(policy, subs, es, f);
    }
  }

  /** Another connection gets each frame exactly as often as there are publishes that deliver it. */
  lemma {:induction false} OthersAreReached(policy: Policy, subs: map<string, Sub>, es: seq<Effect>, f: Frame)
    ensures ReachingAll(policy, subs, es)[f] == |Sources(policy, subs, es, f)|
    decreases |es|
  {
    if es == [] {
      assert Sources(policy, subs, es, f) == {};
    } else {
      var most, last := es[..|es| - 1], es[|es| - 1];
      assert es == most + [last];
      OthersAreReached(policy, subs, most, f);
      EffectsSnoc(policy, subs, most, last);
      SourcesSnoc(policy, subs, most, last, f);
    }
  }

  // ----- The refused CONNECT -----

  /** A broker that refuses carries out nothing after the first CONNECT. */
  lemma {:induction false} RefusedStops(policy: Policy, input: string, n: nat)
    requires policy.refuse != ""
    requires n < |ParseStream(input).0| && ParseStream(input).0[n].Connected?
    requires forall k :: 0 <= k < n ==> !ParseStream(input).0[k].Connected?
    ensures Handled(policy, input) == (ParseStream(input).0[..n + 1], false)
    decreases n
  {
    var es, rest := ParseStream(input).0, TakeNext(input).rest;
    var later := ParseStream(rest).0;
    assert es == [TakeNext(input).effect] + later;
    if n == 0 {
      assert es[..1] == [es[0]];
    } else {
      assert !es[0].Connected? && later[n - 1] == es[n];
      assert forall k :: 0 <= k < n - 1 ==> later[k] == es[k + 1];
      RefusedStops(policy, rest, n - 1);
      assert es[..n + 1] == [es[0]] + later[..n];
    }
  }

  lemma {:induction false} WithoutConnectRuns(policy: Policy, input: string)
    requires forall k :: 0 <= k < |ParseStream(input).0| ==> !ParseStream(input).0[k].Connected?
    ensures Handled(policy, input) == ParseStream(input)
    decreases |input|
  {
    if TakeNext(input).Took? {
      var es, rest := ParseStream(input).0, TakeNext(input).rest;
      assert es == [TakeNext(input).effect] + ParseStream(rest).0;
      assert forall k :: 0 <= k < |es| - 1 ==> ParseStream(rest).0[k] == es[k + 1];
      assert !es[0].Connected?;
      WithoutConnectRuns(policy, rest);
    }
  }

  // ----- Silence after UNSUB -----

  /** From position n of the output on, no message bears the id. */
  ghost predicate NoneFor(out: seq<Frame>, n: nat, sid: string) {
    forall j :: n <= j < |out| && out[j].Message? ==> out[j].sid != sid
  }

  lemma OneWritesNone(policy: Policy, subs: map<string, Sub>, e: Effect, before: seq<Frame>, after: seq<Frame>, sid: string)
    requires Writes(policy, subs, e, before, after) && sid !in subs
    ensures before <= after && NoneFor(after, |before|, sid)
  {
    WritesIsCaused(policy, subs, e, before, after);
    var chunk := after[|before|..];
    forall j | |before| <= j < |after| && after[j].Message?
      ensures after[j].sid != sid
    {
      assert after[j] == chunk[j - |before|] && after[j] in multiset(chunk);
    }
  }

  /** An id that is not subscribed, and is not while the effects last, is sent nothing. */
  lemma {:induction false} UnsubscribedHearsNothing(policy: Policy, subs: map<string, Sub>, es: seq<Effect>,
                                                    before: seq<Frame>, after: seq<Frame>, sid: string)
    requires WritesAll(policy, subs, es, before, after) && sid !in subs
    requires forall k :: 0 <= k < |es| ==> !Opens(policy, es[k], sid)
    ensures before <= after && NoneFor(after, |before|, sid)
    decreases |es|
  {
    if es != [] {
      var most, last := es[..|es| - 1], es[|es| - 1];
      var between :| WritesAll(policy, subs, most, before, between)
                     && Writes(policy, SubsAfterAll(policy, subs, most), last, between, after);
      UnsubscribedHearsNothing(policy, subs, most, before, between, sid);
      StaysOut(policy, subs, most, sid);
      OneWritesNone(policy, SubsAfterAll(policy, subs, most), last, between, after, sid);
      assert forall j :: |before| <= j < |between| ==> after[j] == between[j];
    }
  }

  lemma {:induction false} StaysOut(policy: Policy, subs: map<string, Sub>, es: seq<Effect>, sid: string)
    requires sid !in subs && forall k :: 0 <= k < |es| ==> !Opens(policy, es[k], sid)
    ensures sid !in SubsAfterAll(policy, subs, es)
    decreases |es|
  {
    if es != [] {
      StaysOut(policy, subs, es[..|es| - 1], sid);
      EffectsSnoc(policy, subs, es[..|es| - 1], es[|es| - 1]);
      assert es == es[..|es| - 1] + [es[|es| - 1]];
    }
  }

  lemma {:induction false} WritesSplit(policy: Policy, subs: map<string, Sub>, es: seq<Effect>, n: nat,
                                       before: seq<Frame>, after: seq<Frame>) returns (between: seq<Frame>)
    requires n <= |es| && WritesAll(policy, subs, es, before, after)
    ensures WritesAll(policy, subs, es[..n], before, between)
    ensures WritesAll(policy, SubsAfterAll(policy, subs, es[..n]), es[n..], between, after)
    decreases |es|
  {
    if n == |es| {
      between := after;
      assert es[..n] == es;
    } else {
      var most, last := es[..|es| - 1], es[|es| - 1];
      var late :| WritesAll(policy, subs, most, before, late) && Writes(policy, SubsAfterAll(policy, subs, most), last, late, after);
      between := WritesSplit(policy, subs, most, n, before, late);
      assert most[..n] == es[..n] && es[n..] == most[n..] + [last];
      SubsSplit(policy, subs, most, n);
      WritesSnoc(policy, SubsAfterAll(policy, subs, es[..n]), most[n..], last, between, late, after);
    }
  }

  lemma {:induction false} SubsSplit(policy: Policy, subs: map<string, Sub>, es: seq<Effect>, n: nat)
    requires n <= |es|
    ensures SubsAfterAll(policy, subs, es) == SubsAfterAll(policy, SubsAfterAll(policy, subs, es[..n]), es[n..])
    decreases n
  {
    if n > 0 {
      SubsSplit(policy, SubsAfter(policy, subs, es[0]), es[1..], n - 1);
      assert es[1..][..n - 1] == es[..n][1..] && es[1..][n - 1..] == es[n..];
    } else {
      assert es[0..] == es;
    }
  }

  /** After its UNSUB, and until an unrefused SUB, an id is sent nothing. */
  lemma SilentAfterUnsub(policy: Policy, subs: map<string, Sub>, es: seq<Effect>, n: nat, sid: string,
                         before: seq<Frame>, after: seq<Frame>) returns (atUnsub: seq<Frame>)
    requires WritesAll(policy, subs, es, before, after)
    requires n < |es| && es[n] == Unsubscribed(sid) && forall k :: n < k < |es| ==> !Opens(policy, es[k], sid)
    ensures WritesAll(policy, subs, es[..n + 1], before, atUnsub) && atUnsub <= after && NoneFor(after, |atUnsub|, sid)
  {
    atUnsub := WritesSplit(policy, subs, es, n + 1, before, after);
    var soFar := SubsAfterAll(policy, subs, es[..n + 1]);
    assert LastTouch(policy, es[..n + 1], sid, n);
    if sid in soFar {
      SubscribedByLast(policy, subs, es[..n + 1], sid, soFar[sid]);
    }
    UnsubscribedHearsNothing(policy, soFar, es[n + 1..], atUnsub, after, sid);
  }
}
