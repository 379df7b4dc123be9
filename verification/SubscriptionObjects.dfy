/** The subscription and connection objects, one method call at a time; SubscriptionRuns interleaves their steps. */
module SubscriptionObjects {
  import opened Texts
  import Runs = SubscriptionRuns

  type Reason = Runs.Reason

  class Subscription {
    const subject: string
    const queue: string
    var entered: bool
    var err: Option<Reason>
    var done: bool

    constructor (subject: string, queue: string)
      ensures this.subject == subject && this.queue == queue && !entered && !done && err == None
    {
      this.subject, this.queue := subject, queue;
      entered, done, err := false, false, None;
    }

    /** Between calls a subscription is either untouched or ended with its reason in place. */
    ghost predicate Settled()
      reads this
    {
      done == entered && (entered <==> err.Some?)
    }

    /** The same subscription in the interleaved runs. */
    ghost function View(): Runs.Subscription
      requires Settled()
      reads this
    {
      Runs.Subscription(subject, if entered then Runs.Finished else Runs.Live, err, err, if entered then 1 else 0)
    }
  }

  class Hub {
    /** The live subscriptions of the connection. */
    var subs: set<Subscription>
    var closed: bool

    constructor ()
      ensures subs == {} && !closed
    {
      subs, closed := {}, false;
    }

    ghost predicate Valid()
      reads this, subs
    {
      forall s :: s in subs ==> s.Settled() && !s.entered
    }

    /** Ends a subscription once: records why, forgets it, then closes its done channel. */
    method Finish(s: Subscription, reason: Reason)
      requires Valid() && s.Settled()
      modifies this`subs, s
      ensures Valid() && s.Settled() && s.done
      ensures subs == old(subs) - {s}
      ensures s.err == if old(s.entered) then old(s.err) else Some(reason)
      ensures s.View() == Runs.Ended(old(s.View()), reason)
    {
      if s.entered {
        return;
      }
      s.entered := true;
      s.err := Some(reason);
      subs := subs - {s};
      s.done := true;
    }

    method Cancel(s: Subscription)
      requires Valid() && s.Settled()
      modifies this`subs, s
      ensures Valid() && s.Settled() && s.done
      ensures subs == old(subs) - {s}
      ensures s.err == if old(s.entered) then old(s.err) else Some(Runs.Clean)
    {
      Finish(s, Runs.Clean);
    }

    /** A drain that the broker refuses or the deadline overtakes ends the subscription with that fault. */
    method Drain(s: Subscription, refused: bool) returns (err: Option<Reason>)
      requires Valid() && s.Settled()
      modifies this`subs, s
      ensures Valid() && s.Settled() && s.done && err == s.err
      ensures subs == old(subs) - {s}
      ensures s.err == if old(s.entered) then old(s.err) else Some(Runs.Fault(if refused then "unavailable" else "timeout"))
    {
      if refused {
        Finish(s, Runs.Fault("unavailable"));
        return s.err;
      }
      if !s.done {
        Finish(s, Runs.Fault("timeout"));
      }
      err := s.err;
    }

    /** Subscribes at the broker, which may refuse, and then records the subscription. */
    method Subscribe(subject: string, queue: string, refused: bool) returns (s: Subscription?)
      requires Valid()
      modifies this`subs
      ensures Valid()
      ensures s == null <==> refused
      ensures s == null ==> subs == old(subs)
      ensures s != null ==> fresh(s) && subs == old(subs) + {s} && s.subject == subject && s.queue == queue && s.Settled() && !s.entered
    {
      if refused {
        return null;
      }
      s := new Subscription(subject, queue);
      subs := subs + {s};
    }

    /** Finishes some live subscriptions, one after another. */
    method FinishAll(doomed: set<Subscription>, reason: Reason)
      requires Valid() && doomed <= subs
      modifies this`subs, doomed
      ensures Valid() && subs == old(subs) - doomed
      ensures forall s :: s in doomed ==> s.Settled() && s.done && s.err == Some(reason)
    {
      var pending := doomed;
      while pending != {}
        invariant pending <= doomed && Valid()
        invariant subs == old(subs) - (doomed - pending)
        invariant forall s :: s in pending ==> s in subs
        invariant forall s :: s in doomed && s !in pending ==> s.Settled() && s.done && s.err == Some(reason)
        decreases |pending|
      {
        var s :| s in pending;
        Finish(s, reason);
        pending := pending - {s};
      }
    }

    /** A subscription violation ends exactly the subscriptions on the refused subject. */
    method OnSubscriptionViolation(subject: string)
      requires Valid()
      modifies this`subs, subs
      ensures Valid()
      ensures subs == set s | s in old(subs) && s.subject != subject
      ensures forall s :: s in old(subs) && s.subject == subject ==> s.done && s.err == Some(Runs.Fault("denied"))
      ensures forall s :: s in old(subs) && s.subject != subject ==> !s.done && s.err == None
    {
      var doomed := set s | s in subs && s.subject == subject;
      FinishAll(doomed, Runs.Fault("denied"));
    }

    /** Ends every live subscription as withdrawn; a second close does nothing. */
    method Close()
      requires Valid()
      modifies this, subs
      ensures Valid() && closed
      ensures old(closed) ==> subs == old(subs)
      ensures !old(closed) ==> subs == {} && forall s :: s in old(subs) ==> s.done && s.err == Some(Runs.Fault("withdrawn"))
    {
      if closed {
        return;
      }
      closed := true;
      FinishAll(subs, Runs.WITHDRAWN);
    }
  }
}
