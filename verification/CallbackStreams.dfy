/**
 Opening and closing the callback stream. Start holds its own lock throughout and takes the state lock twice; Close
 takes only the state lock, and may run between any two regions of a Start.
 */
module CallbackStreams {
  import opened Texts

  datatype Verdict = Pending | Admitted | Refused

  /**
   One stream: its context is cancelled by Close, by its own Start, or because the caller's context ended; its reader
   ends when the host ends the response or a line is too long, which cancels nothing.
   */
  datatype Stream = Stream(cancelled: bool, parentEnded: bool, readerEnded: bool, verdict: Verdict)

  /** Callbacks can still arrive on the stream. */
  predicate Alive(s: Stream) { s.verdict.Admitted? && !s.cancelled && !s.readerEnded }

  /** Where the Start that holds the start lock has got to. */
  datatype Starter = Idle | Entered | Waiting(id: nat) | Settling(id: nat)

  datatype Outcome = Already | Opened(id: nat) | Failed

  datatype Event = Installed(id: nat) | Closing | Returned(outcome: Outcome)

  datatype Host = Host(
    streams: seq<Stream>,
    stop: Option<nat>,
    started: bool,
    starter: Starter,
    log: seq<Event>)

  const NEW := Host([], None, false, Idle, [])

  datatype Action =
    | Enter(contextEnded: bool)
    | Install
    | Decide(id: nat, admitted: bool)
    | Hear
    | GiveUp
    | Settle
    | Close
    | EndParent(id: nat)
    | EndReader(id: nat)

  function Cancel(streams: seq<Stream>, id: Option<nat>): (r: seq<Stream>)
    ensures |r| == |streams|
  {
    if id.Some? && id.value < |streams| then streams[id.value := streams[id.value].(cancelled := true)] else streams
  }

  function Return(h: Host, outcome: Outcome): Host {
    h.(starter := Idle, log := h.log + [Returned(outcome)])
  }

  function Step(h: Host, a: Action): Host {
    match a
    case Enter(contextEnded) =>
      if !h.starter.Idle? then h
      else if contextEnded then Return(h, Failed)
      else h.(starter := Entered)
    case Install =>
      if !h.starter.Entered? then h
      else if h.started then Return(h, Already)
      else
        var id := |h.streams|;
        h.(streams := h.streams + [Stream(false, false, false, Pending)], stop := Some(id), starter := Waiting(id),
           log := h.log + [Installed(id)])
    case Decide(id, admitted) =>
      if id < |h.streams| && h.streams[id].verdict.Pending?
      then h.(streams := h.streams[id := h.streams[id].(verdict := if admitted then Admitted else Refused)])
      else h
    case Hear =>
      if !h.starter.Waiting? || h.starter.id >= |h.streams| then h
      else
        (match h.streams[h.starter.id].verdict
         case Pending => h
         case Admitted => h.(starter := Settling(h.starter.id))
         case Refused => Return(h.(streams := Cancel(h.streams, Some(h.starter.id))), Failed))
    case GiveUp =>
      // The deadline, or the end of the stream's context: each may be noticed whatever the verdict.
      if !h.starter.Waiting? then h else Return(h.(streams := Cancel(h.streams, Some(h.starter.id))), Failed)
    case Settle =>
      if !h.starter.Settling? || h.starter.id >= |h.streams| then h
      else if h.streams[h.starter.id].cancelled then Return(h, Failed)
      else Return(h.(started := true), Opened(h.starter.id))
    case Close =>
      h.(streams := Cancel(h.streams, h.stop), stop := None, started := false, log := h.log + [Closing])
    case EndParent(id) =>
      if id < |h.streams| then h.(streams := h.streams[id := h.streams[id].(cancelled := true, parentEnded := true)]) else h
    case EndReader(id) =>
      if id < |h.streams| && h.streams[id].verdict.Admitted?
      then h.(streams := h.streams[id := h.streams[id].(readerEnded := true)])
      else h
  }

  function Run(h: Host, actions: seq<Action>): Host
    decreases |actions|
  {
    if actions == [] then h else Run(Step(h, actions[0]), actions[1..])
  }

  // ----- The invariant -----

  predicate Current(h: Host, id: nat) {
    h.stop == Some(id) && (h.started || h.starter == Waiting(id) || h.starter == Settling(id))
  }

  /** Since its installation, no Close has come. */
  ghost predicate Undisturbed(log: seq<Event>, id: nat, n: nat) {
    n <= |log| && exists j :: 0 <= j < n && log[j] == Installed(id) && forall i :: j <= i < n ==> log[i] != Closing
  }

  ghost predicate SoundStreams(h: Host) {
    && (forall id :: 0 <= id < |h.streams| && !h.streams[id].cancelled ==>
          Current(h, id) && !h.streams[id].parentEnded && Undisturbed(h.log, id, |h.log|))
    && (h.stop.Some? ==> h.stop.value < |h.streams|)
    && (h.started ==>
          var s := h.stop;
          s.Some? && h.streams[s.value].verdict.Admitted? && (h.streams[s.value].cancelled <==> h.streams[s.value].parentEnded))
  }

  ghost predicate SoundStarter(h: Host) {
    match h.starter
    case Waiting(id) =>
      && id < |h.streams| && !h.started
      && (h.stop.Some? ==> h.stop == Some(id)) && (h.stop.None? ==> h.streams[id].cancelled)
    case Settling(id) =>
      id < |h.streams| && !h.started && h.streams[id].verdict.Admitted?
      && (h.stop.Some? ==> h.stop == Some(id)) && (h.stop.None? ==> h.streams[id].cancelled)
    case _ => true
  }

  ghost predicate SoundReturns(h: Host) {
    forall k :: 0 <= k < |h.log| && h.log[k].Returned? && h.log[k].outcome.Opened? ==>
      var id := h.log[k].outcome.id;
      id < |h.streams| && h.streams[id].verdict.Admitted? && Undisturbed(h.log, id, k)
  }

  ghost predicate Inv(h: Host) { SoundStreams(h) && SoundStarter(h) && SoundReturns(h) }

  lemma UndisturbedGrows(log: seq<Event>, e: Event, id: nat, n: nat)
    requires Undisturbed(log, id, n)
    ensures Undisturbed(log + [e], id, n)
    ensures n == |log| && e != Closing ==> Undisturbed(log + [e], id, n + 1)
  {
    var j :| 0 <= j < n && log[j] == Installed(id) && forall i :: j <= i < n ==> log[i] != Closing;
    assert (log + [e])[j] == Installed(id) && forall i :: j <= i < n ==> (log + [e])[i] != Closing;
  }

  /** Appending an event keeps every earlier return sound; an opening must bring its own evidence. */
  lemma ReturnsGrow(h: Host, streams: seq<Stream>, e: Event)
    requires SoundReturns(h) && |streams| >= |h.streams|
    requires forall id :: 0 <= id < |h.streams| && h.streams[id].verdict.Admitted? ==> streams[id].verdict.Admitted?
    requires e.Returned? && e.outcome.Opened? ==>
               e.outcome.id < |streams| && streams[e.outcome.id].verdict.Admitted? && Undisturbed(h.log, e.outcome.id, |h.log|)
    ensures forall k :: 0 <= k < |h.log| + 1 && (h.log + [e])[k].Returned? && (h.log + [e])[k].outcome.Opened? ==>
              var id := (h.log + [e])[k].outcome.id;
              id < |streams| && streams[id].verdict.Admitted? && Undisturbed(h.log + [e], id, k)
  {
    forall k | 0 <= k < |h.log| + 1 && (h.log + [e])[k].Returned? && (h.log + [e])[k].outcome.Opened?
      ensures var id := (h.log + [e])[k].outcome.id;
              id < |streams| && streams[id].verdict.Admitted? && Undisturbed(h.log + [e], id, k)
    {
      UndisturbedGrows(h.log, e, (h.log + [e])[k].outcome.id, k);
    }
  }

  lemma StreamsGrow(h: Host, e: Event)
    requires SoundStreams(h) && e != Closing
    ensures forall id :: 0 <= id < |h.streams| && !h.streams[id].cancelled ==> Undisturbed(h.log + [e], id, |h.log| + 1)
  {
    forall id | 0 <= id < |h.streams| && !h.streams[id].cancelled ensures Undisturbed(h.log + [e], id, |h.log| + 1) {
      UndisturbedGrows(h.log, e, id, |h.log|);
    }
  }

  lemma ReturnKeeps(h: Host, outcome: Outcome)
    requires Inv(h)
    requires !h.started ==> forall id :: 0 <= id < |h.streams| ==> h.streams[id].cancelled
    requires outcome.Opened? ==>
               outcome.id < |h.streams| && h.streams[outcome.id].verdict.Admitted? && Undisturbed(h.log, outcome.id, |h.log|)
    ensures Inv(Return(h, outcome))
  {
    StreamsGrow(h, Returned(outcome));
    ReturnsGrow(h, h.streams, Returned(outcome));
  }

  lemma StepKeeps(h: Host, a: Action)
    requires Inv(h)
    ensures Inv(Step(h, a))
  {
    match a
    case Enter(contextEnded) => if h.starter.Idle? && contextEnded { ReturnKeeps(h, Failed); }
    case Install =>
      if h.starter.Entered? {
        if h.started {
          ReturnKeeps(h, Already);
        } else {
          InstallKeeps(h);
        }
      }
    case Decide(id, admitted) => DecideKeeps(h, id, admitted);
    case Hear =>
      if h.starter.Waiting? && h.streams[h.starter.id].verdict.Refused? {
        GiveUpKeeps(h);
      }
    case GiveUp => GiveUpKeeps(h);
    case Settle => SettleKeeps(h);
    case Close => CloseKeeps(h);
    case EndParent(id) => EndKeeps(h, id);
    case EndReader(id) => EndKeeps(h, id);
  }

  lemma DecideKeeps(h: Host, id: nat, admitted: bool)
    requires Inv(h)
    ensures Inv(Step(h, Decide(id, admitted)))
  {
  }

  lemma EndKeeps(h: Host, id: nat)
    requires Inv(h)
    ensures Inv(Step(h, EndParent(id))) && Inv(Step(h, EndReader(id)))
  {
  }

  lemma InstallKeeps(h: Host)
    requires Inv(h) && h.starter.Entered? && !h.started
    ensures Inv(Step(h, Install))
  {
    var after := Step(h, Install);
    ReturnsGrow(h, after.streams, Installed(|h.streams|));
    assert after.log[|h.log|] == Installed(|h.streams|);
  }

  lemma GiveUpKeeps(h: Host)
    requires Inv(h)
    ensures Inv(Step(h, GiveUp))
  {
    if h.starter.Waiting? {
      var cancelled := h.(streams := Cancel(h.streams, Some(h.starter.id)));
      ReturnKeeps(cancelled, Failed);
    }
  }

  lemma SettleKeeps(h: Host)
    requires Inv(h)
    ensures Inv(Step(h, Settle))
  {
    if h.starter.Settling? {
      var id := h.starter.id;
      if h.streams[id].cancelled {
        ReturnKeeps(h, Failed);
      } else {
        StreamsGrow(h, Returned(Opened(id)));
        ReturnsGrow(h, h.streams, Returned(Opened(id)));
      }
    }
  }

  lemma CloseKeeps(h: Host)
    requires Inv(h)
    ensures Inv(Step(h, Close))
  {
    ReturnsGrow(h, Step(h, Close).streams, Closing);
  }

  lemma {:induction false} RunKeeps(h: Host, actions: seq<Action>)
    requires Inv(h)
    ensures Inv(Run(h, actions))
    decreases |actions|
  {
    if actions != [] {
      StepKeeps(h, actions[0]);
      RunKeeps(Step(h, actions[0]), actions[1..]);
    }
  }

  // ----- What every run shows -----

  /** At most one stream's context is uncancelled, however Starts and Closes interleave. */
  lemma AtMostOneStream(actions: seq<Action>, i: nat, j: nat)
    requires var h := Run(NEW, actions);
             i < |h.streams| && j < |h.streams| && !h.streams[i].cancelled && !h.streams[j].cancelled
    ensures i == j
  {
    RunKeeps(NEW, actions);
  }

  /** A Start that reports a newly opened stream saw it admitted, with no Close since it installed the stop function. */
  lemma OpenedWasUndisturbed(actions: seq<Action>, k: nat)
    requires var log := Run(NEW, actions).log; k < |log| && log[k].Returned? && log[k].outcome.Opened?
    ensures var h := Run(NEW, actions);
            var id := h.log[k].outcome.id;
            id < |h.streams| && h.streams[id].verdict.Admitted?
            && exists j :: 0 <= j < k && h.log[j] == Installed(id) && forall i :: j <= i < k ==> h.log[i] != Closing
  {
    RunKeeps(NEW, actions);
  }

  predicate Doomed(h: Host, id: nat) { id < |h.streams| && h.streams[id].cancelled }

  lemma {:induction false} DoomedNeverOpens(h: Host, id: nat, actions: seq<Action>)
    requires Inv(h) && Doomed(h, id)
    ensures var after := Run(h, actions);
            |h.log| <= |after.log| && forall k :: |h.log| <= k < |after.log| ==> after.log[k] != Returned(Opened(id))
    decreases |actions|
  {
    if actions != [] {
      StepKeeps(h, actions[0]);
      DoomedStays(h, id, actions[0]);
      DoomedNeverOpens(Step(h, actions[0]), id, actions[1..]);
      LogsGrow(Step(h, actions[0]), actions[1..]);
    }
  }

  lemma DoomedStays(h: Host, id: nat, a: Action)
    requires Doomed(h, id)
    ensures var next := Step(h, a);
            Doomed(next, id) && h.log <= next.log
            && forall k :: |h.log| <= k < |next.log| ==> next.log[k] != Returned(Opened(id))
  {
  }

  lemma {:induction false} LogsGrow(h: Host, actions: seq<Action>)
    ensures h.log <= Run(h, actions).log
    decreases |actions|
  {
    if actions != [] {
      LogsGrow(Step(h, actions[0]), actions[1..]);
    }
  }

  predicate Pends(h: Host, id: nat) { h.starter == Waiting(id) || h.starter == Settling(id) }

  ghost predicate NoReturn(log: seq<Event>, n: nat, m: nat) { forall k :: n <= k < m && k < |log| ==> !log[k].Returned? }

  /** From n on, the first return, if there has been one, is a failure. */
  ghost predicate FirstReturnFails(log: seq<Event>, n: nat) {
    forall k :: n <= k < |log| && log[k].Returned? && NoReturn(log, n, k) ==> log[k] == Returned(Failed)
  }

  lemma DoomedStep(h: Host, id: nat, a: Action)
    requires Inv(h) && Doomed(h, id) && Pends(h, id)
    ensures var next := Step(h, a);
            Doomed(next, id)
            && (next.log == h.log + [Returned(Failed)] || (Pends(next, id) && (next.log == h.log || next.log == h.log + [Closing])))
  {
  }

  /** A pending Start whose context is cancelled stays pending until it fails. */
  lemma {:induction false} DoomedFails(h: Host, id: nat, actions: seq<Action>)
    requires Inv(h) && Doomed(h, id) && Pends(h, id)
    ensures var after := Run(h, actions);
            |h.log| <= |after.log| && FirstReturnFails(after.log, |h.log|)
            && (NoReturn(after.log, |h.log|, |after.log|) ==> Pends(after, id))
    decreases |actions|
  {
    if actions != [] {
      var next, after := Step(h, actions[0]), Run(h, actions);
      StepKeeps(h, actions[0]);
      DoomedStep(h, id, actions[0]);
      LogsGrow(next, actions[1..]);
      if next.log == h.log + [Returned(Failed)] {
        assert after.log[|h.log|] == Returned(Failed);
      } else {
        DoomedFails(next, id, actions[1..]);
        FirstReturnEarlier(after.log, |h.log|, |next.log|);
      }
    }
  }

  lemma FirstReturnEarlier(log: seq<Event>, n: nat, m: nat)
    requires n <= m <= |log| && FirstReturnFails(log, m) && NoReturn(log, n, m)
    ensures FirstReturnFails(log, n)
    ensures NoReturn(log, n, |log|) ==> NoReturn(log, m, |log|)
  {
    forall k | n <= k < |log| && log[k].Returned? && NoReturn(log, n, k)
      ensures log[k] == Returned(Failed)
    {
      assert NoReturn(log, m, k);
    }
  }

  /**
   A Close while a Start is waiting or settling makes that Start fail: on every continuation the first return is a
   failure, until then the Start is pending, and its stream is never reported open.
   */
  lemma CloseFailsTheStart(before: seq<Action>, id: nat, later: seq<Action>)
    requires Pends(Run(NEW, before), id)
    ensures var h := Run(NEW, before + [Close]);
            var after := Run(NEW, before + [Close] + later);
            |h.log| <= |after.log| && FirstReturnFails(after.log, |h.log|)
            && (NoReturn(after.log, |h.log|, |after.log|) ==> Pends(after, id))
            && forall k :: |h.log| <= k < |after.log| ==> after.log[k] != Returned(Opened(id))
  {
    RunKeeps(NEW, before);
    var h := Run(NEW, before);
    RunAppend(NEW, before, [Close]);
    RunAppend(NEW, before + [Close], later);
    assert [Close][1..] == [];
    assert Run(h, [Close]) == Step(h, Close);
    StepKeeps(h, Close);
    DoomedNeverOpens(Step(h, Close), id, later);
    DoomedFails(Step(h, Close), id, later);
  }

  /** Such a Start can always return, and then with a failure. */
  lemma DoomedCanReturn(h: Host, id: nat)
    requires Inv(h) && Doomed(h, id) && Pends(h, id)
    ensures Step(h, if h.starter.Waiting? then GiveUp else Settle).log == h.log + [Returned(Failed)]
  {
  }

  lemma {:induction false} RunAppend(h: Host, a: seq<Action>, b: seq<Action>)
    ensures Run(h, a + b) == Run(Run(h, a), b)
    decreases |a|
  {
    if a == [] {
      assert a + b == b;
    } else {
      assert (a + b)[1..] == a[1..] + b;
      RunAppend(Step(h, a[0]), a[1..], b);
    }
  }

  ghost predicate AnyAlive(h: Host) { exists id :: 0 <= id < |h.streams| && Alive(h.streams[id]) }

  /**
   A Start that finds the host started returns success without opening anything. There is a live stream behind that
   success exactly when neither the context of the Start that opened it nor its reader has ended.
   */
  lemma AlreadyStartedIsLiveUnlessEnded(actions: seq<Action>)
    requires var h := Run(NEW, actions); h.starter.Entered? && h.started
    ensures var h := Run(NEW, actions);
            Step(h, Install).log == h.log + [Returned(Already)]
            && h.stop.Some? && h.stop.value < |h.streams|
            && (AnyAlive(h) <==> !h.streams[h.stop.value].parentEnded && !h.streams[h.stop.value].readerEnded)
  {
    RunKeeps(NEW, actions);
    var h := Run(NEW, actions);
    if AnyAlive(h) {
      var id :| 0 <= id < |h.streams| && Alive(h.streams[id]);
      assert Current(h, id);
    }
    assert Alive(h.streams[h.stop.value]) ==> AnyAlive(h);
  }

  /** A Start that reports a newly opened stream has a live one behind it exactly when its reader has not ended already. */
  lemma OpenedIsLiveUnlessReaderEnded(actions: seq<Action>)
    requires var h := Run(NEW, actions); h.starter.Settling?
    ensures var h := Run(NEW, actions);
            var id := h.starter.id;
            var after := Step(h, Settle);
            id < |h.streams|
            && (after.log == h.log + [Returned(Opened(id))] <==> !h.streams[id].cancelled)
            && (after.log == h.log + [Returned(Opened(id))] ==> (AnyAlive(after) <==> !h.streams[id].readerEnded))
  {
    RunKeeps(NEW, actions);
    var h := Run(NEW, actions);
    var id, after := h.starter.id, Step(h, Settle);
    assert after.log[|h.log|] == Returned(if h.streams[id].cancelled then Failed else Opened(id));
    StepKeeps(h, Settle);
    assert forall k :: 0 <= k < |after.streams| && !after.streams[k].cancelled ==> Current(after, k);
    assert Alive(after.streams[id]) ==> AnyAlive(after);
  }

  /**
   Each end by itself is enough, from every state that has a started stream: the next Start reports success with no
   live stream at all.
   */
  lemma AlreadyStartedMayBeDead(actions: seq<Action>, byReader: bool)
    requires var h := Run(NEW, actions); h.starter.Idle? && h.started
    ensures var h := Run(NEW, actions);
            h.stop.Some?
            && var end := if byReader then EndReader(h.stop.value) else EndParent(h.stop.value);
               var after := Run(h, [end, Enter(false), Install]);
               after.log == h.log + [Returned(Already)] && !AnyAlive(after)
  {
    RunKeeps(NEW, actions);
    var h := Run(NEW, actions);
    var end := if byReader then EndReader(h.stop.value) else EndParent(h.stop.value);
    var ended := Step(h, end);
    StepKeeps(h, end);
    RunThree(h, end, Enter(false), Install);
    assert forall id :: 0 <= id < |ended.streams| && !ended.streams[id].cancelled ==> Current(ended, id);
    assert Step(Step(ended, Enter(false)), Install).streams == ended.streams;
  }

  /** Such states are reached: a Start that opens a stream leaves the host started. */
  lemma StartingIsReached()
    ensures var h := Run(NEW, [Enter(false), Install, Decide(0, true), Hear] + [Settle]);
            h.starter.Idle? && h.started && AnyAlive(h)
  {
    var a := [Enter(false), Install, Decide(0, true), Hear];
    RunThree(NEW, a[0], a[1], a[2]);
    var three := [a[0], a[1], a[2]];
    RunAppend(NEW, three, [Hear]);
    assert a == three + [Hear];
    RunAppend(NEW, a, [Settle]);
    assert [Hear][1..] == [] && [Settle][1..] == [];
    var h := Run(NEW, a);
    assert h == Host([Stream(false, false, false, Admitted)], Some(0), false, Settling(0), [Installed(0)]);
    var after := Run(h, [Settle]);
    assert after == Step(h, Settle);
    assert Alive(after.streams[0]);
  }

  lemma RunThree(h: Host, a: Action, b: Action, c: Action)
    ensures Run(h, [a, b, c]) == Step(Step(Step(h, a), b), c)
  {
    var s2 := [b, c];
    assert [a, b, c][1..] == s2 && s2[1..] == [c] && [c][1..] == [];
    assert Run(h, [a, b, c]) == Run(Step(h, a), s2) == Run(Step(Step(h, a), b), [c]);
  }
}
