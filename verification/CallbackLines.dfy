/** What the read loop does with a whole stream of lines, and that a cancelled registration is done with. */
module CallbackLines {
  import opened Texts
  import opened CallbackRuns
  import Hosts = CallbackHosts

  /** A line of the stream: None for one that is not a callback. */
  type Line = Option<(WireKind, string)>

  // ----- Reading -----

  /** The registration whose handler a callback calls: the one entered under its id in the table of its kind. */
  function Callee(h: Host, kind: WireKind, id: string): Option<nat> {
    if kind.EventKind? && id in h.subs && h.subs[id] < |h.registrations| && h.registrations[h.subs[id]].hasHandler then Some(h.subs[id])
    else if kind.TickKind? && id in h.ticks && h.ticks[id] < |h.registrations| && h.registrations[h.ticks[id]].hasHandler
    then Some(h.ticks[id])
    else None
  }

  function Tally(lines: seq<Line>, counts: Line -> bool): nat {
    if lines == [] then 0 else (if counts(lines[0]) then 1 else 0) + Tally(lines[1..], counts)
  }

  /** The handlers called, in the order of the lines. */
  function Calls(h: Host, lines: seq<Line>): seq<Delivery> {
    if lines == [] then []
    else
      var first :=
        if lines[0].None? || Callee(h, lines[0].value.0, lines[0].value.1).None? then []
        else [Delivery(Callee(h, lines[0].value.0, lines[0].value.1).value, lines[0].value.0, lines[0].value.1)];
      first + Calls(h, lines[1..])
  }

  /** The events and ticks that no handler takes, in the order of the lines. */
  function Misses(h: Host, lines: seq<Line>): seq<Loss> {
    if lines == [] then []
    else
      var first :=
        if lines[0].None? || lines[0].value.0.OtherKind? || Callee(h, lines[0].value.0, lines[0].value.1).Some? then []
        else [Loss(lines[0].value.0, lines[0].value.1, lines[0].value.1 in h.asked)];
      first + Misses(h, lines[1..])
  }

  function IsCallback(): Line -> bool { (line: Line) => line.Some? }

  function IsOfOtherKind(): Line -> bool { (line: Line) => line.Some? && line.value.0.OtherKind? }

  /** What one callback leaves: counted, and called, missed or set aside; nothing else has changed. */
  ghost predicate Grows(h: Host, after: Host, received: nat, calls: seq<Delivery>, misses: seq<Loss>, others: nat) {
    after == h.(received := h.received + received, dispatched := h.dispatched + calls, lost := h.lost + misses,
                unknown := h.unknown + others)
  }

  lemma OneLine(h: Host, kind: WireKind, id: string)
    ensures var callee, line := Callee(h, kind, id), [Some((kind, id))];
            && Calls(h, line) == (if callee.Some? then [Delivery(callee.value, kind, id)] else [])
            && Misses(h, line) == if callee.None? && !kind.OtherKind? then [Loss(kind, id, id in h.asked)] else []
  {
    assert [Some((kind, id))][1..] == [];
  }

  lemma CallbackDoes(h: Host, reader: nat, kind: WireKind, id: string)
    requires reader !in h.readers
    ensures var callee, after := Callee(h, kind, id), Hosts.AfterCallback(h, reader, kind, id);
            if kind.OtherKind? then after == h.(received := h.received + 1, unknown := h.unknown + 1)
            else if callee.Some?
            then after == h.(received := h.received + 1, dispatched := h.dispatched + [Delivery(callee.value, kind, id)])
            else after == h.(received := h.received + 1, lost := h.lost + [Loss(kind, id, id in h.asked)])
  {
    var counted := Step(h, Receive(reader, kind, id));
    var found := Step(counted, LookUp(reader));
    assert found.readers - {reader} == h.readers;
  }

  lemma CallbackInText(h: Host, reader: nat, kind: WireKind, id: string)
    requires reader !in h.readers
    ensures Grows(h, Hosts.AfterCallback(h, reader, kind, id), 1, Calls(h, [Some((kind, id))]), Misses(h, [Some((kind, id))]),
                  if kind.OtherKind? then 1 else 0)
  {
    CallbackDoes(h, reader, kind, id);
    OneLine(h, kind, id);
    assert h.dispatched + [] == h.dispatched && h.lost + [] == h.lost;
  }

  lemma GrowsTwice(a: Host, b: Host, c: Host, r: nat, s: nat, calls: seq<Delivery>, more: seq<Delivery>,
                   misses: seq<Loss>, missed: seq<Loss>, m: nat, n: nat)
    requires Grows(a, b, r, calls, misses, m) && Grows(b, c, s, more, missed, n)
    ensures Grows(a, c, r + s, calls + more, misses + missed, m + n)
  {
    assert a.dispatched + calls + more == a.dispatched + (calls + more);
    assert a.lost + misses + missed == a.lost + (misses + missed);
  }

  lemma GrowsNot(h: Host)
    ensures Grows(h, h, 0, [], [], 0)
  {
    assert h.dispatched + [] == h.dispatched && h.lost + [] == h.lost;
  }

  lemma {:induction false} SameTables(h: Host, after: Host, lines: seq<Line>)
    requires after.registrations == h.registrations && after.subs == h.subs && after.ticks == h.ticks && after.asked == h.asked
    ensures Calls(after, lines) == Calls(h, lines) && Misses(after, lines) == Misses(h, lines)
    decreases |lines|
  {
    if lines != [] {
      SameTables(h, after, lines[1..]);
    }
  }

  lemma {:induction false} FirstLine(h: Host, line: Line, rest: seq<Line>)
    ensures Calls(h, [line] + rest) == Calls(h, [line]) + Calls(h, rest) && Misses(h, [line] + rest) == Misses(h, [line]) + Misses(h, rest)
  {
    assert ([line] + rest)[1..] == rest && [line][1..] == [];
  }

  /**
   Reading counts every line that is a callback and no other, calls the handler of each that has one, in order, and
   counts as unmatched each event or tick that has none; whatever stands between the callbacks changes nothing.
   */
  lemma {:induction false} LinesInText(h: Host, reader: nat, lines: seq<Line>)
    requires reader !in h.readers
    ensures Grows(h, Hosts.AfterLines(h, reader, lines), Tally(lines, IsCallback()), Calls(h, lines), Misses(h, lines),
                  Tally(lines, IsOfOtherKind()))
    decreases |lines|
  {
    if lines == [] {
      GrowsNot(h);
    } else {
      var line, rest := lines[0], lines[1..];
      assert lines == [line] + rest;
      FirstLine(h, line, rest);
      if line.None? {
        LinesInText(h, reader, rest);
        assert Calls(h, [line]) == [] && Misses(h, [line]) == [];
      } else {
        var next := Hosts.AfterCallback(h, reader, line.value.0, line.value.1);
        CallbackInText(h, reader, line.value.0, line.value.1);
        SameTables(h, next, rest);
        LinesInText(next, reader, rest);
        GrowsTwice(h, next, Hosts.AfterLines(next, reader, rest), 1, Tally(rest, IsCallback()), Calls(h, [line]), Calls(h, rest),
                   Misses(h, [line]), Misses(h, rest), if line.value.0.OtherKind? then 1 else 0, Tally(rest, IsOfOtherKind()));
      }
    }
  }

  // ----- What the host has been told -----

  predicate IsPastPost(stage: Stage) { stage.Asked? || stage.Active? || stage.Cancelled? }

  ghost predicate Tells(h: Host, r: nat)
    requires r < |h.registrations|
  {
    IsPastPost(h.registrations[r].stage) ==> h.registrations[r].id in h.asked
  }

  ghost predicate TellsAll(h: Host) { forall r :: 0 <= r < |h.registrations| ==> Tells(h, r) }

  lemma StepTellsOne(h: Host, a: Action, r: nat)
    requires r < |h.registrations| && Tells(h, r)
    ensures r < |Step(h, a).registrations| && Tells(Step(h, a), r)
  {
    if a.Receive? || a.LookUp? || a.Dispatch? {
      assert Step(h, a).registrations == h.registrations && Step(h, a).asked == h.asked;
    } else if !a.Mint? && a.r != r && r < |Step(h, a).registrations| {
      assert Step(h, a).registrations[r] == h.registrations[r];
    }
  }

  lemma StepTells(h: Host, a: Action)
    requires TellsAll(h)
    ensures TellsAll(Step(h, a)) && h.asked <= Step(h, a).asked
  {
    assert |Step(h, a).registrations| == |h.registrations| + if a.Mint? then 1 else 0;
    forall r | 0 <= r < |h.registrations| {
      StepTellsOne(h, a, r);
    }
  }

  /** On every run, a registration that has got past its post was made known to the host, whose callbacks for it thus count. */
  lemma {:induction false} ToldBeforeActive(h: Host, actions: seq<Action>)
    requires TellsAll(h)
    ensures TellsAll(Run(h, actions)) && h.asked <= Run(h, actions).asked
    decreases |actions|
  {
    if actions != [] {
      StepTells(h, actions[0]);
      ToldBeforeActive(Step(h, actions[0]), actions[1..]);
    }
  }

  // ----- After cancelling -----

  /** No reader holds the registration's handler. */
  ghost predicate Unheld(h: Host, r: nat) {
    forall x :: x in h.readers && h.readers[x].Found? ==> h.readers[x].fn != Some(r) && h.readers[x].tick != Some(r)
  }

  ghost predicate IsOut(h: Host, r: nat) { r < |h.registrations| && h.registrations[r].stage in {Failed, Cancelled} && Unheld(h, r) }

  ghost predicate CallsOthers(before: seq<Delivery>, after: seq<Delivery>, r: nat) {
    before <= after && forall k :: |before| <= k < |after| ==> after[k].registration != r
  }

  lemma RegistryStepsOut(h: Host, a: Action, r: nat)
    requires IsOut(h, r) && !a.Receive? && !a.LookUp? && !a.Dispatch?
    ensures IsOut(Step(h, a), r) && Step(h, a).dispatched == h.dispatched
  {
    assert Step(h, a).readers == h.readers;
  }

  lemma ReceiveStepsOut(h: Host, reader: nat, kind: WireKind, id: string, r: nat)
    requires IsOut(h, r)
    ensures IsOut(Step(h, Receive(reader, kind, id)), r) && Step(h, Receive(reader, kind, id)).dispatched == h.dispatched
  {
  }

  lemma OutIsNotFound(h: Host, kind: Kind, table: map<string, nat>, id: string, r: nat)
    requires SoundTable(h.registrations, kind, table) && IsOut(h, r)
    ensures HandlerFor(h, table, id) != Some(r)
  {
  }

  lemma LookUpStepsOut(h: Host, reader: nat, r: nat)
    requires Inv(h) && IsOut(h, r)
    ensures IsOut(Step(h, LookUp(reader)), r)
  {
    if reader in h.readers {
      OutIsNotFound(h, Sub, h.subs, h.readers[reader].id, r);
      OutIsNotFound(h, Every, h.ticks, h.readers[reader].id, r);
    }
  }

  lemma DispatchStepsOut(h: Host, reader: nat, r: nat)
    requires IsOut(h, r)
    ensures IsOut(Step(h, Dispatch(reader)), r) && CallsOthers(h.dispatched, Step(h, Dispatch(reader)).dispatched, r)
  {
  }

  lemma OutStepsOut(h: Host, a: Action, r: nat)
    requires Inv(h) && IsOut(h, r)
    ensures IsOut(Step(h, a), r) && CallsOthers(h.dispatched, Step(h, a).dispatched, r)
  {
    if a.LookUp? {
      LookUpStepsOut(h, a.reader, r);
    } else if a.Receive? {
      ReceiveStepsOut(h, a.reader, a.word, a.id, r);
    } else if a.Dispatch? {
      DispatchStepsOut(h, a.reader, r);
    } else {
      RegistryStepsOut(h, a, r);
    }
  }

  /** Once a registration has failed or been cancelled, and no reader holds its handler, the handler is never called again. */
  lemma {:induction false} CancelledIsNotCalled(h: Host, actions: seq<Action>, r: nat)
    requires Inv(h) && IsOut(h, r)
    ensures CallsOthers(h.dispatched, Run(h, actions).dispatched, r)
    decreases |actions|
  {
    if actions != [] {
      OutStepsOut(h, actions[0], r);
      StepKeeps(h, actions[0]);
      CancelledIsNotCalled(Step(h, actions[0]), actions[1..], r);
    }
  }
}
