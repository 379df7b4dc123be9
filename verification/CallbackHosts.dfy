/** The callback host object: each method is one region under its locks, or the chain of regions a caller runs. */
module CallbackHosts {
  import opened Texts
  import opened Decimals
  import Runs = CallbackRuns
  import Streams = CallbackStreams

  // ----- Registrations and the read loop -----

  class CallbackTable {
    var registrations: seq<Runs.Registration>
    var subs: map<string, nat>
    var ticks: map<string, nat>
    var received: nat
    var unmatched: nat
    var lastFault: Option<string>
    var streamErr: Option<string>
    ghost var asked: set<string>
    ghost var readers: map<nat, Runs.Busy>
    ghost var dispatched: seq<Runs.Delivery>
    ghost var lost: seq<Runs.Loss>
    ghost var unknown: nat

    ghost function View(): Runs.Host
      reads this
    {
      Runs.Host(registrations, subs, ticks, asked, readers, received, dispatched, lost, unknown)
    }

    function Faults(): (Option<string>, Option<string>)
      reads this
    {
      (lastFault, streamErr)
    }

    /** The counter of unmatched callbacks counts exactly the losses. */
    ghost predicate Valid()
      reads this
    {
      unmatched == |lost|
    }

    constructor ()
      ensures Valid() && View() == Runs.NEW && Faults() == (None, None)
    {
      registrations, subs, ticks, received, unmatched, lastFault, streamErr := [], map[], map[], 0, 0, None, None;
      asked, readers, dispatched, lost, unknown := {}, map[], [], [], 0;
    }

    /** Enters the handler under its id. */
    method Insert(r: nat)
      requires Valid() && r < |registrations| && registrations[r].stage.Minted?
      modifies this
      ensures Valid() && View() == Runs.Step(old(View()), Runs.Insert(r)) && Faults() == old(Faults())
    {
      var reg := registrations[r];
      registrations := registrations[r := reg.(stage := Runs.Inserted)];
      if reg.kind.Sub? {
        subs := subs[reg.id := r];
      } else {
        ticks := ticks[reg.id := r];
      }
    }

    /** Takes the handler out again. */
    method Remove(r: nat, stage: Runs.Stage)
      requires Valid() && r < |registrations|
      modifies this
      ensures Valid() && View() == Runs.Removed(old(View()), r, stage) && Faults() == old(Faults())
    {
      var reg := registrations[r];
      registrations := registrations[r := reg.(stage := stage)];
      if reg.kind.Sub? {
        subs := subs - {reg.id};
      } else {
        ticks := ticks - {reg.id};
      }
    }

    /** Mints the next id; the counter is atomic. */
    method Mint(kind: Runs.Kind, hasHandler: bool) returns (r: nat)
      requires Valid()
      modifies this
      ensures Valid() && View() == Runs.Step(old(View()), Runs.Mint(kind, hasHandler)) && Faults() == old(Faults())
      ensures r == |old(registrations)| && |registrations| == r + 1 && registrations[r].stage.Minted?
    {
      r := |registrations|;
      registrations := registrations + [Runs.Registration(kind, Runs.IdOf(kind, r + 1), hasHandler, Runs.Minted)];
    }

    /** Hands the id to the host; from here on the host may send callbacks for it. */
    method Ask(r: nat)
      requires Valid() && r < |registrations| && registrations[r].stage.Inserted?
      modifies this
      ensures Valid() && View() == Runs.Step(old(View()), Runs.Ask(r)) && Faults() == old(Faults())
    {
      registrations := registrations[r := registrations[r].(stage := Runs.Asked)];
      asked := asked + {registrations[r].id};
    }

    /** Subscribe and Every: the id is minted and the handler entered before the host is asked. */
    method Register(kind: Runs.Kind, hasHandler: bool, eventType: string, postError: Option<string>) returns (r: nat, ok: bool)
      requires Valid()
      modifies this
      ensures Valid() && View() == AfterRegister(old(View()), kind, hasHandler, postError.Some?)
      ensures r == |old(registrations)| && ok == postError.None?
      ensures lastFault == if ok then old(lastFault)
                           else Some((if kind.Sub? then "subscribe " + eventType else "every") + ": " + postError.value)
      ensures registrations == old(registrations)
                + [Runs.Registration(kind, (if kind.Sub? then "sub" else "every") + "-" + Decimal(r + 1), hasHandler,
                                     if ok then Runs.Active else Runs.Failed)]
      ensures asked == old(asked) + {registrations[r].id}
      ensures kind.Sub? ==> ticks == old(ticks)
      ensures kind.Sub? ==> subs == if ok then old(subs)[registrations[r].id := r] else old(subs) - {registrations[r].id}
      ensures kind.Every? ==> subs == old(subs)
      ensures kind.Every? ==> ticks == if ok then old(ticks)[registrations[r].id := r] else old(ticks) - {registrations[r].id}
      ensures streamErr == old(streamErr)
    {
      r := Mint(kind, hasHandler);
      Insert(r);
      Ask(r);
      ok := postError.None?;
      if postError.Some? {
        Remove(r, Runs.Failed);
        lastFault := Some(FaultText(kind, eventType, postError.value));
      } else {
        registrations := registrations[r := registrations[r].(stage := Runs.Active)];
      }
    }

    /** The function a registration returns: removes the handler, and does nothing when called again. */
    method Unregister(r: nat)
      requires Valid() && Runs.Inv(View()) && r < |registrations|
      requires registrations[r].stage.Active? || registrations[r].stage.Cancelled?
      modifies this
      ensures Valid() && View() == Runs.Step(old(View()), Runs.Cancel(r)) && Faults() == old(Faults())
    {
      Runs.CancelRemoves(View(), r);
      Remove(r, Runs.Cancelled);
    }

    method Count(ghost reader: nat, kind: Runs.WireKind, id: string)
      requires Valid() && reader !in readers
      modifies this
      ensures Valid() && View() == Runs.Step(old(View()), Runs.Receive(reader, kind, id)) && Faults() == old(Faults())
    {
      received := received + 1;
      readers := readers[reader := Runs.Counted(kind, id, id in asked)];
    }

    function Handler(table: map<string, nat>, id: string): Option<nat>
      reads this
    {
      if id in table && table[id] < |registrations| && registrations[table[id]].hasHandler then Some(table[id]) else None
    }

    /** Reads both tables under the lock. */
    method LookUp(ghost reader: nat, kind: Runs.WireKind, id: string) returns (fn: Option<nat>, tick: Option<nat>)
      requires Valid() && reader in readers && readers[reader].Counted? && readers[reader].kind == kind && readers[reader].id == id
      modifies this
      ensures Valid() && View() == Runs.Step(old(View()), Runs.LookUp(reader)) && Faults() == old(Faults())
      ensures reader in readers && readers[reader] == Runs.Found(kind, id, old(readers)[reader].asked, fn, tick)
    {
      fn, tick := Handler(subs, id), Handler(ticks, id);
      readers := readers[reader := Runs.Found(kind, id, readers[reader].asked, fn, tick)];
    }

    /** Calls the handler of the callback's kind, or counts the callback as unmatched. */
    method Dispatch(ghost reader: nat, kind: Runs.WireKind, id: string, fn: Option<nat>, tick: Option<nat>)
      requires Valid() && reader in readers && readers[reader] == Runs.Found(kind, id, readers[reader].asked, fn, tick)
      modifies this
      ensures Valid() && View() == Runs.Step(old(View()), Runs.Dispatch(reader)) && Faults() == old(Faults())
    {
      ghost var loss := Runs.Loss(kind, id, readers[reader].asked);
      match kind {
        case EventKind =>
          if fn.Some? {
            dispatched := dispatched + [Runs.Delivery(fn.value, kind, id)];
          } else {
            unmatched, lost := unmatched + 1, lost + [loss];
          }
        case TickKind =>
          if tick.Some? {
            dispatched := dispatched + [Runs.Delivery(tick.value, kind, id)];
          } else {
            unmatched, lost := unmatched + 1, lost + [loss];
          }
        case OtherKind => unknown := unknown + 1;
      }
      readers := readers - {reader};
    }

    /** One callback from the stream: counted, looked up under the lock, then dispatched or counted as unmatched. */
    method OnCallback(ghost reader: nat, kind: Runs.WireKind, id: string)
      requires Valid() && reader !in readers
      modifies this
      ensures Valid() && View() == AfterCallback(old(View()), reader, kind, id) && Faults() == old(Faults())
      ensures reader !in readers
    {
      Count(reader, kind, id);
      var fn, tick := LookUp(reader, kind, id);
      Dispatch(reader, kind, id, fn, tick);
    }

    /** The scanner loop: lines that are not callbacks are passed over without being counted; a scan error is kept. */
    method ReadCallbacks(ghost reader: nat, lines: seq<Option<(Runs.WireKind, string)>>, scanError: Option<string>)
      requires Valid() && reader !in readers
      modifies this
      ensures Valid() && View() == AfterLines(old(View()), reader, lines)
      ensures Faults() == (old(lastFault), if scanError.Some? then scanError else old(streamErr))
    {
      ghost var start := View();
      assert lines[0..] == lines;
      for i := 0 to |lines|
        invariant Valid() && reader !in readers && Faults() == old(Faults())
        invariant AfterLines(View(), reader, lines[i..]) == AfterLines(start, reader, lines)
      {
        assert lines[i..][0] == lines[i] && lines[i..][1..] == lines[i + 1..];
        if lines[i].Some? {
          OnCallback(reader, lines[i].value.0, lines[i].value.1);
        }
      }
      if scanError.Some? {
        streamErr := scanError;
      }
    }

    method Counters() returns (got: nat, missed: nat, err: Option<string>)
      requires Valid()
      ensures got == received && missed == |lost| && err == streamErr
    {
      got, missed, err := received, unmatched, streamErr;
    }
  }

  /** How a failed registration is recorded. */
  function FaultText(kind: Runs.Kind, eventType: string, error: string): string {
    (if kind.Sub? then "subscribe " + eventType else "every") + ": " + error
  }

  function AfterRegister(h: Runs.Host, kind: Runs.Kind, hasHandler: bool, postFails: bool): Runs.Host {
    var r := |h.registrations|;
    var asked := Runs.Step(Runs.Step(Runs.Step(h, Runs.Mint(kind, hasHandler)), Runs.Insert(r)), Runs.Ask(r));
    Runs.Step(asked, if postFails then Runs.Reject(r) else Runs.Accept(r))
  }

  function AfterCallback(h: Runs.Host, reader: nat, kind: Runs.WireKind, id: string): Runs.Host {
    Runs.Step(Runs.Step(Runs.Step(h, Runs.Receive(reader, kind, id)), Runs.LookUp(reader)), Runs.Dispatch(reader))
  }

  function AfterLines(h: Runs.Host, reader: nat, lines: seq<Option<(Runs.WireKind, string)>>): Runs.Host
    decreases |lines|
  {
    if lines == [] then h
    else if lines[0].None? then AfterLines(h, reader, lines[1..])
    else AfterLines(AfterCallback(h, reader, lines[0].value.0, lines[0].value.1), reader, lines[1..])
  }

  // ----- Opening and closing -----

  class StreamControl {
    var streams: seq<Streams.Stream>
    var stop: Option<nat>
    var started: bool
    ghost var starter: Streams.Starter
    ghost var log: seq<Streams.Event>

    ghost function View(): Streams.Host
      reads this
    {
      Streams.Host(streams, stop, started, starter, log)
    }

    constructor ()
      ensures View() == Streams.NEW
    {
      streams, stop, started, starter, log := [], None, false, Streams.Idle, [];
    }

    /** The first region of Start under the state lock: nothing to do, or a new context and its stop function. */
    method Install() returns (already: bool, id: nat)
      requires starter.Entered?
      modifies this
      ensures View() == Streams.Step(old(View()), Streams.Install)
      ensures already == old(started)
      ensures !already ==> id == |old(streams)| && starter == Streams.Waiting(id) && stop == Some(id)
      ensures streams == old(streams) + if already then [] else [Streams.Stream(false, false, false, Streams.Pending)]
      ensures log == old(log) + [if already then Streams.Returned(Streams.Already) else Streams.Installed(id)]
    {
      if started {
        starter, log := Streams.Idle, log + [Streams.Returned(Streams.Already)];
        return true, 0;
      }
      id := |streams|;
      streams := streams + [Streams.Stream(false, false, false, Streams.Pending)];
      stop := Some(id);
      starter, log := Streams.Waiting(id), log + [Streams.Installed(id)];
      already := false;
    }

    /** The last region of Start: a context cancelled in the meantime refuses the start. */
    method Settle(id: nat) returns (ok: bool)
      requires starter == Streams.Settling(id) && id < |streams|
      modifies this
      ensures View() == Streams.Step(old(View()), Streams.Settle)
      ensures ok == !old(streams)[id].cancelled
      ensures started == (old(started) || ok) && streams == old(streams) && stop == old(stop) && starter == Streams.Idle
      ensures log == old(log) + [Streams.Returned(if ok then Streams.Opened(id) else Streams.Failed)]
    {
      if streams[id].cancelled {
        starter, log := Streams.Idle, log + [Streams.Returned(Streams.Failed)];
        return false;
      }
      started := true;
      starter, log := Streams.Idle, log + [Streams.Returned(Streams.Opened(id))];
      return true;
    }

    /** Cancels the stream and forgets it, all under the state lock. */
    method Close()
      modifies this
      ensures View() == Streams.Step(old(View()), Streams.Close)
      ensures !started && stop == None && starter == old(starter) && log == old(log) + [Streams.Closing]
      ensures |streams| == |old(streams)|
      ensures forall k :: 0 <= k < |streams| ==>
                streams[k] == if old(stop) == Some(k) then old(streams)[k].(cancelled := true) else old(streams)[k]
    {
      var last := stop;
      stop := None;
      started := false;
      if last.Some? && last.value < |streams| {
        streams := streams[last.value := streams[last.value].(cancelled := true)];
      }
      log := log + [Streams.Closing];
    }
  }
}
