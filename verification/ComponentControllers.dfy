/** A component's snapshot store: immutable snapshots, and subscriptions that fire when a selected value changes. */
module ComponentControllers {
  import opened Texts

  /** What the controller asks of snapshots: the family's structural check, and their JSON text. */
  datatype Schema<!S> = Schema(valid: S -> bool, json: S -> string)

  datatype ControllerError = Disposed | InvalidSnapshot

  /** One selective subscription: what its closure remembers, and what its listener has been given. */
  datatype Listener<!S, V> = Listener(selector: S -> V, previous: V, delivered: seq<V>, live: bool)

  datatype Store<!S, V> = Store(current: S, disposed: bool, listeners: seq<Listener<S, V>>)

  // ----- One operation -----

  function Notify<S, V(==)>(l: Listener<S, V>, current: S): Listener<S, V> {
    var next := l.selector(current);
    if !l.live || l.previous == next then l
    else l.(previous := next, delivered := l.delivered + [next])
  }

  function NotifyAll<S, V(==)>(ls: seq<Listener<S, V>>, current: S): (r: seq<Listener<S, V>>)
    ensures |r| == |ls| && forall i :: 0 <= i < |ls| ==> r[i] == Notify(ls[i], current)
  {
    seq(|ls|, i requires 0 <= i < |ls| => Notify(ls[i], current))
  }

  /** Whether an update replaces the snapshot: it must be valid, and differ as JSON. */
  predicate Installs<S, V>(schema: Schema<S>, st: Store<S, V>, next: S) {
    !st.disposed && schema.valid(next) && schema.json(next) != schema.json(st.current)
  }

  function Updated<S, V(==)>(schema: Schema<S>, st: Store<S, V>, next: S): Store<S, V> {
    if Installs(schema, st, next) then st.(current := next, listeners := NotifyAll(st.listeners, next)) else st
  }

  function Subscribed<S, V>(st: Store<S, V>, selector: S -> V): Store<S, V> {
    if st.disposed then st
    else st.(listeners := st.listeners + [Listener(selector, selector(st.current), [], true)])
  }

  function Silenced<S, V>(ls: seq<Listener<S, V>>): (r: seq<Listener<S, V>>)
    ensures |r| == |ls| && forall i :: 0 <= i < |ls| ==> r[i] == ls[i].(live := false)
  {
    seq(|ls|, i requires 0 <= i < |ls| => ls[i].(live := false))
  }

  function DisposedStore<S, V>(st: Store<S, V>): Store<S, V> {
    st.(disposed := true, listeners := Silenced(st.listeners))
  }

  function Unsubscribed<S, V>(st: Store<S, V>, i: nat): Store<S, V> {
    if i < |st.listeners| then st.(listeners := st.listeners[i := st.listeners[i].(live := false)]) else st
  }

  // ----- The controller object -----

  class Controller<S, V(==)> {
    const schema: Schema<S>
    var current: S
    var disposed: bool
    var listeners: seq<Listener<S, V>>

    ghost function View(): Store<S, V>
      reads this
    {
      Store(current, disposed, listeners)
    }

    constructor (schema: Schema<S>, snapshot: S, aborted: bool)
      ensures this.schema == schema && View() == Store(snapshot, aborted, [])
    {
      this.schema := schema;
      this.current := snapshot;
      this.disposed := aborted;
      this.listeners := [];
    }

    method Dispose()
      modifies this
      ensures View() == DisposedStore(old(View()))
    {
      disposed := true;
      listeners := Silenced(listeners);
    }

    method GetSnapshot() returns (r: Result<S, ControllerError>)
      ensures r == if disposed then Err(Disposed) else Ok(current)
    {
      r := if disposed then Err(Disposed) else Ok(current);
    }

    method Subscribe(selector: S -> V) returns (r: Result<nat, ControllerError>)
      modifies this
      ensures View() == Subscribed(old(View()), selector)
      ensures r == if old(disposed) then Err(Disposed) else Ok(|old(listeners)|)
    {
      if disposed {
        return Err(Disposed);
      }
      r := Ok(|listeners|);
      listeners := listeners + [Listener(selector, selector(current), [], true)];
    }

    method Unsubscribe(i: nat)
      modifies this
      ensures View() == Unsubscribed(old(View()), i)
    {
      if i < |listeners| {
        listeners := listeners[i := listeners[i].(live := false)];
      }
    }

    method Update(next: S) returns (fault: Option<ControllerError>)
      modifies this
      ensures fault == if old(disposed) then Some(Disposed) else if !schema.valid(next) then Some(InvalidSnapshot) else None
      ensures View() == Updated(schema, old(View()), next)
    {
      if disposed {
        return Some(Disposed);
      }
      if !schema.valid(next) {
        return Some(InvalidSnapshot);
      }
      if schema.json(next) == schema.json(current) {
        return None;
      }
      current := next;
      for i := 0 to |listeners|
        invariant |listeners| == |old(listeners)| && current == next && !disposed
        invariant forall k :: i <= k < |listeners| ==> listeners[k] == old(listeners)[k]
        invariant forall k :: 0 <= k < i ==> listeners[k] == Notify(old(listeners)[k], next)
      {
        var l := listeners[i];
        var value := l.selector(current);
        if l.live && l.previous != value {
          listeners := listeners[i := l.(previous := value, delivered := l.delivered + [value])];
        }
      }
      assert listeners == NotifyAll(old(listeners), next);
      return None;
    }
  }

  // ----- Whole runs -----

  datatype Op<!S, !V> =
    | Update(next: S)
    | Subscribe(selector: S -> V)
    | Unsubscribe(listener: nat)
    | Dispose

  function Perform<S, V(==)>(schema: Schema<S>, st: Store<S, V>, op: Op<S, V>): Store<S, V> {
    match op
    case Update(next) => Updated(schema, st, next)
    case Subscribe(selector) => Subscribed(st, selector)
    case Unsubscribe(i) => Unsubscribed(st, i)
    case Dispose => DisposedStore(st)
  }

  function RunOps<S, V(==)>(schema: Schema<S>, st: Store<S, V>, ops: seq<Op<S, V>>): Store<S, V>
    decreases |ops|
  {
    if ops == [] then st else RunOps(schema, Perform(schema, st, ops[0]), ops[1..])
  }

  function InstalledBy<S, V>(schema: Schema<S>, st: Store<S, V>, op: Op<S, V>): seq<S> {
    if op.Update? && Installs(schema, st, op.next) then [op.next] else []
  }

  /** The snapshots a run installs, in order. */
  function Installed<S, V(==)>(schema: Schema<S>, st: Store<S, V>, ops: seq<Op<S, V>>): seq<S>
    decreases |ops|
  {
    if ops == [] then []
    else InstalledBy(schema, st, ops[0]) + Installed(schema, Perform(schema, st, ops[0]), ops[1..])
  }

  function OfferedBy<S, V>(schema: Schema<S>, op: Op<S, V>): seq<S> {
    if op.Update? && schema.valid(op.next) then [op.next] else []
  }

  /** The valid snapshots a run offers, installed or not. */
  function Offered<S, V>(schema: Schema<S>, ops: seq<Op<S, V>>): seq<S> {
    if ops == [] then [] else OfferedBy(schema, ops[0]) + Offered(schema, ops[1..])
  }

  function Select<S, V>(selector: S -> V, snapshots: seq<S>): (values: seq<V>)
    ensures |values| == |snapshots| && forall i :: 0 <= i < |snapshots| ==> values[i] == selector(snapshots[i])
  {
    seq(|snapshots|, i requires 0 <= i < |snapshots| => selector(snapshots[i]))
  }

  /** A sequence without its immediate repetitions: each element differing from its left neighbour is kept. */
  function Destutter<V(==)>(s: seq<V>): seq<V> {
    if |s| <= 1 then s
    else if s[|s| - 1] == s[|s| - 2] then Destutter(s[..|s| - 1])
    else Destutter(s[..|s| - 1]) + [s[|s| - 1]]
  }

  lemma {:induction false} DestutterEnds<V>(s: seq<V>)
    requires s != []
    ensures Destutter(s) != [] && Destutter(s)[0] == s[0] && Destutter(s)[|Destutter(s)| - 1] == s[|s| - 1]
  {
    if |s| > 1 {
      DestutterEnds(s[..|s| - 1]);
    }
  }

  /** No value of a destuttered sequence repeats its neighbour, and destuttering again changes nothing. */
  lemma {:induction false} DestutterIsFree<V>(s: seq<V>)
    ensures forall i :: 0 < i < |Destutter(s)| ==> Destutter(s)[i] != Destutter(s)[i - 1]
    ensures forall x :: x in s <==> x in Destutter(s)
  {
    if |s| > 1 {
      var before := s[..|s| - 1];
      DestutterIsFree(before);
      DestutterEnds(before);
      assert s == before + [s[|s| - 1]] && s[|s| - 2] in before;
    }
  }

  lemma MostOfConcat<V>(a: seq<V>, b: seq<V>)
    requires b != []
    ensures (a + b)[..|a + b| - 1] == a + b[..|b| - 1]
  {
  }

  /** Repeating an element in place leaves the destuttered sequence as it was. */
  lemma {:induction false} DestutterRepeat<V>(a: seq<V>, x: V, b: seq<V>)
    ensures Destutter(a + [x, x] + b) == Destutter(a + [x] + b)
    decreases |b|
  {
    var long, short := a + [x, x] + b, a + [x] + b;
    if b == [] {
      assert long[..|long| - 1] == short;
    } else {
      DestutterRepeat(a, x, b[..|b| - 1]);
      MostOfConcat(a + [x, x], b);
      MostOfConcat(a + [x], b);
      assert long[|long| - 2] == short[|short| - 2];
    }
  }

  /** Operations that neither remove listener i nor dispose the store. */
  ghost predicate Keeps<S, V>(ops: seq<Op<S, V>>, i: nat) {
    forall k :: 0 <= k < |ops| ==> !ops[k].Dispose? && ops[k] != Unsubscribe(i)
  }

  /** The state of a live listener after its selector has taken the given values in turn. */
  ghost predicate Tracks<S, V>(l: Listener<S, V>, selector: S -> V, values: seq<V>) {
    && l.live && l.selector == selector
    && values != []
    && Destutter(values) == [values[0]] + l.delivered
    && l.previous == values[|values| - 1]
  }

  lemma NotifyTracks<S, V>(l: Listener<S, V>, selector: S -> V, values: seq<V>, next: S)
    requires Tracks(l, selector, values)
    ensures Tracks(Notify(l, next), selector, values + [selector(next)])
  {
    var more := values + [selector(next)];
    assert more[..|more| - 1] == values;
  }

  lemma PerformTracks<S, V>(schema: Schema<S>, st: Store<S, V>, op: Op<S, V>, i: nat, selector: S -> V, values: seq<V>)
    requires !st.disposed && i < |st.listeners| && !op.Dispose? && op != Unsubscribe(i)
    requires Tracks(st.listeners[i], selector, values)
    ensures var after := Perform(schema, st, op);
            !after.disposed && i < |after.listeners|
            && Tracks(after.listeners[i], selector, values + Select(selector, InstalledBy(schema, st, op)))
  {
    if op.Update? && Installs(schema, st, op.next) {
      NotifyTracks(st.listeners[i], selector, values, op.next);
      assert Select(selector, [op.next]) == [selector(op.next)];
    } else {
      assert values + Select(selector, []) == values;
    }
  }

  lemma SelectConcat<S, V>(selector: S -> V, values: seq<V>, first: seq<S>, rest: seq<S>)
    ensures values + Select(selector, first) + Select(selector, rest) == values + Select(selector, first + rest)
  {
  }

  lemma {:induction false} RunTracks<S, V>(schema: Schema<S>, st: Store<S, V>, ops: seq<Op<S, V>>, i: nat, selector: S -> V, values: seq<V>)
    requires !st.disposed && i < |st.listeners| && Keeps(ops, i)
    requires Tracks(st.listeners[i], selector, values)
    ensures var after := RunOps(schema, st, ops);
            !after.disposed && i < |after.listeners|
            && Tracks(after.listeners[i], selector, values + Select(selector, Installed(schema, st, ops)))
    decreases |ops|
  {
    if ops == [] {
      assert values + Select(selector, []) == values;
    } else {
      var next, first := Perform(schema, st, ops[0]), InstalledBy(schema, st, ops[0]);
      var rest := Installed(schema, next, ops[1..]);
      PerformTracks(schema, st, ops[0], i, selector, values);
      RunTracks(schema, next, ops[1..], i, selector, values + Select(selector, first));
      SelectConcat(selector, values, first, rest);
    }
  }

  /**
   A selector subscriber receives exactly the values its selector takes over the snapshots installed since it
   subscribed, without immediate repetitions and without the initial value: for every run of operations that
   leaves the subscription in place, whatever other subscribers do.
   */
  lemma SubscriberSeesChanges<S, V>(schema: Schema<S>, st: Store<S, V>, selector: S -> V, ops: seq<Op<S, V>>)
    requires !st.disposed && Keeps(ops, |st.listeners|)
    ensures var start := Subscribed(st, selector);
            var after := RunOps(schema, start, ops);
            |st.listeners| < |after.listeners|
            && [selector(st.current)] + after.listeners[|st.listeners|].delivered
               == Destutter([selector(st.current)] + Select(selector, Installed(schema, start, ops)))
    ensures var delivered := RunOps(schema, Subscribed(st, selector), ops).listeners[|st.listeners|].delivered;
            && (delivered != [] ==> delivered[0] != selector(st.current))
            && forall i :: 0 < i < |delivered| ==> delivered[i] != delivered[i - 1]
  {
    RunTracks(schema, Subscribed(st, selector), ops, |st.listeners|, selector, [selector(st.current)]);
    var values := [selector(st.current)] + Select(selector, Installed(schema, Subscribed(st, selector), ops));
    DestutterIsFree(values);
    var delivered := RunOps(schema, Subscribed(st, selector), ops).listeners[|st.listeners|].delivered;
    assert forall i :: 0 <= i < |delivered| ==> delivered[i] == Destutter(values)[i + 1];
    assert Destutter(values)[0] == selector(st.current);
    assert delivered != [] ==> Destutter(values)[1] != Destutter(values)[1 - 1];
  }

  /** The last element of a non-empty list of snapshots. */
  function Latest<S>(snapshots: seq<S>): S
    requires snapshots != []
  {
    snapshots[|snapshots| - 1]
  }

  /**
   What GetSnapshot shows after any run without disposal: the last snapshot installed, which has the JSON text of the
   last valid one offered.
   */
  lemma {:induction false} SnapshotIsLatest<S, V>(schema: Schema<S>, st: Store<S, V>, ops: seq<Op<S, V>>)
    requires !st.disposed && forall k :: 0 <= k < |ops| ==> !ops[k].Dispose?
    ensures var after := RunOps(schema, st, ops);
            && !after.disposed
            && after.current == Latest([st.current] + Installed(schema, st, ops))
            && schema.json(after.current) == schema.json(Latest([st.current] + Offered(schema, ops)))
    decreases |ops|
  {
    if ops != [] {
      var next, first := Perform(schema, st, ops[0]), InstalledBy(schema, st, ops[0]);
      SnapshotIsLatest(schema, next, ops[1..]);
      LatestOf(st.current, first, Installed(schema, next, ops[1..]));
      LatestOf(st.current, OfferedBy(schema, ops[0]), Offered(schema, ops[1..]));
      assert next.current == Latest([st.current] + first);
    }
  }

  lemma LatestOf<S>(start: S, first: seq<S>, rest: seq<S>)
    ensures Latest([start] + (first + rest)) == if rest == [] then Latest([start] + first) else Latest(rest)
    ensures forall s :: Latest([s] + rest) == if rest == [] then s else Latest(rest)
  {
  }

  /** Disposal is for good: the store stays disposed, and shows nothing more. */
  lemma {:induction false} DisposalIsFinal<S, V>(schema: Schema<S>, st: Store<S, V>, ops: seq<Op<S, V>>)
    ensures RunOps(schema, st, ops).disposed <==> st.disposed || exists k :: 0 <= k < |ops| && ops[k].Dispose?
    ensures st.disposed ==> RunOps(schema, st, ops).current == st.current
    decreases |ops|
  {
    if ops != [] {
      DisposalIsFinal(schema, Perform(schema, st, ops[0]), ops[1..]);
      assert forall k :: 0 < k < |ops| ==> ops[k] == ops[1..][k - 1];
      assert forall k :: 0 <= k < |ops[1..]| ==> ops[1..][k] == ops[k + 1];
    }
  }

  /** A listener that has been removed, or disposed of, hears nothing more on any run; the others stay in place. */
  lemma {:induction false} SilencedStaysSilent<S, V>(schema: Schema<S>, st: Store<S, V>, ops: seq<Op<S, V>>, i: nat)
    requires i < |st.listeners| && !st.listeners[i].live
    ensures var after := RunOps(schema, st, ops);
            i < |after.listeners| && !after.listeners[i].live && after.listeners[i].delivered == st.listeners[i].delivered
    decreases |ops|
  {
    if ops != [] {
      SilencedStaysSilent(schema, Perform(schema, st, ops[0]), ops[1..], i);
    }
  }

  /** After its removal a listener keeps what it was given, whatever is done to the store. */
  lemma UnsubscribedHearsNothing<S, V>(schema: Schema<S>, st: Store<S, V>, ops: seq<Op<S, V>>, i: nat)
    requires i < |st.listeners|
    ensures var after := RunOps(schema, Perform(schema, st, Unsubscribe(i)), ops);
            i < |after.listeners| && after.listeners[i].delivered == st.listeners[i].delivered
    ensures var removed := Perform(schema, st, Unsubscribe(i)).listeners;
            |removed| == |st.listeners| && forall k :: 0 <= k < |removed| && k != i ==> removed[k] == st.listeners[k]
  {
    SilencedStaysSilent(schema, Perform(schema, st, Unsubscribe(i)), ops, i);
  }

  /** After disposal no listener hears anything. */
  lemma DisposedHearNothing<S, V>(schema: Schema<S>, st: Store<S, V>, ops: seq<Op<S, V>>, i: nat)
    requires i < |st.listeners|
    ensures var after := RunOps(schema, Perform(schema, st, Op<S, V>.Dispose), ops);
            i < |after.listeners| && after.listeners[i].delivered == st.listeners[i].delivered
  {
    SilencedStaysSilent(schema, Perform(schema, st, Op<S, V>.Dispose), ops, i);
  }

  // ----- Installed against offered snapshots -----

  /** A selector that cannot tell apart snapshots with one JSON text. */
  ghost predicate Respects<S(!new), V>(schema: Schema<S>, selector: S -> V) {
    forall a, b :: schema.valid(a) && schema.valid(b) && schema.json(a) == schema.json(b) ==> selector(a) == selector(b)
  }

  /** Offering a snapshot with the current JSON text adds a repetition at most. */
  lemma RefusedOfferRepeats<S(!new), V>(schema: Schema<S>, st: Store<S, V>, op: Op<S, V>, selector: S -> V, front: seq<V>, rest: seq<V>)
    requires !st.disposed && schema.valid(st.current) && Respects(schema, selector)
    requires InstalledBy(schema, st, op) == []
    ensures Destutter(front + [selector(st.current)] + (Select(selector, OfferedBy(schema, op)) + rest))
         == Destutter(front + [selector(st.current)] + rest)
  {
    var now := selector(st.current);
    if op.Update? && schema.valid(op.next) {
      assert selector(op.next) == now;
      DestutterRepeat(front, now, rest);
      assert front + [now] + (Select(selector, [op.next]) + rest) == front + [now, now] + rest;
    } else {
      assert Select(selector, []) + rest == rest;
    }
  }

  lemma {:induction false} OfferedDestutters<S(!new), V>(schema: Schema<S>, st: Store<S, V>, ops: seq<Op<S, V>>,
                                                         selector: S -> V, front: seq<V>)
    requires !st.disposed && schema.valid(st.current) && Respects(schema, selector)
    requires forall k :: 0 <= k < |ops| ==> !ops[k].Dispose?
    ensures Destutter(front + [selector(st.current)] + Select(selector, Installed(schema, st, ops)))
         == Destutter(front + [selector(st.current)] + Select(selector, Offered(schema, ops)))
    decreases |ops|
  {
    if ops == [] {
      return;
    }
    var next, op := Perform(schema, st, ops[0]), ops[0];
    assert !op.Dispose?;
    var installed, offered := Installed(schema, next, ops[1..]), Offered(schema, ops[1..]);
    SelectAppend(selector, InstalledBy(schema, st, op), installed);
    SelectAppend(selector, OfferedBy(schema, op), offered);
    if InstalledBy(schema, st, op) == [] {
      OfferedDestutters(schema, next, ops[1..], selector, front);
      RefusedOfferRepeats(schema, st, op, selector, front, Select(selector, offered));
      assert [] + Select(selector, installed) == Select(selector, installed);
    } else {
      OfferedDestutters(schema, next, ops[1..], selector, front + [selector(st.current)]);
      BothStep(selector, front + [selector(st.current)], op.next, installed, offered);
    }
  }

  lemma BothStep<S, V>(selector: S -> V, before: seq<V>, next: S, a: seq<S>, b: seq<S>)
    requires Destutter(before + [selector(next)] + Select(selector, a)) == Destutter(before + [selector(next)] + Select(selector, b))
    ensures Destutter(before + (Select(selector, [next]) + Select(selector, a)))
         == Destutter(before + (Select(selector, [next]) + Select(selector, b)))
  {
    SelectStep(selector, before, next, a);
    SelectStep(selector, before, next, b);
  }

  lemma SelectStep<S, V>(selector: S -> V, before: seq<V>, next: S, rest: seq<S>)
    ensures before + (Select(selector, [next]) + Select(selector, rest)) == before + [selector(next)] + Select(selector, rest)
  {
    assert Select(selector, [next]) == [selector(next)];
  }

  lemma SelectAppend<S, V>(selector: S -> V, a: seq<S>, b: seq<S>)
    ensures Select(selector, a + b) == Select(selector, a) + Select(selector, b)
  {
  }

  /** For a selector that respects JSON text, the subscriber sees every change among the snapshots offered. */
  lemma RespectingSelectorMissesNothing<S(!new), V>(schema: Schema<S>, st: Store<S, V>, selector: S -> V, ops: seq<Op<S, V>>)
    requires !st.disposed && schema.valid(st.current) && Keeps(ops, |st.listeners|) && Respects(schema, selector)
    ensures var after := RunOps(schema, Subscribed(st, selector), ops);
            |st.listeners| < |after.listeners|
            && [selector(st.current)] + after.listeners[|st.listeners|].delivered
               == Destutter([selector(st.current)] + Select(selector, Offered(schema, ops)))
  {
    SubscriberSeesChanges(schema, st, selector, ops);
    OfferedDestutters(schema, Subscribed(st, selector), ops, selector, []);
    assert [] + [selector(st.current)] == [selector(st.current)];
  }

  /** The condition is needed: any pair of snapshots that breaks it is a change that a subscriber is never told of. */
  lemma DisrespectfulSelectorMissesAChange<S, V>(schema: Schema<S>, a: S, b: S, selector: S -> V)
    requires schema.valid(a) && schema.valid(b) && schema.json(a) == schema.json(b) && selector(a) != selector(b)
    ensures var after := RunOps(schema, Subscribed(Store(a, false, []), selector), [Update(b)]);
            |after.listeners| == 1 && after.listeners[0].delivered == []
            && Destutter([selector(a)] + Select(selector, Offered<S, V>(schema, [Update(b)]))) == [selector(a), selector(b)]
  {
    var ops: seq<Op<S, V>> := [Update(b)];
    assert ops[1..] == [];
    assert Offered(schema, ops) == [b] + [];
    var values := [selector(a)] + Select(selector, [b]);
    assert values == [selector(a), selector(b)] && values[..1] == [selector(a)];
    var start := Subscribed(Store(a, false, []), selector);
    assert RunOps(schema, start, ops) == RunOps(schema, start, []) == start;
  }
}
