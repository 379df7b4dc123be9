/**
 Registrations and callbacks under every interleaving: registering before asking the host, cancelling, and any number
 of stream readers dispatching what the host sends.
 */
module CallbackRuns {
  import opened Texts
  import opened Decimals

  datatype Kind = Sub | Every

  /** The kind word on the wire: the two that are dispatched, or anything else. */
  datatype WireKind = EventKind | TickKind | OtherKind

  /** Inserted: in the table. Asked: the host may know the id. Failed and Cancelled: out of the table for good. */
  datatype Stage = Minted | Inserted | Asked | Active | Failed | Cancelled

  datatype Registration = Registration(kind: Kind, id: string, hasHandler: bool, stage: Stage)

  /** A reader between counting a callback, looking its id up, and dispatching it. */
  datatype Busy =
    | Counted(kind: WireKind, id: string, asked: bool)
    | Found(kind: WireKind, id: string, asked: bool, fn: Option<nat>, tick: Option<nat>)

  datatype Delivery = Delivery(registration: nat, kind: WireKind, id: string)

  datatype Loss = Loss(kind: WireKind, id: string, asked: bool)

  /** Handlers are known by the registration they were given with; nil handlers are not looked up. */
  datatype Host = Host(
    registrations: seq<Registration>,
    subs: map<string, nat>,
    ticks: map<string, nat>,
    asked: set<string>,
    readers: map<nat, Busy>,
    received: nat,
    dispatched: seq<Delivery>,
    lost: seq<Loss>,
    unknown: nat)

  const NEW := Host([], map[], map[], {}, map[], 0, [], [], 0)

  function Prefix(kind: Kind): string { if kind.Sub? then "sub" else "every" }

  /** The id of the n-th registration of the process. */
  function IdOf(kind: Kind, n: nat): string { Prefix(kind) + "-" + Decimal(n) }

  datatype Action =
    | Mint(kind: Kind, hasHandler: bool)
    | Insert(r: nat)
    | Ask(r: nat)
    | Accept(r: nat)
    | Reject(r: nat)
    | Cancel(r: nat)
    | Receive(reader: nat, word: WireKind, id: string)
    | LookUp(reader: nat)
    | Dispatch(reader: nat)

  function At(h: Host, r: nat): Stage { if r < |h.registrations| then h.registrations[r].stage else Minted }

  function Moved(h: Host, r: nat, stage: Stage): Host
    requires r < |h.registrations|
  {
    h.(registrations := h.registrations[r := h.registrations[r].(stage := stage)])
  }

  function Removed(h: Host, r: nat, stage: Stage): Host
    requires r < |h.registrations|
  {
    var reg := h.registrations[r];
    var h' := Moved(h, r, stage);
    if reg.kind.Sub? then h'.(subs := h.subs - {reg.id}) else h'.(ticks := h.ticks - {reg.id})
  }

  function Inserting(h: Host, r: nat): Host
    requires r < |h.registrations|
  {
    var reg := h.registrations[r];
    var h' := Moved(h, r, Inserted);
    if reg.kind.Sub? then h'.(subs := h.subs[reg.id := r]) else h'.(ticks := h.ticks[reg.id := r])
  }

  /** The handler the table holds for an id: the entry may be a nil function. */
  function HandlerFor(h: Host, table: map<string, nat>, id: string): Option<nat> {
    if id in table && table[id] < |h.registrations| && h.registrations[table[id]].hasHandler then Some(table[id]) else None
  }

  function Dispatched(h: Host, b: Busy): Host
    requires b.Found?
  {
    match b.kind
    case EventKind =>
      if b.fn.Some? then h.(dispatched := h.dispatched + [Delivery(b.fn.value, b.kind, b.id)])
      else h.(lost := h.lost + [Loss(b.kind, b.id, b.asked)])
    case TickKind =>
      if b.tick.Some? then h.(dispatched := h.dispatched + [Delivery(b.tick.value, b.kind, b.id)])
      else h.(lost := h.lost + [Loss(b.kind, b.id, b.asked)])
    case OtherKind => h.(unknown := h.unknown + 1)
  }

  function Step(h: Host, a: Action): Host {
    match a
    case Mint(kind, hasHandler) =>
      h.(registrations := h.registrations + [Registration(kind, IdOf(kind, |h.registrations| + 1), hasHandler, Minted)])
    case Insert(r) => if r < |h.registrations| && At(h, r).Minted? then Inserting(h, r) else h
    case Ask(r) =>
      if r < |h.registrations| && At(h, r).Inserted?
      then Moved(h, r, Asked).(asked := h.asked + {h.registrations[r].id})
      else h
    case Accept(r) => if r < |h.registrations| && At(h, r).Asked? then Moved(h, r, Active) else h
    case Reject(r) => if r < |h.registrations| && (At(h, r).Inserted? || At(h, r).Asked?) then Removed(h, r, Failed) else h
    case Cancel(r) => if r < |h.registrations| && At(h, r).Active? then Removed(h, r, Cancelled) else h
    case Receive(reader, kind, id) =>
      if reader in h.readers then h
      else h.(received := h.received + 1, readers := h.readers[reader := Counted(kind, id, id in h.asked)])
    case LookUp(reader) =>
      if reader in h.readers && h.readers[reader].Counted? then
        var b := h.readers[reader];
        h.(readers := h.readers[reader :=
             Found(b.kind, b.id, b.asked, HandlerFor(h, h.subs, b.id), HandlerFor(h, h.ticks, b.id))])
      else h
    case Dispatch(reader) =>
      if reader in h.readers && h.readers[reader].Found?
      then Dispatched(h, h.readers[reader]).(readers := h.readers - {reader})
      else h
  }

  function Run(h: Host, actions: seq<Action>): Host
    decreases |actions|
  {
    if actions == [] then h else Run(Step(h, actions[0]), actions[1..])
  }

  // ----- Ids -----

  /** No two registrations share an id: neither the counter nor the prefix can collide. */
  lemma IdsDiffer(j: Kind, m: nat, k: Kind, n: nat)
    requires IdOf(j, m) == IdOf(k, n)
    ensures j == k && m == n
  {
    assert IdOf(j, m)[0] == Prefix(j)[0] && IdOf(k, n)[0] == Prefix(k)[0];
    assert IdOf(j, m)[|Prefix(j)| + 1..] == Decimal(m) && IdOf(k, n)[|Prefix(k)| + 1..] == Decimal(n);
    DecimalInjective(m, n);
  }

  // ----- The invariant -----

  type Registry = seq<Registration>

  predicate InTable(stage: Stage) { stage in {Inserted, Asked, Active} }

  predicate WasAsked(stage: Stage) { stage in {Asked, Active, Failed, Cancelled} }

  ghost predicate SoundIds(regs: Registry) {
    forall r :: 0 <= r < |regs| ==> regs[r].id == IdOf(regs[r].kind, r + 1)
  }

  /** A table holds exactly its kind's registrations that are inserted and not yet removed. */
  ghost predicate SoundTable(regs: Registry, kind: Kind, table: map<string, nat>) {
    && (forall id :: id in table ==>
          table[id] < |regs| && regs[table[id]].kind == kind && regs[table[id]].id == id && InTable(regs[table[id]].stage))
    && (forall r :: 0 <= r < |regs| && regs[r].kind == kind && InTable(regs[r].stage) ==>
          regs[r].id in table && table[regs[r].id] == r)
  }

  /** Every id the host was asked to register belongs to a registration that has gone that far. */
  ghost predicate SoundAsked(regs: Registry, asked: set<string>) {
    forall id :: id in asked ==> exists r :: 0 <= r < |regs| && regs[r].id == id && WasAsked(regs[r].stage)
  }

  function KindOf(kind: WireKind): Option<Kind> {
    match kind
    case EventKind => Some(Sub)
    case TickKind => Some(Every)
    case OtherKind => None
  }

  /** Why this registration may leave a callback of the given kind without a handler. */
  predicate Excuses(reg: Registration, kind: WireKind) {
    reg.stage in {Failed, Cancelled} || KindOf(kind) != Some(reg.kind) || !reg.hasHandler
  }

  ghost predicate Excused(regs: Registry, kind: WireKind, id: string) {
    exists r :: 0 <= r < |regs| && regs[r].id == id && Excuses(regs[r], kind)
  }

  ghost predicate OwnHandler(regs: Registry, r: nat, kind: Kind, id: string) {
    r < |regs| && regs[r].kind == kind && regs[r].id == id && regs[r].hasHandler
  }

  ghost predicate SoundBusy(regs: Registry, asked: set<string>, b: Busy) {
    && (b.asked ==> b.id in asked)
    && (b.Found? ==>
          && (b.fn.Some? ==> OwnHandler(regs, b.fn.value, Sub, b.id))
          && (b.tick.Some? ==> OwnHandler(regs, b.tick.value, Every, b.id))
          && (b.asked && b.kind.EventKind? && b.fn.None? ==> Excused(regs, b.kind, b.id))
          && (b.asked && b.kind.TickKind? && b.tick.None? ==> Excused(regs, b.kind, b.id)))
  }

  ghost predicate SoundReaders(regs: Registry, asked: set<string>, readers: map<nat, Busy>) {
    forall x :: x in readers ==> SoundBusy(regs, asked, readers[x])
  }

  ghost predicate SoundDelivery(regs: Registry, d: Delivery) {
    KindOf(d.kind).Some? && OwnHandler(regs, d.registration, KindOf(d.kind).value, d.id)
  }

  ghost predicate SoundDeliveries(regs: Registry, ds: seq<Delivery>) {
    forall k :: 0 <= k < |ds| ==> SoundDelivery(regs, ds[k])
  }

  ghost predicate SoundLosses(regs: Registry, ls: seq<Loss>) {
    forall k :: 0 <= k < |ls| && ls[k].asked ==> Excused(regs, ls[k].kind, ls[k].id)
  }

  /** Everything received has been dispatched, lost or set aside as of an unknown kind, or is still with a reader. */
  ghost predicate Conserved(h: Host) { h.received == |h.dispatched| + |h.lost| + h.unknown + |h.readers| }

  ghost predicate SoundRegistry(h: Host) {
    && SoundIds(h.registrations)
    && SoundTable(h.registrations, Sub, h.subs) && SoundTable(h.registrations, Every, h.ticks)
    && SoundAsked(h.registrations, h.asked)
  }

  ghost predicate SoundFlow(h: Host) {
    && SoundReaders(h.registrations, h.asked, h.readers)
    && SoundDeliveries(h.registrations, h.dispatched)
    && SoundLosses(h.registrations, h.lost)
    && Conserved(h)
  }

  ghost predicate Inv(h: Host) { SoundRegistry(h) && SoundFlow(h) }

  // ----- Registrations move forward -----

  /** Registrations only ever grow in number and move forward, keeping kind, id and handler. */
  ghost predicate Extends(a: Registry, b: Registry) {
    && |a| <= |b|
    && (forall r :: 0 <= r < |a| ==>
          && b[r].kind == a[r].kind && b[r].id == a[r].id && b[r].hasHandler == a[r].hasHandler
          && (a[r].stage in {Failed, Cancelled} ==> b[r].stage == a[r].stage)
          && (WasAsked(a[r].stage) ==> WasAsked(b[r].stage)))
  }

  lemma ExcuseLasts(a: Registry, b: Registry, kind: WireKind, id: string)
    requires Extends(a, b) && Excused(a, kind, id)
    ensures Excused(b, kind, id)
  {
    var r :| 0 <= r < |a| && a[r].id == id && Excuses(a[r], kind);
    assert b[r].id == id && Excuses(b[r], kind);
  }

  lemma BusyLasts(a: Registry, b: Registry, asked: set<string>, asked': set<string>, busy: Busy)
    requires Extends(a, b) && asked <= asked' && SoundBusy(a, asked, busy)
    ensures SoundBusy(b, asked', busy)
  {
    if Excused(a, busy.kind, busy.id) {
      ExcuseLasts(a, b, busy.kind, busy.id);
    }
  }

  lemma AskedLasts(a: Registry, b: Registry, asked: set<string>)
    requires Extends(a, b) && SoundAsked(a, asked)
    ensures SoundAsked(b, asked)
  {
    forall id | id in asked ensures exists r :: 0 <= r < |b| && b[r].id == id && WasAsked(b[r].stage) {
      var r :| 0 <= r < |a| && a[r].id == id && WasAsked(a[r].stage);
      assert b[r].id == id && WasAsked(b[r].stage);
    }
  }

  lemma LossesLast(a: Registry, b: Registry, ls: seq<Loss>)
    requires Extends(a, b) && SoundLosses(a, ls)
    ensures SoundLosses(b, ls)
  {
    forall k | 0 <= k < |ls| && ls[k].asked ensures Excused(b, ls[k].kind, ls[k].id) {
      ExcuseLasts(a, b, ls[k].kind, ls[k].id);
    }
  }

  lemma ReadersLast(a: Registry, b: Registry, asked: set<string>, asked': set<string>, readers: map<nat, Busy>)
    requires Extends(a, b) && asked <= asked' && SoundReaders(a, asked, readers)
    ensures SoundReaders(b, asked', readers)
  {
    forall x | x in readers ensures SoundBusy(b, asked', readers[x]) {
      BusyLasts(a, b, asked, asked', readers[x]);
    }
  }

  /** A change of registrations alone keeps what is in flight and what is on record. */
  lemma FlowLasts(h: Host, after: Host)
    requires SoundFlow(h) && Extends(h.registrations, after.registrations) && h.asked <= after.asked
    requires after.readers == h.readers && after.received == h.received
    requires after.dispatched == h.dispatched && after.lost == h.lost && after.unknown == h.unknown
    ensures SoundFlow(after)
  {
    ReadersLast(h.registrations, after.registrations, h.asked, after.asked, h.readers);
    LossesLast(h.registrations, after.registrations, h.lost);
  }

  // ----- Steps on the registry -----

  function Restaged(regs: Registry, r: nat, stage: Stage): Registry
    requires r < |regs|
  {
    regs[r := regs[r].(stage := stage)]
  }

  lemma RestagedExtends(regs: Registry, r: nat, stage: Stage)
    requires r < |regs| && regs[r].stage !in {Failed, Cancelled} && (WasAsked(regs[r].stage) ==> WasAsked(stage))
    requires SoundIds(regs)
    ensures Extends(regs, Restaged(regs, r, stage)) && SoundIds(Restaged(regs, r, stage))
  {
  }

  lemma DistinctIds(regs: Registry, r: nat, q: nat)
    requires SoundIds(regs) && r < |regs| && q < |regs| && regs[r].id == regs[q].id
    ensures r == q
  {
    IdsDiffer(regs[r].kind, r + 1, regs[q].kind, q + 1);
  }

  lemma OthersDiffer(regs: Registry, r: nat)
    requires SoundIds(regs) && r < |regs|
    ensures forall q :: 0 <= q < |regs| && q != r ==> regs[q].id != regs[r].id
  {
    forall q | 0 <= q < |regs| && q != r ensures regs[q].id != regs[r].id {
      if regs[q].id == regs[r].id {
        DistinctIds(regs, r, q);
      }
    }
  }

  lemma RemovedTable(regs: Registry, r: nat, stage: Stage, kind: Kind, table: map<string, nat>)
    requires SoundIds(regs) && SoundTable(regs, kind, table) && r < |regs| && !InTable(stage)
    ensures SoundTable(Restaged(regs, r, stage), kind, if regs[r].kind == kind then table - {regs[r].id} else table)
  {
    OthersDiffer(regs, r);
  }

  lemma InsertedTable(regs: Registry, r: nat, kind: Kind, table: map<string, nat>)
    requires SoundIds(regs) && SoundTable(regs, kind, table) && r < |regs| && regs[r].stage.Minted?
    ensures SoundTable(Restaged(regs, r, Inserted), kind, if regs[r].kind == kind then table[regs[r].id := r] else table)
  {
    OthersDiffer(regs, r);
  }

  lemma KeptTable(regs: Registry, r: nat, stage: Stage, kind: Kind, table: map<string, nat>)
    requires SoundTable(regs, kind, table) && r < |regs| && InTable(stage) && InTable(regs[r].stage)
    ensures SoundTable(Restaged(regs, r, stage), kind, table)
  {
  }

  lemma RemoveKeeps(h: Host, r: nat, stage: Stage)
    requires Inv(h) && r < |h.registrations| && InTable(At(h, r)) && stage in {Failed, Cancelled}
    ensures Inv(Removed(h, r, stage))
  {
    var regs := h.registrations;
    RestagedExtends(regs, r, stage);
    RemovedTable(regs, r, stage, Sub, h.subs);
    RemovedTable(regs, r, stage, Every, h.ticks);
    AskedLasts(regs, Restaged(regs, r, stage), h.asked);
    FlowLasts(h, Removed(h, r, stage));
  }

  lemma InsertKeeps(h: Host, r: nat)
    requires Inv(h) && r < |h.registrations| && At(h, r).Minted?
    ensures Inv(Inserting(h, r))
  {
    var regs := h.registrations;
    RestagedExtends(regs, r, Inserted);
    InsertedTable(regs, r, Sub, h.subs);
    InsertedTable(regs, r, Every, h.ticks);
    AskedLasts(regs, Restaged(regs, r, Inserted), h.asked);
    FlowLasts(h, Inserting(h, r));
  }

  lemma AskKeeps(h: Host, r: nat)
    requires Inv(h) && r < |h.registrations| && At(h, r).Inserted?
    ensures Inv(Step(h, Ask(r)))
  {
    var regs := h.registrations;
    var after := Restaged(regs, r, Asked);
    RestagedExtends(regs, r, Asked);
    KeptTable(regs, r, Asked, Sub, h.subs);
    KeptTable(regs, r, Asked, Every, h.ticks);
    AskedLasts(regs, after, h.asked);
    assert after[r].id == regs[r].id && WasAsked(after[r].stage);
    FlowLasts(h, Step(h, Ask(r)));
  }

  lemma AcceptKeeps(h: Host, r: nat)
    requires Inv(h) && r < |h.registrations| && At(h, r).Asked?
    ensures Inv(Moved(h, r, Active))
  {
    var regs := h.registrations;
    RestagedExtends(regs, r, Active);
    KeptTable(regs, r, Active, Sub, h.subs);
    KeptTable(regs, r, Active, Every, h.ticks);
    AskedLasts(regs, Restaged(regs, r, Active), h.asked);
    FlowLasts(h, Moved(h, r, Active));
  }

  lemma MintedTable(regs: Registry, reg: Registration, kind: Kind, table: map<string, nat>)
    requires SoundTable(regs, kind, table) && reg.stage.Minted?
    ensures SoundTable(regs + [reg], kind, table)
  {
  }

  lemma MintedExtends(regs: Registry, reg: Registration)
    requires SoundIds(regs) && reg.id == IdOf(reg.kind, |regs| + 1)
    ensures Extends(regs, regs + [reg]) && SoundIds(regs + [reg])
  {
  }

  lemma MintKeeps(h: Host, kind: Kind, hasHandler: bool)
    requires Inv(h)
    ensures Inv(Step(h, Mint(kind, hasHandler)))
  {
    var regs := h.registrations;
    var reg := Registration(kind, IdOf(kind, |regs| + 1), hasHandler, Minted);
    MintedExtends(regs, reg);
    MintedTable(regs, reg, Sub, h.subs);
    MintedTable(regs, reg, Every, h.ticks);
    AskedLasts(regs, regs + [reg], h.asked);
    FlowLasts(h, Step(h, Mint(kind, hasHandler)));
  }

  // ----- Steps of the readers -----

  lemma CountOf(a: map<nat, Busy>, b: map<nat, Busy>, n: int)
    requires |b.Keys| == |a.Keys| + n
    ensures |b| == |a| + n
  {
    assert |a| == |a.Keys| && |b| == |b.Keys|;
  }

  lemma ReceiveKeeps(h: Host, reader: nat, kind: WireKind, id: string)
    requires Inv(h) && reader !in h.readers
    ensures Inv(Step(h, Receive(reader, kind, id)))
  {
    var after := Step(h, Receive(reader, kind, id));
    assert after.readers.Keys == h.readers.Keys + {reader};
    CountOf(h.readers, after.readers, 1);
  }

  /** If an id the host was asked about has no handler in its kind's table, there is a reason. */
  lemma MissingIsExcused(h: Host, kind: WireKind, id: string)
    requires SoundRegistry(h) && id in h.asked
    requires kind.EventKind? ==> HandlerFor(h, h.subs, id).None?
    requires kind.TickKind? ==> HandlerFor(h, h.ticks, id).None?
    ensures Excused(h.registrations, kind, id)
  {
    var regs := h.registrations;
    var r :| 0 <= r < |regs| && regs[r].id == id && WasAsked(regs[r].stage);
    assert Excuses(regs[r], kind);
  }

  lemma LookedUp(h: Host, b: Busy)
    requires SoundRegistry(h) && SoundBusy(h.registrations, h.asked, b)
    ensures SoundBusy(h.registrations, h.asked,
              Found(b.kind, b.id, b.asked, HandlerFor(h, h.subs, b.id), HandlerFor(h, h.ticks, b.id)))
  {
    if b.asked && (b.kind.EventKind? ==> HandlerFor(h, h.subs, b.id).None?) && (b.kind.TickKind? ==> HandlerFor(h, h.ticks, b.id).None?) {
      MissingIsExcused(h, b.kind, b.id);
    }
  }

  lemma LookUpKeeps(h: Host, reader: nat)
    requires Inv(h) && reader in h.readers && h.readers[reader].Counted?
    ensures Inv(Step(h, LookUp(reader)))
  {
    var after := Step(h, LookUp(reader));
    LookedUp(h, h.readers[reader]);
    assert after.readers.Keys == h.readers.Keys;
    CountOf(h.readers, after.readers, 0);
  }

  lemma DispatchRecords(h: Host, b: Busy)
    requires SoundFlow(h) && b.Found? && SoundBusy(h.registrations, h.asked, b)
    ensures var after := Dispatched(h, b);
            SoundDeliveries(after.registrations, after.dispatched) && SoundLosses(after.registrations, after.lost)
            && |after.dispatched| + |after.lost| + after.unknown == |h.dispatched| + |h.lost| + h.unknown + 1
  {
  }

  lemma DispatchKeeps(h: Host, reader: nat)
    requires Inv(h) && reader in h.readers && h.readers[reader].Found?
    ensures Inv(Step(h, Dispatch(reader)))
  {
    var after := Step(h, Dispatch(reader));
    assert SoundBusy(h.registrations, h.asked, h.readers[reader]);
    DispatchRecords(h, h.readers[reader]);
    assert after.readers.Keys == h.readers.Keys - {reader};
    CountOf(h.readers, after.readers, -1);
  }

  lemma StepKeeps(h: Host, a: Action)
    requires Inv(h)
    ensures Inv(Step(h, a))
  {
    match a
    case Mint(kind, hasHandler) => MintKeeps(h, kind, hasHandler);
    case Insert(r) => if r < |h.registrations| && At(h, r).Minted? { InsertKeeps(h, r); }
    case Ask(r) => if r < |h.registrations| && At(h, r).Inserted? { AskKeeps(h, r); }
    case Accept(r) => if r < |h.registrations| && At(h, r).Asked? { AcceptKeeps(h, r); }
    case Reject(r) => if r < |h.registrations| && (At(h, r).Inserted? || At(h, r).Asked?) { RemoveKeeps(h, r, Failed); }
    case Cancel(r) => if r < |h.registrations| && At(h, r).Active? { RemoveKeeps(h, r, Cancelled); }
    case Receive(reader, kind, id) => if reader !in h.readers { ReceiveKeeps(h, reader, kind, id); }
    case LookUp(reader) => if reader in h.readers && h.readers[reader].Counted? { LookUpKeeps(h, reader); }
    case Dispatch(reader) => if reader in h.readers && h.readers[reader].Found? { DispatchKeeps(h, reader); }
  }

  /** The returned cancel function removes the registration; called again, it changes nothing. */
  lemma CancelRemoves(h: Host, r: nat)
    requires SoundRegistry(h) && r < |h.registrations|
    requires h.registrations[r].stage.Active? || h.registrations[r].stage.Cancelled?
    ensures Step(h, Cancel(r)) == Removed(h, r, Cancelled)
  {
    if h.registrations[r].stage.Cancelled? {
      CancelledIsAbsent(h, r);
    }
  }

  lemma CancelledIsAbsent(h: Host, r: nat)
    requires SoundRegistry(h) && r < |h.registrations| && h.registrations[r].stage.Cancelled?
    ensures Removed(h, r, Cancelled) == h
  {
    OthersDiffer(h.registrations, r);
    var reg := h.registrations[r];
    assert h.registrations[r := reg] == h.registrations;
    if reg.kind.Sub? {
      assert reg.id !in h.subs;
      assert h.subs - {reg.id} == h.subs;
    } else {
      assert reg.id !in h.ticks;
      assert h.ticks - {reg.id} == h.ticks;
    }
  }

  lemma {:induction false} RunKeeps(h: Host, actions: seq<Action>)
    requires Inv(h)
    ensures Inv(Run(h, actions))
    decreases |actions|
  {
    if actions != [] {
      StepKeeps(h, actions[0]);
      RunKeeps(Step(h, actions[0]), actions[1..]);
    }
  }

  lemma Sound(actions: seq<Action>)
    ensures Inv(Run(NEW, actions))
  {
    assert |NEW.readers| == 0;
    RunKeeps(NEW, actions);
  }

  // ----- What every run shows -----

  /** Conservation, in every reachable state and with any number of readers at work. */
  lemma ReceivedIsConserved(actions: seq<Action>)
    ensures var h := Run(NEW, actions); h.received == |h.dispatched| + |h.lost| + h.unknown + |h.readers|
  {
    Sound(actions);
  }

  /**
   No callback is lost without a reason: one for an id the host had been asked to register goes unmatched only if that
   registration failed, was cancelled, is of the other kind, or was given no handler.
   */
  lemma NoLostCallback(actions: seq<Action>, k: nat)
    requires k < |Run(NEW, actions).lost| && Run(NEW, actions).lost[k].asked
    ensures var h := Run(NEW, actions); Excused(h.registrations, h.lost[k].kind, h.lost[k].id)
  {
    Sound(actions);
  }

  /** Every callback dispatched went to the one registration that bears its id, of its kind. */
  lemma DispatchedToItsOwner(actions: seq<Action>, k: nat, r: nat)
    requires k < |Run(NEW, actions).dispatched| && r < |Run(NEW, actions).registrations|
    ensures var h := Run(NEW, actions);
            SoundDelivery(h.registrations, h.dispatched[k])
            && (h.registrations[r].id == h.dispatched[k].id <==> r == h.dispatched[k].registration)
  {
    Sound(actions);
    var h := Run(NEW, actions);
    assert SoundDelivery(h.registrations, h.dispatched[k]);
    if h.registrations[r].id == h.dispatched[k].id {
      DistinctIds(h.registrations, r, h.dispatched[k].registration);
    }
  }
}
