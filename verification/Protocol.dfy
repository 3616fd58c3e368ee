/** Both reconcilers, the API server, Alertmanager, users and the clock as one labelled transition system.
    Every remote call of a reconciler is a step of its own. A call may fail, or take effect and lose its
    response; a worker may crash between any two calls; everybody else may step in between. */
module Protocol {
  import opened Wrappers
  import opened Types
  import opened AlertStore
  import opened SyncPlan

  /** `Protection` is the finalizer of the reconciler in charge of the object, `Operatorkit` the legacy
      one that v1alpha1 objects may still carry, `Other` anybody else's. */
  datatype Finalizer = Protection | Operatorkit | Other(name: string)

  datatype Obj = Obj(cr: CR, fins: set<Finalizer>, deleting: bool)

  /** The conversions the protocol is independent of, and the objects the operator is in charge of. */
  datatype Cfg = Cfg(keys: set<Key>, commentOf: Key -> string, tenantOf: CR -> string,
                     desired: (Key, CR) -> Result<Silence, string>)

  /** Where the worker of one key stands. Snapshots taken from the cache keep their version number. */
  datatype Pc =
    | Idle
    | AddFin(at: nat, o: Obj)
    | CleanAdd(at: nat, o: Obj)
    | SyncStart(o: Obj)
    | SyncList(o: Obj, asOf: int, want: Silence)
    | SyncWrite(o: Obj, want: Silence, write: Write)
    | DelList(at: nat, o: Obj)
    | DelWrite(at: nat, o: Obj, id: string)
    | RemoveFin(at: nat, o: Obj)
    | CleanDel(at: nat, o: Obj)

  /** `hist` lists every version the API server stored under the key, the position being the resource
      version and `None` standing for no object; `seen` is the newest version the cache has served. */
  datatype KeyState = KeyState(hist: seq<Option<Obj>>, seen: nat, pc: Pc)

  datatype Sys = Sys(now: int, keys: map<Key, KeyState>, store: Store)

  datatype Answer = Done | Lost | Swallowed

  /** What can happen to one key. `Swallowed` is a DELETE without effect answered other than 200, which
      the client reports as success; `HttpMissed` is a listing answered other than 200 with an empty list, which
      the client, not looking at the status, takes for the truth. */
  datatype Act =
    | Get(at: nat)
    | UpdateObj(lost: bool)
    | Begin
    | HttpList(found: Option<string>)
    | HttpMissed
    | HttpPost(newId: string)
    | HttpDelete(answer: Answer)
    | Abort
    | UserCreate(o: Obj)
    | UserEdit(o: Obj)
    | UserDelete

  datatype Label =
    | At(key: Key, act: Act)
    | Tick(to: int)
    | Collect(slot: Slot)
    | ForeignPut(slot: Slot, silence: Silence)
    | ForeignDrop(slot: Slot)

  predicate IsWorker(a: Act) {
    !a.UserCreate? && !a.UserEdit? && !a.UserDelete?
  }

  // ---- The API server ----

  function Current(ks: KeyState): Option<Obj>
    requires |ks.hist| > 0
  {
    ks.hist[|ks.hist| - 1]
  }

  /** An object marked for deletion goes away with its last finalizer. */
  function Stored(o: Obj): Option<Obj> {
    if o.deleting && o.fins == {} then None else Some(o)
  }

  function Append(ks: KeyState, o: Option<Obj>): KeyState {
    ks.(hist := ks.hist + [o])
  }

  // ---- The control flow of both reconcilers ----

  function AfterFinalizer(k: Key, at: nat, o: Obj): Pc {
    if k.V1Key? && Operatorkit in o.fins then CleanAdd(at, o) else SyncStart(o)
  }

  function AfterDeletion(k: Key, at: nat, o: Obj): Pc {
    if k.V1Key? && Operatorkit in o.fins then CleanDel(at, o) else Idle
  }

  function AfterGet(k: Key, at: nat, got: Option<Obj>): Pc {
    match got
    case None => Idle
    case Some(o) =>
      if o.deleting then
        (if Protection in o.fins then DelList(at, o) else AfterDeletion(k, at, o))
      else if Protection !in o.fins then AddFin(at, o)
      else AfterFinalizer(k, at, o)
  }

  predicate Updating(pc: Pc) {
    pc.AddFin? || pc.CleanAdd? || pc.RemoveFin? || pc.CleanDel?
  }

  /** The object as the worker sends it back to the API server. */
  function Target(pc: Pc): Obj
    requires Updating(pc)
  {
    match pc
    case AddFin(_, o) => o.(fins := o.fins + {Protection})
    case RemoveFin(_, o) => o.(fins := o.fins - {Protection})
    case CleanAdd(_, o) => o.(fins := o.fins - {Operatorkit})
    case CleanDel(_, o) => o.(fins := o.fins - {Operatorkit})
  }

  function AfterUpdate(k: Key, pc: Pc, at: nat): Pc
    requires Updating(pc)
  {
    match pc
    case AddFin(_, _) => AfterFinalizer(k, at, Target(pc))
    case CleanAdd(_, _) => SyncStart(Target(pc))
    case RemoveFin(_, _) => AfterDeletion(k, at, Target(pc))
    case CleanDel(_, _) => Idle
  }

  // ---- Steps of one key ----

  predicate WorkerEnabled(cfg: Cfg, k: Key, now: int, ks: KeyState, st: Store, a: Act)
    requires |ks.hist| > 0 && IsWorker(a)
  {
    match a
    case Get(i) => ks.pc.Idle? && ks.seen <= i < |ks.hist|
    case UpdateObj(_) =>
      Updating(ks.pc) && ks.pc.at == |ks.hist| - 1 && Current(ks) == Some(ks.pc.o)
    case Begin => ks.pc.SyncStart?
    case HttpList(found) =>
      || (ks.pc.SyncList? && Lookup(st, now, cfg.tenantOf(ks.pc.o.cr), ks.pc.want.comment, found))
      || (ks.pc.DelList? && LookupOwn(st, now, cfg.tenantOf(ks.pc.o.cr), cfg.commentOf(k), found))
    case HttpMissed => ks.pc.SyncList? || ks.pc.DelList?
    case HttpPost(newId) =>
      && ks.pc.SyncWrite?
      && (ks.pc.write.Create? || ks.pc.write.Update?)
      && Available(st, Slot(cfg.tenantOf(ks.pc.o.cr), newId), ks.pc.want.comment)
    case HttpDelete(_) => (ks.pc.SyncWrite? && ks.pc.write.Delete?) || ks.pc.DelWrite?
    case Abort => true
  }

  /** Users keep the operator's finalizer and the tenant; the API server adds no finalizer to an object
      that is being deleted. */
  predicate UserEnabled(cfg: Cfg, ks: KeyState, a: Act)
    requires |ks.hist| > 0 && !IsWorker(a)
  {
    match a
    case UserCreate(o) => Current(ks).None? && !o.deleting
    case UserEdit(o) =>
      && Current(ks).Some?
      && var cur := Current(ks).value;
      && o.deleting == cur.deleting
      && (Protection in cur.fins ==> Protection in o.fins)
      && (cur.deleting ==> o.fins <= cur.fins)
      && cfg.tenantOf(o.cr) == cfg.tenantOf(cur.cr)
    case UserDelete => Current(ks).Some?
  }

  predicate ActEnabled(cfg: Cfg, k: Key, now: int, ks: KeyState, st: Store, a: Act)
    requires |ks.hist| > 0
  {
    if IsWorker(a) then WorkerEnabled(cfg, k, now, ks, st, a) else UserEnabled(cfg, ks, a)
  }

  function NextKey(cfg: Cfg, k: Key, now: int, ks: KeyState, st: Store, a: Act): KeyState
    requires |ks.hist| > 0 && ActEnabled(cfg, k, now, ks, st, a)
  {
    match a
    case Get(i) => ks.(seen := i, pc := AfterGet(k, i, ks.hist[i]))
    case UpdateObj(lost) =>
      Append(ks, Stored(Target(ks.pc))).(pc := if lost then Idle else AfterUpdate(k, ks.pc, |ks.hist|))
    case Begin =>
      (match cfg.desired(k, ks.pc.o.cr)
       case Err(_) => ks.(pc := Idle)
       case Ok(want) => ks.(pc := SyncList(ks.pc.o, now, want)))
    case HttpList(found) =>
      if ks.pc.SyncList? then
        var w := Plan(ExistingAt(st, cfg.tenantOf(ks.pc.o.cr), found), ks.pc.want, ks.pc.asOf);
        ks.(pc := if w.Nothing? then Idle else SyncWrite(ks.pc.o, ks.pc.want, w))
      else
        ks.(pc := if found.Some? then DelWrite(ks.pc.at, ks.pc.o, found.value)
                  else RemoveFin(ks.pc.at, ks.pc.o))
    case HttpMissed =>
      if ks.pc.SyncList? then
        var w := Plan(None, ks.pc.want, ks.pc.asOf);
        ks.(pc := if w.Nothing? then Idle else SyncWrite(ks.pc.o, ks.pc.want, w))
      else ks.(pc := RemoveFin(ks.pc.at, ks.pc.o))
    case HttpPost(_) => ks.(pc := Idle)
    case HttpDelete(answer) =>
      ks.(pc := if ks.pc.DelWrite? && !answer.Lost? then RemoveFin(ks.pc.at, ks.pc.o) else Idle)
    case Abort => ks.(pc := Idle)
    case UserCreate(o) => Append(ks, Some(o))
    case UserEdit(o) => Append(ks, Stored(o))
    case UserDelete => Append(ks, Stored(Current(ks).value.(deleting := true)))
  }

  function NextStore(cfg: Cfg, k: Key, now: int, ks: KeyState, st: Store, a: Act): Store
    requires |ks.hist| > 0 && ActEnabled(cfg, k, now, ks, st, a)
  {
    match a
    case HttpPost(newId) =>
      Execute(st, cfg.tenantOf(ks.pc.o.cr), ks.pc.want, ks.pc.write, newId)
    case HttpDelete(answer) =>
      if answer.Swallowed? then st
      else Drop(st, Slot(cfg.tenantOf(ks.pc.o.cr), if ks.pc.DelWrite? then ks.pc.id else ks.pc.write.id))
    case _ => st
  }

  // ---- Steps of the whole system ----

  predicate IsOperatorComment(cfg: Cfg, comment: string) {
    exists k | k in cfg.keys :: cfg.commentOf(k) == comment
  }

  predicate Enabled(cfg: Cfg, s: Sys, l: Label) {
    match l
    case At(k, a) =>
      k in s.keys && |s.keys[k].hist| > 0 && ActEnabled(cfg, k, s.now, s.keys[k], s.store, a)
    case Tick(to) => s.now <= to
    case Collect(x) => x in s.store.entries && !Live(s.now, s.store.entries[x])
    case ForeignPut(x, v) =>
      && x.id != "" && !IsOperatorComment(cfg, v.comment)
      && (x in s.store.owner ==> !IsOperatorComment(cfg, s.store.owner[x]))
    case ForeignDrop(x) => x in s.store.entries
  }

  function Next(cfg: Cfg, s: Sys, l: Label): Sys
    requires Enabled(cfg, s, l)
  {
    match l
    case At(k, a) =>
      s.(keys := s.keys[k := NextKey(cfg, k, s.now, s.keys[k], s.store, a)],
         store := NextStore(cfg, k, s.now, s.keys[k], s.store, a))
    case Tick(to) => s.(now := to)
    case Collect(x) => s.(store := Drop(s.store, x))
    case ForeignPut(x, v) => s.(store := Put(s.store, x, v))
    case ForeignDrop(x) => s.(store := Drop(s.store, x))
  }

  /** The state a sequence of labels leads to, if every one of them is enabled in its turn. */
  ghost function Run(cfg: Cfg, s: Sys, ls: seq<Label>): Option<Sys> {
    if ls == [] then Some(s)
    else
      var before := Run(cfg, s, ls[..|ls| - 1]);
      var l := ls[|ls| - 1];
      if before.Some? && Enabled(cfg, before.value, l) then Some(Next(cfg, before.value, l)) else None
  }

  /** The operator starts with idle workers, any objects, and no silence under one of its comments;
      versions are counted from there. */
  ghost predicate Init(cfg: Cfg, s: Sys) {
    && s.keys.Keys == cfg.keys
    && (forall k | k in s.keys :: |s.keys[k].hist| == 1 && s.keys[k].seen == 0 && s.keys[k].pc.Idle?)
    && ValidStore(s.store)
    && (forall x | x in s.store.entries :: !IsOperatorComment(cfg, s.store.entries[x].comment))
  }

  /** Every silence asked for carries its key's comment and the operator's `createdBy`. */
  ghost predicate Tagged(cfg: Cfg) {
    forall k, cr | k in cfg.keys && cfg.desired(k, cr).Ok? ::
      && cfg.desired(k, cr).value.comment == cfg.commentOf(k)
      && cfg.desired(k, cr).value.createdBy == CREATED_BY
  }

  /** What safety needs besides: no two keys share a comment. */
  ghost predicate Conforms(cfg: Cfg) {
    && Tagged(cfg)
    && (forall k, k' | k in cfg.keys && k' in cfg.keys && cfg.commentOf(k) == cfg.commentOf(k') :: k == k')
  }

  // ---- Undisturbed runs of one key ----

  lemma RunSnoc(cfg: Cfg, s: Sys, ls: seq<Label>, l: Label)
    requires Run(cfg, s, ls).Some? && Enabled(cfg, Run(cfg, s, ls).value, l)
    ensures Run(cfg, s, ls + [l]) == Some(Next(cfg, Run(cfg, s, ls).value, l))
  {
  }

  /** A run of one key in which no call fails and no worker crashes; answers that mislead aside. */
  predicate Undisturbed(k: Key, ls: seq<Label>) {
    forall l | l in ls :: l.At? && l.key == k && !l.act.Abort? && l.act != UpdateObj(true)
  }

  predicate WithoutDelete(ls: seq<Label>) {
    forall l | l in ls && l.At? :: !l.act.HttpDelete?
  }

  /** An undisturbed run leads from `s0` to key state `ks` and store `st`, and changes nothing else. */
  ghost predicate Leads(cfg: Cfg, s0: Sys, ls: seq<Label>, k: Key, ks: KeyState, st: Store) {
    && k in s0.keys && Undisturbed(k, ls)
    && Run(cfg, s0, ls) == Some(s0.(keys := s0.keys[k := ks], store := st))
  }

  lemma Start(cfg: Cfg, s0: Sys, k: Key)
    requires k in s0.keys
    ensures Leads(cfg, s0, [], k, s0.keys[k], s0.store)
  {
    assert s0.keys[k := s0.keys[k]] == s0.keys;
  }

  lemma Step(cfg: Cfg, s0: Sys, ls: seq<Label>, k: Key, ks: KeyState, st: Store, a: Act) returns (ls': seq<Label>)
    requires Leads(cfg, s0, ls, k, ks, st) && !a.Abort? && a != UpdateObj(true)
    requires |ks.hist| > 0 && ActEnabled(cfg, k, s0.now, ks, st, a)
    ensures Leads(cfg, s0, ls', k, NextKey(cfg, k, s0.now, ks, st, a), NextStore(cfg, k, s0.now, ks, st, a))
    ensures WithoutDelete(ls) && !a.HttpDelete? ==> WithoutDelete(ls')
  {
    RunSnoc(cfg, s0, ls, At(k, a));
    ls' := ls + [At(k, a)];
    var ks' := NextKey(cfg, k, s0.now, ks, st, a);
    assert s0.keys[k := ks][k := ks'] == s0.keys[k := ks'];
  }
}
