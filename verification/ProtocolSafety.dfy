/** What holds in every state of every run. `Base` needs nothing from the environment; `Safe`, and with it
    the absence of orphans, needs the answers that mislead the client to hide no live silence. */
module ProtocolSafety {
  import opened Wrappers
  import opened Types
  import opened AlertStore
  import opened SyncPlan
  import opened Protocol

  // ---- Invariants of one key ----

  /** `o` is version `at` of the object, no older than what the cache has served. */
  predicate Snapshot(ks: KeyState, at: nat, o: Obj) {
    ks.seen <= at < |ks.hist| && ks.hist[at] == Some(o)
  }

  predicate Guarded(ks: KeyState, o: Obj) {
    Some(o) in ks.hist && !o.deleting && Protection in o.fins
  }

  predicate Finalizing(ks: KeyState, at: nat, o: Obj) {
    Snapshot(ks, at, o) && at == ks.seen && o.deleting && Protection in o.fins
  }

  predicate FromDesired(cfg: Cfg, k: Key, want: Silence) {
    want.comment == cfg.commentOf(k) && want.createdBy == CREATED_BY
  }

  predicate BasePc(cfg: Cfg, k: Key, ks: KeyState, st: Store) {
    var mine := cfg.commentOf(k);
    match ks.pc
    case Idle => true
    case AddFin(at, o) => Snapshot(ks, at, o) && !o.deleting && Protection !in o.fins
    case CleanAdd(at, o) =>
      k.V1Key? && Snapshot(ks, at, o) && !o.deleting && Protection in o.fins && Operatorkit in o.fins
    case SyncStart(o) => Guarded(ks, o)
    case SyncList(o, _, want) => Guarded(ks, o) && FromDesired(cfg, k, want)
    case SyncWrite(o, want, write) =>
      && Guarded(ks, o) && FromDesired(cfg, k, want) && !write.Nothing?
      && ((write.Update? || write.Delete?) ==> OwnedBy(st, Slot(cfg.tenantOf(o.cr), write.id), mine))
    case DelList(at, o) => Finalizing(ks, at, o)
    case DelWrite(at, o, id) => Finalizing(ks, at, o) && OwnedBy(st, Slot(cfg.tenantOf(o.cr), id), mine)
    case RemoveFin(at, o) => Finalizing(ks, at, o)
    case CleanDel(at, o) =>
      k.V1Key? && Snapshot(ks, at, o) && o.deleting && Protection !in o.fins && Operatorkit in o.fins
  }

  predicate Base(cfg: Cfg, k: Key, ks: KeyState, st: Store) {
    0 < |ks.hist| && ks.seen < |ks.hist| && BasePc(cfg, k, ks, st)
  }

  /** The current object carries the operator's finalizer and still resolves to the tenant. */
  predicate Protected(cfg: Cfg, ks: KeyState, tenant: string)
    requires |ks.hist| > 0
  {
    && Current(ks).Some?
    && Protection in Current(ks).value.fins
    && cfg.tenantOf(Current(ks).value.cr) == tenant
  }

  predicate KeepsGuard(cfg: Cfg, was: Option<Obj>, later: Option<Obj>) {
    was.Some? && !was.value.deleting && Protection in was.value.fins ==>
      later.Some? && Protection in later.value.fins && cfg.tenantOf(later.value.cr) == cfg.tenantOf(was.value.cr)
  }

  /** Once the cache can serve a live, guarded version, every later version is guarded too. */
  ghost predicate GuardHistory(cfg: Cfg, ks: KeyState) {
    forall i, j :: ks.seen <= i <= j < |ks.hist| ==> KeepsGuard(cfg, ks.hist[i], ks.hist[j])
  }

  /** Every live silence under the key's comment belongs to a guarded object, in that object's tenant. */
  ghost predicate NoOrphanOf(cfg: Cfg, k: Key, now: int, ks: KeyState, st: Store)
    requires |ks.hist| > 0
  {
    forall x | Holds(st, now, x, cfg.commentOf(k)) :: Protected(cfg, ks, x.tenant)
  }

  ghost predicate AtMostOneOf(cfg: Cfg, k: Key, now: int, st: Store) {
    forall x, y | Holds(st, now, x, cfg.commentOf(k)) && Holds(st, now, y, cfg.commentOf(k)) :: x == y
  }

  ghost predicate SafePc(cfg: Cfg, k: Key, now: int, ks: KeyState, st: Store)
    requires |ks.hist| > 0
  {
    var mine := cfg.commentOf(k);
    match ks.pc
    case Idle => true
    case AddFin(_, _) => true
    case CleanAdd(_, o) => Protected(cfg, ks, cfg.tenantOf(o.cr))
    case SyncStart(o) => Protected(cfg, ks, cfg.tenantOf(o.cr))
    case SyncList(o, _, _) => Protected(cfg, ks, cfg.tenantOf(o.cr))
    case SyncWrite(o, _, write) =>
      && Protected(cfg, ks, cfg.tenantOf(o.cr))
      && (write.Create? ==> NoneLive(st, now, mine))
      && (write.Update? || write.Delete? ==> OnlyAt(st, now, mine, Slot(cfg.tenantOf(o.cr), write.id)))
    case DelList(_, _) => true
    case DelWrite(at, o, id) => at == |ks.hist| - 1 ==> OnlyAt(st, now, mine, Slot(cfg.tenantOf(o.cr), id))
    case RemoveFin(at, _) => at == |ks.hist| - 1 ==> NoneLive(st, now, mine)
    case CleanDel(_, _) => true
  }

  ghost predicate Safe(cfg: Cfg, k: Key, now: int, ks: KeyState, st: Store)
    requires |ks.hist| > 0
  {
    && GuardHistory(cfg, ks)
    && NoOrphanOf(cfg, k, now, ks, st)
    && AtMostOneOf(cfg, k, now, st)
    && SafePc(cfg, k, now, ks, st)
  }

  /** Only the operator writes silences under its comments. */
  ghost predicate OwnStore(cfg: Cfg, st: Store) {
    && ValidStore(st)
    && (forall x | x in st.entries && IsOperatorComment(cfg, st.entries[x].comment) ::
          st.entries[x].createdBy == CREATED_BY)
  }

  ghost predicate BaseInv(cfg: Cfg, s: Sys) {
    && s.keys.Keys == cfg.keys
    && OwnStore(cfg, s.store)
    && forall k | k in s.keys :: Base(cfg, k, s.keys[k], s.store)
  }

  ghost predicate SafeInv(cfg: Cfg, s: Sys)
    requires BaseInv(cfg, s)
  {
    forall k | k in s.keys :: Safe(cfg, k, s.now, s.keys[k], s.store)
  }

  // ---- Base ----

  lemma BaseStep(cfg: Cfg, k: Key, now: int, ks: KeyState, st: Store, a: Act)
    requires Tagged(cfg) && k in cfg.keys && OwnStore(cfg, st) && Base(cfg, k, ks, st)
    requires ActEnabled(cfg, k, now, ks, st, a)
    ensures Base(cfg, k, NextKey(cfg, k, now, ks, st, a), NextStore(cfg, k, now, ks, st, a))
  {
    var ks', st' := NextKey(cfg, k, now, ks, st, a), NextStore(cfg, k, now, ks, st, a);
    match a
    case Get(i) =>
      assert ks.hist[i].Some? ==> Some(ks.hist[i].value) in ks.hist;
    case UpdateObj(_) =>
      assert ks'.hist[|ks.hist|] == Stored(Target(ks.pc));
    case UserCreate(_) => KeepsBase(cfg, k, ks, ks', st);
    case UserEdit(_) => KeepsBase(cfg, k, ks, ks', st);
    case UserDelete => KeepsBase(cfg, k, ks, ks', st);
    case _ =>
  }

  /** A new version of the object does not disturb what the worker holds. */
  lemma KeepsBase(cfg: Cfg, k: Key, ks: KeyState, ks': KeyState, st: Store)
    requires Base(cfg, k, ks, st)
    requires ks'.seen == ks.seen && ks'.pc == ks.pc && ks.hist <= ks'.hist
    ensures Base(cfg, k, ks', st)
  {
  }

  /** A slot, once used, is never used for another comment, unless both are foreign. */
  ghost predicate KeepsOwners(cfg: Cfg, st: Store, st': Store) {
    forall x | x in st.owner ::
      && x in st'.owner
      && (st'.owner[x] == st.owner[x]
          || (!IsOperatorComment(cfg, st.owner[x]) && !IsOperatorComment(cfg, st'.owner[x])))
  }

  lemma StoreStep(cfg: Cfg, k: Key, now: int, ks: KeyState, st: Store, a: Act)
    requires Tagged(cfg) && k in cfg.keys && OwnStore(cfg, st) && Base(cfg, k, ks, st)
    requires ActEnabled(cfg, k, now, ks, st, a)
    ensures OwnStore(cfg, NextStore(cfg, k, now, ks, st, a))
    ensures KeepsOwners(cfg, st, NextStore(cfg, k, now, ks, st, a))
    ensures forall c | c != cfg.commentOf(k) :: SameFor(st, NextStore(cfg, k, now, ks, st, a), c)
  {
    match a
    case HttpPost(newId) =>
      PostFrame(st, cfg.tenantOf(ks.pc.o.cr), PriorId(ks.pc.write), newId, ks.pc.want);
    case HttpDelete(_) =>
      var id := if ks.pc.DelWrite? then ks.pc.id else ks.pc.write.id;
      DropFrame(st, Slot(cfg.tenantOf(ks.pc.o.cr), id), cfg.commentOf(k));
    case _ =>
  }

  lemma OtherBase(cfg: Cfg, k: Key, ks: KeyState, st: Store, st': Store)
    requires k in cfg.keys && Base(cfg, k, ks, st) && KeepsOwners(cfg, st, st')
    ensures Base(cfg, k, ks, st')
  {
  }

  /** The environment steps that do not belong to a key add nothing under an operator comment; they may remove
      silences there, expired or not. */
  lemma OutsideStep(cfg: Cfg, s: Sys, l: Label)
    requires BaseInv(cfg, s) && Enabled(cfg, s, l) && !l.At?
    ensures OwnStore(cfg, Next(cfg, s, l).store)
    ensures forall k | k in cfg.keys ::
              forall x :: OwnedBy(s.store, x, cfg.commentOf(k)) <==> OwnedBy(Next(cfg, s, l).store, x, cfg.commentOf(k))
    ensures forall k, x | k in cfg.keys && Holds(Next(cfg, s, l).store, Next(cfg, s, l).now, x, cfg.commentOf(k)) ::
              Holds(s.store, s.now, x, cfg.commentOf(k))
  {
  }

  lemma BaseInvStep(cfg: Cfg, s: Sys, l: Label)
    requires Tagged(cfg) && BaseInv(cfg, s) && Enabled(cfg, s, l)
    ensures BaseInv(cfg, Next(cfg, s, l))
  {
    var s' := Next(cfg, s, l);
    match l
    case At(k, a) =>
      StoreStep(cfg, k, s.now, s.keys[k], s.store, a);
      BaseStep(cfg, k, s.now, s.keys[k], s.store, a);
      forall k' | k' in s.keys && k' != k ensures Base(cfg, k', s'.keys[k'], s'.store) {
        OtherBase(cfg, k', s.keys[k'], s.store, s'.store);
      }
    case _ => OutsideStep(cfg, s, l);
  }

  // ---- Safe: steps of others ----

  ghost predicate FewerLive(cfg: Cfg, k: Key, now: int, st: Store, now': int, st': Store) {
    forall x | Holds(st', now', x, cfg.commentOf(k)) :: Holds(st, now, x, cfg.commentOf(k))
  }

  lemma OtherSafe(cfg: Cfg, k: Key, now: int, ks: KeyState, st: Store, now': int, st': Store)
    requires |ks.hist| > 0 && Safe(cfg, k, now, ks, st) && FewerLive(cfg, k, now, st, now', st')
    ensures Safe(cfg, k, now', ks, st')
  {
  }

  // ---- Safe: steps of users ----

  /** The new version keeps the operator's finalizer, if there was one, and the tenant. */
  predicate Carries(cfg: Cfg, was: Option<Obj>, later: Option<Obj>) {
    was.Some? && Protection in was.value.fins ==>
      later.Some? && Protection in later.value.fins && cfg.tenantOf(later.value.cr) == cfg.tenantOf(was.value.cr)
  }

  lemma AppendKeepsGuards(cfg: Cfg, ks: KeyState, o: Option<Obj>)
    requires |ks.hist| > 0 && GuardHistory(cfg, ks) && Carries(cfg, Current(ks), o)
    ensures GuardHistory(cfg, Append(ks, o))
  {
  }

  lemma UserSafe(cfg: Cfg, k: Key, now: int, ks: KeyState, st: Store, a: Act)
    requires Base(cfg, k, ks, st) && Safe(cfg, k, now, ks, st)
    requires !IsWorker(a) && ActEnabled(cfg, k, now, ks, st, a)
    ensures Safe(cfg, k, now, NextKey(cfg, k, now, ks, st, a), st)
  {
    var ks' := NextKey(cfg, k, now, ks, st, a);
    AppendKeepsGuards(cfg, ks, Current(ks'));
    forall t | Protected(cfg, ks, t) ensures Protected(cfg, ks', t) {
    }
  }

  // ---- Safe: steps of the worker ----

  lemma GetSafe(cfg: Cfg, k: Key, now: int, ks: KeyState, st: Store, i: nat)
    requires Base(cfg, k, ks, st) && Safe(cfg, k, now, ks, st)
    requires ActEnabled(cfg, k, now, ks, st, Get(i))
    ensures Safe(cfg, k, now, NextKey(cfg, k, now, ks, st, Get(i)), st)
  {
  }

  lemma UpdateSafe(cfg: Cfg, k: Key, now: int, ks: KeyState, st: Store, lost: bool)
    requires Base(cfg, k, ks, st) && Safe(cfg, k, now, ks, st)
    requires ActEnabled(cfg, k, now, ks, st, UpdateObj(lost))
    ensures Safe(cfg, k, now, NextKey(cfg, k, now, ks, st, UpdateObj(lost)), st)
  {
    var ks' := NextKey(cfg, k, now, ks, st, UpdateObj(lost));
    if !ks.pc.RemoveFin? {
      AppendKeepsGuards(cfg, ks, Current(ks'));
    }
  }

  lemma ListSafe(cfg: Cfg, k: Key, now: int, ks: KeyState, st: Store, found: Option<string>)
    requires OwnStore(cfg, st) && k in cfg.keys && Base(cfg, k, ks, st) && Safe(cfg, k, now, ks, st)
    requires ActEnabled(cfg, k, now, ks, st, HttpList(found))
    ensures Safe(cfg, k, now, NextKey(cfg, k, now, ks, st, HttpList(found)), st)
  {
  }

  lemma PostSafe(cfg: Cfg, k: Key, now: int, ks: KeyState, st: Store, newId: string)
    requires Base(cfg, k, ks, st) && Safe(cfg, k, now, ks, st)
    requires ActEnabled(cfg, k, now, ks, st, HttpPost(newId))
    ensures Safe(cfg, k, now, ks.(pc := Idle), NextStore(cfg, k, now, ks, st, HttpPost(newId)))
  {
    var st' := NextStore(cfg, k, now, ks, st, HttpPost(newId));
    var mine, x := cfg.commentOf(k), Slot(cfg.tenantOf(ks.pc.o.cr), newId);
    forall y | Holds(st', now, y, mine) ensures y == x {
      if y != x {
        assert Holds(st, now, y, mine);
      }
    }
  }

  /** A DELETE may be answered other than 200 only when the silence it names is not live, and a listing only when
      the key has no live silence, or would not be given one anyway because the silence it asks for is over. */
  ghost predicate HonestAct(cfg: Cfg, k: Key, now: int, ks: KeyState, st: Store, a: Act) {
    && (a.HttpDelete? && a.answer.Swallowed? && ks.pc.DelWrite? ==>
          var x := Slot(cfg.tenantOf(ks.pc.o.cr), ks.pc.id);
          x in st.entries ==> !Live(now, st.entries[x]))
    && (a.HttpMissed? ==>
          || NoneLive(st, now, cfg.commentOf(k))
          || (ks.pc.SyncList? && ks.pc.want.endsAt <= ks.pc.asOf))
  }

  lemma DeleteSafe(cfg: Cfg, k: Key, now: int, ks: KeyState, st: Store, answer: Answer)
    requires Base(cfg, k, ks, st) && Safe(cfg, k, now, ks, st)
    requires ActEnabled(cfg, k, now, ks, st, HttpDelete(answer)) && HonestAct(cfg, k, now, ks, st, HttpDelete(answer))
    ensures Safe(cfg, k, now, NextKey(cfg, k, now, ks, st, HttpDelete(answer)),
                 NextStore(cfg, k, now, ks, st, HttpDelete(answer)))
  {
    OtherSafe(cfg, k, now, ks, st, now, NextStore(cfg, k, now, ks, st, HttpDelete(answer)));
  }

  lemma SafeStep(cfg: Cfg, k: Key, now: int, ks: KeyState, st: Store, a: Act)
    requires OwnStore(cfg, st) && k in cfg.keys && Base(cfg, k, ks, st) && Safe(cfg, k, now, ks, st)
    requires ActEnabled(cfg, k, now, ks, st, a) && HonestAct(cfg, k, now, ks, st, a)
    ensures var ks' := NextKey(cfg, k, now, ks, st, a);
            |ks'.hist| > 0 && Safe(cfg, k, now, ks', NextStore(cfg, k, now, ks, st, a))
  {
    match a
    case Get(i) => GetSafe(cfg, k, now, ks, st, i);
    case UpdateObj(lost) => UpdateSafe(cfg, k, now, ks, st, lost);
    case HttpList(found) => ListSafe(cfg, k, now, ks, st, found);
    case HttpMissed =>
    case HttpPost(newId) => PostSafe(cfg, k, now, ks, st, newId);
    case HttpDelete(answer) => DeleteSafe(cfg, k, now, ks, st, answer);
    case UserCreate(_) => UserSafe(cfg, k, now, ks, st, a);
    case UserEdit(_) => UserSafe(cfg, k, now, ks, st, a);
    case UserDelete => UserSafe(cfg, k, now, ks, st, a);
    case Begin =>
    case Abort =>
  }

  ghost predicate Honest(cfg: Cfg, s: Sys, l: Label) {
    l.At? && l.key in s.keys ==> HonestAct(cfg, l.key, s.now, s.keys[l.key], s.store, l.act)
  }

  /** A step keeps the safety of a key if the key's own answers are honest, whatever others are told. */
  lemma SafeKeyStep(cfg: Cfg, s: Sys, k: Key, l: Label)
    requires Conforms(cfg) && BaseInv(cfg, s) && Enabled(cfg, s, l)
    requires k in s.keys && Safe(cfg, k, s.now, s.keys[k], s.store)
    requires l.At? && l.key == k ==> Honest(cfg, s, l)
    ensures var s' := Next(cfg, s, l);
            k in s'.keys && |s'.keys[k].hist| > 0 && Safe(cfg, k, s'.now, s'.keys[k], s'.store)
  {
    var s' := Next(cfg, s, l);
    if l.At? && l.key == k {
      SafeStep(cfg, k, s.now, s.keys[k], s.store, l.act);
    } else if l.At? {
      StoreStep(cfg, l.key, s.now, s.keys[l.key], s.store, l.act);
      OtherSafe(cfg, k, s.now, s.keys[k], s.store, s'.now, s'.store);
    } else {
      OutsideStep(cfg, s, l);
      OtherSafe(cfg, k, s.now, s.keys[k], s.store, s'.now, s'.store);
    }
  }

  lemma SafeInvStep(cfg: Cfg, s: Sys, l: Label)
    requires Conforms(cfg) && BaseInv(cfg, s) && SafeInv(cfg, s) && Enabled(cfg, s, l) && Honest(cfg, s, l)
    ensures BaseInv(cfg, Next(cfg, s, l)) && SafeInv(cfg, Next(cfg, s, l))
  {
    var s' := Next(cfg, s, l);
    BaseInvStep(cfg, s, l);
    forall k | k in s'.keys ensures Safe(cfg, k, s'.now, s'.keys[k], s'.store) {
      SafeKeyStep(cfg, s, k, l);
    }
  }

  // ---- Every run ----

  /** Every step of the run is honest in the state it is taken from. */
  ghost predicate HonestRun(cfg: Cfg, s: Sys, ls: seq<Label>) {
    forall n | 0 <= n < |ls| ::
      Run(cfg, s, ls[..n]).Some? ==> Honest(cfg, Run(cfg, s, ls[..n]).value, ls[n])
  }

  lemma {:induction false} BaseAlongRun(cfg: Cfg, s: Sys, ls: seq<Label>)
    requires Tagged(cfg) && BaseInv(cfg, s) && Run(cfg, s, ls).Some?
    ensures BaseInv(cfg, Run(cfg, s, ls).value)
  {
    if ls != [] {
      BaseAlongRun(cfg, s, ls[..|ls| - 1]);
      BaseInvStep(cfg, Run(cfg, s, ls[..|ls| - 1]).value, ls[|ls| - 1]);
    }
  }

  lemma BaseOnEveryRun(cfg: Cfg, s: Sys, ls: seq<Label>)
    requires Tagged(cfg) && Init(cfg, s) && Run(cfg, s, ls).Some?
    ensures BaseInv(cfg, Run(cfg, s, ls).value)
  {
    assert BaseInv(cfg, s);
    BaseAlongRun(cfg, s, ls);
  }

  /** Every step of the key's worker is honest; what others are told does not matter. */
  ghost predicate HonestRunOf(cfg: Cfg, s: Sys, k: Key, ls: seq<Label>) {
    forall n | 0 <= n < |ls| && ls[n].At? && ls[n].key == k ::
      Run(cfg, s, ls[..n]).Some? ==> Honest(cfg, Run(cfg, s, ls[..n]).value, ls[n])
  }

  /** A key is safe in every state of every run in which its own answers are honest. */
  lemma {:induction false} KeySafeOnEveryRun(cfg: Cfg, s: Sys, k: Key, ls: seq<Label>)
    requires Conforms(cfg) && Init(cfg, s) && k in s.keys && Run(cfg, s, ls).Some? && HonestRunOf(cfg, s, k, ls)
    ensures var s' := Run(cfg, s, ls).value;
            BaseInv(cfg, s') && k in s'.keys && Safe(cfg, k, s'.now, s'.keys[k], s'.store)
  {
    BaseOnEveryRun(cfg, s, ls);
    if ls != [] {
      var before := ls[..|ls| - 1];
      forall n | 0 <= n < |before| ensures before[..n] == ls[..n] && before[n] == ls[n] {
      }
      KeySafeOnEveryRun(cfg, s, k, before);
      SafeKeyStep(cfg, Run(cfg, s, before).value, k, ls[|ls| - 1]);
    }
  }

  lemma SafeOnEveryRun(cfg: Cfg, s: Sys, ls: seq<Label>)
    requires Conforms(cfg) && Init(cfg, s) && Run(cfg, s, ls).Some? && HonestRun(cfg, s, ls)
    ensures BaseInv(cfg, Run(cfg, s, ls).value) && SafeInv(cfg, Run(cfg, s, ls).value)
  {
    BaseOnEveryRun(cfg, s, ls);
    var s' := Run(cfg, s, ls).value;
    forall k | k in s'.keys ensures Safe(cfg, k, s'.now, s'.keys[k], s'.store) {
      KeySafeOnEveryRun(cfg, s, k, ls);
    }
  }
}
