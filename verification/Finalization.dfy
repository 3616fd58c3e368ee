/** Deletion makes progress and completes; the legacy finalizer is handed over without a gap. */
module Finalization {
  import opened Wrappers
  import opened Types
  import opened AlertStore
  import opened Protocol
  import opened ProtocolSafety
  import opened NoOrphans

  // ---- Progress ----

  /** Every version the cache can still serve is marked for deletion, or is the absence of the object, and
      the worker is not in the middle of a sync it began earlier. */
  ghost predicate Draining(ks: KeyState) {
    && (forall i :: ks.seen <= i < |ks.hist| && ks.hist[i].Some? ==> ks.hist[i].value.deleting)
    && (ks.pc.Idle? || ks.pc.DelList? || ks.pc.DelWrite? || ks.pc.RemoveFin? || ks.pc.CleanDel?)
  }

  function Ours(k: Key): set<Finalizer> {
    if k.V1Key? then {Protection, Operatorkit} else {Protection}
  }

  function OurFins(k: Key, ks: KeyState): set<Finalizer>
    requires |ks.hist| > 0
  {
    if Current(ks).None? then {} else Current(ks).value.fins * Ours(k)
  }

  function LiveSlots(st: Store, now: int, comment: string): set<Slot> {
    set x | x in st.entries && Holds(st, now, x, comment)
  }

  /** A worker step that changes something outside the worker. */
  predicate Effective(cfg: Cfg, now: int, ks: KeyState, st: Store, a: Act) {
    || a.UpdateObj?
    || (a.HttpDelete? && !a.answer.Swallowed? && ks.pc.DelWrite?
        && var x := Slot(cfg.tenantOf(ks.pc.o.cr), ks.pc.id); x in st.entries && Live(now, st.entries[x]))
  }

  /** Draining starts with the first up-to-date read of a deleted object. */
  lemma DrainingBegins(cfg: Cfg, k: Key, now: int, ks: KeyState, st: Store)
    requires 0 < |ks.hist| && ks.seen < |ks.hist| && ks.pc.Idle?
    requires Current(ks).Some? && Current(ks).value.deleting
    ensures ActEnabled(cfg, k, now, ks, st, Get(|ks.hist| - 1))
    ensures Draining(NextKey(cfg, k, now, ks, st, Get(|ks.hist| - 1)))
  {
  }

  lemma DrainStep(cfg: Cfg, k: Key, now: int, ks: KeyState, st: Store, a: Act)
    requires k in cfg.keys && OwnStore(cfg, st) && Base(cfg, k, ks, st) && Draining(ks)
    requires ActEnabled(cfg, k, now, ks, st, a) && !a.UserCreate?
    ensures var ks', st' := NextKey(cfg, k, now, ks, st, a), NextStore(cfg, k, now, ks, st, a);
            && |ks'.hist| > 0 && Draining(ks')
            && LiveSlots(st', now, cfg.commentOf(k)) <= LiveSlots(st, now, cfg.commentOf(k))
            && OurFins(k, ks') <= OurFins(k, ks)
            && (Effective(cfg, now, ks, st, a) ==>
                  || LiveSlots(st', now, cfg.commentOf(k)) < LiveSlots(st, now, cfg.commentOf(k))
                  || OurFins(k, ks') < OurFins(k, ks))
  {
    if a.HttpDelete? && ks.pc.DelWrite? {
      var x := Slot(cfg.tenantOf(ks.pc.o.cr), ks.pc.id);
      if Effective(cfg, now, ks, st, a) {
        assert x in LiveSlots(st, now, cfg.commentOf(k));
      }
    } else if a.UpdateObj? {
      assert ks.hist[|ks.hist| - 1] == Some(ks.pc.o);
      assert (if ks.pc.RemoveFin? then Protection else Operatorkit) in OurFins(k, ks);
    }
  }

  lemma SubsetCardinality<T>(a: set<T>, b: set<T>)
    requires a <= b
    ensures |a| <= |b| && (a < b ==> |a| < |b|)
  {
    assert b == a + (b - a);
  }

  /** What is left to do for a key: its live silences and the operator's finalizers on its object. */
  ghost function Work(cfg: Cfg, k: Key, s: Sys): nat
    requires BaseInv(cfg, s) && k in s.keys
  {
    |LiveSlots(s.store, s.now, cfg.commentOf(k))| + |OurFins(k, s.keys[k])|
  }

  ghost function EffectiveSteps(cfg: Cfg, s: Sys, k: Key, ls: seq<Label>): nat {
    if ls == [] then 0
    else
      var before, l := Run(cfg, s, ls[..|ls| - 1]), ls[|ls| - 1];
      EffectiveSteps(cfg, s, k, ls[..|ls| - 1]) +
      if before.Some? && l.At? && l.key == k && k in before.value.keys &&
         Effective(cfg, before.value.now, before.value.keys[k], before.value.store, l.act) then 1 else 0
  }

  predicate NeverCreated(k: Key, ls: seq<Label>) {
    forall l | l in ls :: l.At? && l.key == k ==> !l.act.UserCreate?
  }

  lemma WorkStep(cfg: Cfg, s: Sys, k: Key, l: Label)
    requires Conforms(cfg) && BaseInv(cfg, s) && k in s.keys && Draining(s.keys[k])
    requires Enabled(cfg, s, l) && NeverCreated(k, [l])
    ensures var s' := Next(cfg, s, l);
            && BaseInv(cfg, s') && k in s'.keys && Draining(s'.keys[k])
            && Work(cfg, k, s') <= Work(cfg, k, s)
            && (l.At? && l.key == k && Effective(cfg, s.now, s.keys[k], s.store, l.act) ==>
                  Work(cfg, k, s') < Work(cfg, k, s))
  {
    var s', mine := Next(cfg, s, l), cfg.commentOf(k);
    BaseInvStep(cfg, s, l);
    var live, live' := LiveSlots(s.store, s.now, mine), LiveSlots(s'.store, s'.now, mine);
    if l.At? && l.key == k {
      assert l in [l];
      DrainStep(cfg, k, s.now, s.keys[k], s.store, l.act);
    } else if l.At? {
      StoreStep(cfg, l.key, s.now, s.keys[l.key], s.store, l.act);
      assert live' <= live;
    } else {
      OutsideStep(cfg, s, l);
      assert live' <= live;
    }
    SubsetCardinality(live', live);
    SubsetCardinality(OurFins(k, s'.keys[k]), OurFins(k, s.keys[k]));
  }

  /** Deletion is bounded work: along any run, with whatever failures, stale reads and other actors, the
      worker of a draining key takes no more effective steps than there are silences and finalizers to
      remove, and each of them removes one for good. */
  lemma {:induction false} DeletionIsBounded(cfg: Cfg, s: Sys, k: Key, ls: seq<Label>)
    requires Conforms(cfg) && BaseInv(cfg, s) && k in s.keys && Draining(s.keys[k])
    requires Run(cfg, s, ls).Some? && NeverCreated(k, ls)
    ensures var s' := Run(cfg, s, ls).value;
            && BaseInv(cfg, s') && k in s'.keys && Draining(s'.keys[k])
            && EffectiveSteps(cfg, s, k, ls) + Work(cfg, k, s') <= Work(cfg, k, s)
  {
    if ls != [] {
      var before, l := ls[..|ls| - 1], ls[|ls| - 1];
      DeletionIsBounded(cfg, s, k, before);
      assert l in ls;
      WorkStep(cfg, Run(cfg, s, before).value, k, l);
    }
  }

  // ---- Completion ----

  /** Deletes what is live in Alertmanager and comes to the removal of the finalizer. */
  lemma FinalizeStore(cfg: Cfg, s: Sys, ls: seq<Label>, k: Key, ks: KeyState, st: Store, at: nat, o: Obj)
    returns (ls': seq<Label>, st': Store)
    requires Leads(cfg, s, ls, k, ks, st) && k in cfg.keys && OwnStore(cfg, st)
    requires Base(cfg, k, ks, st) && Safe(cfg, k, s.now, ks, st)
    requires ks.pc == DelList(at, o) && at == |ks.hist| - 1
    ensures Leads(cfg, s, ls', k, ks.(pc := RemoveFin(at, o)), st') && NoneLive(st', s.now, cfg.commentOf(k))
  {
    var tenant, mine := cfg.tenantOf(o.cr), cfg.commentOf(k);
    if x :| x in st.entries && Holds(st, s.now, x, mine) {
      ls' := Step(cfg, s, ls, k, ks, st, HttpList(Some(x.id)));
      ls' := Step(cfg, s, ls', k, ks.(pc := DelWrite(at, o, x.id)), st, HttpDelete(Done));
      st' := Drop(st, x);
    } else {
      ls' := Step(cfg, s, ls, k, ks, st, HttpList(None));
      st' := st;
    }
  }

  predicate Gone(ks: KeyState) {
    |ks.hist| > 0 && Current(ks).None? && ks.pc.Idle?
  }

  lemma CleanLegacy(cfg: Cfg, s: Sys, ls: seq<Label>, k: Key, ks: KeyState, st: Store, at: nat, o: Obj)
    returns (ls': seq<Label>, ks': KeyState)
    requires Leads(cfg, s, ls, k, ks, st) && |ks.hist| > 0
    requires ks.pc == CleanDel(at, o) && at == |ks.hist| - 1 && Current(ks) == Some(o)
    requires o.deleting && o.fins == {Operatorkit}
    ensures Leads(cfg, s, ls', k, ks', st) && Gone(ks')
  {
    assert o.fins - {Operatorkit} == {};
    ls' := Step(cfg, s, ls, k, ks, st, UpdateObj(false));
    ks' := NextKey(cfg, k, s.now, ks, st, UpdateObj(false));
  }

  lemma FinalizeObject(cfg: Cfg, s: Sys, ls: seq<Label>, k: Key, ks: KeyState, st: Store, at: nat, o: Obj)
    returns (ls': seq<Label>, ks': KeyState)
    requires Leads(cfg, s, ls, k, ks, st) && |ks.hist| > 0
    requires ks.pc == RemoveFin(at, o) && at == |ks.hist| - 1 && Current(ks) == Some(o)
    requires o.deleting && Protection in o.fins && o.fins <= Ours(k)
    ensures Leads(cfg, s, ls', k, ks', st) && Gone(ks')
  {
    ls' := Step(cfg, s, ls, k, ks, st, UpdateObj(false));
    ks' := NextKey(cfg, k, s.now, ks, st, UpdateObj(false));
    var o' := Target(ks.pc);
    if o'.fins == {} {
    } else {
      assert o'.fins == {Operatorkit};
      ls', ks' := CleanLegacy(cfg, s, ls', k, ks', st, at + 1, o');
    }
  }

  lemma DeletionCompletesFromIdle(cfg: Cfg, s: Sys, k: Key) returns (ls: seq<Label>, ks: KeyState, st: Store)
    requires Conforms(cfg) && BaseInv(cfg, s) && SafeInv(cfg, s) && k in s.keys && s.keys[k].pc.Idle?
    requires Current(s.keys[k]).Some? && Current(s.keys[k]).value.deleting
    requires {} < Current(s.keys[k]).value.fins <= Ours(k)
    ensures Leads(cfg, s, ls, k, ks, st) && Gone(ks) && NoneLive(st, s.now, cfg.commentOf(k))
  {
    var at, o := |s.keys[k].hist| - 1, Current(s.keys[k]).value;
    Start(cfg, s, k);
    ls := Step(cfg, s, [], k, s.keys[k], s.store, Get(at));
    ks, st := NextKey(cfg, k, s.now, s.keys[k], s.store, Get(at)), s.store;
    if Protection in o.fins {
      BaseStep(cfg, k, s.now, s.keys[k], s.store, Get(at));
      GetSafe(cfg, k, s.now, s.keys[k], s.store, at);
      ls, st := FinalizeStore(cfg, s, ls, k, ks, st, at, o);
      ls, ks := FinalizeObject(cfg, s, ls, k, ks.(pc := RemoveFin(at, o)), st, at, o);
    } else {
      assert o.fins == {Operatorkit};
      ls, ks := CleanLegacy(cfg, s, ls, k, ks, st, at, o);
    }
  }

  /** From any state of an honest run, whatever the worker was doing when it crashed, one reconcile without
      failures and with an up-to-date read removes an object that is marked for deletion and has no third
      party's finalizer, and leaves none of its silences live. */
  lemma DeletionCompletes(cfg: Cfg, s: Sys, k: Key) returns (ls: seq<Label>, ks: KeyState, st: Store)
    requires Conforms(cfg) && BaseInv(cfg, s) && SafeInv(cfg, s) && k in s.keys
    requires Current(s.keys[k]).Some? && Current(s.keys[k]).value.deleting
    requires {} < Current(s.keys[k]).value.fins <= Ours(k)
    ensures Can(cfg, s, k, Abort) && Leads(cfg, Next(cfg, s, At(k, Abort)), ls, k, ks, st)
    ensures Gone(ks) && NoneLive(st, s.now, cfg.commentOf(k))
  {
    var s1 := Next(cfg, s, At(k, Abort));
    SafeInvStep(cfg, s, At(k, Abort));
    ls, ks, st := DeletionCompletesFromIdle(cfg, s1, k);
  }

  // ---- Every deletion without failures ----

  /** A worker step in the middle of a reconcile in which nothing goes wrong. */
  predicate Smooth(a: Act) {
    && IsWorker(a) && !a.Get? && !a.Abort? && !a.HttpMissed? && a != UpdateObj(true)
    && (a.HttpDelete? ==> a.answer.Done?)
  }

  function StepsLeft(pc: Pc): nat {
    if pc.DelList? then 4 else if pc.DelWrite? then 3 else if pc.RemoveFin? then 2 else if pc.CleanDel? then 1 else 0
  }

  /** The worker is finalizing a version without third-party finalizers, or has seen the object off. */
  predicate Finishing(k: Key, ks: KeyState) {
    && |ks.hist| > 0
    && match ks.pc
       case Idle => Current(ks).None?
       case CleanDel(_, o) => o.deleting && o.fins == {Operatorkit}
       case _ =>
         && (ks.pc.DelList? || ks.pc.DelWrite? || ks.pc.RemoveFin?)
         && ks.pc.o.deleting && Protection in ks.pc.o.fins && ks.pc.o.fins <= Ours(k)
  }

  /** In these steps nothing goes wrong for the key, and its object is not created anew. Its users may edit and
      delete it, and others may do anything. */
  predicate SmoothFor(k: Key, ls: seq<Label>) {
    forall l | l in ls && l.At? && l.key == k :: if IsWorker(l.act) then Smooth(l.act) else !l.act.UserCreate?
  }

  /** The steps of the key's own worker. */
  function WorkerSteps(k: Key, ls: seq<Label>): nat {
    if ls == [] then 0
    else
      var l := ls[|ls| - 1];
      WorkerSteps(k, ls[..|ls| - 1]) + if l.At? && l.key == k && IsWorker(l.act) then 1 else 0
  }

  /** Any read of a version marked for deletion begins it. */
  lemma FinishingBegins(cfg: Cfg, k: Key, now: int, ks: KeyState, st: Store, i: nat)
    requires |ks.hist| > 0 && ActEnabled(cfg, k, now, ks, st, Get(i))
    requires ks.hist[i].Some? && ks.hist[i].value.deleting && {} < ks.hist[i].value.fins <= Ours(k)
    ensures Finishing(k, NextKey(cfg, k, now, ks, st, Get(i)))
  {
    if Protection !in ks.hist[i].value.fins {
      assert ks.hist[i].value.fins == {Operatorkit};
    }
  }

  lemma FinishingStep(cfg: Cfg, k: Key, now: int, ks: KeyState, st: Store, a: Act)
    requires Finishing(k, ks) && ActEnabled(cfg, k, now, ks, st, a) && SmoothFor(k, [At(k, a)])
    ensures var ks' := NextKey(cfg, k, now, ks, st, a);
            Finishing(k, ks') && StepsLeft(ks'.pc) + (if IsWorker(a) then 1 else 0) <= StepsLeft(ks.pc)
  {
    assert At(k, a) in [At(k, a)];
    if a.UpdateObj? {
      var fins := Target(ks.pc).fins;
      assert fins == if ks.pc.RemoveFin? && Operatorkit in ks.pc.o.fins then {Operatorkit} else {};
    }
  }

  /** A finalization in which nothing goes wrong for the key takes at most four steps of its worker, with the clock,
      all other workers, users and clients acting in between as they like; and whenever it is through, the object
      is gone and no silence of it is live in Alertmanager. */
  lemma {:induction false} EveryDeletionCompletes(cfg: Cfg, s: Sys, k: Key, ls: seq<Label>)
    requires Conforms(cfg) && BaseInv(cfg, s) && k in s.keys && Safe(cfg, k, s.now, s.keys[k], s.store)
    requires Finishing(k, s.keys[k]) && Run(cfg, s, ls).Some? && SmoothFor(k, ls)
    ensures var s' := Run(cfg, s, ls).value;
            && BaseInv(cfg, s') && k in s'.keys && Finishing(k, s'.keys[k])
            && Safe(cfg, k, s'.now, s'.keys[k], s'.store)
            && StepsLeft(s'.keys[k].pc) + WorkerSteps(k, ls) <= StepsLeft(s.keys[k].pc)
            && (s'.keys[k].pc.Idle? ==> Gone(s'.keys[k]) && NoneLive(s'.store, s'.now, cfg.commentOf(k)))
  {
    if ls != [] {
      var before, l := ls[..|ls| - 1], ls[|ls| - 1];
      EveryDeletionCompletes(cfg, s, k, before);
      var s1 := Run(cfg, s, before).value;
      assert l in ls;
      BaseInvStep(cfg, s1, l);
      SafeKeyStep(cfg, s1, k, l);
      if l.At? && l.key == k {
        FinishingStep(cfg, k, s1.now, s1.keys[k], s1.store, l.act);
      }
    }
    UnguardedIsClear(cfg, Run(cfg, s, ls).value, k);
  }

  lemma UnguardedIsClear(cfg: Cfg, s: Sys, k: Key)
    requires BaseInv(cfg, s) && k in s.keys && Safe(cfg, k, s.now, s.keys[k], s.store)
    ensures Current(s.keys[k]).None? ==> NoneLive(s.store, s.now, cfg.commentOf(k))
  {
    assert forall x :: Protected(cfg, s.keys[k], x) ==> Current(s.keys[k]).Some?;
  }

  // ---- The same undisturbed, from any store ----

  /** The key has at most one live silence, the operator's own and in this tenant. */
  ghost predicate Alone(cfg: Cfg, k: Key, now: int, st: Store, tenant: string) {
    && AtMostOneOf(cfg, k, now, st)
    && forall x | Holds(st, now, x, cfg.commentOf(k)) :: x.tenant == tenant && st.entries[x].createdBy == CREATED_BY
  }

  predicate UpToDate(ks: KeyState, at: nat, o: Obj) {
    |ks.hist| > 0 && at == |ks.hist| - 1 && Current(ks) == Some(o)
  }

  /** What has become of the silences once Alertmanager has been dealt with. */
  ghost predicate Cleared(cfg: Cfg, k: Key, now: int, st0: Store, o0: Obj, st: Store) {
    if Protection in o0.fins then NoneLive(st, now, cfg.commentOf(k)) else st == st0
  }

  /** Where the deletion of `o0` has got to, from store `st0` on. */
  ghost predicate Deleting(cfg: Cfg, k: Key, now: int, st0: Store, o0: Obj, ks: KeyState, st: Store) {
    match ks.pc
    case DelList(at, o) => o == o0 && Protection in o0.fins && UpToDate(ks, at, o) && st == st0
    case DelWrite(at, o, id) =>
      && o == o0 && Protection in o0.fins && UpToDate(ks, at, o)
      && st == st0 && Holds(st, now, Slot(cfg.tenantOf(o.cr), id), cfg.commentOf(k))
    case RemoveFin(at, o) =>
      o == o0 && Protection in o0.fins && UpToDate(ks, at, o) && Cleared(cfg, k, now, st0, o0, st)
    case CleanDel(at, o) =>
      UpToDate(ks, at, o) && o.deleting && o.fins == {Operatorkit} && Cleared(cfg, k, now, st0, o0, st)
    case Idle => Gone(ks) && Cleared(cfg, k, now, st0, o0, st)
    case _ => false
  }

  lemma DeletingBegins(cfg: Cfg, k: Key, now: int, ks: KeyState, st: Store, o: Obj)
    requires |ks.hist| > 0 && Current(ks) == Some(o) && o.deleting && {} < o.fins <= Ours(k)
    ensures Deleting(cfg, k, now, st, o, ks.(seen := |ks.hist| - 1, pc := AfterGet(k, |ks.hist| - 1, Some(o))), st)
  {
    if Protection !in o.fins {
      assert o.fins == {Operatorkit};
    }
  }

  lemma DeletingStep(cfg: Cfg, k: Key, now: int, st0: Store, o0: Obj, ks: KeyState, st: Store, a: Act)
    requires o0.deleting && {} < o0.fins <= Ours(k) && Alone(cfg, k, now, st0, cfg.tenantOf(o0.cr))
    requires |ks.hist| > 0 && Deleting(cfg, k, now, st0, o0, ks, st)
    requires Smooth(a) && ActEnabled(cfg, k, now, ks, st, a)
    ensures var ks' := NextKey(cfg, k, now, ks, st, a);
            && |ks'.hist| > 0 && Deleting(cfg, k, now, st0, o0, ks', NextStore(cfg, k, now, ks, st, a))
            && StepsLeft(ks'.pc) < StepsLeft(ks.pc)
  {
    if a.UpdateObj? && ks.pc.RemoveFin? {
      if Operatorkit in o0.fins {
        assert Target(ks.pc).fins == {Operatorkit};
      } else {
        assert Target(ks.pc).fins == {};
      }
    } else if a.UpdateObj? {
      assert Target(ks.pc).fins == {};
    }
  }

  /** From an up-to-date read of a deleted object on, with no step of anybody else in between and whatever
      Alertmanager truly answers: a reconcile in which nothing goes wrong takes at most four more steps, and when
      it is through the object is gone, and none of its silences is live if and only if the object carried the
      operator's own finalizer, or none was live before. */
  lemma {:induction false} DeletionClearsExactly(cfg: Cfg, s: Sys, k: Key, o: Obj, rest: seq<Label>)
    requires k in s.keys && |s.keys[k].hist| > 0 && s.keys[k].pc.Idle? && Current(s.keys[k]) == Some(o)
    requires o.deleting && {} < o.fins <= Ours(k) && Alone(cfg, k, s.now, s.store, cfg.tenantOf(o.cr))
    requires Run(cfg, s, [At(k, Get(|s.keys[k].hist| - 1))] + rest).Some?
    requires forall l | l in rest :: l.At? && l.key == k && Smooth(l.act)
    ensures var s' := Run(cfg, s, [At(k, Get(|s.keys[k].hist| - 1))] + rest).value;
            && k in s'.keys && s'.now == s.now && StepsLeft(s'.keys[k].pc) + |rest| <= 4
            && Deleting(cfg, k, s.now, s.store, o, s'.keys[k], s'.store) && |s'.keys[k].hist| > 0
            && (s'.keys[k].pc.Idle? ==>
                  && Gone(s'.keys[k])
                  && (NoneLive(s'.store, s.now, cfg.commentOf(k)) <==>
                        Protection in o.fins || NoneLive(s.store, s.now, cfg.commentOf(k))))
    decreases |rest|
  {
    var get := [At(k, Get(|s.keys[k].hist| - 1))];
    if rest == [] {
      assert get + rest == get && get[..0] == [];
      DeletingBegins(cfg, k, s.now, s.keys[k], s.store, o);
    } else {
      var before, l := rest[..|rest| - 1], rest[|rest| - 1];
      assert (get + rest)[..|get + rest| - 1] == get + before && (get + rest)[|get + rest| - 1] == l;
      assert l in rest;
      DeletionClearsExactly(cfg, s, k, o, before);
      var s1 := Run(cfg, s, get + before).value;
      DeletingStep(cfg, k, s.now, s.store, o, s1.keys[k], s1.store, l.act);
    }
  }

  // ---- The legacy finalizer ----

  predicate HasEither(o: Option<Obj>) {
    o.Some? && !o.value.deleting && (Protection in o.value.fins || Operatorkit in o.value.fins)
  }

  /** Users neither delete the object nor strip the legacy finalizer from it. */
  predicate Respectful(k: Key, l: Label, cur: Option<Obj>) {
    l.At? && l.key == k ==>
      && !l.act.UserDelete?
      && (l.act.UserEdit? && cur.Some? && Operatorkit in cur.value.fins ==> Operatorkit in l.act.o.fins)
  }

  ghost predicate RespectfulRun(cfg: Cfg, s: Sys, k: Key, ls: seq<Label>) {
    forall n | 0 <= n < |ls| ::
      var before := Run(cfg, s, ls[..n]);
      before.Some? && k in before.value.keys && |before.value.keys[k].hist| > 0 ==>
        Respectful(k, ls[n], Current(before.value.keys[k]))
  }

  /** A step drops the legacy finalizer of a live object only when the operator's own is already stored. */
  lemma HandOverStep(cfg: Cfg, s: Sys, k: Key, l: Label)
    requires Tagged(cfg) && BaseInv(cfg, s) && Enabled(cfg, s, l) && k in s.keys
    requires HasEither(Current(s.keys[k])) && Respectful(k, l, Current(s.keys[k]))
    ensures var s' := Next(cfg, s, l);
            && BaseInv(cfg, s') && k in s'.keys && HasEither(Current(s'.keys[k]))
            && (Operatorkit in Current(s.keys[k]).value.fins && Operatorkit !in Current(s'.keys[k]).value.fins ==>
                  Protection in Current(s.keys[k]).value.fins && Protection in Current(s'.keys[k]).value.fins)
  {
    BaseInvStep(cfg, s, l);
  }

  /** The hand-over leaves no gap: an object that starts out with either finalizer carries one of them in
      every state it passes through, whichever calls fail or are cut off by a crash. */
  lemma {:induction false} HandOverOnEveryRun(cfg: Cfg, s: Sys, k: Key, ls: seq<Label>)
    requires Tagged(cfg) && BaseInv(cfg, s) && k in s.keys && HasEither(Current(s.keys[k]))
    requires Run(cfg, s, ls).Some? && RespectfulRun(cfg, s, k, ls)
    ensures var s' := Run(cfg, s, ls).value;
            BaseInv(cfg, s') && k in s'.keys && HasEither(Current(s'.keys[k]))
  {
    if ls != [] {
      var before := ls[..|ls| - 1];
      forall n | 0 <= n < |before| ensures before[..n] == ls[..n] && before[n] == ls[n] {
      }
      HandOverOnEveryRun(cfg, s, k, before);
      HandOverStep(cfg, Run(cfg, s, before).value, k, ls[|ls| - 1]);
    }
  }

  /** An object that carries only the legacy finalizer when it is deleted goes away without any call to
      Alertmanager: a silence left by the operator's predecessor stays. */
  lemma LegacyOnlySkipsAlertmanager(cfg: Cfg, s: Sys, k: Key) returns (ls: seq<Label>, ks: KeyState)
    requires k in s.keys && k.V1Key? && |s.keys[k].hist| > 0 && s.keys[k].seen < |s.keys[k].hist| && s.keys[k].pc.Idle?
    requires Current(s.keys[k]).Some? && Current(s.keys[k]).value.deleting
    requires Current(s.keys[k]).value.fins == {Operatorkit}
    ensures Leads(cfg, s, ls, k, ks, s.store) && Gone(ks)
  {
    var at := |s.keys[k].hist| - 1;
    Start(cfg, s, k);
    ls := Step(cfg, s, [], k, s.keys[k], s.store, Get(at));
    ks := NextKey(cfg, k, s.now, s.keys[k], s.store, Get(at));
    ls, ks := CleanLegacy(cfg, s, ls, k, ks, s.store, at, Current(s.keys[k]).value);
  }
}
