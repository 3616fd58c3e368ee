/** The promises of the finalizer protocol over whole runs. */
module NoOrphans {
  import opened Wrappers
  import opened Types
  import opened AlertStore
  import opened SyncPlan
  import opened Protocol
  import opened ProtocolSafety

  /** The object a silence was posted for is still there, guarded, in the tenant the silence is in. */
  ghost predicate HasGuardian(cfg: Cfg, s: Sys, x: Slot, comment: string)
    requires BaseInv(cfg, s)
  {
    exists k | k in cfg.keys :: cfg.commentOf(k) == comment && Protected(cfg, s.keys[k], x.tenant)
  }

  ghost predicate NoOrphan(cfg: Cfg, s: Sys)
    requires BaseInv(cfg, s)
  {
    forall x, c | Holds(s.store, s.now, x, c) && IsOperatorComment(cfg, c) :: HasGuardian(cfg, s, x, c)
  }

  ghost predicate AtMostOneLive(cfg: Cfg, s: Sys) {
    forall x, y, c | Holds(s.store, s.now, x, c) && Holds(s.store, s.now, y, c) && IsOperatorComment(cfg, c) :: x == y
  }

  lemma SafeMeansNoOrphan(cfg: Cfg, s: Sys)
    requires Conforms(cfg) && BaseInv(cfg, s) && SafeInv(cfg, s)
    ensures NoOrphan(cfg, s) && AtMostOneLive(cfg, s)
  {
    forall x, c | Holds(s.store, s.now, x, c) && IsOperatorComment(cfg, c) ensures HasGuardian(cfg, s, x, c) {
      var k :| k in cfg.keys && cfg.commentOf(k) == c;
      assert Protected(cfg, s.keys[k], x.tenant);
    }
    forall x, y, c | Holds(s.store, s.now, x, c) && Holds(s.store, s.now, y, c) && IsOperatorComment(cfg, c)
      ensures x == y
    {
      var k :| k in cfg.keys && cfg.commentOf(k) == c;
      assert AtMostOneOf(cfg, k, s.now, s.store);
    }
  }

  /** No orphan, and no second silence under a comment, in any state of any honest run. */
  lemma NoOrphanOnEveryRun(cfg: Cfg, s0: Sys, ls: seq<Label>, s: Sys)
    requires Conforms(cfg) && Init(cfg, s0) && Run(cfg, s0, ls) == Some(s) && HonestRun(cfg, s0, ls)
    ensures BaseInv(cfg, s) && NoOrphan(cfg, s) && AtMostOneLive(cfg, s)
  {
    SafeOnEveryRun(cfg, s0, ls);
    SafeMeansNoOrphan(cfg, s);
  }

  // ---- What users must leave alone ----

  /** The state after a user has replaced the object of a key, with no rule kept. */
  function Replaced(s: Sys, k: Key, o: Obj): Sys
    requires k in s.keys
  {
    s.(keys := s.keys[k := Append(s.keys[k], Some(o))])
  }

  /** The two rules for users are needed just as they are: while a silence is live, replacing its object
      leaves no orphan if and only if the finalizer stays and the tenant stays that of the silence. */
  lemma EditsExactly(cfg: Cfg, s: Sys, k: Key, o: Obj, x: Slot)
    requires Conforms(cfg) && BaseInv(cfg, s) && SafeInv(cfg, s) && k in s.keys
    requires Holds(s.store, s.now, x, cfg.commentOf(k))
    ensures BaseInv(cfg, Replaced(s, k, o))
    ensures NoOrphan(cfg, Replaced(s, k, o)) <==> Protection in o.fins && cfg.tenantOf(o.cr) == x.tenant
  {
    var s' := Replaced(s, k, o);
    KeepsBase(cfg, k, s.keys[k], s'.keys[k], s.store);
    assert IsOperatorComment(cfg, cfg.commentOf(k));
    if Protection in o.fins && cfg.tenantOf(o.cr) == x.tenant {
      forall y, c | Holds(s'.store, s'.now, y, c) && IsOperatorComment(cfg, c) ensures HasGuardian(cfg, s', y, c) {
        var k' :| k' in cfg.keys && cfg.commentOf(k') == c;
        assert Protected(cfg, s.keys[k'], y.tenant);
        assert Protected(cfg, s'.keys[k'], y.tenant);
      }
    } else {
      assert Holds(s'.store, s'.now, x, cfg.commentOf(k));
      assert !HasGuardian(cfg, s', x, cfg.commentOf(k));
    }
  }

  // ---- The DELETE answer that is taken for success ----

  /** The step of key `k` is enabled; the state after it. */
  ghost predicate Can(cfg: Cfg, s: Sys, k: Key, a: Act) {
    Enabled(cfg, s, At(k, a))
  }

  /** Finalizing with an up-to-date snapshot: after the answer to the DELETE and the removal of the
      finalizer there is an orphan if and only if the answer hid that the silence is still live. */
  lemma SwallowedAnswerExactly(cfg: Cfg, s: Sys, k: Key, answer: Answer)
    requires Conforms(cfg) && BaseInv(cfg, s) && SafeInv(cfg, s)
    requires k in s.keys && s.keys[k].pc.DelWrite? && s.keys[k].pc.at == |s.keys[k].hist| - 1 && !answer.Lost?
    ensures Can(cfg, s, k, HttpDelete(answer))
    ensures var s1 := Next(cfg, s, At(k, HttpDelete(answer)));
            && Can(cfg, s1, k, UpdateObj(false))
            && var s2 := Next(cfg, s1, At(k, UpdateObj(false)));
            && BaseInv(cfg, s2)
            && (NoOrphan(cfg, s2) <==> Honest(cfg, s, At(k, HttpDelete(answer))))
  {
    var l1, l2 := At(k, HttpDelete(answer)), At(k, UpdateObj(false));
    var s1 := Next(cfg, s, l1);
    BaseInvStep(cfg, s, l1);
    var s2 := Next(cfg, s1, l2);
    BaseInvStep(cfg, s1, l2);
    var ks := s.keys[k];
    var x := Slot(cfg.tenantOf(ks.pc.o.cr), ks.pc.id);
    if Honest(cfg, s, l1) {
      SafeInvStep(cfg, s, l1);
      SafeInvStep(cfg, s1, l2);
      SafeMeansNoOrphan(cfg, s2);
    } else {
      assert Holds(s2.store, s2.now, x, cfg.commentOf(k)) && IsOperatorComment(cfg, cfg.commentOf(k));
      assert !HasGuardian(cfg, s2, x, cfg.commentOf(k));
    }
  }

  // ---- The listing answer that is taken for the truth ----

  /** Finalizing with an up-to-date snapshot: after a listing that was refused with an empty list and the removal
      of the finalizer there is an orphan if and only if the key had a live silence. */
  lemma MissedListingExactly(cfg: Cfg, s: Sys, k: Key)
    requires Conforms(cfg) && BaseInv(cfg, s) && SafeInv(cfg, s)
    requires k in s.keys && s.keys[k].pc.DelList? && s.keys[k].pc.at == |s.keys[k].hist| - 1
    ensures Can(cfg, s, k, HttpMissed)
    ensures var s1 := Next(cfg, s, At(k, HttpMissed));
            && Can(cfg, s1, k, UpdateObj(false))
            && var s2 := Next(cfg, s1, At(k, UpdateObj(false)));
            && BaseInv(cfg, s2)
            && (NoOrphan(cfg, s2) <==> NoneLive(s.store, s.now, cfg.commentOf(k)))
  {
    var l1, l2 := At(k, HttpMissed), At(k, UpdateObj(false));
    var s1 := Next(cfg, s, l1);
    BaseInvStep(cfg, s, l1);
    var s2 := Next(cfg, s1, l2);
    BaseInvStep(cfg, s1, l2);
    if NoneLive(s.store, s.now, cfg.commentOf(k)) {
      SafeInvStep(cfg, s, l1);
      SafeInvStep(cfg, s1, l2);
      SafeMeansNoOrphan(cfg, s2);
    } else {
      var x :| Holds(s.store, s.now, x, cfg.commentOf(k));
      assert Holds(s2.store, s2.now, x, cfg.commentOf(k)) && IsOperatorComment(cfg, cfg.commentOf(k));
      assert !HasGuardian(cfg, s2, x, cfg.commentOf(k));
    }
  }

  /** Syncing a silence that is not over: after such a listing and the POST of a silence under a new ID there is
      more than one live silence under a comment if and only if the key had one before. */
  lemma MissedListingDuplicatesExactly(cfg: Cfg, s: Sys, k: Key, newId: string)
    requires Conforms(cfg) && BaseInv(cfg, s) && SafeInv(cfg, s) && k in s.keys && s.keys[k].pc.SyncList?
    requires s.keys[k].pc.asOf < s.keys[k].pc.want.endsAt && s.now < s.keys[k].pc.want.endsAt
    requires var x := Slot(cfg.tenantOf(s.keys[k].pc.o.cr), newId);
             Available(s.store, x, cfg.commentOf(k)) && x !in s.store.entries
    ensures Can(cfg, s, k, HttpMissed)
    ensures var s1 := Next(cfg, s, At(k, HttpMissed));
            && Can(cfg, s1, k, HttpPost(newId))
            && (AtMostOneLive(cfg, Next(cfg, s1, At(k, HttpPost(newId)))) <==>
                NoneLive(s.store, s.now, cfg.commentOf(k)))
  {
    var l1, l2 := At(k, HttpMissed), At(k, HttpPost(newId));
    var s1 := Next(cfg, s, l1);
    BaseInvStep(cfg, s, l1);
    var s2 := Next(cfg, s1, l2);
    if NoneLive(s.store, s.now, cfg.commentOf(k)) {
      SafeInvStep(cfg, s, l1);
      SafeInvStep(cfg, s1, l2);
      SafeMeansNoOrphan(cfg, s2);
    } else {
      var x :| Holds(s.store, s.now, x, cfg.commentOf(k));
      var y := Slot(cfg.tenantOf(s.keys[k].pc.o.cr), newId);
      assert Holds(s2.store, s2.now, x, cfg.commentOf(k)) && Holds(s2.store, s2.now, y, cfg.commentOf(k));
      assert IsOperatorComment(cfg, cfg.commentOf(k));
    }
  }

  // ---- Runs that end with an orphan ----

  function NewObj(cr: CR): Obj { Obj(cr, {}, false) }

  function ClaimedObj(cr: CR): Obj { Obj(cr, {Protection}, false) }

  lemma Claim(cfg: Cfg, s0: Sys, k: Key, cr: CR) returns (ls: seq<Label>)
    requires k in s0.keys && s0.keys[k] == KeyState([None], 0, Idle)
    ensures Leads(cfg, s0, ls, k,
                  KeyState([None, Some(NewObj(cr)), Some(ClaimedObj(cr))], 1, SyncStart(ClaimedObj(cr))), s0.store)
    ensures WithoutDelete(ls)
  {
    var ks1 := KeyState([None, Some(NewObj(cr))], 0, Idle);
    var ks2 := KeyState([None, Some(NewObj(cr))], 1, AddFin(1, NewObj(cr)));
    Start(cfg, s0, k);
    ls := Step(cfg, s0, [], k, s0.keys[k], s0.store, UserCreate(NewObj(cr)));
    assert [None] + [Some(NewObj(cr))] == [None, Some(NewObj(cr))];
    ls := Step(cfg, s0, ls, k, ks1, s0.store, Get(1));
    ls := Step(cfg, s0, ls, k, ks2, s0.store, UpdateObj(false));
    assert Target(ks2.pc) == ClaimedObj(cr) by {
      assert {} + {Protection} == {Protection};
    }
    assert ks2.hist + [Some(ClaimedObj(cr))] == [None, Some(NewObj(cr)), Some(ClaimedObj(cr))];
  }

  /** A first, undisturbed reconcile of a new object posts its silence, under an ID of the server's choice. */
  lemma Publish(cfg: Cfg, s0: Sys, k: Key, cr: CR, id: string) returns (ls: seq<Label>)
    requires Conforms(cfg) && Init(cfg, s0) && k in cfg.keys && s0.keys[k].hist == [None]
    requires cfg.desired(k, cr).Ok? && s0.now < cfg.desired(k, cr).value.endsAt
    requires Available(s0.store, Slot(cfg.tenantOf(cr), id), cfg.commentOf(k))
    ensures Leads(cfg, s0, ls, k, KeyState([None, Some(NewObj(cr)), Some(ClaimedObj(cr))], 1, Idle),
                  Put(s0.store, Slot(cfg.tenantOf(cr), id), cfg.desired(k, cr).value))
    ensures WithoutDelete(ls)
  {
    var hist, want := [None, Some(NewObj(cr)), Some(ClaimedObj(cr))], cfg.desired(k, cr).value;
    ls := Claim(cfg, s0, k, cr);
    ls := Step(cfg, s0, ls, k, KeyState(hist, 1, SyncStart(ClaimedObj(cr))), s0.store, Begin);
    forall x | x in s0.store.entries ensures !Holds(s0.store, s0.now, x, cfg.commentOf(k)) {
      assert !IsOperatorComment(cfg, s0.store.entries[x].comment);
    }
    ls := Step(cfg, s0, ls, k, KeyState(hist, 1, SyncList(ClaimedObj(cr), s0.now, want)), s0.store, HttpList(None));
    ls := Step(cfg, s0, ls, k, KeyState(hist, 1, SyncWrite(ClaimedObj(cr), want, Create)), s0.store, HttpPost(id));
  }

  /** Deletion of that object, up to the listing. */
  lemma ComeToList(cfg: Cfg, s0: Sys, ls: seq<Label>, k: Key, cr: CR, st: Store)
    returns (ls': seq<Label>, ks: KeyState)
    requires Leads(cfg, s0, ls, k, KeyState([None, Some(NewObj(cr)), Some(ClaimedObj(cr))], 1, Idle), st)
    ensures |ks.hist| == 4 && Current(ks) == Some(ClaimedObj(cr).(deleting := true))
    ensures ks.pc == DelList(3, ClaimedObj(cr).(deleting := true)) && Leads(cfg, s0, ls', k, ks, st)
    ensures WithoutDelete(ls) ==> WithoutDelete(ls')
  {
    var hist, o := [None, Some(NewObj(cr)), Some(ClaimedObj(cr))], ClaimedObj(cr).(deleting := true);
    var hist' := [None, Some(NewObj(cr)), Some(ClaimedObj(cr)), Some(o)];
    ls' := Step(cfg, s0, ls, k, KeyState(hist, 1, Idle), st, UserDelete);
    assert hist + [Some(o)] == hist';
    ls' := Step(cfg, s0, ls', k, KeyState(hist', 1, Idle), st, Get(3));
    ks := KeyState(hist', 3, DelList(3, o));
  }

  /** The object is released. */
  lemma Release(cfg: Cfg, s0: Sys, ls: seq<Label>, k: Key, ks: KeyState, o: Obj, st: Store)
    returns (ls': seq<Label>, ks': KeyState)
    requires Leads(cfg, s0, ls, k, ks, st) && |ks.hist| == 4 && Current(ks) == Some(o)
    requires ks.pc == RemoveFin(3, o) && o.deleting && o.fins == {Protection}
    ensures Leads(cfg, s0, ls', k, ks', st) && |ks'.hist| > 0 && Current(ks').None?
    ensures WithoutDelete(ls) ==> WithoutDelete(ls')
  {
    ls' := Step(cfg, s0, ls, k, ks, st, UpdateObj(false));
    assert {Protection} - {Protection} == {};
    ks' := NextKey(cfg, k, s0.now, ks, st, UpdateObj(false));
  }

  /** A live silence whose key has no object is an orphan. */
  lemma IsOrphan(cfg: Cfg, s: Sys, k: Key, x: Slot)
    requires Conforms(cfg) && BaseInv(cfg, s) && k in s.keys && Current(s.keys[k]).None?
    requires Holds(s.store, s.now, x, cfg.commentOf(k))
    ensures !NoOrphan(cfg, s)
  {
    assert IsOperatorComment(cfg, cfg.commentOf(k));
    assert !HasGuardian(cfg, s, x, cfg.commentOf(k));
  }

  /** Any object that asks for a silence that is not over can lose it to one swallowed answer: published,
      deleted and finalized without any other failure, it leaves an orphan behind. */
  lemma SwallowedAnswerOrphans(cfg: Cfg, s0: Sys, k: Key, cr: CR, id: string) returns (ls: seq<Label>, s: Sys)
    requires Conforms(cfg) && Init(cfg, s0) && k in cfg.keys && s0.keys[k].hist == [None]
    requires cfg.desired(k, cr).Ok? && s0.now < cfg.desired(k, cr).value.endsAt
    requires Available(s0.store, Slot(cfg.tenantOf(cr), id), cfg.commentOf(k))
    ensures Undisturbed(k, ls) && Run(cfg, s0, ls) == Some(s) && BaseInv(cfg, s) && !NoOrphan(cfg, s)
  {
    var x, o := Slot(cfg.tenantOf(cr), id), ClaimedObj(cr).(deleting := true);
    var st, ks := Put(s0.store, x, cfg.desired(k, cr).value), s0.keys[k];
    ls := Publish(cfg, s0, k, cr, id);
    ls, ks := ComeToList(cfg, s0, ls, k, cr, st);
    ls := Step(cfg, s0, ls, k, ks, st, HttpList(Some(id)));
    ls := Step(cfg, s0, ls, k, ks.(pc := DelWrite(3, o, id)), st, HttpDelete(Swallowed));
    ls, ks := Release(cfg, s0, ls, k, ks.(pc := RemoveFin(3, o)), o, st);
    BaseOnEveryRun(cfg, s0, ls);
    s := Run(cfg, s0, ls).value;
    IsOrphan(cfg, s, k, x);
  }

  /** It can lose it to one refused listing just as well. */
  lemma MissedListingOrphans(cfg: Cfg, s0: Sys, k: Key, cr: CR, id: string) returns (ls: seq<Label>, s: Sys)
    requires Conforms(cfg) && Init(cfg, s0) && k in cfg.keys && s0.keys[k].hist == [None]
    requires cfg.desired(k, cr).Ok? && s0.now < cfg.desired(k, cr).value.endsAt
    requires Available(s0.store, Slot(cfg.tenantOf(cr), id), cfg.commentOf(k))
    ensures Undisturbed(k, ls) && WithoutDelete(ls)
    ensures Run(cfg, s0, ls) == Some(s) && BaseInv(cfg, s) && !NoOrphan(cfg, s)
  {
    var x, o := Slot(cfg.tenantOf(cr), id), ClaimedObj(cr).(deleting := true);
    var st, ks := Put(s0.store, x, cfg.desired(k, cr).value), s0.keys[k];
    ls := Publish(cfg, s0, k, cr, id);
    ls, ks := ComeToList(cfg, s0, ls, k, cr, st);
    ls := Step(cfg, s0, ls, k, ks, st, HttpMissed);
    ls, ks := Release(cfg, s0, ls, k, ks.(pc := RemoveFin(3, o)), o, st);
    BaseOnEveryRun(cfg, s0, ls);
    s := Run(cfg, s0, ls).value;
    IsOrphan(cfg, s, k, x);
  }
}
