/** What happens to one object and its silences does not depend on anybody else: from any run at all, clock
    included, the steps of others can be left out. */
module NonInterference {
  import opened Types
  import opened AlertStore
  import opened SyncPlan
  import opened Protocol
  import opened ProtocolSafety
  import opened Interleaving

  /** The tenants in which the comment is the key's alone: its home if another key has the comment, else all. */
  predicate OwnTenant(cfg: Cfg, home: Key -> string, k: Key, tenant: string) {
    Shared(cfg, k) ==> tenant == home(k)
  }

  /** The first store has all of the second that concerns the key; it may have given out more IDs. */
  ghost predicate SameOwn(cfg: Cfg, home: Key -> string, k: Key, st: Store, own: Store) {
    && (forall tenant | OwnTenant(cfg, home, k, tenant) :: SameIn(st, own, tenant, cfg.commentOf(k)))
    && KeepsOwners(cfg, own, st)
  }

  lemma SameAfterDrop(cfg: Cfg, home: Key -> string, k: Key, st: Store, own: Store, x: Slot)
    requires SameOwn(cfg, home, k, st, own)
    ensures SameOwn(cfg, home, k, Drop(st, x), Drop(own, x))
  {
    forall tenant | OwnTenant(cfg, home, k, tenant)
      ensures SameIn(Drop(st, x), Drop(own, x), tenant, cfg.commentOf(k))
    {
      assert SameIn(st, own, tenant, cfg.commentOf(k));
    }
  }

  lemma SameAfterPut(cfg: Cfg, home: Key -> string, k: Key, st: Store, own: Store, x: Slot, s: Silence)
    requires SameOwn(cfg, home, k, st, own)
    ensures SameOwn(cfg, home, k, Put(st, x, s), Put(own, x, s))
  {
    forall tenant | OwnTenant(cfg, home, k, tenant)
      ensures SameIn(Put(st, x, s), Put(own, x, s), tenant, cfg.commentOf(k))
    {
      assert SameIn(st, own, tenant, cfg.commentOf(k));
    }
  }

  /** The two states are the same to the key: clock, object, worker, and silences under its comment. */
  ghost predicate AlikeFor(cfg: Cfg, home: Key -> string, k: Key, s: Sys, own: Sys) {
    && k in s.keys && k in own.keys && s.now == own.now && s.keys[k] == own.keys[k]
    && SameOwn(cfg, home, k, s.store, own.store)
  }

  /** The key's own steps, the clock, and removals of its silences by others. */
  predicate Concerns(cfg: Cfg, home: Key -> string, k: Key, s: Sys, l: Label) {
    match l
    case At(k', _) => k' == k
    case Tick(_) => true
    case Collect(x) => Removes(cfg, home, k, s, x)
    case ForeignDrop(x) => Removes(cfg, home, k, s, x)
    case ForeignPut(_, _) => false
  }

  predicate Removes(cfg: Cfg, home: Key -> string, k: Key, s: Sys, x: Slot) {
    x in s.store.entries && s.store.entries[x].comment == cfg.commentOf(k) && OwnTenant(cfg, home, k, x.tenant)
  }

  /** The run with everything left out that does not concern the key. */
  ghost function Own(cfg: Cfg, home: Key -> string, s: Sys, k: Key, ls: seq<Label>): seq<Label> {
    if ls == [] then []
    else
      var ms, l := ls[..|ls| - 1], ls[|ls| - 1];
      var before := Run(cfg, s, ms);
      if before.Some? && Concerns(cfg, home, k, before.value, l) then Own(cfg, home, s, k, ms) + [l]
      else Own(cfg, home, s, k, ms)
  }

  /** Stores that agree on the comment, or on the whole home of a key that shares it, are the same to the key. */
  lemma SameByFrame(cfg: Cfg, home: Key -> string, k: Key, st: Store, st': Store)
    requires KeepsOwners(cfg, st, st')
    requires SameFor(st, st', cfg.commentOf(k)) || (Shared(cfg, k) && SameTenantStore(st, st', home(k)))
    ensures SameOwn(cfg, home, k, st', st)
  {
    forall tenant | OwnTenant(cfg, home, k, tenant) ensures SameIn(st', st, tenant, cfg.commentOf(k)) {
      SameInByFrame(st, st', tenant, cfg.commentOf(k));
    }
  }

  /** A step of another key changes nothing that concerns this one. */
  lemma OtherKeysStep(cfg: Cfg, home: Key -> string, k: Key, s: Sys, other: Key, a: Act)
    requires Ready(cfg, home, s) && k in s.keys && other != k && Enabled(cfg, s, At(other, a))
    ensures SameOwn(cfg, home, k, NextStore(cfg, other, s.now, s.keys[other], s.store, a), s.store)
  {
    var ks := s.keys[other];
    StoreStep(cfg, other, s.now, ks, s.store, a);
    if cfg.commentOf(other) == cfg.commentOf(k) {
      assert Shared(cfg, k) && Shared(cfg, other);
      WorksAtHome(cfg, home, s, other);
      StepStaysInTenant(cfg, other, s.now, ks, s.store, a, home(k));
    }
    SameByFrame(cfg, home, k, s.store, NextStore(cfg, other, s.now, ks, s.store, a));
  }

  lemma WorksAtHome(cfg: Cfg, home: Key -> string, s: Sys, k: Key)
    requires Ready(cfg, home, s) && k in s.keys && Shared(cfg, k)
    ensures s.keys[k].pc.Idle? || WorksIn(cfg, s.keys[k]) == home(k)
  {
    if !s.keys[k].pc.Idle? {
      WorkersObject(cfg, k, s.keys[k], s.store);
    }
  }

  /** Nor does any other step that does not concern it. */
  lemma OthersStep(cfg: Cfg, home: Key -> string, k: Key, s: Sys, l: Label)
    requires Ready(cfg, home, s) && k in s.keys && Enabled(cfg, s, l) && !Concerns(cfg, home, k, s, l)
    ensures AlikeFor(cfg, home, k, Next(cfg, s, l), s)
  {
    if l.At? {
      OtherKeysStep(cfg, home, k, s, l.key, l.act);
    }
  }

  /** A step of the key itself, taken in both stores, has the same effect on what concerns it. */
  lemma OwnStep(cfg: Cfg, home: Key -> string, k: Key, s: Sys, own: Sys, a: Act)
    requires Ready(cfg, home, s) && BaseInv(cfg, own) && AlikeFor(cfg, home, k, s, own) && Enabled(cfg, s, At(k, a))
    ensures Enabled(cfg, own, At(k, a)) && AlikeFor(cfg, home, k, Next(cfg, s, At(k, a)), Next(cfg, own, At(k, a)))
  {
    var ks := s.keys[k];
    if !ks.pc.Idle? {
      if Shared(cfg, k) {
        WorksAtHome(cfg, home, s, k);
      }
      assert OwnTenant(cfg, home, k, WorksIn(cfg, ks));
    }
    if a.HttpPost? {
      var x := Slot(WorksIn(cfg, ks), a.newId);
      assert IsOperatorComment(cfg, cfg.commentOf(k)) && (x in own.store.owner ==> x in s.store.owner);
    }
    LocalStep(cfg, k, s.now, ks, s.store, own.store, a);
    SameWrite(cfg, home, k, s.now, ks, s.store, own.store, a);
  }

  lemma SameWrite(cfg: Cfg, home: Key -> string, k: Key, now: int, ks: KeyState, st: Store, own: Store, a: Act)
    requires |ks.hist| > 0 && SameOwn(cfg, home, k, st, own)
    requires ActEnabled(cfg, k, now, ks, st, a) && ActEnabled(cfg, k, now, ks, own, a)
    ensures SameOwn(cfg, home, k, NextStore(cfg, k, now, ks, st, a), NextStore(cfg, k, now, ks, own, a))
  {
    if a.HttpPost? {
      var tenant, prior, x := cfg.tenantOf(ks.pc.o.cr), PriorId(ks.pc.write), Slot(cfg.tenantOf(ks.pc.o.cr), a.newId);
      if prior.Some? {
        var y := Slot(tenant, prior.value);
        SameAfterDrop(cfg, home, k, st, own, y);
        SameAfterPut(cfg, home, k, Drop(st, y), Drop(own, y), x, ks.pc.want);
      } else {
        SameAfterPut(cfg, home, k, st, own, x, ks.pc.want);
      }
    } else if a.HttpDelete? && !a.answer.Swallowed? {
      var id := if ks.pc.DelWrite? then ks.pc.id else ks.pc.write.id;
      SameAfterDrop(cfg, home, k, st, own, Slot(cfg.tenantOf(ks.pc.o.cr), id));
    }
  }

  /** So has the removal of one of its silences, or the passing of time. */
  lemma OutsideStepAlike(cfg: Cfg, home: Key -> string, k: Key, s: Sys, own: Sys, l: Label)
    requires Ready(cfg, home, s) && BaseInv(cfg, own) && AlikeFor(cfg, home, k, s, own)
    requires Enabled(cfg, s, l) && Concerns(cfg, home, k, s, l) && !l.At?
    ensures Enabled(cfg, own, l) && AlikeFor(cfg, home, k, Next(cfg, s, l), Next(cfg, own, l))
  {
    if !l.Tick? {
      assert SameIn(s.store, own.store, l.slot.tenant, cfg.commentOf(k));
      SameAfterDrop(cfg, home, k, s.store, own.store, l.slot);
    }
  }

  /** Non-interference: leaving out of any run whatever concerns only others gives a run that ends the same way
      for the key. */
  lemma {:induction false} NonInterference(cfg: Cfg, home: Key -> string, s: Sys, k: Key, ls: seq<Label>)
    requires Ready(cfg, home, s) && k in s.keys && Run(cfg, s, ls).Some? && StaysHome(cfg, home, ls)
    ensures Run(cfg, s, Own(cfg, home, s, k, ls)).Some?
    ensures AlikeFor(cfg, home, k, Run(cfg, s, ls).value, Run(cfg, s, Own(cfg, home, s, k, ls)).value)
  {
    if ls != [] {
      var ms, l := ls[..|ls| - 1], ls[|ls| - 1];
      NonInterference(cfg, home, s, k, ms);
      RunKeepsHome(cfg, home, s, ms);
      var before, own := Run(cfg, s, ms).value, Own(cfg, home, s, k, ms);
      var s' := Run(cfg, s, own).value;
      BaseAlongRun(cfg, s, own);
      if !Concerns(cfg, home, k, before, l) {
        OthersStep(cfg, home, k, before, l);
      } else {
        if l.At? {
          OwnStep(cfg, home, k, before, s', l.act);
        } else {
          OutsideStepAlike(cfg, home, k, before, s', l);
        }
        RunSnoc(cfg, s, own, l);
      }
    }
  }
}
