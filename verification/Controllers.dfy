/** The Alertmanager client, the silence service and the two reconcilers, call by call as they are written.
    Every remote call of theirs is a step of the protocol, so each of their executions is part of a run. */
module Controllers {
  import opened Wrappers
  import opened Types
  import opened AlertStore
  import opened SyncPlan
  import opened SyncRefinement
  import opened Protocol
  import opened ProtocolSafety
  import opened NoOrphans
  import opened Finalization
  import opened Listing
  import opened Remote

  datatype Error = NotFound | Failed(message: string)

  class Alertmanager {
    const world: World

    constructor (world: World)
      ensures this.world == world
    {
      this.world := world;
    }

    method ListSilences(k: Key, tenant: string) returns (r: Result<seq<Listed>, string>)
      requires world.Valid() && k in world.s.keys && (world.s.keys[k].pc.SyncList? || world.s.keys[k].pc.DelList?)
      requires tenant == world.cfg.tenantOf(world.s.keys[k].pc.o.cr)
      modifies world`s, world`log, world`calm, world`failed
      ensures world.failed == (old(world.failed) || r.Err?)
      ensures world.Valid() && k in world.s.keys && old(world.log) <= world.log
      ensures r.Err? ==> world.Stands(k, Idle) && !world.calm
      ensures r.Ok? ==> Answers(world.s.store, world.s.now, tenant, r.value) || (r.value == [] && !world.calm)
      ensures r.Ok? && old(world.s.keys[k].pc.SyncList?) ==>
                var pc := old(world.s.keys[k].pc);
                var o, asOf, want := pc.o, pc.asOf, pc.want;
                var w := Plan(ExistingOf(FirstMatch(r.value, want.comment, false)), want, asOf);
                world.Stands(k, if w.Nothing? then Idle else SyncWrite(o, want, w))
      ensures r.Ok? && old(world.s.keys[k].pc.DelList?) ==>
                var at, o := old(world.s.keys[k].pc.at), old(world.s.keys[k].pc.o);
                var found := FirstMatch(r.value, world.cfg.commentOf(k), true);
                world.Stands(k, if found.Some? then DelWrite(at, o, found.value.id) else RemoveFin(at, o))
      ensures world.calm ==> old(world.calm) && world.s.store == old(world.s.store) && world.s.now == old(world.s.now)
                             && world.s.keys[k].hist == old(world.s.keys[k].hist)
    {
      var answer := world.HttpGet(k, tenant);
      if answer.Err? {
        return Err(answer.error);
      }
      var filtered := Filter(answer.value);
      if IsListing(world.s.store, world.s.now, tenant, answer.value) {
        FilteredListingAnswers(world.s.store, world.s.now, tenant, answer.value);
      }
      return Ok(filtered);
    }

    method GetSilenceByComment(k: Key, comment: string, tenant: string) returns (r: Result<Existing, Error>)
      requires world.Valid() && k in world.s.keys && world.s.keys[k].pc.SyncList?
      requires comment == world.s.keys[k].pc.want.comment && tenant == world.cfg.tenantOf(world.s.keys[k].pc.o.cr)
      modifies world`s, world`log, world`calm, world`failed
      ensures world.failed == (old(world.failed) || (r.Err? && r.error.Failed?))
      ensures world.Valid() && k in world.s.keys && old(world.log) <= world.log
      ensures r.Err? && r.error.Failed? ==> world.Stands(k, Idle) && !world.calm
      ensures !(r.Err? && r.error.Failed?) ==>
                var pc := old(world.s.keys[k].pc);
                var o, asOf, want := pc.o, pc.asOf, pc.want;
                var w := Plan(if r.Ok? then Some(r.value) else None, want, asOf);
                world.Stands(k, if w.Nothing? then Idle else SyncWrite(o, want, w))
      ensures r.Ok? || (r.error.NotFound? && world.calm) ==>
                var found := if r.Ok? then Some(r.value.id) else None;
                && Lookup(world.s.store, world.s.now, tenant, comment, found)
                && ExistingAt(world.s.store, tenant, found) == if r.Ok? then Some(r.value) else None
      ensures world.calm ==> old(world.calm) && world.s.store == old(world.s.store) && world.s.now == old(world.s.now)
                             && world.s.keys[k].hist == old(world.s.keys[k].hist)
    {
      var silences := ListSilences(k, tenant);
      if silences.Err? {
        return Err(Failed(silences.error));
      }
      assert silences.value != [] || world.calm ==>
          AnswersFor(world.s.store, world.s.now, tenant, silences.value, comment);
      var hit := Search(silences.value, comment, false);
      if hit.Some? {
        return Ok(Existing(hit.value.id, hit.value.silence));
      }
      return Err(NotFound);
    }

    method CreateSilence(k: Key, id: string, silence: Silence, tenant: string) returns (err: Option<string>)
      requires world.Valid() && k in world.s.keys && world.s.keys[k].pc.SyncWrite?
      requires var pc := world.s.keys[k].pc;
               && tenant == world.cfg.tenantOf(pc.o.cr) && silence == pc.want
               && ((pc.write == Create && id == "") || (pc.write == Write.Update(id) && id != ""))
      modifies world`s, world`log, world`calm, world`failed
      ensures world.failed == (old(world.failed) || err.Some?)
      ensures world.Stands(k, Idle) && old(world.log) <= world.log && (err.Some? ==> !world.calm)
      ensures world.calm ==> old(world.calm) && world.s.now == old(world.s.now)
                             && world.s.keys[k].hist == old(world.s.keys[k].hist)
      ensures world.calm ==> Executed(old(world.s.store), world.s.store, tenant, silence, old(world.s.keys[k].pc.write))
    {
      err := world.HttpPost(k, tenant, id, silence);
    }

    method UpdateSilence(k: Key, id: string, silence: Silence, tenant: string) returns (err: Option<string>)
      requires world.Valid() && k in world.s.keys && world.s.keys[k].pc.SyncWrite?
      requires var pc := world.s.keys[k].pc;
               tenant == world.cfg.tenantOf(pc.o.cr) && silence == pc.want && pc.write == Write.Update(id)
      modifies world`s, world`log, world`calm, world`failed
      ensures world.failed == (old(world.failed) || err.Some?)
      ensures world.Stands(k, Idle) && old(world.log) <= world.log && (err.Some? ==> !world.calm)
      ensures world.calm ==> old(world.calm) && world.s.now == old(world.s.now)
                             && world.s.keys[k].hist == old(world.s.keys[k].hist)
      ensures world.calm ==> Executed(old(world.s.store), world.s.store, tenant, silence, Write.Update(id))
    {
      if id == "" {
        world.GiveUp(k);
        return Some("failed to update silence, missing ID");
      }
      err := CreateSilence(k, id, silence, tenant);
    }

    /** An answer other than 200 is reported as success: the error that would be wrapped is nil. */
    method DeleteSilenceByID(k: Key, id: string, tenant: string) returns (err: Option<string>)
      requires world.Valid() && k in world.s.keys
      requires var pc := world.s.keys[k].pc;
               && ((pc.SyncWrite? && pc.write == Delete(id)) || (pc.DelWrite? && pc.id == id))
               && tenant == world.cfg.tenantOf(pc.o.cr)
      modifies world`s, world`log, world`calm, world`failed
      ensures world.failed == (old(world.failed) || err.Some?)
      ensures world.Valid() && k in world.s.keys && old(world.log) <= world.log
      ensures err.Some? ==> world.Stands(k, Idle) && !world.calm
      ensures err.None? ==> var pc := old(world.s.keys[k].pc);
                            world.Stands(k, if pc.DelWrite? then RemoveFin(pc.at, pc.o) else Idle)
      ensures world.calm ==> old(world.calm) && world.s.store == Drop(old(world.s.store), Slot(tenant, id))
                             && world.s.now == old(world.s.now) && world.s.keys[k].hist == old(world.s.keys[k].hist)
    {
      var answer := world.HttpDelete(k, tenant, id);
      var wrapped: Option<string> := if answer.Err? then Some(answer.error) else None;
      if answer.Err? {
        return wrapped;
      }
      if answer.value != 200 {
        return wrapped;
      }
      return None;
    }

    method DeleteSilenceByComment(k: Key, comment: string, tenant: string) returns (err: Option<Error>)
      requires world.Valid() && k in world.s.keys && world.s.keys[k].pc.DelList?
      requires comment == world.cfg.commentOf(k) && tenant == world.cfg.tenantOf(world.s.keys[k].pc.o.cr)
      modifies world`s, world`log, world`calm, world`failed
      ensures world.failed == (old(world.failed) || (err.Some? && err.value.Failed?))
      ensures world.Valid() && k in world.s.keys && old(world.log) <= world.log
      ensures err.Some? && err.value.Failed? ==> world.Stands(k, Idle) && !world.calm
      ensures !(err.Some? && err.value.Failed?) ==>
                world.Stands(k, RemoveFin(old(world.s.keys[k].pc.at), old(world.s.keys[k].pc.o)))
      ensures world.calm ==> old(world.calm) && world.s.now == old(world.s.now)
                             && world.s.keys[k].hist == old(world.s.keys[k].hist)
                             && DeletedCalmly(old(world.s.store), world.s.store, world.s.now, tenant, comment)
    {
      var silences := ListSilences(k, tenant);
      if silences.Err? {
        return Some(Failed(silences.error));
      }
      assert silences.value != [] || world.calm ==>
          AnswersFor(world.s.store, world.s.now, tenant, silences.value, comment);
      var hit := Search(silences.value, comment, true);
      if hit.Some? {
        var failure := DeleteSilenceByID(k, hit.value.id, tenant);
        return if failure.Some? then Some(Failed(failure.value)) else None;
      }
      return Some(NotFound);
    }
  }

  class SilenceService {
    const alertmanager: Alertmanager

    constructor (alertmanager: Alertmanager)
      ensures this.alertmanager == alertmanager
    {
      this.alertmanager := alertmanager;
    }

    /** Without failures and interference, sets the map from names to silences at the silence's own name. */
    method SyncSilence(k: Key, newSilence: Silence, tenant: string) returns (err: Option<string>)
      requires var world := alertmanager.world;
               && world.Valid() && k in world.s.keys && world.s.keys[k].pc.SyncStart?
               && world.cfg.desired(k, world.s.keys[k].pc.o.cr) == Ok(newSilence)
               && tenant == world.cfg.tenantOf(world.s.keys[k].pc.o.cr)
      modifies alertmanager.world`s, alertmanager.world`log, alertmanager.world`calm, alertmanager.world`failed
      ensures alertmanager.world.failed == (old(alertmanager.world.failed) || err.Some?)
      ensures alertmanager.world.Stands(k, Idle) && old(alertmanager.world.log) <= alertmanager.world.log
      ensures err.Some? ==> !alertmanager.world.calm
      ensures var world := alertmanager.world;
              world.calm ==> old(world.calm) && world.s.now == old(world.s.now)
                             && world.s.keys[k].hist == old(world.s.keys[k].hist)
                             && SyncedCalmly(old(world.s.store), world.s.store, world.s.now, tenant, newSilence)
    {
      var now := alertmanager.world.Now(k);
      var existing := alertmanager.GetSilenceByComment(k, newSilence.comment, tenant);
      if existing.Err? && existing.error.Failed? {
        return Some(existing.error.message);
      }
      if existing.Err? {
        if newSilence.endsAt > now {
          err := alertmanager.CreateSilence(k, "", newSilence, tenant);
          return;
        }
        return None;
      }
      if newSilence.endsAt < now {
        err := alertmanager.DeleteSilenceByID(k, existing.value.id, tenant);
        return;
      }
      if UpdateNeeded(existing.value.silence, newSilence) {
        err := alertmanager.UpdateSilence(k, existing.value.id, newSilence, tenant);
        return;
      }
      return None;
    }

    /** Without failures and interference, empties the map at the name. */
    method DeleteSilence(k: Key, comment: string, tenant: string) returns (err: Option<string>)
      requires var world := alertmanager.world;
               && world.Valid() && k in world.s.keys && world.s.keys[k].pc.DelList?
               && comment == world.cfg.commentOf(k) && tenant == world.cfg.tenantOf(world.s.keys[k].pc.o.cr)
      modifies alertmanager.world`s, alertmanager.world`log, alertmanager.world`calm, alertmanager.world`failed
      ensures alertmanager.world.failed == (old(alertmanager.world.failed) || err.Some?)
      ensures var world := alertmanager.world;
              world.Valid() && k in world.s.keys && old(world.log) <= world.log
      ensures err.Some? ==> alertmanager.world.Stands(k, Idle) && !alertmanager.world.calm
      ensures err.None? ==> var pc := old(alertmanager.world.s.keys[k].pc);
                            alertmanager.world.Stands(k, RemoveFin(pc.at, pc.o))
      ensures var world := alertmanager.world;
              world.calm ==> old(world.calm) && world.s.now == old(world.s.now)
                             && world.s.keys[k].hist == old(world.s.keys[k].hist)
                             && DeletedCalmly(old(world.s.store), world.s.store, world.s.now, tenant, comment)
    {
      var failure := alertmanager.DeleteSilenceByComment(k, comment, tenant);
      if failure.Some? {
        if failure.value.NotFound? {
          return None;
        }
        return Some(failure.value.message);
      }
      return None;
    }
  }

  // ---- The reconcilers ----

  /** The finalizers of an object once its reconciler has claimed it. */
  function ClaimedFins(k: Key, fins: set<Finalizer>): set<Finalizer> {
    (if k.V1Key? then fins - {Operatorkit} else fins) + {Protection}
  }

  /** A calm reconcile of an object that is being deleted: its silence is gone, then the finalizers are. */
  ghost predicate Finalized(cfg: Cfg, k: Key, o: Obj, now: int, st: Store, later: Option<Obj>, st': Store) {
    && later == (if o.fins !! Ours(k) then Some(o) else Stored(o.(fins := o.fins - Ours(k))))
    && (if Protection in o.fins then
          DeletedCalmly(st, st', now, cfg.tenantOf(o.cr), cfg.commentOf(k))
        else st' == st)
  }

  /** If the newest version was `o`, it is now `o'`. */
  predicate Becomes(hist: seq<Option<Obj>>, hist': seq<Option<Obj>>, o: Obj, o': Obj) {
    hist != [] && hist[|hist| - 1] == Some(o) ==> hist' != [] && hist'[|hist'| - 1] == Some(o')
  }

  /** A calm sync of an object that is not: it is rejected, or Alertmanager has what it asks for. */
  ghost predicate Synced(cfg: Cfg, k: Key, cr: CR, now: int, st: Store, st': Store, err: Option<string>) {
    match cfg.desired(k, cr)
    case Ok(want) => err.None? && SyncedCalmly(st, st', now, cfg.tenantOf(cr), want)
    case Err(_) => err.Some? && st' == st
  }

  /** What a reconcile does when no call fails, the read is up to date and nobody interferes. */
  ghost predicate Reconciled(cfg: Cfg, k: Key, before: Sys, after: Sys, err: Option<string>)
    requires k in before.keys && k in after.keys && |before.keys[k].hist| > 0 && |after.keys[k].hist| > 0
  {
    var later := Current(after.keys[k]);
    match Current(before.keys[k])
    case None => later.None? && after.store == before.store && err.None?
    case Some(o) =>
      if o.deleting then err.None? && Finalized(cfg, k, o, before.now, before.store, later, after.store)
      else
        && later == Some(o.(fins := ClaimedFins(k, o.fins)))
        && Synced(cfg, k, o.cr, before.now, before.store, after.store, err)
  }

  /** The error of a reconcile of this version of the object: there is one exactly if a call failed, or the object is
      not being deleted and cannot be converted. */
  predicate Reports(cfg: Cfg, k: Key, o: Obj, before: bool, failed: bool, err: Option<string>) {
    && (before ==> failed)
    && (!before ==> (err.Some? <==> failed || (!o.deleting && cfg.desired(k, o.cr).Err?)))
  }

  /** The parts both reconcilers have in common. */
  class Reconciler {
    const world: World
    const service: SilenceService

    constructor (world: World, service: SilenceService)
      requires service.alertmanager.world == world
      ensures this.world == world && this.service == service
    {
      this.world, this.service := world, service;
    }

    method ReconcileCreate(k: Key, silence: Obj) returns (err: Option<string>)
      requires service.alertmanager.world == world && world.Stands(k, SyncStart(silence))
      modifies world`s, world`log, world`calm, world`failed
      ensures world.failed == (old(world.failed) || (err.Some? && world.cfg.desired(k, silence.cr).Ok?))
      ensures world.cfg.desired(k, silence.cr).Err? ==> err == Some(world.cfg.desired(k, silence.cr).error)
      ensures world.Stands(k, Idle) && old(world.log) <= world.log
      ensures world.calm ==> old(world.calm) && world.s.keys[k].hist == old(world.s.keys[k].hist)
                             && Synced(world.cfg, k, silence.cr, old(world.s.now), old(world.s.store),
                                       world.s.store, err)
    {
      var desired := world.cfg.desired(k, silence.cr);
      if desired.Err? {
        world.Reject(k);
        return Some(desired.error);
      }
      var tenant := world.cfg.tenantOf(silence.cr);
      err := service.SyncSilence(k, desired.value, tenant);
    }

    method ReconcileDelete(k: Key, silence: Obj) returns (err: Option<string>)
      requires service.alertmanager.world == world
      requires world.Valid() && k in world.s.keys && world.s.keys[k].pc.DelList? && world.s.keys[k].pc.o == silence
      modifies world`s, world`log, world`calm, world`failed
      ensures world.failed == (old(world.failed) || err.Some?)
      ensures world.Valid() && k in world.s.keys && old(world.log) <= world.log
      ensures err.Some? ==> world.Stands(k, Idle) && !world.calm
      ensures err.None? ==> world.Stands(k, RemoveFin(old(world.s.keys[k].pc.at), silence))
      ensures world.calm ==>
                && old(world.calm) && world.s.keys[k].hist == old(world.s.keys[k].hist)
                && DeletedCalmly(old(world.s.store), world.s.store, old(world.s.now), world.cfg.tenantOf(silence.cr),
                                 world.cfg.commentOf(k))
    {
      var tenant := world.cfg.tenantOf(silence.cr);
      var comment := world.cfg.commentOf(k);
      err := service.DeleteSilence(k, comment, tenant);
    }

    /** Adds the operator's finalizer unless the object carries it. */
    method EnsureFinalizer(k: Key, silence: Obj, ghost at: nat) returns (r: Result<Obj, string>)
      requires !silence.deleting && world.Stands(k, AfterGet(k, at, Some(silence)))
      modifies world`s, world`log, world`calm, world`failed
      ensures world.failed == (old(world.failed) || r.Err?)
      ensures world.Valid() && k in world.s.keys && old(world.log) <= world.log
      ensures r.Err? ==> world.Stands(k, Idle) && !world.calm
      ensures r.Ok? ==> r.value == silence.(fins := silence.fins + {Protection})
                        && exists at' :: world.Stands(k, AfterFinalizer(k, at', r.value))
      ensures world.calm ==>
                && old(world.calm) && r.Ok?
                && world.s.store == old(world.s.store) && world.s.now == old(world.s.now)
                && Becomes(old(world.s.keys[k].hist), world.s.keys[k].hist, silence, r.value)
    {
      if Protection in silence.fins {
        assert silence.fins + {Protection} == silence.fins;
        return Ok(silence);
      }
      var claimed := silence.(fins := silence.fins + {Protection});
      var update := world.Update(k, claimed);
      if update.Err? {
        return Err(update.error);
      }
      return Ok(claimed);
    }

    /** Deletes from Alertmanager, then removes the operator's finalizer. */
    method Finalize(k: Key, silence: Obj) returns (r: Result<Obj, string>)
      requires service.alertmanager.world == world
      requires world.Valid() && k in world.s.keys && world.s.keys[k].pc.DelList? && world.s.keys[k].pc.o == silence
      modifies world`s, world`log, world`calm, world`failed
      ensures world.failed == (old(world.failed) || r.Err?)
      ensures world.Valid() && k in world.s.keys && old(world.log) <= world.log
      ensures r.Err? ==> world.Stands(k, Idle) && !world.calm
      ensures r.Ok? ==> r.value == silence.(fins := silence.fins - {Protection})
                        && exists at :: world.Stands(k, AfterDeletion(k, at, r.value))
      ensures world.calm ==>
                && old(world.calm) && r.Ok?
                && world.s.keys[k].hist == old(world.s.keys[k].hist) + [Stored(r.value)]
                && DeletedCalmly(old(world.s.store), world.s.store, old(world.s.now), world.cfg.tenantOf(silence.cr),
                                 world.cfg.commentOf(k))
    {
      var err := ReconcileDelete(k, silence);
      if err.Some? {
        return Err(err.value);
      }
      var released := silence.(fins := silence.fins - {Protection});
      var update := world.Update(k, released);
      if update.Err? {
        return Err(update.error);
      }
      return Ok(released);
    }
  }

  class SilenceV2Reconciler {
    const base: Reconciler

    constructor (base: Reconciler)
      ensures this.base == base
    {
      this.base := base;
    }

    /** The branch for an object that is not being deleted. */
    method ReconcileLive(k: Key, o: Obj, ghost at: nat) returns (err: Option<string>)
      requires base.service.alertmanager.world == base.world && k.V2Key? && !o.deleting
      requires base.world.Stands(k, AfterGet(k, at, Some(o)))
      modifies base.world`s, base.world`log, base.world`calm, base.world`failed
      ensures Reports(base.world.cfg, k, o, old(base.world.failed), base.world.failed, err)
      ensures base.world.Stands(k, Idle) && old(base.world.log) <= base.world.log
      ensures base.world.calm ==>
                && old(base.world.calm)
                && Synced(base.world.cfg, k, o.cr, old(base.world.s.now), old(base.world.s.store),
                          base.world.s.store, err)
                && Becomes(old(base.world.s.keys[k].hist), base.world.s.keys[k].hist, o,
                           o.(fins := ClaimedFins(k, o.fins)))
    {
      var claimed := base.EnsureFinalizer(k, o, at);
      if claimed.Err? {
        return Some(claimed.error);
      }
      err := base.ReconcileCreate(k, claimed.value);
    }

    method Reconcile(k: Key) returns (err: Option<string>)
      requires base.service.alertmanager.world == base.world && k.V2Key? && base.world.Stands(k, Idle)
      modifies base.world
      ensures match base.world.read
              case Some(o) => Reports(base.world.cfg, k, o, old(base.world.failed), base.world.failed, err)
              case None => base.world.failed == (old(base.world.failed) || err.Some?)
      ensures base.world.Stands(k, Idle) && old(base.world.log) <= base.world.log
      ensures base.world.calm ==>
                old(base.world.calm) && Reconciled(base.world.cfg, k, old(base.world.s), base.world.s, err)
    {
      var got := base.world.Get(k);
      if got.Err? {
        return Some(got.error);
      }
      if got.value.1.None? {
        return None;
      }
      var silence := got.value.1.value;
      if silence.deleting {
        if Protection in silence.fins {
          var released := base.Finalize(k, silence);
          if released.Err? {
            return Some(released.error);
          }
        }
        return None;
      }
      err := ReconcileLive(k, silence, got.value.0);
    }
  }

  class SilenceReconciler {
    const base: Reconciler

    constructor (base: Reconciler)
      ensures this.base == base
    {
      this.base := base;
    }

    /** Removes the legacy finalizer, if the object carries it. */
    method CleanUpLegacyFinalizer(k: Key, silence: Obj) returns (r: Result<Obj, string>)
      requires k.V1Key? && base.world.Valid() && k in base.world.s.keys
      requires Operatorkit in silence.fins ==>
                 var pc := base.world.s.keys[k].pc; (pc.CleanAdd? || pc.CleanDel?) && pc.o == silence
      modifies base.world`s, base.world`log, base.world`calm, base.world`failed
      ensures base.world.failed == (old(base.world.failed) || r.Err?)
      ensures base.world.Valid() && k in base.world.s.keys && old(base.world.log) <= base.world.log
      ensures r.Err? ==> base.world.Stands(k, Idle) && !base.world.calm
      ensures r.Ok? ==> r.value == silence.(fins := silence.fins - {Operatorkit})
      ensures r.Ok? ==> base.world.s.keys[k].pc ==
                        if Operatorkit !in silence.fins then old(base.world.s.keys[k].pc)
                        else if old(base.world.s.keys[k].pc.CleanAdd?) then SyncStart(r.value) else Idle
      ensures base.world.calm ==>
                && old(base.world.calm) && r.Ok?
                && base.world.s.store == old(base.world.s.store) && base.world.s.now == old(base.world.s.now)
                && base.world.s.keys[k].hist == if Operatorkit in silence.fins
                                                then old(base.world.s.keys[k].hist) + [Stored(r.value)]
                                                else old(base.world.s.keys[k].hist)
    {
      var cleaned := silence.(fins := silence.fins - {Operatorkit});
      if Operatorkit in silence.fins {
        var update := base.world.Update(k, cleaned);
        if update.Err? {
          return Err(update.error);
        }
      } else {
        assert silence.fins - {Operatorkit} == silence.fins;
      }
      return Ok(cleaned);
    }

    /** The branch for an object that is being deleted. */
    method ReconcileDeleting(k: Key, o: Obj, ghost at: nat) returns (err: Option<string>)
      requires base.service.alertmanager.world == base.world && k.V1Key? && o.deleting
      requires base.world.Stands(k, AfterGet(k, at, Some(o)))
      modifies base.world`s, base.world`log, base.world`calm, base.world`failed
      ensures base.world.failed == (old(base.world.failed) || err.Some?)
      ensures base.world.Stands(k, Idle) && old(base.world.log) <= base.world.log
      ensures base.world.calm ==> old(base.world.calm) && err.None?
      ensures base.world.calm && Current(old(base.world.s.keys[k])) == Some(o) ==>
                Finalized(base.world.cfg, k, o, old(base.world.s.now), old(base.world.s.store),
                          Current(base.world.s.keys[k]), base.world.s.store)
    {
      var silence := o;
      if Protection in silence.fins {
        var released := base.Finalize(k, silence);
        if released.Err? {
          return Some(released.error);
        }
        silence := released.value;
      }
      var cleaned := CleanUpLegacyFinalizer(k, silence);
      if cleaned.Err? {
        return Some(cleaned.error);
      }
      assert cleaned.value.fins == o.fins - Ours(k);
      assert Operatorkit !in silence.fins ==> cleaned.value.fins == silence.fins;
      assert o.fins !! Ours(k) <==> Protection !in o.fins && Operatorkit !in o.fins by {
        assert Protection in Ours(k) && Operatorkit in Ours(k);
      }
      return None;
    }

    /** Adds the operator's own finalizer, then removes the legacy one. */
    method HandOver(k: Key, o: Obj, ghost at: nat) returns (r: Result<Obj, string>)
      requires base.service.alertmanager.world == base.world && k.V1Key? && !o.deleting
      requires base.world.Stands(k, AfterGet(k, at, Some(o)))
      modifies base.world`s, base.world`log, base.world`calm, base.world`failed
      ensures base.world.failed == (old(base.world.failed) || r.Err?)
      ensures base.world.Valid() && k in base.world.s.keys && old(base.world.log) <= base.world.log
      ensures r.Err? ==> base.world.Stands(k, Idle) && !base.world.calm
      ensures r.Ok? ==> r.value == o.(fins := ClaimedFins(k, o.fins)) && base.world.Stands(k, SyncStart(r.value))
      ensures base.world.calm ==>
                && old(base.world.calm) && r.Ok?
                && base.world.s.store == old(base.world.s.store) && base.world.s.now == old(base.world.s.now)
                && Becomes(old(base.world.s.keys[k].hist), base.world.s.keys[k].hist, o, r.value)
    {
      var claimed := base.EnsureFinalizer(k, o, at);
      if claimed.Err? {
        return Err(claimed.error);
      }
      r := CleanUpLegacyFinalizer(k, claimed.value);
      assert claimed.value.fins - {Operatorkit} == ClaimedFins(k, o.fins);
    }

    /** The branch for an object that is not. */
    method ReconcileLive(k: Key, o: Obj, ghost at: nat) returns (err: Option<string>)
      requires base.service.alertmanager.world == base.world && k.V1Key? && !o.deleting
      requires base.world.Stands(k, AfterGet(k, at, Some(o)))
      modifies base.world`s, base.world`log, base.world`calm, base.world`failed
      ensures Reports(base.world.cfg, k, o, old(base.world.failed), base.world.failed, err)
      ensures base.world.Stands(k, Idle) && old(base.world.log) <= base.world.log
      ensures base.world.calm ==>
                && old(base.world.calm)
                && Synced(base.world.cfg, k, o.cr, old(base.world.s.now), old(base.world.s.store),
                          base.world.s.store, err)
                && Becomes(old(base.world.s.keys[k].hist), base.world.s.keys[k].hist, o,
                           o.(fins := ClaimedFins(k, o.fins)))
    {
      var cleaned := HandOver(k, o, at);
      if cleaned.Err? {
        return Some(cleaned.error);
      }
      err := base.ReconcileCreate(k, cleaned.value);
    }

    method Reconcile(k: Key) returns (err: Option<string>)
      requires base.service.alertmanager.world == base.world && k.V1Key? && base.world.Stands(k, Idle)
      modifies base.world
      ensures match base.world.read
              case Some(o) => Reports(base.world.cfg, k, o, old(base.world.failed), base.world.failed, err)
              case None => base.world.failed == (old(base.world.failed) || err.Some?)
      ensures base.world.Stands(k, Idle) && old(base.world.log) <= base.world.log
      ensures base.world.calm ==>
                old(base.world.calm) && Reconciled(base.world.cfg, k, old(base.world.s), base.world.s, err)
    {
      var got := base.world.Get(k);
      if got.Err? {
        return Some(got.error);
      }
      if got.value.1.None? {
        return None;
      }
      var silence := got.value.1.value;
      if silence.deleting {
        err := ReconcileDeleting(k, silence, got.value.0);
      } else {
        err := ReconcileLive(k, silence, got.value.0);
      }
    }
  }

  // ---- What the executions inherit from the protocol ----

  /** Nothing the reconcilers do, nor anybody else, leaves an orphan, unless a misleading answer of Alertmanager
      hid that a silence is live. */
  lemma NoOrphanInAnyWorld(world: World)
    requires world.Valid() && HonestRun(world.cfg, world.start, world.log)
    ensures BaseInv(world.cfg, world.s) && SafeInv(world.cfg, world.s)
    ensures NoOrphan(world.cfg, world.s) && AtMostOneLive(world.cfg, world.s)
  {
    SafeOnEveryRun(world.cfg, world.start, world.log);
    NoOrphanOnEveryRun(world.cfg, world.start, world.log, world.s);
  }

  /** A calm reconcile is an update or a removal in the map from names to silences, and nothing else. */
  lemma ReconcileUpdatesTheMap(cfg: Cfg, k: Key, before: Sys, after: Sys, err: Option<string>, o: Obj)
    requires Conforms(cfg) && BaseInv(cfg, before) && SafeInv(cfg, before) && k in before.keys && k in after.keys
    requires |after.keys[k].hist| > 0 && Reconciled(cfg, k, before, after, err) && Current(before.keys[k]) == Some(o)
    ensures var name := Name(cfg.tenantOf(o.cr), cfg.commentOf(k));
            && (o.deleting && Protection in o.fins ==> Updated(before.store, after.store, before.now, name, None))
            && (!o.deleting && cfg.desired(k, o.cr).Ok? ==>
                  Updated(before.store, after.store, before.now, name, Some(cfg.desired(k, o.cr).value)))
            && (!o.deleting && cfg.desired(k, o.cr).Err? ==> after.store == before.store)
  {
    var tenant, comment := cfg.tenantOf(o.cr), cfg.commentOf(k);
    assert UniqueAt(before.store, before.now, Name(tenant, comment)) by {
      assert AtMostOneOf(cfg, k, before.now, before.store);
    }
    if o.deleting && Protection in o.fins {
      assert IsOperatorComment(cfg, comment);
      CalmDeleteUpdates(before.store, after.store, before.now, tenant, comment);
    } else if !o.deleting && cfg.desired(k, o.cr).Ok? {
      CalmSyncUpdates(before.store, after.store, before.now, tenant, cfg.desired(k, o.cr).value);
    }
  }
}
