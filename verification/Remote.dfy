/** The remote side of the controllers: the API server, its cache and Alertmanager, together with everybody
    else who acts on them. Every call first lets others act, then takes one step of the protocol or fails. */
module Remote {
  import opened Wrappers
  import opened Types
  import opened AlertStore
  import opened SyncPlan
  import opened Protocol
  import opened ProtocolSafety
  import opened Listing

  class World {
    const cfg: Cfg
    ghost const start: Sys
    var s: Sys
    /** All steps taken since the start. */
    ghost var log: seq<Label>
    /** No call has failed, no read was stale and nobody else has acted. */
    ghost var calm: bool
    /** A call of the worker has failed as far as it can tell: without an answer, or with one it does not accept. */
    ghost var failed: bool
    /** What the worker's last read has given. */
    ghost var read: Option<Obj>

    /** The state is the one the steps so far lead to. `BaseOnEveryRun` tells what else holds in it. */
    ghost predicate Valid()
      reads this
    {
      && Conforms(cfg) && Init(cfg, start) && Run(cfg, start, log) == Some(s)
      && forall k | k in s.keys :: s.keys[k].seen < |s.keys[k].hist|
    }

    /** The worker of a key is between calls, in this place of the protocol. */
    ghost predicate Stands(k: Key, pc: Pc)
      reads this
    {
      Valid() && k in s.keys && s.keys[k].pc == pc
    }

    constructor (cfg: Cfg, initial: Sys)
      requires Conforms(cfg) && Init(cfg, initial)
      ensures Valid() && s == initial && this.cfg == cfg && calm && !failed
    {
      this.cfg, s, start, log, calm, failed, read := cfg, initial, initial, [], true, false, None;
    }

    method Do(l: Label)
      requires Valid() && Enabled(cfg, s, l)
      modifies this`s, this`log
      ensures Valid() && s == Next(cfg, old(s), l) && log == old(log) + [l]
    {
      RunSnoc(cfg, start, log, l);
      BaseOnEveryRun(cfg, start, log + [l]);
      log := log + [l];
      s := Next(cfg, s, l);
    }

    /** Users, other workers, foreign clients and the clock take any number of steps. */
    method Others(k: Key)
      requires Valid() && k in s.keys
      modifies this`s, this`log, this`calm
      ensures Stands(k, old(s.keys[k].pc)) && old(log) <= log
      ensures calm ==> old(calm) && s == old(s)
    {
      var n: nat := *;
      while n > 0
        invariant Stands(k, old(s.keys[k].pc)) && old(log) <= log
        invariant calm ==> old(calm) && s == old(s)
      {
        var l: Label := *;
        if Enabled(cfg, s, l) && !(l.At? && l.key == k && IsWorker(l.act)) {
          Do(l);
          calm := false;
        }
        n := n - 1;
      }
    }

    /** The worker gives up: a call failed, or the process crashed. */
    method GiveUp(k: Key)
      requires Valid() && k in s.keys
      modifies this`s, this`log, this`calm, this`failed
      ensures Stands(k, Idle) && old(log) <= log && !calm && failed
    {
      Do(At(k, Abort));
      calm, failed := false, true;
    }

    // ---- The API server ----

    /** Reads an object from the cache, with its version. */
    method Get(k: Key) returns (r: Result<(nat, Option<Obj>), string>)
      requires Stands(k, Idle)
      modifies this
      ensures failed == (old(failed) || r.Err?) && read == if r.Ok? then r.value.1 else None
      ensures Valid() && k in s.keys && old(log) <= log && (calm ==> old(calm) && r.Ok?)
      ensures r.Err? ==> Stands(k, Idle)
      ensures r.Ok? ==> Stands(k, AfterGet(k, r.value.0, r.value.1))
      ensures calm ==> s.store == old(s.store) && s.now == old(s.now) && s.keys[k].hist == old(s.keys[k].hist)
                       && r.value.0 == |s.keys[k].hist| - 1 && r.value.1 == Current(s.keys[k])
    {
      Others(k);
      var i: nat := *;
      var ks := s.keys[k];
      if ks.seen <= i < |ks.hist| {
        Do(At(k, Act.Get(i)));
        if i != |ks.hist| - 1 {
          calm := false;
        }
        read := ks.hist[i];
        return Ok((i, ks.hist[i]));
      }
      GiveUp(k);
      read := None;
      return Err("failed to get the object");
    }

    /** Writes an object back; the version it was read at must still be the current one. */
    method Update(k: Key, o: Obj) returns (r: Result<nat, string>)
      requires Valid() && k in s.keys && Updating(s.keys[k].pc) && o == Target(s.keys[k].pc)
      modifies this`s, this`log, this`calm, this`failed
      ensures Valid() && k in s.keys && old(log) <= log
      ensures failed == (old(failed) || r.Err?)
      ensures r.Err? ==> Stands(k, Idle) && !calm
      ensures r.Ok? ==> Stands(k, AfterUpdate(k, old(s.keys[k].pc), r.value))
      ensures calm ==> old(calm) && s.store == old(s.store) && s.now == old(s.now)
                       && s.keys[k].hist == old(s.keys[k].hist) + [Stored(o)] && r.value == |old(s.keys[k].hist)|
      ensures calm ==> old(s.keys[k].pc.at == |s.keys[k].hist| - 1)
    {
      Others(k);
      var ks := s.keys[k];
      var lost: bool := *;
      if ks.pc.at == |ks.hist| - 1 && Current(ks) == Some(ks.pc.o) {
        Do(At(k, UpdateObj(lost)));
        if !lost {
          return Ok(|ks.hist|);
        }
        calm, failed := false, true;
        return Err("no answer to the update");
      }
      GiveUp(k);
      return Err("the object has been modified");
    }

    /** Reads the clock. Time passes between calls, so this is a step too. */
    method Now(k: Key) returns (now: int)
      requires Valid() && k in s.keys && s.keys[k].pc.SyncStart? && cfg.desired(k, s.keys[k].pc.o.cr).Ok?
      modifies this`s, this`log, this`calm
      ensures Stands(k, SyncList(old(s.keys[k].pc.o), now, cfg.desired(k, old(s.keys[k].pc.o.cr)).value))
      ensures old(log) <= log
      ensures calm ==> old(calm) && s.store == old(s.store) && s.now == now == old(s.now)
                       && s.keys[k].hist == old(s.keys[k].hist)
    {
      Others(k);
      now := s.now;
      Do(At(k, Begin));
    }

    /** The object asks for nothing Alertmanager could be given; the worker stops without a call. */
    method Reject(k: Key)
      requires Valid() && k in s.keys && s.keys[k].pc.SyncStart? && cfg.desired(k, s.keys[k].pc.o.cr).Err?
      modifies this`s, this`log
      ensures Stands(k, Idle) && old(log) <= log
      ensures s.store == old(s.store) && s.now == old(s.now) && s.keys[k].hist == old(s.keys[k].hist)
    {
      Do(At(k, Begin));
    }

    // ---- Alertmanager ----

    /** GET of all silences of a tenant. A refusal that comes with an empty list is not told from the truth. */
    method HttpGet(k: Key, tenant: string) returns (r: Result<seq<Listed>, string>)
      requires Valid() && k in s.keys && (s.keys[k].pc.SyncList? || s.keys[k].pc.DelList?)
      requires tenant == cfg.tenantOf(s.keys[k].pc.o.cr)
      modifies this`s, this`log, this`calm, this`failed
      ensures Valid() && k in s.keys && old(log) <= log
      ensures failed == (old(failed) || r.Err?)
      ensures r.Err? ==> Stands(k, Idle) && !calm
      ensures r.Ok? ==> IsListing(s.store, s.now, tenant, r.value) || (r.value == [] && !calm)
      ensures r.Ok? && old(s.keys[k].pc.SyncList?) ==>
                var o, asOf, want := old(s.keys[k].pc.o), old(s.keys[k].pc.asOf), old(s.keys[k].pc.want);
                var w := Plan(ExistingOf(FirstMatch(NotExpired(r.value), want.comment, false)), want, asOf);
                Stands(k, if w.Nothing? then Idle else SyncWrite(o, want, w))
      ensures r.Ok? && old(s.keys[k].pc.DelList?) ==>
                var at, o := old(s.keys[k].pc.at), old(s.keys[k].pc.o);
                var found := FirstMatch(NotExpired(r.value), cfg.commentOf(k), true);
                Stands(k, if found.Some? then DelWrite(at, o, found.value.id) else RemoveFin(at, o))
      ensures calm ==> old(calm) && s.store == old(s.store) && s.now == old(s.now)
                       && s.keys[k].hist == old(s.keys[k].hist)
    {
      Others(k);
      var resp: seq<Listed>, refused: bool := *, *;
      if refused {
        Do(At(k, HttpMissed));
        calm := false;
        return Ok([]);
      }
      if IsListing(s.store, s.now, tenant, resp) {
        var pc := s.keys[k].pc;
        var comment := if pc.SyncList? then pc.want.comment else cfg.commentOf(k);
        FilteredListingAnswers(s.store, s.now, tenant, resp);
        assert AnswersFor(s.store, s.now, tenant, NotExpired(resp), comment);
        Do(At(k, HttpList(IdOf(FirstMatch(NotExpired(resp), comment, pc.DelList?)))));
        return Ok(resp);
      }
      GiveUp(k);
      return Err("failed to list silences");
    }

    /** POST of a silence, with the ID of the one it takes the place of or an empty one. */
    method HttpPost(k: Key, tenant: string, id: string, silence: Silence) returns (err: Option<string>)
      requires Valid() && k in s.keys && s.keys[k].pc.SyncWrite?
      requires var pc := s.keys[k].pc;
               && tenant == cfg.tenantOf(pc.o.cr) && silence == pc.want
               && ((pc.write == Create && id == "") || (pc.write == Write.Update(id) && id != ""))
      modifies this`s, this`log, this`calm, this`failed
      ensures Stands(k, Idle) && old(log) <= log && (err.Some? ==> !calm)
      ensures failed == (old(failed) || err.Some?)
      ensures calm ==> old(calm) && s.now == old(s.now) && s.keys[k].hist == old(s.keys[k].hist)
      ensures calm ==> Executed(old(s.store), s.store, tenant, silence, old(s.keys[k].pc.write))
    {
      Others(k);
      var newId: string, answered: bool := *, *;
      if Available(s.store, Slot(tenant, newId), silence.comment) {
        ghost var st := s.store;
        Do(At(k, Act.HttpPost(newId)));
        assert ExecutedAs(st, s.store, tenant, silence, old(s.keys[k].pc.write), newId);
        if answered {
          return None;
        }
        calm, failed := false, true;
        return Some("no answer to the POST");
      }
      GiveUp(k);
      return Some("failed to create/update silence");
    }

    /** DELETE of a silence by ID. `Err` is a failure of the transport; otherwise the status code. */
    method HttpDelete(k: Key, tenant: string, id: string) returns (r: Result<int, string>)
      requires Valid() && k in s.keys
      requires var pc := s.keys[k].pc;
               && ((pc.SyncWrite? && pc.write == Delete(id)) || (pc.DelWrite? && pc.id == id))
               && tenant == cfg.tenantOf(pc.o.cr)
      modifies this`s, this`log, this`calm, this`failed
      ensures Valid() && k in s.keys && old(log) <= log
      ensures failed == (old(failed) || r.Err?)
      ensures r.Err? ==> Stands(k, Idle) && !calm
      ensures r.Ok? ==> var pc := old(s.keys[k].pc);
                        Stands(k, if pc.DelWrite? then RemoveFin(pc.at, pc.o) else Idle)
      ensures calm ==> old(calm) && s.store == Drop(old(s.store), Slot(tenant, id)) && s.now == old(s.now)
                       && s.keys[k].hist == old(s.keys[k].hist)
    {
      Others(k);
      var outcome: Answer, code: int := *, *;
      if outcome.Swallowed? && code == 200 {
        GiveUp(k);
        return Err("no connection for the DELETE");
      }
      Do(At(k, Act.HttpDelete(outcome)));
      if outcome.Done? {
        return Ok(200);
      }
      calm := false;
      if outcome.Swallowed? {
        return Ok(code);
      }
      failed := true;
      return Err("no answer to the DELETE");
    }
  }
}
