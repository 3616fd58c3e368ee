/** Every sync of every run settles the map from names to silences, however the calls of others, the clock and the
    removal of silences interleave with its own. */
module Settling {
  import opened Wrappers
  import opened Types
  import opened AlertStore
  import opened SyncRefinement
  import opened Protocol
  import opened ProtocolSafety
  import opened Finalization

  /** The worker looked at the clock before now, and deletes only what is over. */
  predicate ClockSeen(ks: KeyState, now: int) {
    && (ks.pc.SyncList? ==> ks.pc.asOf <= now)
    && (ks.pc.SyncWrite? && ks.pc.write.Delete? ==> ks.pc.want.endsAt <= now)
  }

  lemma {:induction false} ClockSeenOnEveryRun(cfg: Cfg, s: Sys, k: Key, ls: seq<Label>)
    requires k in s.keys && ClockSeen(s.keys[k], s.now) && Run(cfg, s, ls).Some?
    ensures k in Run(cfg, s, ls).value.keys && ClockSeen(Run(cfg, s, ls).value.keys[k], Run(cfg, s, ls).value.now)
  {
    if ls != [] {
      ClockSeenOnEveryRun(cfg, s, k, ls[..|ls| - 1]);
    }
  }

  /** The name holds what was asked for: one silence with these matchers and this end while it lasts, and nothing
      afterwards; no other tenant has a silence under the comment. */
  ghost predicate Settles(st: Store, now: int, tenant: string, want: Silence) {
    forall at, n: Name | now <= at && n.comment == want.comment ::
      if n.tenant == tenant && Live(at, want) then
        View(st, at, n) != {} && View(st, at, n) == Alike(View(st, at, n), want)
      else View(st, at, n) == {}
  }

  lemma NothingLive(st: Store, now: int, comment: string, at: int, n: Name)
    requires NoneLive(st, now, comment) && now <= at && n.comment == comment
    ensures View(st, at, n) == {}
  {
    assert forall x | Holds(st, at, x, comment) :: Holds(st, now, x, comment);
  }

  lemma OnlyOneLive(st: Store, now: int, x: Slot, comment: string, at: int, n: Name)
    requires x in st.entries && st.entries[x].comment == comment && OnlyAt(st, now, comment, x)
    requires now <= at && n.comment == comment
    ensures View(st, at, n) ==
            if n.tenant == x.tenant && Live(at, st.entries[x]) then {EffectOf(st.entries[x])} else {}
  {
    assert forall y | Holds(st, at, y, comment) :: Holds(st, now, y, comment);
    if n.tenant == x.tenant && Live(at, st.entries[x]) {
      assert EffectOf(st.entries[x]) in View(st, at, n);
    }
  }

  /** A store with one silence under a comment, which is the one asked for, or alike. */
  lemma OneSettles(st: Store, now: int, x: Slot, want: Silence)
    requires x in st.entries && st.entries[x].comment == want.comment && OnlyAt(st, now, want.comment, x)
    requires st.entries[x].matchers == want.matchers && st.entries[x].endsAt == want.endsAt
    ensures Settles(st, now, x.tenant, want)
  {
    forall at, n: Name | now <= at && n.comment == want.comment
      ensures if n.tenant == x.tenant && Live(at, want)
              then View(st, at, n) != {} && View(st, at, n) == Alike(View(st, at, n), want)
              else View(st, at, n) == {}
    {
      OnlyOneLive(st, now, x, want.comment, at, n);
      AlikeOne(EffectOf(st.entries[x]), want);
      assert EffectOf(st.entries[x]) in {EffectOf(st.entries[x])};
    }
  }

  lemma NoneSettles(st: Store, now: int, tenant: string, want: Silence)
    requires NoneLive(st, now, want.comment) && want.endsAt <= now
    ensures Settles(st, now, tenant, want)
  {
    forall at, n: Name | now <= at && n.comment == want.comment ensures View(st, at, n) == {} {
      NothingLive(st, now, want.comment, at, n);
    }
  }

  /** The last step of a sync of the key, in any safe state, settles what the sync asked for. */
  lemma EverySyncSettles(cfg: Cfg, s: Sys, k: Key, a: Act)
    requires Conforms(cfg) && BaseInv(cfg, s) && k in s.keys && Safe(cfg, k, s.now, s.keys[k], s.store)
    requires (s.keys[k].pc.SyncList? || s.keys[k].pc.SyncWrite?) && ClockSeen(s.keys[k], s.now)
    requires Smooth(a) && Enabled(cfg, s, At(k, a))
    requires Next(cfg, s, At(k, a)).keys[k].pc.Idle?
    ensures Settles(Next(cfg, s, At(k, a)).store, s.now, cfg.tenantOf(s.keys[k].pc.o.cr), s.keys[k].pc.want)
  {
    var ks, tenant, want := s.keys[k], cfg.tenantOf(s.keys[k].pc.o.cr), s.keys[k].pc.want;
    var st' := Next(cfg, s, At(k, a)).store;
    match a
    case HttpList(found) =>
      if found.Some? {
        OneSettles(s.store, s.now, Slot(tenant, found.value), want);
      } else {
        assert forall x | Holds(s.store, s.now, x, want.comment) :: Protected(cfg, ks, x.tenant);
        NoneSettles(st', s.now, tenant, want);
      }
    case HttpPost(newId) =>
      forall y | Holds(st', s.now, y, want.comment) ensures y == Slot(tenant, newId) {
        assert y != Slot(tenant, newId) ==> Holds(s.store, s.now, y, want.comment);
      }
      OneSettles(st', s.now, Slot(tenant, newId), want);
    case HttpDelete(_) =>
      assert forall y | Holds(st', s.now, y, want.comment) :: Holds(s.store, s.now, y, want.comment);
      NoneSettles(st', s.now, tenant, want);
  }

  /** Whenever a sync of the key comes to its end without a failure, in any run in which the key's own answers are
      honest, the map holds exactly what that sync asked for. */
  lemma SyncsSettleOnEveryRun(cfg: Cfg, s0: Sys, ls: seq<Label>, s: Sys, k: Key, a: Act)
    requires Conforms(cfg) && Init(cfg, s0) && Run(cfg, s0, ls) == Some(s)
    requires k in s0.keys && HonestRunOf(cfg, s0, k, ls)
    requires k in s.keys && (s.keys[k].pc.SyncList? || s.keys[k].pc.SyncWrite?)
    requires Smooth(a) && Enabled(cfg, s, At(k, a)) && Next(cfg, s, At(k, a)).keys[k].pc.Idle?
    ensures Settles(Next(cfg, s, At(k, a)).store, s.now, cfg.tenantOf(s.keys[k].pc.o.cr), s.keys[k].pc.want)
  {
    KeySafeOnEveryRun(cfg, s0, k, ls);
    ClockSeenOnEveryRun(cfg, s0, k, ls);
    EverySyncSettles(cfg, s, k, a);
  }
}
