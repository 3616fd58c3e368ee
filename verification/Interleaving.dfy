/** Reconciles of different objects share one service and one Alertmanager, call by call. Every interleaving
    of them ends in the state some serial order ends in, and a tenant's store only changes through objects
    that resolve to it. */
module Interleaving {
  import opened Wrappers
  import opened Types
  import opened AlertStore
  import opened Protocol
  import opened ProtocolSafety

  // ---- Two steps of different keys commute ----

  /** The slots a step empties, and those it fills. */
  function Drops(cfg: Cfg, ks: KeyState, a: Act): set<Slot> {
    if a.HttpPost? && ks.pc.SyncWrite? && ks.pc.write.Update? then {Slot(cfg.tenantOf(ks.pc.o.cr), ks.pc.write.id)}
    else if a.HttpDelete? && !a.answer.Swallowed? && ks.pc.DelWrite? then {Slot(cfg.tenantOf(ks.pc.o.cr), ks.pc.id)}
    else if a.HttpDelete? && !a.answer.Swallowed? && ks.pc.SyncWrite? && ks.pc.write.Delete? then
      {Slot(cfg.tenantOf(ks.pc.o.cr), ks.pc.write.id)}
    else {}
  }

  function Puts(cfg: Cfg, ks: KeyState, a: Act): map<Slot, Silence> {
    if a.HttpPost? && ks.pc.SyncWrite? then map[Slot(cfg.tenantOf(ks.pc.o.cr), a.newId) := ks.pc.want] else map[]
  }

  function Apply(st: Store, drops: set<Slot>, puts: map<Slot, Silence>): Store {
    Store(st.entries - drops + puts, st.owner + OwnersOf(puts))
  }

  lemma StoreAsEdit(cfg: Cfg, k: Key, now: int, ks: KeyState, st: Store, a: Act)
    requires |ks.hist| > 0 && ActEnabled(cfg, k, now, ks, st, a)
    ensures NextStore(cfg, k, now, ks, st, a) == Apply(st, Drops(cfg, ks, a), Puts(cfg, ks, a))
  {
    var st', drops, puts := NextStore(cfg, k, now, ks, st, a), Drops(cfg, ks, a), Puts(cfg, ks, a);
    if a.HttpPost? {
      var x := Slot(cfg.tenantOf(ks.pc.o.cr), a.newId);
      assert puts == map[x := ks.pc.want] && OwnersOf(puts) == map[x := ks.pc.want.comment];
      assert st'.entries == st.entries - drops + puts;
      assert st'.owner == st.owner + OwnersOf(puts);
    } else {
      assert puts == map[] && OwnersOf(puts) == map[];
      assert st.owner + map[] == st.owner && st'.entries == st.entries - drops + map[];
    }
  }

  function OwnersOf(puts: map<Slot, Silence>): map<Slot, string> {
    map x | x in puts :: puts[x].comment
  }

  lemma MapEditsCommute<K, V>(m: map<K, V>, d1: set<K>, p1: map<K, V>, d2: set<K>, p2: map<K, V>)
    requires (d1 + p1.Keys) !! (d2 + p2.Keys)
    ensures m - d1 + p1 - d2 + p2 == m - d2 + p2 - d1 + p1
  {
  }

  lemma EditsCommute(st: Store, d1: set<Slot>, p1: map<Slot, Silence>, d2: set<Slot>, p2: map<Slot, Silence>)
    requires (d1 + p1.Keys) !! (d2 + p2.Keys)
    ensures Apply(Apply(st, d1, p1), d2, p2) == Apply(Apply(st, d2, p2), d1, p1)
  {
    MapEditsCommute(st.entries, d1, p1, d2, p2);
    var o1, o2 := OwnersOf(p1), OwnersOf(p2);
    assert o1.Keys == p1.Keys && o2.Keys == p2.Keys;
    assert st.owner + o1 + o2 == st.owner + o2 + o1;
  }

  /** The two stores agree on everything that concerns the comment in one tenant. */
  ghost predicate SameIn(st: Store, st': Store, tenant: string, comment: string) {
    && (forall x: Slot | x.tenant == tenant && x in st.entries && st.entries[x].comment == comment ::
          x in st'.entries && st'.entries[x] == st.entries[x])
    && (forall x: Slot | x.tenant == tenant && x in st'.entries && st'.entries[x].comment == comment ::
          x in st.entries && st'.entries[x] == st.entries[x])
  }

  /** The tenant whose store the worker uses; without meaning between reconciles. */
  function WorksIn(cfg: Cfg, ks: KeyState): string {
    if ks.pc.Idle? then "" else cfg.tenantOf(ks.pc.o.cr)
  }

  ghost predicate SameTenantStore(st: Store, st': Store, tenant: string) {
    forall x: Slot | x.tenant == tenant ::
      (x in st.entries <==> x in st'.entries) && (x in st.entries ==> st'.entries[x] == st.entries[x])
  }

  /** A step of a key changes the store of one tenant at most: that of the object version it works on; between
      reconciles none. */
  lemma StepStaysInTenant(cfg: Cfg, k: Key, now: int, ks: KeyState, st: Store, a: Act, tenant: string)
    requires |ks.hist| > 0 && ActEnabled(cfg, k, now, ks, st, a)
    requires ks.pc.Idle? || tenant != WorksIn(cfg, ks)
    ensures SameTenantStore(st, NextStore(cfg, k, now, ks, st, a), tenant)
  {
  }

  /** Stores that agree on the comment everywhere, or on all of the tenant's store. */
  lemma SameInByFrame(st: Store, st': Store, tenant: string, comment: string)
    requires SameFor(st, st', comment) || SameTenantStore(st, st', tenant)
    ensures SameIn(st, st', tenant, comment) && SameIn(st', st, tenant, comment)
  {
  }

  /** A step of one key sees no more of the store than its own comment in its own tenant and the slots still
      free there. */
  lemma LocalStep(cfg: Cfg, k: Key, now: int, ks: KeyState, st: Store, st': Store, a: Act)
    requires k in cfg.keys && Base(cfg, k, ks, st) && OwnStore(cfg, st) && OwnStore(cfg, st')
    requires ActEnabled(cfg, k, now, ks, st, a)
    requires ks.pc.Idle? || SameIn(st, st', WorksIn(cfg, ks), cfg.commentOf(k))
    requires a.HttpPost? ==> Available(st', Slot(WorksIn(cfg, ks), a.newId), cfg.commentOf(k))
    ensures ActEnabled(cfg, k, now, ks, st', a)
    ensures NextKey(cfg, k, now, ks, st', a) == NextKey(cfg, k, now, ks, st, a)
  {
  }

  /** The slots a step touches were the key's own or free before, and are its own afterwards. */
  lemma TouchedSlots(cfg: Cfg, k: Key, now: int, ks: KeyState, st: Store, a: Act, x: Slot)
    requires k in cfg.keys && Base(cfg, k, ks, st) && ActEnabled(cfg, k, now, ks, st, a)
    requires x in Drops(cfg, ks, a) + Puts(cfg, ks, a).Keys
    ensures !ks.pc.Idle? && x.tenant == WorksIn(cfg, ks)
    ensures Available(st, x, cfg.commentOf(k)) && OwnedBy(NextStore(cfg, k, now, ks, st, a), x, cfg.commentOf(k))
  {
  }

  /** The workers use different comments or different tenants, or one of them does not use the store. */
  predicate Apart(cfg: Cfg, k1: Key, ks1: KeyState, k2: Key, ks2: KeyState) {
    || cfg.commentOf(k1) != cfg.commentOf(k2)
    || ks1.pc.Idle? || ks2.pc.Idle?
    || WorksIn(cfg, ks1) != WorksIn(cfg, ks2)
  }

  /** A step changes nothing that concerns a worker apart. */
  lemma StepLeavesAlone(cfg: Cfg, k: Key, now: int, ks: KeyState, st: Store, a: Act, k2: Key, ks2: KeyState)
    requires Tagged(cfg) && k in cfg.keys && OwnStore(cfg, st) && Base(cfg, k, ks, st)
    requires ActEnabled(cfg, k, now, ks, st, a) && Apart(cfg, k, ks, k2, ks2)
    ensures ks2.pc.Idle? || SameIn(st, NextStore(cfg, k, now, ks, st, a), WorksIn(cfg, ks2), cfg.commentOf(k2))
  {
    var st' := NextStore(cfg, k, now, ks, st, a);
    if cfg.commentOf(k) != cfg.commentOf(k2) {
      StoreStep(cfg, k, now, ks, st, a);
      SameInByFrame(st, st', WorksIn(cfg, ks2), cfg.commentOf(k2));
    } else if !ks2.pc.Idle? {
      StepStaysInTenant(cfg, k, now, ks, st, a, WorksIn(cfg, ks2));
      SameInByFrame(st, st', WorksIn(cfg, ks2), cfg.commentOf(k2));
    }
  }

  /** A slot one key can use after the step of a key apart is none that step touched. */
  lemma UsableUntouched(cfg: Cfg, k: Key, now: int, ks: KeyState, st: Store, a: Act, k2: Key, ks2: KeyState, x: Slot)
    requires k in cfg.keys && Base(cfg, k, ks, st) && ActEnabled(cfg, k, now, ks, st, a)
    requires Apart(cfg, k, ks, k2, ks2) && !ks2.pc.Idle? && x.tenant == WorksIn(cfg, ks2)
    requires Available(NextStore(cfg, k, now, ks, st, a), x, cfg.commentOf(k2))
    ensures x !in Drops(cfg, ks, a) + Puts(cfg, ks, a).Keys && Available(st, x, cfg.commentOf(k2))
  {
  }

  /** What one key could store into, it still can after another key stored elsewhere. */
  lemma AvailableAfter(cfg: Cfg, k: Key, now: int, ks: KeyState, st: Store, a: Act, x: Slot, comment: string)
    requires k in cfg.keys && Base(cfg, k, ks, st) && ActEnabled(cfg, k, now, ks, st, a)
    requires x !in Puts(cfg, ks, a).Keys && Available(st, x, comment)
    ensures Available(NextStore(cfg, k, now, ks, st, a), x, comment)
  {
  }

  /** The store-level half: a step of `k2` after one of `k1` could have come first, with the same effect. */
  lemma KeysCommute(cfg: Cfg, now: int, st: Store, k1: Key, ks1: KeyState, a1: Act, k2: Key, ks2: KeyState, a2: Act)
    requires Tagged(cfg) && k1 in cfg.keys && k2 in cfg.keys && Apart(cfg, k1, ks1, k2, ks2) && OwnStore(cfg, st)
    requires Base(cfg, k1, ks1, st) && Base(cfg, k2, ks2, st)
    requires ActEnabled(cfg, k1, now, ks1, st, a1)
    requires ActEnabled(cfg, k2, now, ks2, NextStore(cfg, k1, now, ks1, st, a1), a2)
    ensures ActEnabled(cfg, k2, now, ks2, st, a2)
    ensures var st1, st2 := NextStore(cfg, k1, now, ks1, st, a1), NextStore(cfg, k2, now, ks2, st, a2);
            && NextKey(cfg, k2, now, ks2, st, a2) == NextKey(cfg, k2, now, ks2, st1, a2)
            && ActEnabled(cfg, k1, now, ks1, st2, a1)
            && NextKey(cfg, k1, now, ks1, st2, a1) == NextKey(cfg, k1, now, ks1, st, a1)
            && NextStore(cfg, k2, now, ks2, st1, a2) == NextStore(cfg, k1, now, ks1, st2, a1)
  {
    var st1 := NextStore(cfg, k1, now, ks1, st, a1);
    StoreStep(cfg, k1, now, ks1, st, a1);
    OtherBase(cfg, k2, ks2, st, st1);
    StepLeavesAlone(cfg, k1, now, ks1, st, a1, k2, ks2);
    SlotsDiffer(cfg, now, st, k1, ks1, a1, k2, ks2, a2);
    LocalStep(cfg, k2, now, ks2, st1, st, a2);
    var st2 := NextStore(cfg, k2, now, ks2, st, a2);
    StoreStep(cfg, k2, now, ks2, st, a2);
    StepLeavesAlone(cfg, k2, now, ks2, st, a2, k1, ks1);
    if a1.HttpPost? {
      AvailableAfter(cfg, k2, now, ks2, st, a2, Slot(WorksIn(cfg, ks1), a1.newId), cfg.commentOf(k1));
    }
    LocalStep(cfg, k1, now, ks1, st, st2, a1);
    StoresCommute(cfg, now, st, k1, ks1, a1, k2, ks2, a2);
  }

  lemma StoresCommute(cfg: Cfg, now: int, st: Store, k1: Key, ks1: KeyState, a1: Act, k2: Key, ks2: KeyState, a2: Act)
    requires |ks1.hist| > 0 && |ks2.hist| > 0
    requires ActEnabled(cfg, k1, now, ks1, st, a1) && ActEnabled(cfg, k2, now, ks2, st, a2)
    requires ActEnabled(cfg, k2, now, ks2, NextStore(cfg, k1, now, ks1, st, a1), a2)
    requires ActEnabled(cfg, k1, now, ks1, NextStore(cfg, k2, now, ks2, st, a2), a1)
    requires (Drops(cfg, ks1, a1) + Puts(cfg, ks1, a1).Keys) !! (Drops(cfg, ks2, a2) + Puts(cfg, ks2, a2).Keys)
    ensures NextStore(cfg, k2, now, ks2, NextStore(cfg, k1, now, ks1, st, a1), a2) ==
            NextStore(cfg, k1, now, ks1, NextStore(cfg, k2, now, ks2, st, a2), a1)
  {
    StoreAsEdit(cfg, k1, now, ks1, st, a1);
    StoreAsEdit(cfg, k2, now, ks2, st, a2);
    StoreAsEdit(cfg, k1, now, ks1, NextStore(cfg, k2, now, ks2, st, a2), a1);
    StoreAsEdit(cfg, k2, now, ks2, NextStore(cfg, k1, now, ks1, st, a1), a2);
    EditsCommute(st, Drops(cfg, ks1, a1), Puts(cfg, ks1, a1), Drops(cfg, ks2, a2), Puts(cfg, ks2, a2));
  }

  /** The two steps touch different slots, and the second could have stored into its own before. */
  lemma SlotsDiffer(cfg: Cfg, now: int, st: Store, k1: Key, ks1: KeyState, a1: Act, k2: Key, ks2: KeyState, a2: Act)
    requires Tagged(cfg) && k1 in cfg.keys && k2 in cfg.keys && Apart(cfg, k1, ks1, k2, ks2) && OwnStore(cfg, st)
    requires Base(cfg, k1, ks1, st) && ActEnabled(cfg, k1, now, ks1, st, a1)
    requires var st1 := NextStore(cfg, k1, now, ks1, st, a1);
             Base(cfg, k2, ks2, st1) && ActEnabled(cfg, k2, now, ks2, st1, a2)
    ensures (Drops(cfg, ks1, a1) + Puts(cfg, ks1, a1).Keys) !! (Drops(cfg, ks2, a2) + Puts(cfg, ks2, a2).Keys)
    ensures a2.HttpPost? ==> Available(st, Slot(WorksIn(cfg, ks2), a2.newId), cfg.commentOf(k2))
  {
    forall x | x in Drops(cfg, ks2, a2) + Puts(cfg, ks2, a2).Keys
      ensures x !in Drops(cfg, ks1, a1) + Puts(cfg, ks1, a1).Keys && Available(st, x, cfg.commentOf(k2))
    {
      TouchedSlots(cfg, k2, now, ks2, NextStore(cfg, k1, now, ks1, st, a1), a2, x);
      UsableUntouched(cfg, k1, now, ks1, st, a1, k2, ks2, x);
    }
    if a2.HttpPost? {
      assert Slot(WorksIn(cfg, ks2), a2.newId) in Drops(cfg, ks2, a2) + Puts(cfg, ks2, a2).Keys;
    }
  }

  lemma StepsCommute(cfg: Cfg, s: Sys, k1: Key, a1: Act, k2: Key, a2: Act)
    requires Tagged(cfg) && BaseInv(cfg, s) && k1 != k2
    requires k1 in s.keys && k2 in s.keys && Apart(cfg, k1, s.keys[k1], k2, s.keys[k2])
    requires Enabled(cfg, s, At(k1, a1)) && Enabled(cfg, Next(cfg, s, At(k1, a1)), At(k2, a2))
    ensures Enabled(cfg, s, At(k2, a2)) && Enabled(cfg, Next(cfg, s, At(k2, a2)), At(k1, a1))
    ensures Next(cfg, Next(cfg, s, At(k1, a1)), At(k2, a2)) == Next(cfg, Next(cfg, s, At(k2, a2)), At(k1, a1))
  {
    KeysCommute(cfg, s.now, s.store, k1, s.keys[k1], a1, k2, s.keys[k2], a2);
    var ks1' := NextKey(cfg, k1, s.now, s.keys[k1], s.store, a1);
    var ks2' := NextKey(cfg, k2, s.now, s.keys[k2], s.store, a2);
    assert s.keys[k1 := ks1'][k2 := ks2'] == s.keys[k2 := ks2'][k1 := ks1'];
  }

  // ---- Keys that share a comment live in different tenants ----

  predicate Shared(cfg: Cfg, k: Key) {
    exists k' | k' in cfg.keys && k' != k :: cfg.commentOf(k') == cfg.commentOf(k)
  }

  /** Keys with the same comment have different homes. With distinct comments this asks for nothing. */
  ghost predicate HomesDiffer(cfg: Cfg, home: Key -> string) {
    forall k, k' | k in cfg.keys && k' in cfg.keys && k != k' && cfg.commentOf(k) == cfg.commentOf(k') ::
      home(k) != home(k')
  }

  /** Every version of an object whose comment is shared resolves to its key's home. */
  ghost predicate AtHome(cfg: Cfg, home: Key -> string, s: Sys) {
    forall k, o | k in s.keys && Shared(cfg, k) && Some(o) in s.keys[k].hist :: cfg.tenantOf(o.cr) == home(k)
  }

  ghost predicate Homely(cfg: Cfg, home: Key -> string, l: Label) {
    l.At? && Shared(cfg, l.key) && l.act.UserCreate? ==> cfg.tenantOf(l.act.o.cr) == home(l.key)
  }

  /** What the serializability of a run starts from. */
  ghost predicate Ready(cfg: Cfg, home: Key -> string, s: Sys) {
    Tagged(cfg) && BaseInv(cfg, s) && HomesDiffer(cfg, home) && AtHome(cfg, home, s)
  }

  ghost predicate StaysHome(cfg: Cfg, home: Key -> string, ls: seq<Label>) {
    forall l | l in ls :: Homely(cfg, home, l)
  }

  /** With distinct comments everything is at home anywhere. */
  lemma DistinctCommentsNeedNoHome(cfg: Cfg, home: Key -> string, s: Sys, ls: seq<Label>)
    requires Conforms(cfg) && BaseInv(cfg, s) && Run(cfg, s, ls).Some?
    ensures Ready(cfg, home, s) && StaysHome(cfg, home, ls)
  {
    forall l | l in ls && l.At? ensures l.key in cfg.keys {
      StepsAreOfKeys(cfg, s, ls, l);
    }
  }

  lemma {:induction false} StepsAreOfKeys(cfg: Cfg, s: Sys, ls: seq<Label>, l: Label)
    requires Tagged(cfg) && BaseInv(cfg, s) && Run(cfg, s, ls).Some? && l in ls && l.At?
    ensures l.key in cfg.keys
  {
    var before := ls[..|ls| - 1];
    BaseAlongRun(cfg, s, before);
    if l != ls[|ls| - 1] {
      StepsAreOfKeys(cfg, s, before, l);
    }
  }

  lemma HomeIsApart(cfg: Cfg, home: Key -> string, s: Sys, k1: Key, k2: Key)
    requires Ready(cfg, home, s) && k1 in s.keys && k2 in s.keys && k1 != k2
    ensures Apart(cfg, k1, s.keys[k1], k2, s.keys[k2])
  {
    if cfg.commentOf(k1) == cfg.commentOf(k2) && !s.keys[k1].pc.Idle? && !s.keys[k2].pc.Idle? {
      WorkersObject(cfg, k1, s.keys[k1], s.store);
      WorkersObject(cfg, k2, s.keys[k2], s.store);
    }
  }

  /** The object a worker works on is a version the API server once stored. */
  lemma WorkersObject(cfg: Cfg, k: Key, ks: KeyState, st: Store)
    requires Base(cfg, k, ks, st) && !ks.pc.Idle?
    ensures Some(ks.pc.o) in ks.hist
  {
  }

  lemma HomeStep(cfg: Cfg, home: Key -> string, s: Sys, l: Label)
    requires Ready(cfg, home, s) && Enabled(cfg, s, l) && Homely(cfg, home, l)
    ensures Ready(cfg, home, Next(cfg, s, l))
  {
    BaseInvStep(cfg, s, l);
    if l.At? && Shared(cfg, l.key) {
      var ks := s.keys[l.key];
      var ks' := NextKey(cfg, l.key, s.now, ks, s.store, l.act);
      if l.act.UpdateObj? {
        assert ks.hist[|ks.hist| - 1] == Some(ks.pc.o);
      }
      forall o | Some(o) in ks'.hist ensures cfg.tenantOf(o.cr) == home(l.key) {
        if Some(o) !in ks.hist {
          assert ks'.hist == ks.hist + [Some(o)];
          assert Current(ks).Some? ==> Current(ks) in ks.hist;
        }
      }
    }
  }

  // ---- Whole runs are serializable ----

  predicate OfKeys(ls: seq<Label>) {
    forall l | l in ls :: l.At?
  }

  /** The steps of one key, in their order. */
  function Only(k: Key, ls: seq<Label>): (r: seq<Label>)
    ensures OfKeys(r) && forall l | l in r :: l in ls
  {
    if ls == [] then []
    else
      var before, l := Only(k, ls[..|ls| - 1]), ls[|ls| - 1];
      if l.At? && l.key == k then before + [l] else before
  }

  function Except(k: Key, ls: seq<Label>): (r: seq<Label>)
    ensures forall l | l in r :: l in ls && !(l.At? && l.key == k)
  {
    if ls == [] then []
    else
      var before, l := Except(k, ls[..|ls| - 1]), ls[|ls| - 1];
      if l.At? && l.key == k then before else before + [l]
  }

  lemma {:induction false} RunKeepsHome(cfg: Cfg, home: Key -> string, s: Sys, ls: seq<Label>)
    requires Ready(cfg, home, s) && Run(cfg, s, ls).Some? && StaysHome(cfg, home, ls)
    ensures Ready(cfg, home, Run(cfg, s, ls).value)
  {
    if ls != [] {
      RunKeepsHome(cfg, home, s, ls[..|ls| - 1]);
      HomeStep(cfg, home, Run(cfg, s, ls[..|ls| - 1]).value, ls[|ls| - 1]);
    }
  }

  lemma {:induction false} RunConcat(cfg: Cfg, s: Sys, a: seq<Label>, b: seq<Label>)
    ensures Run(cfg, s, a + b) ==
            if Run(cfg, s, a).Some? then Run(cfg, Run(cfg, s, a).value, b) else None
    decreases |b|
  {
    if b == [] {
      assert a + b == a;
    } else {
      assert (a + b)[..|a + b| - 1] == a + b[..|b| - 1];
      RunConcat(cfg, s, a, b[..|b| - 1]);
    }
  }

  lemma RunOne(cfg: Cfg, s: Sys, l: Label)
    ensures Run(cfg, s, [l]) == if Enabled(cfg, s, l) then Some(Next(cfg, s, l)) else None
  {
  }

  /** A step may be taken before any number of steps of other keys. */
  lemma {:induction false} Overtake(cfg: Cfg, home: Key -> string, s: Sys, q: seq<Label>, k: Key, a: Act)
    requires Ready(cfg, home, s) && OfKeys(q) && Except(k, q) == q
    requires Run(cfg, s, q + [At(k, a)]).Some? && StaysHome(cfg, home, q)
    ensures Run(cfg, s, [At(k, a)] + q) == Run(cfg, s, q + [At(k, a)])
    decreases |q|
  {
    var l := At(k, a);
    if q == [] {
      assert [l] + q == q + [l];
    } else {
      var q', x := q[..|q| - 1], q[|q| - 1];
      assert x in q && q == q' + [x];
      assert Except(k, q') == q' by {
        assert x in Except(k, q);
        assert Except(k, q) == Except(k, q') + [x];
      }
      assert (q + [l])[..|q|] == q;
      var s' := Run(cfg, s, q').value;
      RunKeepsHome(cfg, home, s, q');
      HomeIsApart(cfg, home, s', x.key, k);
      StepsCommute(cfg, s', x.key, x.act, k, a);
      RunConcat(cfg, s, q', [l]);
      RunOne(cfg, s', l);
      Overtake(cfg, home, s, q', k, a);
      assert [l] + q == ([l] + q') + [x];
      RunConcat(cfg, s, [l] + q', [x]);
      RunOne(cfg, Run(cfg, s, [l] + q').value, x);
    }
  }

  /** Moving the last step to the front of the steps of other keys. */
  lemma LastStepFirst(cfg: Cfg, home: Key -> string, s: Sys, p: seq<Label>, q: seq<Label>, k: Key, a: Act)
    requires Ready(cfg, home, s) && OfKeys(q) && Except(k, q) == q
    requires Run(cfg, s, p + (q + [At(k, a)])).Some? && StaysHome(cfg, home, p) && StaysHome(cfg, home, q)
    ensures Run(cfg, s, p + ([At(k, a)] + q)) == Run(cfg, s, p + (q + [At(k, a)]))
  {
    RunConcat(cfg, s, p, q + [At(k, a)]);
    RunKeepsHome(cfg, home, s, p);
    Overtake(cfg, home, Run(cfg, s, p).value, q, k, a);
    RunConcat(cfg, s, p, [At(k, a)] + q);
  }

  lemma RunLast(cfg: Cfg, s: Sys, ms: seq<Label>, ns: seq<Label>, l: Label)
    requires Run(cfg, s, ms) == Run(cfg, s, ns)
    ensures Run(cfg, s, ms + [l]) == Run(cfg, s, ns + [l])
  {
  }

  /** All steps of one key may be taken first. */
  lemma {:induction false} OneKeyFirst(cfg: Cfg, home: Key -> string, s: Sys, k: Key, ls: seq<Label>)
    requires Ready(cfg, home, s) && OfKeys(ls) && Run(cfg, s, ls).Some? && StaysHome(cfg, home, ls)
    ensures Run(cfg, s, Only(k, ls) + Except(k, ls)) == Run(cfg, s, ls)
  {
    if ls == [] {
      assert Only(k, ls) + Except(k, ls) == [];
    } else {
      var ms, l := ls[..|ls| - 1], ls[|ls| - 1];
      var p, q := Only(k, ms), Except(k, ms);
      assert l in ls && ls == ms + [l];
      OneKeyFirst(cfg, home, s, k, ms);
      RunLast(cfg, s, p + q, ms, l);
      OnlySnoc(k, ms, l);
      Associate(p, q, [l]);
      if l.key == k {
        ExceptNone(k, q);
        LastStepFirst(cfg, home, s, p, q, k, l.act);
        Associate(p, [l], q);
      }
    }
  }

  lemma Associate<T>(a: seq<T>, b: seq<T>, c: seq<T>)
    ensures a + b + c == a + (b + c)
  {
  }

  lemma OnlySnoc(k: Key, ms: seq<Label>, l: Label)
    ensures Only(k, ms + [l]) == if l.At? && l.key == k then Only(k, ms) + [l] else Only(k, ms)
    ensures Except(k, ms + [l]) == if l.At? && l.key == k then Except(k, ms) else Except(k, ms) + [l]
  {
  }

  lemma {:induction false} ExceptNone(k: Key, ls: seq<Label>)
    requires forall l | l in ls :: !(l.At? && l.key == k)
    ensures Except(k, ls) == ls
  {
    if ls != [] {
      var ms, l := ls[..|ls| - 1], ls[|ls| - 1];
      assert l in ls && ls == ms + [l];
      ExceptNone(k, ms);
      OnlySnoc(k, ms, l);
    }
  }

  lemma {:induction false} OnlyAfterExcept(j: Key, k: Key, ls: seq<Label>)
    requires j != k
    ensures Only(j, Except(k, ls)) == Only(j, ls)
  {
    if ls != [] {
      var ms, l := ls[..|ls| - 1], ls[|ls| - 1];
      OnlyAfterExcept(j, k, ms);
      OnlySnoc(j, Except(k, ms), l);
    }
  }

  /** One key after the other, each with its own steps in their order. */
  function Serial(order: seq<Key>, ls: seq<Label>): seq<Label> {
    if order == [] then [] else Only(order[0], ls) + Serial(order[1..], ls)
  }

  lemma {:induction false} SerialAfterExcept(order: seq<Key>, k: Key, ls: seq<Label>)
    requires k !in order
    ensures Serial(order, Except(k, ls)) == Serial(order, ls)
  {
    if order != [] {
      OnlyAfterExcept(order[0], k, ls);
      SerialAfterExcept(order[1..], k, ls);
    }
  }

  /** Serializability: whatever order calls of different objects interleave in, doing one object after the
      other, in any order of objects, is possible and ends in the very same state; provided objects that
      share a comment live in different tenants. */
  lemma {:induction false} EveryInterleavingIsSerial(cfg: Cfg, home: Key -> string, s: Sys, order: seq<Key>,
                                                     ls: seq<Label>)
    requires Ready(cfg, home, s) && OfKeys(ls) && Run(cfg, s, ls).Some? && StaysHome(cfg, home, ls)
    requires forall i, j | 0 <= i < j < |order| :: order[i] != order[j]
    requires forall l | l in ls :: l.key in order
    ensures Run(cfg, s, Serial(order, ls)) == Run(cfg, s, ls)
    decreases |order|
  {
    if ls == [] {
      SerialOfNothing(order);
    } else {
      assert ls[0] in ls;
      var k := order[0];
      OneKeyFirst(cfg, home, s, k, ls);
      RunConcat(cfg, s, Only(k, ls), Except(k, ls));
      RunKeepsHome(cfg, home, s, Only(k, ls));
      EveryInterleavingIsSerial(cfg, home, Run(cfg, s, Only(k, ls)).value, order[1..], Except(k, ls));
      SerialAfterExcept(order[1..], k, ls);
      RunConcat(cfg, s, Only(k, ls), Serial(order[1..], ls));
    }
  }

  lemma SerialOfNothing(order: seq<Key>)
    ensures Serial(order, []) == []
  {
  }

  // ---- Tenants are isolated ----

  /** No version of any object resolves to the tenant. */
  ghost predicate NobodyIn(cfg: Cfg, s: Sys, tenant: string) {
    forall k, o | k in s.keys && Some(o) in s.keys[k].hist :: cfg.tenantOf(o.cr) != tenant
  }

  predicate KeepsOut(cfg: Cfg, tenant: string, ls: seq<Label>) {
    forall l | l in ls ::
      && (l.ForeignPut? || l.ForeignDrop? || l.Collect? ==> l.slot.tenant != tenant)
      && (l.At? && (l.act.UserCreate? || l.act.UserEdit?) ==> cfg.tenantOf(l.act.o.cr) != tenant)
  }

  lemma {:induction false} TenantIsolation(cfg: Cfg, s: Sys, tenant: string, ls: seq<Label>)
    requires Tagged(cfg) && BaseInv(cfg, s) && NobodyIn(cfg, s, tenant)
    requires Run(cfg, s, ls).Some? && KeepsOut(cfg, tenant, ls)
    ensures NobodyIn(cfg, Run(cfg, s, ls).value, tenant)
    ensures SameTenantStore(s.store, Run(cfg, s, ls).value.store, tenant)
  {
    if ls != [] {
      var before, l := ls[..|ls| - 1], ls[|ls| - 1];
      assert l in ls;
      TenantIsolation(cfg, s, tenant, before);
      BaseAlongRun(cfg, s, before);
      var s1 := Run(cfg, s, before).value;
      if l.At? {
        if !s1.keys[l.key].pc.Idle? {
          WorkersObject(cfg, l.key, s1.keys[l.key], s1.store);
        }
        StepStaysInTenant(cfg, l.key, s1.now, s1.keys[l.key], s1.store, l.act, tenant);
        NobodyEnters(cfg, l.key, s1.now, s1.keys[l.key], s1.store, l.act, tenant);
      }
    }
  }

  lemma NobodyEnters(cfg: Cfg, k: Key, now: int, ks: KeyState, st: Store, a: Act, tenant: string)
    requires k in cfg.keys && Base(cfg, k, ks, st) && ActEnabled(cfg, k, now, ks, st, a)
    requires forall o | Some(o) in ks.hist :: cfg.tenantOf(o.cr) != tenant
    requires a.UserCreate? || a.UserEdit? ==> cfg.tenantOf(a.o.cr) != tenant
    ensures forall o | Some(o) in NextKey(cfg, k, now, ks, st, a).hist :: cfg.tenantOf(o.cr) != tenant
  {
  }
}
