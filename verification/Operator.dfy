/** The operator as configured: the protocol with the real comments, tenants and conversions. */
module Operator {
  import opened Wrappers
  import opened Types
  import opened AlertStore
  import opened Protocol
  import opened ProtocolSafety
  import opened Comments
  import opened Tenancy
  import opened Conversion
  import opened Interleaving

  function OperatorCfg(c: Config, keys: set<Key>): Cfg {
    Cfg(keys, CommentOf, (cr: CR) => EffectiveTenant(c, cr.meta.labels), GetSilenceFromCR)
  }

  ghost predicate DistinctComments(keys: set<Key>) {
    forall k, k' | k in keys && k' in keys && CommentOf(k) == CommentOf(k') :: k == k'
  }

  /** Namespaces without hyphens, and no cluster-scoped object that spells out one of the others. */
  predicate PlainKeys(keys: set<Key>) {
    && (forall k | k in keys && k.V2Key? :: k.ns != "" && '-' !in k.ns)
    && (forall k, k' | k in keys && k' in keys && k.V1Key? && k'.V2Key? :: k.name != k'.ns + "-" + k'.name)
  }

  /** A condition on names under which the comments are distinct. */
  lemma PlainKeysAreDistinct(keys: set<Key>)
    requires PlainKeys(keys)
    ensures DistinctComments(keys)
  {
    forall k, k' | k in keys && k' in keys && CommentOf(k) == CommentOf(k') ensures k == k' {
      if k.V1Key? == k'.V1Key? {
        NoCollisions(k, k');
      } else if k.V1Key? {
        CollisionsAcrossScopes(k.name, k'.ns, k'.name);
      } else {
        CollisionsAcrossScopes(k'.name, k.ns, k.name);
      }
    }
  }

  /** Whatever `getSilenceFromCR` returns carries its object's comment and the operator's `createdBy`. */
  lemma OperatorIsTagged(c: Config, keys: set<Key>)
    ensures Tagged(OperatorCfg(c, keys))
  {
  }

  lemma OperatorConforms(c: Config, keys: set<Key>)
    requires DistinctComments(keys)
    ensures Conforms(OperatorCfg(c, keys))
  {
  }

  /** An object of the operator with this comment, guarded by its finalizer and resolving to the tenant. */
  ghost predicate HasObject(c: Config, keys: set<Key>, s: Sys, comment: string, tenant: string) {
    exists k | k in keys && k in s.keys && |s.keys[k].hist| > 0 ::
      && CommentOf(k) == comment
      && Current(s.keys[k]).Some? && Protection in Current(s.keys[k]).value.fins
      && EffectiveTenant(c, Current(s.keys[k]).value.cr.meta.labels) == tenant
  }

  /** The operator leaves no orphan: in every state both controllers can get into, with any users, failures,
      crashes, stale reads and other clients of Alertmanager, every live silence under the comment of one of
      its keys has its object, guarded and in the silence's tenant, and is the only one; provided comments are
      distinct and no misleading answer to this key's worker hid a live silence. */
  lemma OperatorLeavesNoOrphan(c: Config, keys: set<Key>, s0: Sys, ls: seq<Label>, s: Sys, k: Key, x: Slot)
    requires DistinctComments(keys) && Init(OperatorCfg(c, keys), s0) && k in keys
    requires Run(OperatorCfg(c, keys), s0, ls) == Some(s) && HonestRunOf(OperatorCfg(c, keys), s0, k, ls)
    requires Holds(s.store, s.now, x, CommentOf(k))
    ensures HasObject(c, keys, s, CommentOf(k), x.tenant)
    ensures forall y | Holds(s.store, s.now, y, CommentOf(k)) :: y == x
  {
    var cfg := OperatorCfg(c, keys);
    OperatorConforms(c, keys);
    KeySafeOnEveryRun(cfg, s0, k, ls);
    assert cfg.commentOf(k) == CommentOf(k);
    assert Protected(cfg, s.keys[k], x.tenant);
  }

  /** A tenant that no label, default or client setting leads to keeps its store through any run. */
  lemma OperatorKeepsOut(c: Config, keys: set<Key>, s: Sys, tenant: string, ls: seq<Label>)
    requires BaseInv(OperatorCfg(c, keys), s)
    requires Run(OperatorCfg(c, keys), s, ls).Some?
    requires NobodyIn(OperatorCfg(c, keys), s, tenant) && KeepsOut(OperatorCfg(c, keys), tenant, ls)
    ensures SameTenantStore(s.store, Run(OperatorCfg(c, keys), s, ls).value.store, tenant)
  {
    OperatorIsTagged(c, keys);
    TenantIsolation(OperatorCfg(c, keys), s, tenant, ls);
  }
}
