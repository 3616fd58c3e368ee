/** What `SyncSilence` decides once the lookup has answered. */
module SyncPlan {
  import opened Wrappers
  import opened Types
  import opened AlertStore

  /** The one write a sync may send. */
  datatype Write = Create | Update(id: string) | Delete(id: string) | Nothing

  datatype Existing = Existing(id: string, silence: Silence)

  /** Matchers are compared as Go slices, in order; start, creator and comment are not compared. */
  predicate UpdateNeeded(stored: Silence, want: Silence) {
    stored.matchers != want.matchers || stored.endsAt != want.endsAt
  }

  function Plan(found: Option<Existing>, want: Silence, now: int): Write {
    match found
    case None => if want.endsAt > now then Create else Nothing
    case Some(e) =>
      if want.endsAt < now then Delete(e.id)
      else if UpdateNeeded(e.silence, want) then Update(e.id)
      else Nothing
  }

  function ExistingAt(st: Store, tenant: string, found: Option<string>): Option<Existing>
    requires found.Some? ==> Slot(tenant, found.value) in st.entries
  {
    if found.None? then None else Some(Existing(found.value, st.entries[Slot(tenant, found.value)]))
  }

  /** The ID a POST names in its body. */
  function PriorId(w: Write): Option<string> {
    if w.Update? then Some(w.id) else None
  }

  /** The store after the write has taken effect. */
  function Execute(st: Store, tenant: string, want: Silence, w: Write, newId: string): Store {
    match w
    case Create => Post(st, tenant, PriorId(w), newId, want)
    case Update(_) => Post(st, tenant, PriorId(w), newId, want)
    case Delete(id) => Drop(st, Slot(tenant, id))
    case Nothing => st
  }

  /** What a write without failures leaves, whichever ID the server chooses. */
  ghost predicate Executed(st: Store, st': Store, tenant: string, want: Silence, w: Write) {
    exists newId :: ExecutedAs(st, st', tenant, want, w, newId)
  }

  predicate ExecutedAs(st: Store, st': Store, tenant: string, want: Silence, w: Write, newId: string) {
    Available(st, Slot(tenant, newId), want.comment) && st' == Execute(st, tenant, want, w, newId)
  }

  /** What a lookup and the write decided upon leave, both without failures and at the same time. */
  ghost predicate SyncedCalmly(st: Store, st': Store, now: int, tenant: string, want: Silence) {
    exists found :: && Lookup(st, now, tenant, want.comment, found)
                    && var w := Plan(ExistingAt(st, tenant, found), want, now);
                       if w.Create? || w.Update? then Executed(st, st', tenant, want, w)
                       else st' == Execute(st, tenant, want, w, "")
  }

  /** What a deletion by comment without failures leaves. */
  ghost predicate DeletedCalmly(st: Store, st': Store, now: int, tenant: string, comment: string) {
    exists found :: LookupOwn(st, now, tenant, comment, found)
                    && st' == if found.Some? then Drop(st, Slot(tenant, found.value)) else st
  }
}
