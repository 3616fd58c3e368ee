/** The Alertmanager side: one store of silences per tenant, read and written by single HTTP calls. */
module AlertStore {
  import opened Wrappers
  import opened Types

  /** The `createdBy` the operator puts on every silence. */
  const CREATED_BY := "silence-operator"

  /** Where a silence is stored: the tenant's store and the silence ID. */
  datatype Slot = Slot(tenant: string, id: string)

  /** `entries` holds the silences; `owner` remembers the comment each slot was first used for, since an
      ID is never handed out again for another silence. */
  datatype Store = Store(entries: map<Slot, Silence>, owner: map<Slot, string>)

  /** Alertmanager reports any other silence as expired; one that has yet to start is not expired. */
  predicate Live(now: int, s: Silence) {
    now < s.endsAt
  }

  /** Slot `x` holds a live silence carrying the comment. */
  predicate Holds(st: Store, now: int, x: Slot, comment: string) {
    x in st.entries && Live(now, st.entries[x]) && st.entries[x].comment == comment
  }

  predicate ValidStore(st: Store) {
    forall x | x in st.entries :: x.id != "" && x in st.owner && st.owner[x] == st.entries[x].comment
  }

  /** A slot the server may store a silence with this comment in: a new ID, or one this comment had. */
  predicate Available(st: Store, x: Slot, comment: string) {
    x.id != "" && (x in st.owner ==> st.owner[x] == comment)
  }

  predicate OwnedBy(st: Store, x: Slot, comment: string) {
    x.id != "" && x in st.owner && st.owner[x] == comment
  }

  function Drop(st: Store, x: Slot): Store {
    Store(st.entries - {x}, st.owner)
  }

  function Put(st: Store, x: Slot, s: Silence): Store {
    Store(st.entries[x := s], st.owner[x := s.comment])
  }

  /** The effect of a POST: the silence it names, if any, gives way to the new one. The server answers
      with the ID it stored the silence under, which may differ from the one in the request. */
  function Post(st: Store, tenant: string, prior: Option<string>, newId: string, s: Silence): Store {
    Put(if prior.Some? then Drop(st, Slot(tenant, prior.value)) else st, Slot(tenant, newId), s)
  }

  /** A lookup by comment in one tenant found this ID, or found nothing. */
  predicate Lookup(st: Store, now: int, tenant: string, comment: string, found: Option<string>) {
    match found
    case Some(id) => Holds(st, now, Slot(tenant, id), comment)
    case None => forall x | x in st.entries :: x.tenant == tenant ==> !Holds(st, now, x, comment)
  }

  /** The same for deletion, which also asks for the operator's own `createdBy`. */
  predicate LookupOwn(st: Store, now: int, tenant: string, comment: string, found: Option<string>) {
    match found
    case Some(id) =>
      && Holds(st, now, Slot(tenant, id), comment)
      && st.entries[Slot(tenant, id)].createdBy == CREATED_BY
    case None =>
      forall x | x in st.entries ::
        x.tenant == tenant && st.entries[x].createdBy == CREATED_BY ==> !Holds(st, now, x, comment)
  }

  /** No slot other than `x` holds a live silence with the comment. */
  ghost predicate OnlyAt(st: Store, now: int, comment: string, x: Slot) {
    forall y | Holds(st, now, y, comment) :: y == x
  }

  ghost predicate NoneLive(st: Store, now: int, comment: string) {
    forall y :: !Holds(st, now, y, comment)
  }

  /** The two stores agree on everything that concerns the comment. */
  ghost predicate SameFor(st: Store, st': Store, comment: string) {
    && (forall x | x in st.entries && st.entries[x].comment == comment ::
          x in st'.entries && st'.entries[x] == st.entries[x])
    && (forall x | x in st'.entries && st'.entries[x].comment == comment ::
          x in st.entries && st'.entries[x] == st.entries[x])
    && (forall x :: OwnedBy(st, x, comment) <==> OwnedBy(st', x, comment))
  }

  // ---- A write touches one comment only ----

  lemma DropFrame(st: Store, x: Slot, comment: string)
    requires ValidStore(st) && OwnedBy(st, x, comment)
    ensures ValidStore(Drop(st, x))
    ensures forall c | c != comment :: SameFor(st, Drop(st, x), c)
  {
  }

  lemma PutFrame(st: Store, x: Slot, s: Silence)
    requires ValidStore(st) && Available(st, x, s.comment)
    ensures ValidStore(Put(st, x, s))
    ensures forall c | c != s.comment :: SameFor(st, Put(st, x, s), c)
  {
  }

  lemma PostFrame(st: Store, tenant: string, prior: Option<string>, newId: string, s: Silence)
    requires ValidStore(st) && Available(st, Slot(tenant, newId), s.comment)
    requires prior.Some? ==> OwnedBy(st, Slot(tenant, prior.value), s.comment)
    ensures ValidStore(Post(st, tenant, prior, newId, s))
    ensures forall c | c != s.comment :: SameFor(st, Post(st, tenant, prior, newId, s), c)
  {
    if prior.Some? {
      DropFrame(st, Slot(tenant, prior.value), s.comment);
      PutFrame(Drop(st, Slot(tenant, prior.value)), Slot(tenant, newId), s);
    } else {
      PutFrame(st, Slot(tenant, newId), s);
    }
  }
}
