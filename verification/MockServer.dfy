/** The in-memory Alertmanager of the repository's own controller tests: one map from IDs to silences. */
module MockServer {
  import opened Wrappers
  import opened Types
  import opened AlertStore
  import opened Listing

  const ID_PREFIX := "mock-id-"
  const ACTIVE := "active"

  /** The server's map as the store of one tenant; an ID belongs to the comment it was last used for. */
  function StoreOf(silences: map<string, Listed>, tenant: string): Store {
    Store(InTenant(SilencesOf(silences), tenant), InTenant(CommentsOf(silences), tenant))
  }

  function SilencesOf(silences: map<string, Listed>): map<string, Silence> {
    map id | id in silences :: silences[id].silence
  }

  function CommentsOf(silences: map<string, Listed>): map<string, string> {
    map id | id in silences :: silences[id].silence.comment
  }

  function InTenant<V>(m: map<string, V>, tenant: string): map<Slot, V> {
    map id | id in m :: Slot(tenant, id) := m[id]
  }

  lemma PutInTenant<V>(m: map<string, V>, id: string, v: V, tenant: string)
    ensures InTenant(m[id := v], tenant) == InTenant(m, tenant)[Slot(tenant, id) := v]
  {
  }

  lemma DropInTenant<V>(m: map<string, V>, id: string, tenant: string)
    ensures InTenant(m - {id}, tenant) == InTenant(m, tenant) - {Slot(tenant, id)}
  {
  }

  lemma PutIntoStore(silences: map<string, Listed>, l: Listed, tenant: string)
    ensures StoreOf(silences[l.id := l], tenant) == Put(StoreOf(silences, tenant), Slot(tenant, l.id), l.silence)
  {
    assert SilencesOf(silences[l.id := l]) == SilencesOf(silences)[l.id := l.silence];
    assert CommentsOf(silences[l.id := l]) == CommentsOf(silences)[l.id := l.silence.comment];
    PutInTenant(SilencesOf(silences), l.id, l.silence, tenant);
    PutInTenant(CommentsOf(silences), l.id, l.silence.comment, tenant);
  }

  lemma DropFromStore(silences: map<string, Listed>, id: string, tenant: string)
    ensures StoreOf(silences - {id}, tenant).entries == Drop(StoreOf(silences, tenant), Slot(tenant, id)).entries
  {
    assert SilencesOf(silences - {id}) == SilencesOf(silences) - {id};
    DropInTenant(SilencesOf(silences), id, tenant);
  }

  class MockAlertmanagerServer {
    var silences: map<string, Listed>

    ghost predicate Valid()
      reads this
    {
      forall id | id in silences :: id != "" && silences[id].id == id
    }

    /** The statuses, which the server never changes by itself, are right at this time. */
    ghost predicate StatusesRight(now: int)
      reads this
    {
      forall id | id in silences :: Unexpired(silences[id]) <==> Live(now, silences[id].silence)
    }

    constructor ()
      ensures Valid() && silences == map[]
    {
      silences := map[];
    }

    method AddSilence(l: Listed)
      requires Valid()
      modifies this
      ensures Valid()
      ensures var id := if l.id == "" then ID_PREFIX + l.silence.comment else l.id;
              silences == old(silences)[id := l.(id := id)]
    {
      var id := l.id;
      if id == "" {
        id := ID_PREFIX + l.silence.comment;
      }
      silences := silences[id := l.(id := id)];
    }

    /** GET: all silences but the expired ones, in the arbitrary order of a map. As long as the statuses are
        right this is a true answer. */
    method HandleListSilences() returns (resp: seq<Listed>)
      requires Valid()
      ensures forall l | l in resp :: l.id in silences && silences[l.id] == l && l.state != Some(EXPIRED)
      ensures forall id | id in silences && silences[id].state != Some(EXPIRED) :: silences[id] in resp
      ensures forall now, tenant | StatusesRight(now) :: IsListing(StoreOf(silences, tenant), now, tenant, resp)
    {
      resp := [];
      var left := silences.Keys;
      while left != {}
        invariant left <= silences.Keys
        invariant forall l | l in resp :: l.id in silences && silences[l.id] == l && l.state != Some(EXPIRED)
        invariant forall id | id in silences && id !in left && silences[id].state != Some(EXPIRED) ::
                    silences[id] in resp
      {
        var id :| id in left;
        left := left - {id};
        if silences[id].state != Some(EXPIRED) {
          resp := resp + [silences[id]];
        }
      }
      forall now, tenant | StatusesRight(now) ensures IsListing(StoreOf(silences, tenant), now, tenant, resp) {
        forall x | x in StoreOf(silences, tenant).entries && Live(now, StoreOf(silences, tenant).entries[x])
          ensures exists i | 0 <= i < |resp| :: Unexpired(resp[i]) && resp[i].id == x.id
        {
          assert silences[x.id] in resp;
        }
      }
    }

    /** POST: the silence goes under the ID it names, or under one made from its comment. For every tenant
        this is the write `Put`, and a write `Available` allows unless another comment had the ID. */
    method HandleCreateSilence(l: Listed) returns (id: string)
      requires Valid()
      modifies this
      ensures Valid() && id == if l.id == "" then ID_PREFIX + l.silence.comment else l.id
      ensures silences == old(silences)[id := Listed(id, l.silence, if l.state.None? then Some(ACTIVE) else l.state)]
      ensures forall tenant ::
                StoreOf(silences, tenant) == Put(StoreOf(old(silences), tenant), Slot(tenant, id), l.silence)
    {
      id := l.id;
      if id == "" {
        id := ID_PREFIX + l.silence.comment;
      }
      var state := l.state;
      if state.None? {
        state := Some(ACTIVE);
      }
      silences := silences[id := Listed(id, l.silence, state)];
      forall tenant
        ensures StoreOf(silences, tenant) == Put(StoreOf(old(silences), tenant), Slot(tenant, id), l.silence)
      {
        PutIntoStore(old(silences), Listed(id, l.silence, state), tenant);
      }
    }

    /** DELETE: the status code, and the silence is gone if it was there. */
    method HandleDeleteSilence(id: string) returns (status: int)
      requires Valid()
      modifies this
      ensures Valid() && silences == old(silences) - {id}
      ensures status == if id in old(silences) then 200 else 404
      ensures forall tenant ::
                StoreOf(silences, tenant).entries == Drop(StoreOf(old(silences), tenant), Slot(tenant, id)).entries
    {
      if id !in silences {
        return 404;
      }
      silences := silences - {id};
      forall tenant
        ensures StoreOf(silences, tenant).entries == Drop(StoreOf(old(silences), tenant), Slot(tenant, id)).entries
      {
        DropFromStore(old(silences), id, tenant);
      }
      return 200;
    }
  }

  /** IDs made from comments are as distinct as the comments: with distinct comments no POST without an ID
      ever takes the place of another object's silence. */
  lemma MadeUpIdsAreDistinct(a: string, b: string)
    ensures ID_PREFIX + a == ID_PREFIX + b <==> a == b
  {
    assert (ID_PREFIX + a)[|ID_PREFIX|..] == a && (ID_PREFIX + b)[|ID_PREFIX|..] == b;
  }
}
