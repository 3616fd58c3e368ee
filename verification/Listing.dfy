/** What the client makes of an answer to GET /api/v2/silences. */
module Listing {
  import opened Wrappers
  import opened Types
  import opened AlertStore
  import opened SyncPlan

  const EXPIRED := "expired"

  /** One silence of an answer; the status may be missing. */
  datatype Listed = Listed(id: string, silence: Silence, state: Option<string>)

  predicate Unexpired(l: Listed) {
    l.state.Some? && l.state.value != EXPIRED
  }

  /** The answer is true of the store: it lists the tenant's live silences, in any order, and marks anything
      else it lists as expired or leaves it without status. */
  predicate IsListing(st: Store, now: int, tenant: string, resp: seq<Listed>) {
    && (forall i | 0 <= i < |resp| && Unexpired(resp[i]) ::
          var x := Slot(tenant, resp[i].id);
          x in st.entries && st.entries[x] == resp[i].silence && Live(now, st.entries[x]))
    && (forall x | x in st.entries && x.tenant == tenant && Live(now, st.entries[x]) ::
          exists i | 0 <= i < |resp| :: Unexpired(resp[i]) && resp[i].id == x.id)
  }

  function NotExpired(resp: seq<Listed>): (r: seq<Listed>)
    ensures forall l | l in r :: l in resp && Unexpired(l)
    ensures forall l | l in resp && Unexpired(l) :: l in r
  {
    if resp == [] then []
    else
      var before, l := NotExpired(resp[..|resp| - 1]), resp[|resp| - 1];
      if Unexpired(l) then before + [l] else before
  }

  /** The first silence with the comment; for deletion, the first that is also the operator's own. */
  function FirstMatch(ls: seq<Listed>, comment: string, ownOnly: bool): (r: Option<Listed>)
    ensures r.Some? ==> r.value in ls && Wanted(r.value, comment, ownOnly)
    ensures r.None? ==> forall l | l in ls :: !Wanted(l, comment, ownOnly)
  {
    if ls == [] then None
    else if Wanted(ls[0], comment, ownOnly) then Some(ls[0])
    else FirstMatch(ls[1..], comment, ownOnly)
  }

  predicate Wanted(l: Listed, comment: string, ownOnly: bool) {
    l.silence.comment == comment && (ownOnly ==> l.silence.createdBy == CREATED_BY)
  }

  function IdOf(l: Option<Listed>): Option<string> {
    if l.Some? then Some(l.value.id) else None
  }

  function ExistingOf(l: Option<Listed>): Option<Existing> {
    if l.Some? then Some(Existing(l.value.id, l.value.silence)) else None
  }

  /** Taking the first match of a filtered answer answers the lookup by comment, for every comment: it finds
      a live silence with the comment if there is one. */
  ghost predicate Answers(st: Store, now: int, tenant: string, filtered: seq<Listed>) {
    forall comment :: AnswersFor(st, now, tenant, filtered, comment)
  }

  predicate AnswersFor(st: Store, now: int, tenant: string, filtered: seq<Listed>, comment: string) {
    var found := FirstMatch(filtered, comment, false);
    && Lookup(st, now, tenant, comment, IdOf(found))
    && ExistingAt(st, tenant, IdOf(found)) == ExistingOf(found)
    && LookupOwn(st, now, tenant, comment, IdOf(FirstMatch(filtered, comment, true)))
  }

  /** Filtering goes through the answer in its order, silence by silence. */
  lemma {:induction false} FilterKeepsOrder(a: seq<Listed>, b: seq<Listed>)
    ensures NotExpired(a + b) == NotExpired(a) + NotExpired(b)
    decreases |b|
  {
    if b == [] {
      assert a + b == a;
    } else {
      var before := b[..|b| - 1];
      assert (a + b)[..|a + b| - 1] == a + before && (a + b)[|a + b| - 1] == b[|b| - 1];
      FilterKeepsOrder(a, before);
    }
  }

  lemma FilterOne(l: Listed)
    ensures NotExpired([l]) == if l.state.Some? && l.state.value != "expired" then [l] else []
  {
    assert [l][..0] == [];
  }

  /** The first match is before any other. */
  lemma {:induction false} FirstIsFirst(ls: seq<Listed>, comment: string, ownOnly: bool)
    ensures var r := FirstMatch(ls, comment, ownOnly);
            r.Some? ==> exists i | 0 <= i < |ls| ::
              ls[i] == r.value && forall j | 0 <= j < i :: !Wanted(ls[j], comment, ownOnly)
  {
    if ls != [] && !Wanted(ls[0], comment, ownOnly) {
      FirstIsFirst(ls[1..], comment, ownOnly);
      if FirstMatch(ls, comment, ownOnly).Some? {
        var i :| 0 <= i < |ls[1..]| && ls[1..][i] == FirstMatch(ls, comment, ownOnly).value
                 && forall j | 0 <= j < i :: !Wanted(ls[1..][j], comment, ownOnly);
        assert ls[i + 1] == ls[1..][i];
        assert forall j | 1 <= j < i + 1 :: ls[j] == ls[1..][j - 1];
      }
    }
  }

  lemma ListedAndFiltered(st: Store, now: int, tenant: string, resp: seq<Listed>, x: Slot)
    requires IsListing(st, now, tenant, resp) && x in st.entries && x.tenant == tenant && Live(now, st.entries[x])
    ensures exists l | l in NotExpired(resp) :: l.id == x.id && l.silence == st.entries[x]
  {
  }

  lemma FilteredMatches(st: Store, now: int, tenant: string, resp: seq<Listed>, comment: string, ownOnly: bool)
    requires IsListing(st, now, tenant, resp)
    ensures match FirstMatch(NotExpired(resp), comment, ownOnly)
            case Some(l) => Holds(st, now, Slot(tenant, l.id), comment) && st.entries[Slot(tenant, l.id)] == l.silence
                            && Wanted(l, comment, ownOnly)
            case None => forall x | x in st.entries && x.tenant == tenant && Holds(st, now, x, comment) ::
                           ownOnly && st.entries[x].createdBy != CREATED_BY
  {
    var found := FirstMatch(NotExpired(resp), comment, ownOnly);
    if found.Some? {
      var i :| 0 <= i < |resp| && resp[i] == found.value;
    } else {
      forall x | x in st.entries && x.tenant == tenant && Holds(st, now, x, comment)
        ensures ownOnly && st.entries[x].createdBy != CREATED_BY
      {
        ListedAndFiltered(st, now, tenant, resp, x);
      }
    }
  }

  /** Every true answer, in whatever order, does so once it is filtered. */
  lemma FilteredListingAnswers(st: Store, now: int, tenant: string, resp: seq<Listed>)
    requires IsListing(st, now, tenant, resp)
    ensures Answers(st, now, tenant, NotExpired(resp))
  {
    forall comment ensures AnswersFor(st, now, tenant, NotExpired(resp), comment) {
      FilteredMatches(st, now, tenant, resp, comment, false);
      FilteredMatches(st, now, tenant, resp, comment, true);
    }
  }

  /** With at most one live silence under a comment, the order of the answer does not matter. */
  lemma OrderDoesNotMatter(st: Store, now: int, tenant: string, a: seq<Listed>, b: seq<Listed>, comment: string)
    requires IsListing(st, now, tenant, a) && IsListing(st, now, tenant, b)
    requires forall x, y | Holds(st, now, x, comment) && Holds(st, now, y, comment) :: x == y
    ensures FirstMatch(NotExpired(a), comment, false).Some? <==> FirstMatch(NotExpired(b), comment, false).Some?
    ensures ExistingOf(FirstMatch(NotExpired(a), comment, false)) ==
            ExistingOf(FirstMatch(NotExpired(b), comment, false))
  {
    FilteredListingAnswers(st, now, tenant, a);
    FilteredListingAnswers(st, now, tenant, b);
    assert AnswersFor(st, now, tenant, NotExpired(a), comment) && AnswersFor(st, now, tenant, NotExpired(b), comment);
  }

  method Filter(resp: seq<Listed>) returns (filtered: seq<Listed>)
    ensures filtered == NotExpired(resp)
  {
    filtered := [];
    for i := 0 to |resp|
      invariant filtered == NotExpired(resp[..i])
    {
      assert resp[..i + 1][..i] == resp[..i];
      if resp[i].state.Some? && resp[i].state.value != EXPIRED {
        filtered := filtered + [resp[i]];
      }
    }
    assert resp[..|resp|] == resp;
  }

  method Search(ls: seq<Listed>, comment: string, ownOnly: bool) returns (r: Option<Listed>)
    ensures r == FirstMatch(ls, comment, ownOnly)
  {
    for i := 0 to |ls|
      invariant FirstMatch(ls, comment, ownOnly) == FirstMatch(ls[i..], comment, ownOnly)
    {
      if ls[i].silence.comment == comment && (!ownOnly || ls[i].silence.createdBy == CREATED_BY) {
        return Some(ls[i]);
      }
    }
    return None;
  }
}
