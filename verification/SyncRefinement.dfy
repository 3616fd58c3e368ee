/** `SyncSilence` and `DeleteSilence`, seen through what Alertmanager mutes: an update and a removal in a
    map from (tenant, comment) to the desired silence. */
module SyncRefinement {
  import opened Wrappers
  import opened Types
  import opened AlertStore
  import opened SyncPlan
  import opened Muting

  datatype Name = Name(tenant: string, comment: string)

  /** What a silence does to alerts: whom it mutes, from when and until when. */
  datatype Effect = Effect(matchers: GoSlice<Matcher>, startsAt: int, endsAt: int)

  function EffectOf(s: Silence): Effect {
    Effect(s.matchers, s.startsAt, s.endsAt)
  }

  /** The effects of the live silences stored under a name, pending ones included. */
  function View(st: Store, now: int, n: Name): set<Effect> {
    set x | x in st.entries && x.tenant == n.tenant && Holds(st, now, x, n.comment) :: EffectOf(st.entries[x])
  }

  ghost predicate UniqueAt(st: Store, now: int, n: Name) {
    forall x: Slot, y: Slot | x.tenant == y.tenant == n.tenant &&
                              Holds(st, now, x, n.comment) && Holds(st, now, y, n.comment) ::
      x == y
  }

  /** One sync: the operator's clock, Alertmanager's clock, the answer to the lookup, the ID of a new entry, and
      what Alertmanager makes of the silence if it is sent. */
  datatype Round = Round(asOf: int, now: int, found: Option<string>, newId: string, kept: Silence)

  predicate ValidRound(st: Store, tenant: string, want: Silence, r: Round) {
    && r.asOf <= r.now && Lookup(st, r.now, tenant, want.comment, r.found)
    && r.kept.comment == want.comment
    && var w := Plan(ExistingAt(st, tenant, r.found), want, r.asOf);
       (w.Create? || w.Update? ==> Available(st, Slot(tenant, r.newId), want.comment))
  }

  function RoundPlan(st: Store, tenant: string, want: Silence, r: Round): Write
    requires ValidRound(st, tenant, want, r)
  {
    Plan(ExistingAt(st, tenant, r.found), want, r.asOf)
  }

  function Sync(st: Store, tenant: string, want: Silence, r: Round): Store
    requires ValidRound(st, tenant, want, r)
  {
    Execute(st, tenant, r.kept, RoundPlan(st, tenant, want, r), r.newId)
  }

  /** Alertmanager keeps the end it is sent. */
  predicate KeepsEnd(want: Silence, r: Round) {
    r.kept.endsAt == want.endsAt
  }

  // ---- Refinement ----

  lemma DropView(st: Store, x: Slot, at: int, n: Name)
    requires ValidStore(st) && x in st.entries
    ensures Name(x.tenant, st.entries[x].comment) != n ==> View(Drop(st, x), at, n) == View(st, at, n)
    ensures (forall y: Slot | y.tenant == n.tenant && Holds(st, at, y, n.comment) :: y == x) ==>
              View(Drop(st, x), at, n) == {}
  {
  }

  lemma PutView(st: Store, x: Slot, s: Silence, at: int, n: Name)
    requires ValidStore(st) && Available(st, x, s.comment)
    ensures Name(x.tenant, s.comment) != n ==> View(Put(st, x, s), at, n) == View(st, at, n)
    ensures View(st, at, Name(x.tenant, s.comment)) == {} ==>
              View(Put(st, x, s), at, Name(x.tenant, s.comment)) == if Live(at, s) then {EffectOf(s)} else {}
  {
  }

  /** The effects that say the same as the wanted silence about whom to mute and until when. They may start at
      another time. */
  function Alike(v: set<Effect>, want: Silence): set<Effect> {
    set e | e in v && e.matchers == want.matchers && e.endsAt == want.endsAt
  }

  lemma AlikeOne(e: Effect, want: Silence)
    ensures Alike({e}, want) == if e.matchers == want.matchers && e.endsAt == want.endsAt then {e} else {}
  {
    assert e in Alike({e}, want) <==> e.matchers == want.matchers && e.endsAt == want.endsAt;
  }

  /** Setting the map at a name: what is alike there stays, start included; otherwise `kept` takes its place. */
  function Settled(v: set<Effect>, want: Silence, kept: Silence): set<Effect> {
    if Alike(v, want) != {} then Alike(v, want) else {EffectOf(kept)}
  }

  /** The map after it was set at one name to the silence, or to nothing. */
  ghost predicate Updated(st: Store, st': Store, now: int, name: Name, want: Option<Silence>) {
    forall at, n | now <= at ::
      View(st', at, n) ==
      if n != name then View(st, at, n)
      else if want.Some? && Live(at, want.value) then Settled(View(st, now, name), want.value, want.value)
      else {}
  }

  /** What a name holds that no two live silences share. */
  lemma OneEffect(st: Store, now: int, x: Slot, comment: string)
    requires Holds(st, now, x, comment) && UniqueAt(st, now, Name(x.tenant, comment))
    ensures View(st, now, Name(x.tenant, comment)) == {EffectOf(st.entries[x])}
  {
    assert EffectOf(st.entries[x]) in View(st, now, Name(x.tenant, comment));
  }

  /** What a round leaves under the name: the silence as it was kept, or as it was found. */
  function Left(st: Store, tenant: string, want: Silence, r: Round): Option<Silence>
    requires ValidRound(st, tenant, want, r)
  {
    match RoundPlan(st, tenant, want, r)
    case Create => Some(r.kept)
    case Update(_) => Some(r.kept)
    case Delete(_) => None
    case Nothing => if r.found.Some? then Some(st.entries[Slot(tenant, r.found.value)]) else None
  }

  /** Whatever Alertmanager makes of a silence it is sent: from then on the name holds what the round has left,
      while that lasts, and every other name is as it was. */
  lemma SyncLeaves(st: Store, tenant: string, want: Silence, r: Round, at: int, n: Name)
    requires ValidStore(st) && UniqueAt(st, r.now, Name(tenant, want.comment))
    requires ValidRound(st, tenant, want, r) && r.now <= at
    ensures var left := Left(st, tenant, want, r);
            View(Sync(st, tenant, want, r), at, n) ==
            if n != Name(tenant, want.comment) then View(st, at, n)
            else if left.Some? && Live(at, left.value) then {EffectOf(left.value)}
            else {}
  {
    var w, mine := RoundPlan(st, tenant, want, r), Name(tenant, want.comment);
    if r.found.None? {
      assert View(st, at, mine) == {};
      if w.Create? {
        PutView(st, Slot(tenant, r.newId), r.kept, at, n);
      }
    } else {
      LeavesExisting(st, tenant, want, r, at, n);
    }
  }

  lemma LeavesExisting(st: Store, tenant: string, want: Silence, r: Round, at: int, n: Name)
    requires ValidStore(st) && UniqueAt(st, r.now, Name(tenant, want.comment))
    requires ValidRound(st, tenant, want, r) && r.now <= at && r.found.Some?
    ensures var left := Left(st, tenant, want, r);
            View(Sync(st, tenant, want, r), at, n) ==
            if n != Name(tenant, want.comment) then View(st, at, n)
            else if left.Some? && Live(at, left.value) then {EffectOf(left.value)}
            else {}
  {
    var w, mine, x := RoundPlan(st, tenant, want, r), Name(tenant, want.comment), Slot(tenant, r.found.value);
    assert forall y: Slot | y.tenant == tenant && Holds(st, at, y, want.comment) :: Holds(st, r.now, y, want.comment);
    if w.Nothing? {
      if Live(at, st.entries[x]) {
        OneEffect(st, at, x, want.comment);
      }
    } else {
      DropView(st, x, at, n);
      DropView(st, x, at, mine);
      if w.Update? {
        PutView(Drop(st, x), Slot(tenant, r.newId), r.kept, at, n);
      }
    }
  }

  /** A sync without failures sets the map at its own name and nowhere else: from then on the name holds one
      silence, with the desired matchers and end, while that lasts, and nothing once it is over. Its start is
      the desired one unless a silence with these matchers and this end was there before: that one stays. */
  lemma SyncRefines(st: Store, tenant: string, want: Silence, r: Round, at: int, n: Name)
    requires ValidStore(st) && UniqueAt(st, r.now, Name(tenant, want.comment))
    requires ValidRound(st, tenant, want, r) && KeepsEnd(want, r) && r.now <= at
    ensures View(Sync(st, tenant, want, r), at, n) ==
            if n != Name(tenant, want.comment) then View(st, at, n)
            else if Live(at, want) then Settled(View(st, r.now, n), want, r.kept)
            else {}
  {
    SyncLeaves(st, tenant, want, r, at, n);
    if r.found.Some? {
      var x := Slot(tenant, r.found.value);
      OneEffect(st, r.now, x, want.comment);
      AlikeOne(EffectOf(st.entries[x]), want);
    } else {
      assert View(st, r.now, Name(tenant, want.comment)) == {};
    }
  }

  /** A deletion by comment empties the name and touches no other, provided all its silences are the
      operator's and at most one of them is live. */
  lemma DeleteRefines(st: Store, now: int, tenant: string, comment: string, found: Option<string>, at: int, n: Name)
    requires ValidStore(st) && UniqueAt(st, now, Name(tenant, comment)) && now <= at
    requires LookupOwn(st, now, tenant, comment, found)
    requires forall x | x in st.entries && st.entries[x].comment == comment :: st.entries[x].createdBy == CREATED_BY
    ensures var st' := if found.Some? then Drop(st, Slot(tenant, found.value)) else st;
            View(st', at, n) == if n == Name(tenant, comment) then {} else View(st, at, n)
  {
    assert forall y: Slot | y.tenant == tenant && Holds(st, at, y, comment) :: Holds(st, now, y, comment);
    if found.Some? {
      DropView(st, Slot(tenant, found.value), at, n);
    }
  }

  // ---- Equality of instants ----

  /** At the very instant a silence ends, a sync neither creates nor deletes; an existing live silence is
      rewritten to end now, and so muted no longer. */
  lemma SyncAtTheEnd(st: Store, tenant: string, want: Silence, r: Round)
    requires ValidRound(st, tenant, want, r) && r.asOf == want.endsAt
    ensures !RoundPlan(st, tenant, want, r).Create? && !RoundPlan(st, tenant, want, r).Delete?
    ensures RoundPlan(st, tenant, want, r).Update? <==> r.found.Some?
  {
  }

  // ---- Quiescence ----

  /** After the round a lookup gives back the wanted matchers and end: they were not sent, or Alertmanager kept
      them as they were, the matchers in their order and with nil distinct from empty. */
  predicate Echoes(st: Store, tenant: string, want: Silence, r: Round)
    requires ValidRound(st, tenant, want, r)
  {
    RoundPlan(st, tenant, want, r).Nothing? || (r.kept.matchers == want.matchers && KeepsEnd(want, r))
  }

  /** What the next sync of the same silence finds and decides: it finds what was left, if that is still live, and
      leaves it alone exactly if it is an echo. */
  lemma NextPlan(st: Store, tenant: string, want: Silence, r: Round, r': Round)
    requires ValidStore(st) && UniqueAt(st, r.now, Name(tenant, want.comment))
    requires ValidRound(st, tenant, want, r) && r.now <= r'.now
    requires ValidRound(Sync(st, tenant, want, r), tenant, want, r')
    ensures var left := Left(st, tenant, want, r);
            r'.found.Some? <==> left.Some? && Live(r'.now, left.value)
    ensures var w := RoundPlan(Sync(st, tenant, want, r), tenant, want, r');
            w == if r'.found.None? then (if r'.asOf < want.endsAt then Create else Nothing)
                 else if want.endsAt < r'.asOf then Delete(r'.found.value)
                 else if Echoes(st, tenant, want, r) then Nothing
                 else Update(r'.found.value)
  {
    var st', mine, left := Sync(st, tenant, want, r), Name(tenant, want.comment), Left(st, tenant, want, r);
    SyncLeaves(st, tenant, want, r, r'.now, mine);
    match r'.found
    case Some(id) =>
      assert EffectOf(st'.entries[Slot(tenant, id)]) in View(st', r'.now, mine);
      assert EffectOf(st'.entries[Slot(tenant, id)]) == EffectOf(left.value);
    case None =>
      assert View(st', r'.now, mine) == {};
      assert left.Some? ==> EffectOf(left.value) in {EffectOf(left.value)};
  }

  /** After a sync that is echoed, a later one of the same silence writes nothing, unless the silence ends between
      the operator's look at the clock and Alertmanager's answer. */
  lemma SyncThenNothing(st: Store, tenant: string, want: Silence, r: Round, r': Round)
    requires ValidStore(st) && UniqueAt(st, r.now, Name(tenant, want.comment))
    requires ValidRound(st, tenant, want, r) && r.now <= r'.now && Echoes(st, tenant, want, r)
    requires ValidRound(Sync(st, tenant, want, r), tenant, want, r')
    ensures RoundPlan(Sync(st, tenant, want, r), tenant, want, r').Nothing? <==>
            !(r'.asOf < want.endsAt <= r'.now)
  {
    NextPlan(st, tenant, want, r, r');
  }

  /** The form in which Alertmanager keeps a silence, as far as lookups compare it. */
  datatype Form = Form(matchers: GoSlice<Matcher>, endsAt: int)

  function FormOf(r: Round): Form {
    Form(r.kept.matchers, r.kept.endsAt)
  }

  /** Rounds that follow one another on a store, each with true answers; the same silence is always kept in the
      same form. */
  predicate ValidRounds(st: Store, tenant: string, want: Silence, since: int, form: Form, rs: seq<Round>)
    decreases |rs|
  {
    rs != [] ==>
      && since <= rs[0].now && FormOf(rs[0]) == form && ValidRound(st, tenant, want, rs[0])
      && ValidRounds(Sync(st, tenant, want, rs[0]), tenant, want, rs[0].now, form, rs[1..])
  }

  function Writes(st: Store, tenant: string, want: Silence, since: int, form: Form, rs: seq<Round>): nat
    requires ValidRounds(st, tenant, want, since, form, rs)
    decreases |rs|
  {
    if rs == [] then 0
    else
      (if RoundPlan(st, tenant, want, rs[0]).Nothing? then 0 else 1)
      + Writes(Sync(st, tenant, want, rs[0]), tenant, want, rs[0].now, form, rs[1..])
  }

  /** Any number of further syncs of the same silence write nothing at all if it is echoed, as long as
      none of them is caught by the silence's end between its two looks at the clock. */
  lemma {:induction false} Quiescence(st: Store, tenant: string, want: Silence, r: Round, rs: seq<Round>)
    requires ValidStore(st) && UniqueAt(st, r.now, Name(tenant, want.comment))
    requires ValidRound(st, tenant, want, r) && Echoes(st, tenant, want, r)
    requires ValidRounds(Sync(st, tenant, want, r), tenant, want, r.now, FormOf(r), rs)
    requires forall q | q in rs :: !(q.asOf < want.endsAt <= q.now)
    ensures Writes(Sync(st, tenant, want, r), tenant, want, r.now, FormOf(r), rs) == 0
    decreases |rs|
  {
    if rs != [] {
      assert rs[0] in rs;
      SyncThenNothing(st, tenant, want, r, rs[0]);
      SyncKeepsStore(st, tenant, want, r);
      Quiescence(Sync(st, tenant, want, r), tenant, want, rs[0], rs[1..]);
    }
  }

  /** While the silence lasts, syncs that follow one another write nothing exactly if it is echoed; otherwise every
      single one of them writes it again. */
  lemma {:induction false} QuiescenceExactly(st: Store, tenant: string, want: Silence, r: Round, rs: seq<Round>)
    requires ValidStore(st) && UniqueAt(st, r.now, Name(tenant, want.comment))
    requires ValidRound(st, tenant, want, r)
    requires ValidRounds(Sync(st, tenant, want, r), tenant, want, r.now, FormOf(r), rs)
    requires forall q | q in rs :: q.now < want.endsAt
    ensures Writes(Sync(st, tenant, want, r), tenant, want, r.now, FormOf(r), rs) ==
            if Echoes(st, tenant, want, r) then 0 else |rs|
    decreases |rs|
  {
    if rs != [] {
      assert rs[0] in rs;
      NextPlan(st, tenant, want, r, rs[0]);
      SyncKeepsStore(st, tenant, want, r);
      QuiescenceExactly(Sync(st, tenant, want, r), tenant, want, rs[0], rs[1..]);
    }
  }

  /** The form in which a server returns matchers that answers null with an empty list. */
  function NullAsEmpty(ms: GoSlice<Matcher>): GoSlice<Matcher> {
    Slice(Elems(ms))
  }

  /** With such a server a silence without matchers is written by every sync, any other by the first at most. */
  lemma NilMatchersExactly(st: Store, tenant: string, want: Silence, r: Round, rs: seq<Round>)
    requires ValidStore(st) && UniqueAt(st, r.now, Name(tenant, want.comment))
    requires ValidRound(st, tenant, want, r) && KeepsEnd(want, r) && r.kept.matchers == NullAsEmpty(want.matchers)
    requires !RoundPlan(st, tenant, want, r).Nothing?
    requires ValidRounds(Sync(st, tenant, want, r), tenant, want, r.now, FormOf(r), rs)
    requires forall q | q in rs :: q.now < want.endsAt
    ensures Writes(Sync(st, tenant, want, r), tenant, want, r.now, FormOf(r), rs) ==
            if want.matchers.NilSlice? then |rs| else 0
  {
    QuiescenceExactly(st, tenant, want, r, rs);
  }

  lemma SyncKeepsStore(st: Store, tenant: string, want: Silence, r: Round)
    requires ValidStore(st) && UniqueAt(st, r.now, Name(tenant, want.comment)) && ValidRound(st, tenant, want, r)
    ensures var st' := Sync(st, tenant, want, r);
            ValidStore(st') && forall later | r.now <= later :: UniqueAt(st', later, Name(tenant, want.comment))
  {
    var st', w := Sync(st, tenant, want, r), RoundPlan(st, tenant, want, r);
    assert ValidStore(st');
    forall later, x: Slot, y: Slot | r.now <= later && x.tenant == y.tenant == tenant &&
                         Holds(st', later, x, want.comment) && Holds(st', later, y, want.comment)
      ensures x == y
    {
      var z := Slot(tenant, r.newId);
      assert x == z || Holds(st, r.now, x, want.comment);
      assert y == z || Holds(st, r.now, y, want.comment);
    }
  }

  // ---- What is muted ----

  /** The silence, or what it does, has begun and is not over. */
  predicate Active(at: int, startsAt: int, endsAt: int) {
    startsAt <= at < endsAt
  }

  /** An alert is muted under a name if one of the silences active there matches. */
  predicate Muted(st: Store, at: int, n: Name, labels: map<string, string>, regex: (string, string) -> bool) {
    exists e | e in View(st, at, n) :: Active(at, e.startsAt, e.endsAt) && Mutes(e.matchers, labels, regex)
  }

  /** Alertmanager keeps matchers and end, and the start too unless it is past, which may become the present. */
  predicate Faithful(want: Silence, r: Round) {
    && r.kept.matchers == want.matchers && KeepsEnd(want, r)
    && (r.kept.startsAt == want.startsAt || (r.kept.startsAt <= r.now && want.startsAt <= r.now))
  }

  /** The sync leaves a silence as it is that starts, as seen at this time, on the other side of the wanted start. */
  predicate StartIgnored(st: Store, tenant: string, want: Silence, r: Round, at: int)
    requires ValidRound(st, tenant, want, r)
  {
    && RoundPlan(st, tenant, want, r).Nothing? && r.found.Some?
    && var stored := st.entries[Slot(tenant, r.found.value)];
       (stored.startsAt <= at) != (want.startsAt <= at)
  }

  /** Once the sync is through, an alert the silence matches is muted under the name exactly as asked for, from
      start to end, if and only if no update was skipped that would have moved the start across the time asked
      about; other alerts never are muted. */
  lemma SyncMutesExactly(st: Store, tenant: string, want: Silence, r: Round, at: int,
                         labels: map<string, string>, regex: (string, string) -> bool)
    requires ValidStore(st) && UniqueAt(st, r.now, Name(tenant, want.comment))
    requires ValidRound(st, tenant, want, r) && r.now <= at && Faithful(want, r)
    ensures var muted := Muted(Sync(st, tenant, want, r), at, Name(tenant, want.comment), labels, regex);
            && (muted ==> at < want.endsAt && Mutes(want.matchers, labels, regex))
            && (at < want.endsAt && Mutes(want.matchers, labels, regex) ==>
                  ((muted <==> Active(at, want.startsAt, want.endsAt)) <==> !StartIgnored(st, tenant, want, r, at)))
  {
    var mine, left := Name(tenant, want.comment), Left(st, tenant, want, r);
    SyncLeaves(st, tenant, want, r, at, mine);
    assert left.Some? ==> left.value.matchers == want.matchers && left.value.endsAt == want.endsAt;
    assert left.Some? ==> EffectOf(left.value) in {EffectOf(left.value)};
  }

  /** A new start alone is never written: for every silence that is active now there is a store, with the same
      silence due to start later, in which a sync decides to do nothing and no alert is muted before that. */
  lemma StartEditIsLost(tenant: string, id: string, want: Silence, now: int, later: int) returns (st: Store, r: Round)
    requires id != "" && Active(now, want.startsAt, want.endsAt) && now < later
    ensures ValidStore(st) && ValidRound(st, tenant, want, r) && r.asOf == r.now == now && Faithful(want, r)
    ensures UniqueAt(st, now, Name(tenant, want.comment))
    ensures Slot(tenant, id) in st.entries && st.entries[Slot(tenant, id)] == want.(startsAt := later)
    ensures RoundPlan(st, tenant, want, r).Nothing? && Sync(st, tenant, want, r) == st
    ensures forall at, labels, regex | now <= at < later :: !Muted(st, at, Name(tenant, want.comment), labels, regex)
  {
    var x := Slot(tenant, id);
    st := Store(map[x := want.(startsAt := later)], map[x := want.comment]);
    r := Round(now, now, Some(id), id, want);
  }

  // ---- Calls without failures and interference ----

  lemma CalmSyncUpdates(st: Store, st': Store, now: int, tenant: string, want: Silence)
    requires ValidStore(st) && UniqueAt(st, now, Name(tenant, want.comment))
    requires SyncedCalmly(st, st', now, tenant, want)
    ensures Updated(st, st', now, Name(tenant, want.comment), Some(want))
  {
    var found :| && Lookup(st, now, tenant, want.comment, found)
                 && var w := Plan(ExistingAt(st, tenant, found), want, now);
                    if w.Create? || w.Update? then Executed(st, st', tenant, want, w)
                    else st' == Execute(st, tenant, want, w, "");
    var w := Plan(ExistingAt(st, tenant, found), want, now);
    var newId :| if w.Create? || w.Update? then ExecutedAs(st, st', tenant, want, w, newId) else newId == "";
    forall at, n | now <= at
      ensures View(st', at, n) == if n != Name(tenant, want.comment) then View(st, at, n)
                                  else if Live(at, want) then Settled(View(st, now, n), want, want) else {}
    {
      SyncRefines(st, tenant, want, Round(now, now, found, newId, want), at, n);
    }
  }

  lemma CalmDeleteUpdates(st: Store, st': Store, now: int, tenant: string, comment: string)
    requires ValidStore(st) && UniqueAt(st, now, Name(tenant, comment))
    requires forall x | x in st.entries && st.entries[x].comment == comment :: st.entries[x].createdBy == CREATED_BY
    requires DeletedCalmly(st, st', now, tenant, comment)
    ensures Updated(st, st', now, Name(tenant, comment), None)
  {
    var found :| LookupOwn(st, now, tenant, comment, found)
                 && st' == if found.Some? then Drop(st, Slot(tenant, found.value)) else st;
    forall at, n | now <= at ensures View(st', at, n) == if n != Name(tenant, comment) then View(st, at, n) else {} {
      DeleteRefines(st, now, tenant, comment, found, at, n);
    }
  }
}
