/** From custom resources to Alertmanager silences. */
module Conversion {
  import opened Wrappers
  import opened Types
  import opened AlertStore
  import opened Muting
  import opened Calendar
  import opened TimeFormat
  import opened Duration
  import opened SilenceTimes
  import opened Comments

  const MATCH_EQUAL := "="
  const MATCH_NOT_EQUAL := "!="
  const MATCH_REGEX := "=~"
  const MATCH_NOT_REGEX := "!~"

  // ---- Matchers ----

  function ConvertMatcher(m: V2Matcher): Result<Matcher, string> {
    var matchType := if m.matchType == "" then MATCH_EQUAL else m.matchType;
    if matchType == MATCH_EQUAL then Ok(Matcher(false, true, m.name, m.value))
    else if matchType == MATCH_NOT_EQUAL then Ok(Matcher(false, false, m.name, m.value))
    else if matchType == MATCH_REGEX then Ok(Matcher(true, true, m.name, m.value))
    else if matchType == MATCH_NOT_REGEX then Ok(Matcher(true, false, m.name, m.value))
    else Err("unsupported match type: " + matchType)
  }

  /** Appending to a nil slice gives a slice of one element. */
  function AppendTo<T>(s: GoSlice<T>, x: T): GoSlice<T> {
    Slice(Elems(s) + [x])
  }

  function ConvertMatchers(ms: seq<V2Matcher>): Result<GoSlice<Matcher>, string> {
    if ms == [] then Ok(NilSlice)
    else
      var before, last := ConvertMatchers(ms[..|ms| - 1]), ConvertMatcher(ms[|ms| - 1]);
      if before.Err? then before
      else if last.Err? then Err(last.error)
      else Ok(AppendTo(before.value, last.value))
  }

  /** The loop over the matchers stops at the first that cannot be converted. */
  method ConvertMatchersInOrder(ms: seq<V2Matcher>) returns (r: Result<GoSlice<Matcher>, string>)
    ensures r == ConvertMatchers(ms)
  {
    var matchers: GoSlice<Matcher> := NilSlice;
    for i := 0 to |ms|
      invariant ConvertMatchers(ms[..i]) == Ok(matchers)
    {
      assert ms[..i + 1][..i] == ms[..i];
      var m := ConvertMatcher(ms[i]);
      if m.Err? {
        ErrorStays(ms, i + 1);
        return Err(m.error);
      }
      matchers := AppendTo(matchers, m.value);
    }
    assert ms[..|ms|] == ms;
    return Ok(matchers);
  }

  lemma {:induction false} ErrorStays(ms: seq<V2Matcher>, n: nat)
    requires n <= |ms| && ConvertMatchers(ms[..n]).Err?
    ensures ConvertMatchers(ms) == ConvertMatchers(ms[..n])
  {
    if n == |ms| {
      assert ms[..n] == ms;
    } else {
      assert ms[..|ms| - 1][..n] == ms[..n];
      ErrorStays(ms[..|ms| - 1], n);
    }
  }

  predicate Supported(matchType: string) {
    matchType in {"", "=", "!=", "=~", "!~"}
  }

  /** What the match types promise, said without the two booleans. */
  predicate PromisedMatch(m: V2Matcher, labels: map<string, string>, regex: (string, string) -> bool) {
    var v := if m.name in labels then labels[m.name] else "";
    if m.matchType == "!=" then v != m.value
    else if m.matchType == "=~" then regex(m.value, v)
    else if m.matchType == "!~" then !regex(m.value, v)
    else v == m.value
  }

  /** The conversion fails exactly on an unsupported match type; otherwise it keeps number and order of the
      matchers, with names and values, and is nil only for none. */
  lemma {:induction false} ConversionShape(ms: seq<V2Matcher>)
    ensures ConvertMatchers(ms).Ok? <==> forall m | m in ms :: Supported(m.matchType)
    ensures ConvertMatchers(ms).Ok? ==>
              var r := ConvertMatchers(ms).value;
              && |Elems(r)| == |ms| && (r.NilSlice? <==> ms == [])
              && (forall i | 0 <= i < |ms| :: Ok(Elems(r)[i]) == ConvertMatcher(ms[i]))
  {
    if ms != [] {
      var before, last := ms[..|ms| - 1], ms[|ms| - 1];
      assert ms == before + [last];
      ConversionShape(before);
      assert ConvertMatcher(last).Ok? <==> Supported(last.matchType);
    }
  }

  lemma MatcherKeepsPromise(m: V2Matcher, labels: map<string, string>, regex: (string, string) -> bool)
    requires ConvertMatcher(m).Ok?
    ensures Matches(ConvertMatcher(m).value, labels, regex) <==> PromisedMatch(m, labels, regex)
  {
  }

  /** The converted matchers mute exactly the alerts the match types promise. */
  lemma ConversionKeepsPromise(ms: seq<V2Matcher>, labels: map<string, string>, regex: (string, string) -> bool)
    requires ConvertMatchers(ms).Ok?
    ensures Mutes(ConvertMatchers(ms).value, labels, regex) <==> forall m | m in ms :: PromisedMatch(m, labels, regex)
  {
    var r := Elems(ConvertMatchers(ms).value);
    ConversionShape(ms);
    forall i | 0 <= i < |ms| ensures Matches(r[i], labels, regex) <==> PromisedMatch(ms[i], labels, regex) {
      MatcherKeepsPromise(ms[i], labels, regex);
    }
  }

  function ConvertV1Matcher(m: V1Matcher): Matcher {
    Matcher(m.isRegex, if m.isEqual.Some? then m.isEqual.value else true, m.name, m.value)
  }

  function ConvertV1Matchers(ms: seq<V1Matcher>): GoSlice<Matcher> {
    if ms == [] then NilSlice else AppendTo(ConvertV1Matchers(ms[..|ms| - 1]), ConvertV1Matcher(ms[|ms| - 1]))
  }

  method ConvertV1MatchersInOrder(ms: seq<V1Matcher>) returns (matchers: GoSlice<Matcher>)
    ensures matchers == ConvertV1Matchers(ms)
  {
    matchers := NilSlice;
    for i := 0 to |ms|
      invariant matchers == ConvertV1Matchers(ms[..i])
    {
      assert ms[..i + 1][..i] == ms[..i];
      matchers := AppendTo(matchers, ConvertV1Matcher(ms[i]));
    }
    assert ms[..|ms|] == ms;
  }

  /** What the two booleans of v1alpha1 promise; `isEqual` is true unless it says otherwise. */
  predicate PromisedV1Match(m: V1Matcher, labels: map<string, string>, regex: (string, string) -> bool) {
    var v := if m.name in labels then labels[m.name] else "";
    var hit := if m.isRegex then regex(m.value, v) else v == m.value;
    if m.isEqual == Some(false) then !hit else hit
  }

  lemma {:induction false} V1OneByOne(ms: seq<V1Matcher>)
    ensures var r := ConvertV1Matchers(ms);
            && |Elems(r)| == |ms| && (r.NilSlice? <==> ms == [])
            && (forall i | 0 <= i < |ms| :: Elems(r)[i] == ConvertV1Matcher(ms[i]))
  {
    if ms != [] {
      V1OneByOne(ms[..|ms| - 1]);
    }
  }

  /** The converted v1alpha1 matchers mute exactly the alerts their booleans promise. */
  lemma V1ConversionKeepsPromise(ms: seq<V1Matcher>, labels: map<string, string>, regex: (string, string) -> bool)
    ensures Mutes(ConvertV1Matchers(ms), labels, regex) <==> forall m | m in ms :: PromisedV1Match(m, labels, regex)
  {
    var r := Elems(ConvertV1Matchers(ms));
    V1OneByOne(ms);
    forall i | 0 <= i < |ms| ensures Matches(r[i], labels, regex) <==> PromisedV1Match(ms[i], labels, regex) {
      assert r[i] == ConvertV1Matcher(ms[i]);
    }
  }

  // ---- Silences ----

  /** Both `getSilenceFromCR`. */
  function GetSilenceFromCR(k: Key, cr: CR): Result<Silence, string> {
    match cr
    case V1(meta, ms) =>
      var times := V1Times(meta);
      if times.Err? then Err(times.error)
      else Ok(Silence(CommentOf(k), CREATED_BY, times.value.startsAt, times.value.endsAt, ConvertV1Matchers(ms)))
    case V2(_, ms, _, _, _) =>
      var matchers, times := ConvertMatchers(ms), V2Times(cr);
      if matchers.Err? then Err(matchers.error)
      else if times.Err? then Err(times.error)
      else Ok(Silence(CommentOf(k), CREATED_BY, times.value.startsAt, times.value.endsAt, matchers.value))
  }

  /** A v1alpha1 object gets a silence exactly if its annotation, if any, can be read. It starts with the object, ends
      when the annotation says or after a hundred years, and mutes what the matchers promise. */
  lemma V1SilenceExactly(k: Key, meta: Meta, ms: seq<V1Matcher>, labels: map<string, string>,
                         regex: (string, string) -> bool)
    ensures var r := GetSilenceFromCR(k, V1(meta, ms));
            && (r.Err? <==> VALID_UNTIL in meta.annotations && ParseRFC3339(meta.annotations[VALID_UNTIL]).None?
                            && ParseDateOnly(meta.annotations[VALID_UNTIL]).None?)
            && (r.Ok? ==>
                  && r.value.comment == CommentOf(k) && r.value.createdBy == CREATED_BY
                  && r.value.startsAt == Instant(meta.creation)
                  && (VALID_UNTIL !in meta.annotations ==>
                        r.value.endsAt == Instant(DateTime(AddYears(meta.creation.date, 100), meta.creation.second)))
                  && (VALID_UNTIL in meta.annotations ==>
                        var v := meta.annotations[VALID_UNTIL];
                        || ParseRFC3339(v) == Some(r.value.endsAt)
                        || ParseRFC3339(v + "T08:00:00Z") == Some(r.value.endsAt))
                  && |Elems(r.value.matchers)| == |ms|
                  && (Mutes(r.value.matchers, labels, regex) <==>
                        forall m | m in ms :: PromisedV1Match(m, labels, regex)))
  {
    V1OneByOne(ms);
    V1ConversionKeepsPromise(ms, labels, regex);
    if VALID_UNTIL in meta.annotations {
      var end := SilenceEndsAt(meta);
      AnnotationMeans(meta, if end.Ok? then end.value else 0, meta.creation.date);
    }
  }

  /** A v1alpha2 object gets a silence exactly if all match types are supported and nothing is wrong with its times. It
      starts and ends when the object says: explicitly, or with the object, or after the duration, or, failing these,
      as the v1alpha1 object with the same metadata would; and mutes what the match types promise. */
  lemma V2SilenceExactly(k: Key, cr: CR, labels: map<string, string>, regex: (string, string) -> bool)
    requires cr.V2?
    ensures var r := GetSilenceFromCR(k, cr);
            && (r.Ok? <==> (forall m | m in cr.v2Matchers :: Supported(m.matchType)) && !NoTimes(cr))
            && (r.Ok? ==>
                  && r.value.comment == CommentOf(k) && r.value.createdBy == CREATED_BY
                  && r.value.startsAt == (if cr.startsAt.Some? then cr.startsAt.value else Instant(cr.meta.creation))
                  && (cr.endsAt.Some? ==> r.value.endsAt == cr.endsAt.value)
                  && (cr.endsAt.None? && cr.duration.Some? ==>
                        ParseDuration(cr.duration.value) == Ok((r.value.endsAt - r.value.startsAt) / 1_000_000_000)
                        && (r.value.endsAt - r.value.startsAt) % 1_000_000_000 == 0)
                  && (cr.endsAt.None? && cr.duration.None? ==>
                        GetSilenceFromCR(k, V1(cr.meta, [])).Ok?
                        && r.value.endsAt == GetSilenceFromCR(k, V1(cr.meta, [])).value.endsAt)
                  && |Elems(r.value.matchers)| == |cr.v2Matchers|
                  && (Mutes(r.value.matchers, labels, regex) <==>
                        forall m | m in cr.v2Matchers :: PromisedMatch(m, labels, regex)))
  {
    ConversionShape(cr.v2Matchers);
    if ConvertMatchers(cr.v2Matchers).Ok? {
      ConversionKeepsPromise(cr.v2Matchers, labels, regex);
    }
  }
}
