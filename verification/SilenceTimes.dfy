/** When a silence starts and ends: the priority chain of v1alpha2, and v1alpha1, which it extends. */
module SilenceTimes {
  import opened Wrappers
  import opened Types
  import opened Calendar
  import opened TimeFormat
  import opened Duration

  const VALID_UNTIL := "valid-until"

  /** Go's zero time. */
  const ZERO_TIME := DateTime(Date(1, 1, 1), 0)

  function AddYearsTo(t: DateTime, years: int): DateTime {
    DateTime(AddYears(t.date, years), t.second)
  }

  /** The annotation as a date-time, else as a date, which means eight in the morning UTC; without an
      annotation a hundred years after creation. */
  function SilenceEndsAt(meta: Meta): Result<int, string> {
    if VALID_UNTIL !in meta.annotations then Ok(Instant(AddYearsTo(meta.creation, 100)))
    else
      var value := meta.annotations[VALID_UNTIL];
      var exact := ParseRFC3339(value);
      if exact.Some? then Ok(exact.value)
      else
        var date := ParseDateOnly(value);
        if date.Some? then Ok(Instant(DateTime(date.value, 8 * 3600)))
        else Err("annotation does not match the expected formats")
  }

  datatype Window = Window(startsAt: int, endsAt: int)

  function V1Times(meta: Meta): Result<Window, string> {
    var endsAt := SilenceEndsAt(meta);
    if endsAt.Err? then Err(endsAt.error) else Ok(Window(Instant(meta.creation), endsAt.value))
  }

  /** `calculateSilenceTimes`: explicit times first, then the duration, then as in v1alpha1. */
  function V2Times(cr: CR): Result<Window, string>
    requires cr.V2?
  {
    if cr.startsAt.None? && cr.meta.creation == ZERO_TIME then Err("creationTimestamp is zero")
    else
      var startsAt := if cr.startsAt.Some? then cr.startsAt.value else Instant(cr.meta.creation);
      if cr.endsAt.Some? then Ok(Window(startsAt, cr.endsAt.value))
      else if cr.duration.Some? then
        var d := ParseDuration(cr.duration.value);
        if d.Err? then Err(d.error) else Ok(Window(startsAt, startsAt + d.value * NANOS))
      else
        var endsAt := SilenceEndsAt(cr.meta);
        if endsAt.Err? then Err(endsAt.error) else Ok(Window(startsAt, endsAt.value))
  }

  /** Without an annotation a silence outlasts its creation by 36524 or 36525 whole days. */
  lemma DefaultEnd(meta: Meta)
    requires ValidDateTime(meta.creation) && VALID_UNTIL !in meta.annotations
    ensures SilenceEndsAt(meta).Ok?
    ensures SilenceEndsAt(meta).value - Instant(meta.creation) ==
            (if CenturyAhead(meta.creation.date) % 400 == 0 then 36525 else 36524) * DAY_SECONDS * NANOS
  {
    HundredYears(meta.creation.date);
  }

  /** What an annotation means: a date-time is the end, a date is the end at eight in the morning UTC, and anything
      else is an error. */
  lemma AnnotationMeans(meta: Meta, t: int, d: Date)
    requires VALID_UNTIL in meta.annotations
    ensures var v := meta.annotations[VALID_UNTIL];
            && (SilenceEndsAt(meta) == Ok(t) <==>
                  ParseRFC3339(v) == Some(t) || ParseRFC3339(v + "T08:00:00Z") == Some(t))
            && (ParseDateOnly(v) == Some(d) ==> SilenceEndsAt(meta) == Ok(Instant(DateTime(d, 8 * 3600))))
            && (SilenceEndsAt(meta).Err? <==> ParseRFC3339(v).None? && ParseDateOnly(v).None?)
  {
    FormatsAreDisjoint(meta.annotations[VALID_UNTIL]);
    DateAtEight(meta.annotations[VALID_UNTIL]);
  }

  /** The formats may be tried in either order. */
  lemma FormatOrderIsIrrelevant(meta: Meta)
    requires VALID_UNTIL in meta.annotations
    ensures var value := meta.annotations[VALID_UNTIL];
            SilenceEndsAt(meta).Ok? && ParseDateOnly(value).Some? ==>
              && SilenceEndsAt(meta) == Ok(Instant(DateTime(ParseDateOnly(value).value, 8 * 3600)))
              && ParseRFC3339(value + EIGHT_OCLOCK) == Some(SilenceEndsAt(meta).value)
  {
    FormatsAreDisjoint(meta.annotations[VALID_UNTIL]);
    DateAtEight(meta.annotations[VALID_UNTIL]);
  }

  /** v1alpha2 extends v1alpha1 conservatively: for an object without times of its own both give the same
      start, end or error, whatever the annotation, exactly if it has a creation time. */
  lemma ConservativeExtension(cr: CR)
    requires cr.V2? && cr.startsAt.None? && cr.endsAt.None? && cr.duration.None?
    ensures V2Times(cr) == V1Times(cr.meta) <==> cr.meta.creation != DateTime(Date(1, 1, 1), 0)
  {
  }

  /** With an end or a duration in the spec the annotation has no say, not even a malformed one; with an end,
      neither has the duration. */
  lemma LowerPrioritiesAreIgnored(cr: CR, annotations: map<string, string>, duration: Option<string>)
    requires cr.V2? && (cr.endsAt.Some? || cr.duration.Some?)
    ensures var meta := cr.meta.(annotations := annotations);
            && V2Times(V2(meta, cr.v2Matchers, cr.startsAt, cr.endsAt, cr.duration)) == V2Times(cr)
            && (cr.endsAt.Some? ==> V2Times(V2(meta, cr.v2Matchers, cr.startsAt, cr.endsAt, duration)) == V2Times(cr))
  {
  }

  /** What the cross-field rules and the pattern of the resource definition admit. */
  predicate Admitted(cr: CR)
    requires cr.V2?
  {
    && !(cr.endsAt.Some? && cr.duration.Some?)
    && (cr.startsAt.Some? && cr.endsAt.Some? ==> cr.startsAt.value < cr.endsAt.value)
    && (cr.duration.Some? ==> Accepts(PATTERN, cr.duration.value))
  }

  /** Where the end comes from, there can be an error: no end and a duration too long for an int64, or neither and
      an annotation in no known format. Besides there must be a start. */
  predicate NoTimes(cr: CR)
    requires cr.V2?
  {
    || (cr.startsAt.None? && cr.meta.creation == ZERO_TIME)
    || (cr.endsAt.None? && cr.duration.Some? && ParseDuration(cr.duration.value).Err?)
    || (cr.endsAt.None? && cr.duration.None? && SilenceEndsAt(cr.meta).Err?)
  }

  /** An explicit end comes after the start exactly if the start is explicit too, which is the only case the
      validation rule compares, or the object was created before it. */
  lemma ExplicitEnd(cr: CR)
    requires cr.V2? && V2Times(cr).Ok? && cr.endsAt.Some?
    ensures V2Times(cr).value.endsAt == cr.endsAt.value
    ensures Admitted(cr) ==>
              (V2Times(cr).value.startsAt < V2Times(cr).value.endsAt <==>
                 cr.startsAt.Some? || Instant(cr.meta.creation) < cr.endsAt.value)
  {
  }

  /** Without end and duration the end is that of v1alpha1, whatever the start. */
  lemma EndFromAnnotation(cr: CR, t: int)
    requires cr.V2? && cr.endsAt.None? && cr.duration.None? && (cr.startsAt.Some? || cr.meta.creation != ZERO_TIME)
    ensures V2Times(cr).Ok? <==> V1Times(cr.meta).Ok?
    ensures V2Times(cr).Ok? ==> V2Times(cr).value.endsAt == V1Times(cr.meta).value.endsAt
    ensures VALID_UNTIL in cr.meta.annotations ==>
              var v := cr.meta.annotations[VALID_UNTIL];
              (V2Times(cr).Ok? && V2Times(cr).value.endsAt == t <==>
                 ParseRFC3339(v) == Some(t) || ParseRFC3339(v + "T08:00:00Z") == Some(t))
  {
    if VALID_UNTIL in cr.meta.annotations {
      AnnotationMeans(cr.meta, t, cr.meta.creation.date);
    }
  }

  /** With a duration the window has its length; it is empty exactly if all digits are 0, and the only error is a
      duration of more than 9223372036 seconds. */
  lemma WindowOfDuration(cr: CR)
    requires cr.V2? && Admitted(cr) && cr.duration.Some? && (cr.startsAt.Some? || cr.meta.creation != ZERO_TIME)
    ensures exists amounts :: && IsRendering(cr.duration.value, amounts, 0)
                              && (V2Times(cr).Ok? <==> Seconds(amounts) <= 9_223_372_036)
                              && (V2Times(cr).Ok? ==> V2Times(cr).value.endsAt ==
                                                      V2Times(cr).value.startsAt + Seconds(amounts) * NANOS)
    ensures V2Times(cr).Ok? ==>
              && V2Times(cr).value.startsAt <= V2Times(cr).value.endsAt
              && (V2Times(cr).value.startsAt < V2Times(cr).value.endsAt <==> HasNonzero(cr.duration.value))
  {
    var s := cr.duration.value;
    PatternLanguage(s);
    var amounts :| amounts != [] && IsRendering(s, amounts, 0);
    ParseInvertsRender(s, 0, amounts);
    SecondsPositive(amounts, 0);
    assert s != "";
  }

  /** The window of an admitted object: it is missing exactly for the errors above, starts as given or with the
      object, and is not empty exactly if its end, wherever it comes from, says so. */
  lemma AdmittedWindow(cr: CR)
    requires cr.V2? && Admitted(cr)
    ensures V2Times(cr).Err? <==> NoTimes(cr)
    ensures V2Times(cr).Ok? ==>
              V2Times(cr).value.startsAt == if cr.startsAt.Some? then cr.startsAt.value else Instant(cr.meta.creation)
    ensures V2Times(cr).Ok? ==>
              (V2Times(cr).value.startsAt < V2Times(cr).value.endsAt <==>
                 if cr.endsAt.Some? then cr.startsAt.Some? || Instant(cr.meta.creation) < cr.endsAt.value
                 else if cr.duration.Some? then HasNonzero(cr.duration.value)
                 else V2Times(cr).value.startsAt < SilenceEndsAt(cr.meta).value)
  {
    if V2Times(cr).Ok? {
      if cr.endsAt.Some? {
        ExplicitEnd(cr);
      } else if cr.duration.Some? {
        WindowOfDuration(cr);
      }
    }
  }

  /** The default end is never before the start of the object it belongs to. */
  lemma DefaultWindow(cr: CR)
    requires cr.V2? && cr.startsAt.None? && cr.endsAt.None? && cr.duration.None?
    requires ValidDateTime(cr.meta.creation) && cr.meta.creation != ZERO_TIME && VALID_UNTIL !in cr.meta.annotations
    ensures V2Times(cr).Ok? && V2Times(cr).value.startsAt < V2Times(cr).value.endsAt
  {
    DefaultEnd(cr.meta);
  }

  /** Two objects the rules admit although their silence mutes nothing: one of no duration, and one that ends before
      it was created. */
  lemma AdmittedButEmpty(meta: Meta, matchers: seq<V2Matcher>, endsAt: int)
    requires meta.creation != ZERO_TIME && endsAt < Instant(meta.creation)
    ensures var cr := V2(meta, matchers, None, None, Some("0s"));
            Admitted(cr) && V2Times(cr).Ok? && V2Times(cr).value.startsAt == V2Times(cr).value.endsAt
    ensures var cr := V2(meta, matchers, None, Some(endsAt), None);
            Admitted(cr) && V2Times(cr).Ok? && V2Times(cr).value.startsAt > V2Times(cr).value.endsAt
  {
    ZeroSeconds();
    PatternLanguage("0s");
    ParseInvertsRender("0s", 0, [Amount("0", 4)]);
  }
}
