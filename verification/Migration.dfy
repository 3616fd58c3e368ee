/** The migration script: v1alpha1 objects become v1alpha2 objects in a target namespace. */
module Migration {
  import opened Wrappers
  import opened Types
  import opened Calendar
  import opened Muting
  import opened SilenceTimes
  import opened Comments
  import opened Tenancy
  import opened Conversion

  // ---- Matchers ----

  /** A JSON field that should hold a boolean. */
  datatype JsonBool = Absent | Null | Bool(value: bool)

  /** A v1alpha1 matcher as JSON. */
  datatype JsonMatcher = JsonMatcher(name: string, value: string, isRegex: JsonBool, isEqual: JsonBool)

  /** How the v1alpha1 controller reads it: null is absent. */
  function Decode(m: JsonMatcher): V1Matcher {
    V1Matcher(m.isRegex == Bool(true), if m.isEqual.Bool? then Some(m.isEqual.value) else None, m.name, m.value)
  }

  function DecodeAll(ms: seq<JsonMatcher>): seq<V1Matcher> {
    if ms == [] then [] else DecodeAll(ms[..|ms| - 1]) + [Decode(ms[|ms| - 1])]
  }

  /** What a shell variable holds of the output of a command: trailing newlines are gone. */
  function Captured(s: string): string {
    if s != "" && s[|s| - 1] == '\n' then Captured(s[..|s| - 1]) else s
  }

  /** The text jq prints for `isEqual`; an absent field reads as true, a null one as null. */
  function EqualText(b: JsonBool): string {
    match b
    case Absent => "true"
    case Null => "null"
    case Bool(v) => if v then "true" else "false"
  }

  /** `convert_matcher_to_enum`: a case over both fields, with `=` as the fallback. */
  function ConvertToEnum(m: JsonMatcher): V2Matcher {
    var isRegex, isEqual := m.isRegex == Bool(true), EqualText(m.isEqual);
    var matchType :=
      if !isRegex && isEqual == "true" then MATCH_EQUAL
      else if !isRegex && isEqual == "false" then MATCH_NOT_EQUAL
      else if isRegex && isEqual == "true" then MATCH_REGEX
      else if isRegex && isEqual == "false" then MATCH_NOT_REGEX
      else MATCH_EQUAL;
    V2Matcher(Captured(m.name), Captured(m.value), matchType)
  }

  function ConvertAll(ms: seq<JsonMatcher>): seq<V2Matcher> {
    if ms == [] then [] else ConvertAll(ms[..|ms| - 1]) + [ConvertToEnum(ms[|ms| - 1])]
  }

  predicate EndsInNewline(s: string) {
    s != "" && s[|s| - 1] == '\n'
  }

  /** The script can carry the matcher over: no trailing newline, and no regex with a null `isEqual`. The latter
      is malformed input: the field is not nullable, so a cluster does not hand out such an object. */
  predicate Portable(m: JsonMatcher) {
    !EndsInNewline(m.name) && !EndsInNewline(m.value) && !(m.isRegex == Bool(true) && m.isEqual.Null?)
  }

  lemma {:induction false} CapturedShortens(s: string)
    ensures Captured(s) <= s && !EndsInNewline(Captured(s)) && (Captured(s) == s <==> !EndsInNewline(s))
    ensures forall i | |Captured(s)| <= i < |s| :: s[i] == '\n'
  {
    if EndsInNewline(s) {
      CapturedShortens(s[..|s| - 1]);
    }
  }

  /** Migrated and converted, a matcher is what v1alpha1 makes of the original, exactly if it is portable. */
  lemma MatcherSurvivesExactly(m: JsonMatcher)
    ensures ConvertMatcher(ConvertToEnum(m)) == Ok(ConvertV1Matcher(Decode(m))) <==> Portable(m)
    ensures m.isEqual.Null? ==> ConvertToEnum(m).matchType == "="
    ensures ConvertToEnum(m).name == Captured(m.name) && ConvertToEnum(m).value == Captured(m.value)
  {
    CapturedShortens(m.name);
    CapturedShortens(m.value);
  }

  lemma {:induction false} EnumOneByOne(ms: seq<JsonMatcher>)
    ensures |ConvertAll(ms)| == |ms| && forall i | 0 <= i < |ms| :: ConvertAll(ms)[i] == ConvertToEnum(ms[i])
  {
    if ms != [] {
      var before, last := ms[..|ms| - 1], ConvertToEnum(ms[|ms| - 1]);
      EnumOneByOne(before);
      assert ConvertAll(ms) == ConvertAll(before) + [last];
      assert forall i | 0 <= i < |before| :: before[i] == ms[i];
    }
  }

  lemma {:induction false} DecodeOneByOne(ms: seq<JsonMatcher>)
    ensures |DecodeAll(ms)| == |ms| && forall i | 0 <= i < |ms| :: DecodeAll(ms)[i] == Decode(ms[i])
  {
    if ms != [] {
      DecodeOneByOne(ms[..|ms| - 1]);
    }
  }

  lemma EnumIsSupported(m: JsonMatcher)
    ensures Supported(ConvertToEnum(m).matchType)
  {
  }

  /** The matchers of the migrated object, and those of the original. */
  lemma BothConverted(ms: seq<JsonMatcher>)
    ensures ConvertMatchers(ConvertAll(ms)).Ok?
    ensures var a, b := ConvertMatchers(ConvertAll(ms)).value, ConvertV1Matchers(DecodeAll(ms));
            && |Elems(a)| == |Elems(b)| == |ms| && (a.NilSlice? <==> ms == []) && (b.NilSlice? <==> ms == [])
            && (forall i | 0 <= i < |ms| :: Ok(Elems(a)[i]) == ConvertMatcher(ConvertToEnum(ms[i])))
            && (forall i | 0 <= i < |ms| :: Elems(b)[i] == ConvertV1Matcher(Decode(ms[i])))
  {
    EnumOneByOne(ms);
    DecodeOneByOne(ms);
    V1OneByOne(DecodeAll(ms));
    forall m | m in ConvertAll(ms) ensures Supported(m.matchType) {
      var i :| 0 <= i < |ms| && m == ConvertAll(ms)[i];
      EnumIsSupported(ms[i]);
    }
    ConversionShape(ConvertAll(ms));
  }

  /** The same for lists: number and order of the matchers always survive, the matchers themselves exactly if
      each of them is portable. */
  lemma MatchersSurviveExactly(ms: seq<JsonMatcher>)
    ensures ConvertMatchers(ConvertAll(ms)).Ok?
    ensures |Elems(ConvertMatchers(ConvertAll(ms)).value)| == |ms| == |Elems(ConvertV1Matchers(DecodeAll(ms)))|
    ensures ConvertMatchers(ConvertAll(ms)) == Ok(ConvertV1Matchers(DecodeAll(ms))) <==>
            forall m | m in ms :: Portable(m)
  {
    BothConverted(ms);
    var a, b := ConvertMatchers(ConvertAll(ms)).value, ConvertV1Matchers(DecodeAll(ms));
    forall i | 0 <= i < |ms| ensures Elems(a)[i] == Elems(b)[i] <==> Portable(ms[i]) {
      MatcherSurvivesExactly(ms[i]);
    }
    if forall m | m in ms :: Portable(m) {
      assert Elems(a) == Elems(b);
    } else {
      var m :| m in ms && !Portable(m);
      var i :| 0 <= i < |ms| && ms[i] == m;
      assert Elems(a)[i] != Elems(b)[i];
    }
  }

  /** The loop over the matchers, in a subshell at the end of a pipe: what it accumulates is lost with the
      subshell, so the variable of the outer shell, which is what gets shipped, stays empty. */
  method MigrateMatchers(ms: seq<JsonMatcher>) returns (shipped: seq<V2Matcher>, lost: seq<V2Matcher>)
    ensures shipped == [] && lost == ConvertAll(ms)
  {
    var convertedMatchers: seq<V2Matcher> := [];
    var subshell := convertedMatchers;
    for i := 0 to |ms|
      invariant subshell == ConvertAll(ms[..i])
    {
      assert ms[..i + 1][..i] == ms[..i];
      subshell := subshell + [ConvertToEnum(ms[i])];
    }
    assert ms[..|ms|] == ms;
    return convertedMatchers, subshell;
  }

  // ---- Metadata ----

  /** Prefixes of annotation keys that are left behind. */
  const ANNOTATION_PREFIXES: seq<string> := [
    "kubernetes.io", "k8s.io", "config.kubernetes.io", "app.kubernetes.io", "fluxcd.io", "helm.sh",
    "kustomize.toolkit.fluxcd.io", "source.toolkit.fluxcd.io", "meta.helm.sh", "kubectl.kubernetes.io",
    "control-plane.alpha.kubernetes.io", "node.alpha.kubernetes.io", "volume.alpha.kubernetes.io",
    "admission.gke.io", "autopilot.gke.io", "cloud.google.com", "container.googleapis.com"]

  /** Prefixes of label keys that are left behind. */
  const LABEL_PREFIXES: seq<string> := [
    "kubernetes.io", "k8s.io", "app.kubernetes.io", "pod-template-hash", "controller-revision-hash", "fluxcd.io",
    "helm.sh", "kustomize.toolkit.fluxcd.io", "source.toolkit.fluxcd.io", "meta.helm.sh", "kubectl.kubernetes.io",
    "control-plane.alpha.kubernetes.io", "node.alpha.kubernetes.io", "volume.alpha.kubernetes.io",
    "admission.gke.io", "autopilot.gke.io", "cloud.google.com", "container.googleapis.com"]

  /** The tenant label the operator is installed with by default. */
  const DEFAULT_TENANT_LABEL := "observability.giantswarm.io/tenant"

  predicate IsSystemKey(key: string, prefixes: seq<string>) {
    exists i | 0 <= i < |prefixes| :: prefixes[i] <= key
  }

  function UserEntries(m: map<string, string>, prefixes: seq<string>): map<string, string> {
    map key | key in m && !IsSystemKey(key, prefixes) :: m[key]
  }

  /** The filter splits the entries in two, those of the user, which it keeps unchanged, and those with a
      system prefix, of which it keeps none; applied again it changes nothing, and filters in a row act as one. */
  lemma FilterSplits(m: map<string, string>, prefixes: seq<string>, more: seq<string>)
    ensures forall key | key in m :: key in UserEntries(m, prefixes) <==> !IsSystemKey(key, prefixes)
    ensures UserEntries(m, prefixes) == m - (set key | key in m && IsSystemKey(key, prefixes))
    ensures UserEntries(UserEntries(m, prefixes), prefixes) == UserEntries(m, prefixes)
    ensures UserEntries(UserEntries(m, prefixes), more) == UserEntries(m, prefixes + more)
  {
    forall key ensures IsSystemKey(key, prefixes + more) <==> IsSystemKey(key, prefixes) || IsSystemKey(key, more) {
      SystemKeyOfEither(key, prefixes, more);
    }
  }

  lemma SystemKeyOfEither(key: string, prefixes: seq<string>, more: seq<string>)
    ensures IsSystemKey(key, prefixes + more) <==> IsSystemKey(key, prefixes) || IsSystemKey(key, more)
  {
    var all := prefixes + more;
    if i :| 0 <= i < |more| && more[i] <= key {
      assert all[|prefixes| + i] == more[i];
    }
    if i :| 0 <= i < |prefixes| && prefixes[i] <= key {
      assert all[i] == prefixes[i];
    }
  }

  lemma StartsWithPrefix(p: string, rest: string, prefixes: seq<string>)
    requires p in prefixes
    ensures IsSystemKey(p + rest, prefixes)
  {
    var i :| 0 <= i < |prefixes| && prefixes[i] == p;
    assert prefixes[i] <= p + rest;
  }

  lemma ShowsNoPrefix(key: string, prefixes: seq<string>)
    requires forall p | p in prefixes :: |key| < |p| || key[..|p|] != p
    ensures !IsSystemKey(key, prefixes)
  {
    forall i | 0 <= i < |prefixes| ensures !(prefixes[i] <= key) {
      assert prefixes[i] in prefixes;
    }
  }

  /** No annotation or label whose key starts with a system prefix is copied, whatever follows the prefix. */
  lemma SystemEntriesAreLeft(meta: Meta, matchers: seq<V2Matcher>, created: DateTime, p: string, rest: string)
    ensures p in ANNOTATION_PREFIXES ==> p + rest !in Migrated(meta, matchers, created).meta.annotations
    ensures p in LABEL_PREFIXES ==> p + rest !in Migrated(meta, matchers, created).meta.labels
  {
    if p in ANNOTATION_PREFIXES {
      StartsWithPrefix(p, rest, ANNOTATION_PREFIXES);
    }
    if p in LABEL_PREFIXES {
      StartsWithPrefix(p, rest, LABEL_PREFIXES);
    }
  }

  /** Every other annotation is copied as it is: one whose key does not show any of the prefixes at its start. */
  lemma OtherAnnotationsAreCopied(meta: Meta, matchers: seq<V2Matcher>, created: DateTime, key: string)
    requires key in meta.annotations && forall p | p in ANNOTATION_PREFIXES :: |key| < |p| || key[..|p|] != p
    ensures var copied := Migrated(meta, matchers, created).meta.annotations;
            key in copied && copied[key] == meta.annotations[key]
  {
    ShowsNoPrefix(key, ANNOTATION_PREFIXES);
  }

  lemma OtherLabelsAreCopied(meta: Meta, matchers: seq<V2Matcher>, created: DateTime, key: string)
    requires key in meta.labels && forall p | p in LABEL_PREFIXES :: |key| < |p| || key[..|p|] != p
    ensures var copied := Migrated(meta, matchers, created).meta.labels;
            key in copied && copied[key] == meta.labels[key]
  {
    ShowsNoPrefix(key, LABEL_PREFIXES);
  }

  /** The prefixes annotations and labels have in common. */
  predicate CommonPrefix(p: string) {
    p in {"kubernetes.io", "k8s.io", "app.kubernetes.io", "fluxcd.io", "helm.sh", "kustomize.toolkit.fluxcd.io",
          "source.toolkit.fluxcd.io", "meta.helm.sh", "kubectl.kubernetes.io", "control-plane.alpha.kubernetes.io",
          "node.alpha.kubernetes.io", "volume.alpha.kubernetes.io", "admission.gke.io", "autopilot.gke.io",
          "cloud.google.com", "container.googleapis.com"}
  }

  /** Annotations have one more, labels two. */
  lemma ListedPrefixes(p: string)
    ensures p in ANNOTATION_PREFIXES <==> CommonPrefix(p) || p == "config.kubernetes.io"
    ensures p in LABEL_PREFIXES <==> CommonPrefix(p) || p == "pod-template-hash" || p == "controller-revision-hash"
  {
  }

  /** What `kubectl apply` leaves on its objects is not copied. */
  lemma LastAppliedIsLeft(meta: Meta, matchers: seq<V2Matcher>, created: DateTime)
    ensures "kubectl.kubernetes.io" + "/last-applied-configuration" !in
            Migrated(meta, matchers, created).meta.annotations
  {
    ListedPrefixes("kubectl.kubernetes.io");
    SystemEntriesAreLeft(meta, matchers, created, "kubectl.kubernetes.io", "/last-applied-configuration");
  }

  lemma FirstLetters(key: string, prefixes: seq<string>)
    requires |key| >= 2
    requires forall i | 0 <= i < |prefixes| ::
               |prefixes[i]| >= 2 && (prefixes[i][0] != key[0] || prefixes[i][1] != key[1])
    ensures !IsSystemKey(key, prefixes)
  {
  }

  /** The keys the operator itself reads are not system keys. */
  lemma OwnKeysSurvive()
    ensures VALID_UNTIL == "valid-until" && !IsSystemKey("valid-until", ANNOTATION_PREFIXES)
    ensures DEFAULT_TENANT_LABEL == "observability.giantswarm.io/tenant"
    ensures !IsSystemKey("observability.giantswarm.io/tenant", LABEL_PREFIXES)
  {
    FirstLetters(VALID_UNTIL, ANNOTATION_PREFIXES);
    FirstLetters(DEFAULT_TENANT_LABEL, LABEL_PREFIXES);
  }

  /** The new object: the user's metadata, whatever creation time it gets, and no times in its spec. */
  function Migrated(meta: Meta, matchers: seq<V2Matcher>, created: DateTime): CR {
    V2(Meta(UserEntries(meta.labels, LABEL_PREFIXES), UserEntries(meta.annotations, ANNOTATION_PREFIXES), created),
       matchers, None, None, None)
  }

  /** Migration keeps the tenant exactly if the label that decides it is the user's, or its value is what the
      object falls back to anyway. */
  lemma TenantSurvivesExactly(c: Config, meta: Meta, matchers: seq<V2Matcher>, created: DateTime)
    ensures EffectiveTenant(c, Migrated(meta, matchers, created).meta.labels) == EffectiveTenant(c, meta.labels) <==>
            !( DecidingLabel(c, meta.labels).Some? && IsSystemKey(c.labelKey, LABEL_PREFIXES)
               && DecidingLabel(c, meta.labels).value != Fallback(c))
    ensures c.labelKey == DEFAULT_TENANT_LABEL ==>
              EffectiveTenant(c, Migrated(meta, matchers, created).meta.labels) == EffectiveTenant(c, meta.labels)
  {
    OwnKeysSurvive();
    TenantChain(c, meta.labels, Migrated(meta, matchers, created).meta.labels);
    FilterSplits(meta.labels, LABEL_PREFIXES, []);
  }

  /** With a `valid-until` annotation the new object ends when the old one did, or is rejected for the same
      reason, although it was created later. */
  lemma EndSurvives(meta: Meta, matchers: seq<V2Matcher>, created: DateTime)
    requires VALID_UNTIL in meta.annotations
    ensures SilenceEndsAt(Migrated(meta, matchers, created).meta) == SilenceEndsAt(meta)
  {
    OwnKeysSurvive();
  }

  // ---- The whole object ----

  /** With the matchers the script computes, the silence of the migrated object differs from that of the
      original in comment and start at most, provided it has a `valid-until` annotation and its matchers are
      portable; in particular it mutes the same alerts until the same instant. */
  lemma SilenceSurvives(target: string, name: string, meta: Meta, ms: seq<JsonMatcher>, created: DateTime,
                        labels: map<string, string>, regex: (string, string) -> bool)
    requires VALID_UNTIL in meta.annotations && created != ZERO_TIME && forall m | m in ms :: Portable(m)
    ensures var original := GetSilenceFromCR(V1Key(name), V1(meta, DecodeAll(ms)));
            var migrated := GetSilenceFromCR(V2Key(target, name), Migrated(meta, ConvertAll(ms), created));
            && (original.Err? ==> migrated == original)
            && (original.Ok? ==>
                  && migrated == Ok(original.value.(comment := CommentOf(V2Key(target, name)),
                                                    startsAt := Instant(created)))
                  && (Mutes(migrated.value.matchers, labels, regex) <==> Mutes(original.value.matchers, labels, regex)))
  {
    MatchersSurviveExactly(ms);
    EndSurvives(meta, ConvertAll(ms), created);
  }

  /** The two silences never share a comment, so neither controller takes the other's for its own while both
      objects exist. */
  lemma BothMayCoexist(target: string, name: string)
    requires target != ""
    ensures CommentOf(V1Key(name)) != CommentOf(V2Key(target, name))
  {
    CollisionsAcrossScopes(name, target, name);
  }

  /** No matchers, and the matchers of the original. */
  lemma NothingShipped(ms: seq<JsonMatcher>)
    ensures ConvertMatchers([]) == Ok(NilSlice)
    ensures ConvertV1Matchers(DecodeAll(ms)) == NilSlice <==> ms == []
  {
    DecodeOneByOne(ms);
    V1OneByOne(DecodeAll(ms));
  }

  /** With the matchers the script really ships, no object with matchers survives: its silence has none, and
      would mute every alert, did not the resource definition ask for at least one. */
  lemma ShippedMatchersExactly(target: string, name: string, meta: Meta, ms: seq<JsonMatcher>, created: DateTime)
    requires VALID_UNTIL in meta.annotations && SilenceEndsAt(meta).Ok? && created != ZERO_TIME
    ensures var original := GetSilenceFromCR(V1Key(name), V1(meta, DecodeAll(ms)));
            var migrated := GetSilenceFromCR(V2Key(target, name), Migrated(meta, [], created));
            && original.Ok? && migrated.Ok? && migrated.value.matchers == NilSlice
            && (migrated.value.matchers == original.value.matchers <==> ms == [])
            && (forall labels, regex :: Mutes(migrated.value.matchers, labels, regex))
  {
    NothingShipped(ms);
    EndSurvives(meta, [], created);
  }
}
