/** Which alerts matchers mute. Regular expressions are left uninterpreted. */
module Muting {
  import opened Types

  /** The value of an absent label is the empty string. */
  predicate Matches(m: Matcher, labels: map<string, string>, regex: (string, string) -> bool) {
    var v := if m.name in labels then labels[m.name] else "";
    m.isEqual == if m.isRegex then regex(m.value, v) else v == m.value
  }

  predicate Mutes(ms: GoSlice<Matcher>, labels: map<string, string>, regex: (string, string) -> bool) {
    forall m | m in Elems(ms) :: Matches(m, labels, regex)
  }
}
