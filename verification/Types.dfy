/** The entities that cross component borders: custom resources on the Kubernetes side,
    silences and matchers on the Alertmanager side. Instants are nanoseconds since the epoch. */
module Types {
  import opened Wrappers
  import opened Calendar

  /** A Go slice as `reflect.DeepEqual` sees it: nil and empty are different values. */
  datatype GoSlice<T> = NilSlice | Slice(elems: seq<T>)

  function Elems<T>(s: GoSlice<T>): seq<T> {
    if s.NilSlice? then [] else s.elems
  }

  datatype Matcher = Matcher(isRegex: bool, isEqual: bool, name: string, value: string)

  /** A silence as Alertmanager stores it. Its ID is the key it is stored under. */
  datatype Silence = Silence(comment: string, createdBy: string, startsAt: int, endsAt: int,
                             matchers: GoSlice<Matcher>)

  /** v1alpha1 silences are cluster-scoped, v1alpha2 silences live in a namespace. */
  datatype Key = V1Key(name: string) | V2Key(ns: string, name: string)
  {
    function Namespace(): string {
      if V1Key? then "" else ns
    }
  }

  datatype V1Matcher = V1Matcher(isRegex: bool, isEqual: Option<bool>, name: string, value: string)

  datatype V2Matcher = V2Matcher(name: string, value: string, matchType: string)

  /** The part of the object metadata the controllers read, besides name and namespace. */
  datatype Meta = Meta(labels: map<string, string>, annotations: map<string, string>, creation: DateTime)

  datatype CR =
    | V1(meta: Meta, v1Matchers: seq<V1Matcher>)
    | V2(meta: Meta, v2Matchers: seq<V2Matcher>, startsAt: Option<int>, endsAt: Option<int>,
         duration: Option<string>)
}
