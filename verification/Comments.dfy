/** The comment a silence is found again by. */
module Comments {
  import opened Types
  import opened AlertStore

  function SilenceComment(ns: string, name: string): string {
    if ns != "" then CREATED_BY + "-" + ns + "-" + name else CREATED_BY + "-" + name
  }

  function CommentOf(k: Key): string {
    SilenceComment(k.Namespace(), k.name)
  }

  /** How comments read. */
  lemma CommentReads(ns: string, name: string)
    ensures CommentOf(V1Key(name)) == "silence-operator-" + name
    ensures ns != "" ==> CommentOf(V2Key(ns, name)) == "silence-operator-" + ns + "-" + name
  {
  }

  /** One namespace is the other, a hyphen and `r`; the names make up for it. */
  predicate Overlap(ns: string, name: string, ns': string, name': string, r: string) {
    ns == ns' + "-" + r && name' == r + "-" + name
  }

  lemma SuffixEquality(a: string, b: string)
    ensures CREATED_BY + "-" + a == CREATED_BY + "-" + b <==> a == b
  {
    var p := CREATED_BY + "-";
    assert (p + a)[|p|..] == a && (p + b)[|p|..] == b;
  }

  lemma LongerNamespace(ns: string, name: string, ns': string, name': string)
    requires |ns| > |ns'|
    ensures ns + "-" + name == ns' + "-" + name' <==> exists r :: Overlap(ns, name, ns', name', r)
  {
    var a, b := ns + "-" + name, ns' + "-" + name';
    if a == b {
      var r := ns[|ns'| + 1..];
      assert ns[..|ns'|] == a[..|ns'|] == b[..|ns'|] == ns';
      assert ns[|ns'|] == a[|ns'|] == b[|ns'|] == '-';
      assert ns == ns[..|ns'|] + [ns[|ns'|]] + r;
      assert name' == b[|ns'| + 1..] == a[|ns'| + 1..] == r + "-" + name;
      assert Overlap(ns, name, ns', name', r);
    }
    if r :| Overlap(ns, name, ns', name', r) {
      assert ns' + "-" + r + "-" + name == ns' + "-" + (r + "-" + name);
    }
  }

  /** Two namespaced objects share a comment exactly if they are the same or one overlaps the other. */
  lemma CollisionsOfNamespaced(ns: string, name: string, ns': string, name': string)
    requires ns != "" && ns' != ""
    ensures SilenceComment(ns, name) == SilenceComment(ns', name') <==>
            || (ns == ns' && name == name')
            || (exists r :: Overlap(ns, name, ns', name', r))
            || (exists r :: Overlap(ns', name', ns, name, r))
  {
    var a, b := ns + "-" + name, ns' + "-" + name';
    assert SilenceComment(ns, name) == CREATED_BY + "-" + a && SilenceComment(ns', name') == CREATED_BY + "-" + b;
    SuffixEquality(a, b);
    if |ns| > |ns'| {
      LongerNamespace(ns, name, ns', name');
    } else if |ns'| > |ns| {
      LongerNamespace(ns', name', ns, name);
    } else {
      assert a[..|ns|] == ns && b[..|ns|] == ns' && a[|ns| + 1..] == name && b[|ns| + 1..] == name';
    }
  }

  /** A cluster-scoped object shares its comment with a namespaced one exactly if its name spells out the
      namespace, a hyphen and the name. */
  lemma CollisionsAcrossScopes(name: string, ns': string, name': string)
    requires ns' != ""
    ensures SilenceComment("", name) == SilenceComment(ns', name') <==> name == ns' + "-" + name'
  {
    assert SilenceComment(ns', name') == CREATED_BY + "-" + (ns' + "-" + name');
    SuffixEquality(name, ns' + "-" + name');
  }

  /** There are no collisions within a namespace, nor among namespaces without hyphens, nor among
      cluster-scoped objects. */
  lemma NoCollisions(k: Key, k': Key)
    requires CommentOf(k) == CommentOf(k')
    requires || (k.V1Key? && k'.V1Key?)
             || (k.V2Key? && k'.V2Key? && k.ns != "" && k'.ns != ""
                 && (k.ns == k'.ns || ('-' !in k.ns && '-' !in k'.ns)))
    ensures k == k'
  {
    if k.V1Key? {
      SuffixEquality(k.name, k'.name);
    } else {
      CollisionsOfNamespaced(k.ns, k.name, k'.ns, k'.name);
      forall r ensures !Overlap(k.ns, k.name, k'.ns, k'.name, r) && !Overlap(k'.ns, k'.name, k.ns, k.name, r) {
        assert (k'.ns + "-" + r)[|k'.ns|] == '-' && (k.ns + "-" + r)[|k.ns|] == '-';
      }
    }
  }
}
