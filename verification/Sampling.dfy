// The partitioner behind the interactive gate (classes.go): one host per
// configuration shape, over the whole fleet or over a caller's subset. A fleet
// enters here as the map from its active devices to the key each builds from.
module Sampling {
  import opened Order

  /** The first tag, in sort order, of its shape within the pool. */
  ghost predicate LeadsItsShape<K>(built: map<string, K>, pool: set<string>, tag: string) {
    tag in pool && tag in built &&
    forall u :: u in pool && u in built && built[u] == built[tag] ==> !Less(u, tag)
  }

  ghost function SampleSet<K>(built: map<string, K>, pool: set<string>): set<string> {
    set tag | tag in pool && LeadsItsShape(built, pool, tag)
  }

  /** A deterministic host list: the sample, ascending, each host once. */
  ghost predicate IsSample<K>(built: map<string, K>, pool: set<string>, out: seq<string>) {
    Sorted(out) && Distinct(out) && Elements(out) == SampleSet(built, pool)
  }

  // ---- What a sample is good for --------------------------------------

  lemma {:induction false} LeastExists(s: set<string>) returns (m: string)
    requires s != {}
    ensures m in s && forall u :: u in s ==> !Less(u, m)
    decreases s
  {
    var x :| x in s;
    if s == {x} {
      m := x;
      LessIrreflexive(x);
    } else {
      var rest := LeastExists(s - {x});
      LessTotal(x, rest);
      if Less(x, rest) {
        m := x;
        LessIrreflexive(x);
        forall u | u in s - {x} ensures !Less(u, x) {
          if Less(u, x) { LessTransitive(u, x, rest); }
        }
      } else {
        m := rest;
      }
    }
  }

  /** Every shape that occurs in the pool is represented. */
  lemma EveryShapeSampled<K>(built: map<string, K>, pool: set<string>, tag: string) returns (rep: string)
    requires tag in pool && tag in built
    ensures rep in SampleSet(built, pool) && rep in built && built[rep] == built[tag]
  {
    var peers := set u | u in pool && u in built && built[u] == built[tag];
    assert tag in peers;
    rep := LeastExists(peers);
    assert LeadsItsShape(built, pool, rep);
  }

  /** ... and by one host only. */
  lemma OneHostPerShape<K>(built: map<string, K>, pool: set<string>, r: string, q: string)
    requires r in SampleSet(built, pool) && q in SampleSet(built, pool)
    ensures built[r] == built[q] ==> r == q
  {
    LessTotal(r, q);
  }

  /** The sample is a function of the document: two runs give the same list. */
  lemma SampleDeterministic<K>(built: map<string, K>, pool: set<string>, a: seq<string>, b: seq<string>)
    requires IsSample(built, pool, a) && IsSample(built, pool, b)
    ensures a == b
  {
    SortedUnique(a, b);
  }

  // ---- The loops ------------------------------------------------------

  /** firstOfClass holds the least active tag of each shape seen so far. */
  ghost predicate Leads<K>(built: map<string, K>, pool: set<string>, first: map<K, string>) {
    && (forall k :: k in first ==> first[k] in built && built[first[k]] == k && LeadsItsShape(built, pool, first[k]))
    && (forall t :: t in pool && t in built ==> built[t] in first)
  }

  lemma SmallerLeads<K>(built: map<string, K>, pool: set<string>, tag: string)
    requires tag in built
    requires forall u :: u in pool && u in built && built[u] == built[tag] ==> !Less(u, tag)
    ensures LeadsItsShape(built, pool + {tag}, tag)
  {
    LessIrreflexive(tag);
  }

  lemma NobodyBelow<K>(built: map<string, K>, pool: set<string>, lead: string, tag: string)
    requires LeadsItsShape(built, pool, lead) && tag in built && built[tag] == built[lead] && Less(tag, lead)
    ensures forall u :: u in pool && u in built && built[u] == built[tag] ==> !Less(u, tag)
  {
    forall u | u in pool && u in built && built[u] == built[tag] ensures !Less(u, tag) {
      if Less(u, tag) { LessTransitive(u, tag, lead); }
    }
  }

  lemma LeadsStep<K>(built: map<string, K>, pool: set<string>, first: map<K, string>, tag: string)
    requires Leads(built, pool, first)
    ensures tag !in built ==> Leads(built, pool + {tag}, first)
    ensures tag in built ==>
              var key := built[tag];
              Leads(built, pool + {tag}, if key !in first || Less(tag, first[key]) then first[key := tag] else first)
  {
    hide Less, LeadsItsShape;
    forall k | k in first && (tag in built && k == built[tag] ==> !Less(tag, first[k]))
      ensures LeadsItsShape(built, pool + {tag}, first[k])
    {
      LeadKept(built, pool, first[k], tag);
    }
    if tag in built {
      var key := built[tag];
      if key in first && Less(tag, first[key]) {
        NobodyBelow(built, pool, first[key], tag);
      }
      if key !in first || Less(tag, first[key]) {
        SmallerLeads(built, pool, tag);
      }
    }
  }

  lemma LeadKept<K>(built: map<string, K>, pool: set<string>, lead: string, tag: string)
    requires LeadsItsShape(built, pool, lead) && (tag in built && built[tag] == built[lead] ==> !Less(tag, lead))
    ensures LeadsItsShape(built, pool + {tag}, lead)
  {
  }

  lemma LeadersAreTheSample<K>(built: map<string, K>, pool: set<string>, first: map<K, string>)
    requires Leads(built, pool, first)
    ensures first.Values == SampleSet(built, pool)
    ensures forall a, b :: a in first && b in first && a != b ==> first[a] != first[b]
  {
    forall t | t in SampleSet(built, pool) ensures t in first.Values {
      LessTotal(first[built[t]], t);
      assert first[built[t]] in first.Values;
    }
  }

  /** Collects a map's values in iteration order: any order. */
  method ValuesOf<K(==)>(first: map<K, string>) returns (out: seq<string>)
    requires forall a, b :: a in first && b in first && a != b ==> first[a] != first[b]
    ensures Distinct(out) && Elements(out) == first.Values
  {
    out := [];
    var todo := first.Keys;
    while todo != {}
      invariant todo <= first.Keys && Distinct(out)
      invariant forall t :: t in out ==> exists k :: k in first && k !in todo && first[k] == t
      invariant forall k :: k in first && k !in todo ==> first[k] in out
      decreases todo
    {
      var k :| k in todo;
      assert first[k] !in out;
      todo := todo - {k};
      out := out + [first[k]];
    }
    assert forall t :: t in first.Values <==> exists k :: k in first && first[k] == t;
  }

  method SortedValues<K(==)>(first: map<K, string>) returns (out: seq<string>)
    requires forall a, b :: a in first && b in first && a != b ==> first[a] != first[b]
    ensures Sorted(out) && Distinct(out) && Elements(out) == first.Values
  {
    var values := ValuesOf(first);
    SortSorted(values);
    SortDistinct(values);
    out := Sort(values);
    assert Elements(out) == Elements(values);
  }

  /** SampleHosts: an empty or single-tag input is returned unchanged; otherwise
      unknown and retired tags drop out. */
  method SampleHosts<K(==)>(built: map<string, K>, tags: seq<string>) returns (out: seq<string>)
    ensures |tags| <= 1 ==> out == tags
    ensures |tags| > 1 ==> IsSample(built, Elements(tags), out)
  {
    if |tags| <= 1 {
      return tags;
    }
    var firstOfClass: map<K, string> := map[];
    for i := 0 to |tags|
      invariant Leads(built, Elements(tags[..i]), firstOfClass)
    {
      var tag := tags[i];
      LeadsStep(built, Elements(tags[..i]), firstOfClass, tag);
      assert tags[..i + 1] == tags[..i] + [tag];
      assert Elements(tags[..i + 1]) == Elements(tags[..i]) + {tag};
      if tag in built {
        var key := built[tag];
        if key !in firstOfClass || Less(tag, firstOfClass[key]) {
          firstOfClass := firstOfClass[key := tag];
        }
      }
    }
    assert tags[..|tags|] == tags;
    LeadersAreTheSample(built, Elements(tags), firstOfClass);
    out := SortedValues(firstOfClass);
  }

  /** EquivalenceClasses: the active devices by shape, members ascending. */
  method EquivalenceClasses<K(==)>(built: map<string, K>) returns (classes: map<K, seq<string>>)
    ensures forall t :: t in built ==> built[t] in classes
    ensures forall k :: k in classes ==> classes[k] != [] && Sorted(classes[k]) && Distinct(classes[k])
    ensures forall k, t :: k in classes ==> (t in classes[k] <==> t in built && built[t] == k)
  {
    classes := map[];
    var todo := built.Keys;
    while todo != {}
      invariant todo <= built.Keys
      invariant forall t :: t in built && t !in todo ==> built[t] in classes
      invariant forall k :: k in classes ==> classes[k] != [] && Distinct(classes[k])
      invariant forall k, t :: k in classes ==> (t in classes[k] <==> t in built && t !in todo && built[t] == k)
      decreases todo
    {
      var tag :| tag in todo;
      todo := todo - {tag};
      var key := built[tag];
      var members := if key in classes then classes[key] else [];
      assert tag !in members;
      classes := classes[key := members + [tag]];
    }
    classes := SortMembers(classes);
  }

  method SortMembers<K(==)>(classes: map<K, seq<string>>) returns (sorted: map<K, seq<string>>)
    requires forall k :: k in classes ==> classes[k] != [] && Distinct(classes[k])
    ensures sorted.Keys == classes.Keys
    ensures forall k :: k in classes ==> sorted[k] != [] && Sorted(sorted[k]) && Distinct(sorted[k])
    ensures forall k, t :: k in classes ==> (t in sorted[k] <==> t in classes[k])
  {
    forall k | k in classes
      ensures Sorted(Sort(classes[k])) && Distinct(Sort(classes[k]))
      ensures forall t :: t in Sort(classes[k]) <==> t in classes[k]
    {
      SortSorted(classes[k]);
      SortDistinct(classes[k]);
    }
    sorted := map k | k in classes :: Sort(classes[k]);
  }

  lemma FirstMembersLead<K>(built: map<string, K>, classes: map<K, seq<string>>)
    requires forall t :: t in built ==> built[t] in classes
    requires forall k :: k in classes ==> classes[k] != [] && Sorted(classes[k])
    requires forall k, t :: k in classes ==> (t in classes[k] <==> t in built && built[t] == k)
    ensures Leads(built, built.Keys, map k | k in classes :: classes[k][0])
  {
    forall k | k in classes
      ensures LeadsItsShape(built, built.Keys, classes[k][0]) && built[classes[k][0]] == k
    {
      assert classes[k][0] in classes[k];
      LessIrreflexive(classes[k][0]);
      forall u | u in built && built[u] == k ensures !Less(u, classes[k][0]) {
        assert u in classes[k];
      }
    }
  }

  /** Representatives: the first member of every class, ascending. */
  method Representatives<K(==)>(built: map<string, K>) returns (reps: seq<string>)
    ensures IsSample(built, built.Keys, reps)
  {
    var classes := EquivalenceClasses(built);
    FirstMembersLead(built, classes);
    var first := map k | k in classes :: classes[k][0];
    LeadersAreTheSample(built, built.Keys, first);
    reps := SortedValues(first);
  }
}
