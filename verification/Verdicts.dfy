// The memo of gate acceptances (verdicts.go): a bounded, insertion-ordered set
// of keys, and the split of a sample into memoised and still-to-evaluate hosts.
module Verdicts {
  import opened Wrappers
  import opened Order
  import opened Gate

  const MAX_VERDICTS := 4096

  /** The memo after recording keys: new ones appended, the oldest evicted. */
  function Recorded<T(==,!new)>(order: seq<T>, keys: seq<T>): seq<T> {
    Newest(AddNew(order, keys))
  }

  function Newest<T>(order: seq<T>): seq<T> {
    if |order| > MAX_VERDICTS then order[|order| - MAX_VERDICTS..] else order
  }

  /** Recording keeps the memo duplicate-free and bounded, invents nothing, and
      drops an old key only when the bound forces it out, oldest first. */
  lemma RecordedMeaning<T(!new)>(order: seq<T>, keys: seq<T>)
    requires Distinct(order)
    ensures Distinct(Recorded(order, keys)) && |Recorded(order, keys)| <= MAX_VERDICTS
    ensures forall k :: k in Recorded(order, keys) ==> k in order || k in keys
    ensures |AddNew(order, keys)| <= MAX_VERDICTS ==>
              forall k :: k in order || k in keys ==> k in Recorded(order, keys)
    ensures forall i :: 0 <= i < |AddNew(order, keys)| ==>
              (AddNew(order, keys)[i] in Recorded(order, keys) <==> i >= |AddNew(order, keys)| - MAX_VERDICTS)
  {
    var all := AddNew(order, keys);
    if |all| > MAX_VERDICTS {
      var cut := |all| - MAX_VERDICTS;
      forall i | cut <= i < |all| ensures all[i] in all[cut..] {
        assert all[cut..][i - cut] == all[i];
      }
    }
  }

  class VerdictCache<T(==,!new)> {
    var seen: set<T>
    var order: seq<T>

    ghost predicate Valid()
      reads this
    {
      Distinct(order) && seen == Elements(order) && |order| <= MAX_VERDICTS
    }

    constructor ()
      ensures Valid() && order == []
    {
      seen, order := {}, [];
    }

    method Known(key: T) returns (known: bool)
      requires Valid()
      ensures known <==> key in Elements(order)
    {
      known := key in seen;
    }

    /** Marks keys as proved; called only with the gate's acceptance in hand. */
    method Record(keys: seq<T>)
      requires Valid()
      modifies this
      ensures Valid() && order == Recorded(old(order), keys)
    {
      if keys == [] {
        return;
      }
      for i := 0 to |keys|
        invariant Distinct(order) && seen == Elements(order)
        invariant AddNew(order, keys[i..]) == AddNew(old(order), keys)
      {
        assert keys[i..][1..] == keys[i + 1..];
        if keys[i] !in seen {
          seen := seen + {keys[i]};
          order := order + [keys[i]];
        }
      }
      Evict();
    }

    method Evict()
      requires Distinct(order) && seen == Elements(order)
      modifies this
      ensures Valid() && order == Newest(old(order))
    {
      ghost var all := order;
      ghost var cut := 0;
      while |order| > MAX_VERDICTS
        invariant 0 <= cut <= |all| && order == all[cut..] && seen == Elements(order) && Distinct(order)
        invariant cut > 0 ==> |order| >= MAX_VERDICTS
        decreases |order|
      {
        assert order == [order[0]] + order[1..];
        assert order[0] !in order[1..];
        seen := seen - {order[0]};
        order := order[1..];
        cut := cut + 1;
      }
    }
  }

  /** The memo keys of the hosts that build, in list order. */
  function KeysFor<G, K>(source: string, v: View<G, K>, hosts: seq<string>): seq<Key<G, K>> {
    if hosts == [] then []
    else
      var h := hosts[|hosts| - 1];
      KeysFor(source, v, hosts[..|hosts| - 1]) + (if h in v.built then [KeyOf(source, v, h)] else [])
  }

  lemma {:induction false} KeysForMembers<G, K>(source: string, v: View<G, K>, hosts: seq<string>, k: Key<G, K>)
    ensures k in KeysFor(source, v, hosts) <==> exists h :: h in hosts && h in v.built && KeyOf(source, v, h) == k
  {
    if hosts != [] {
      var n := |hosts| - 1;
      assert hosts == hosts[..n] + [hosts[n]];
      KeysForMembers(source, v, hosts[..n], k);
    }
  }

  /** partitionHosts: without a source fingerprint nothing is memoised and
      nothing is recorded; a host without a class key is always evaluated. */
  method PartitionHosts<G(==,!new), K(==,!new)>(source: Option<string>, cache: VerdictCache<Key<G, K>>, v: View<G, K>,
      hosts: seq<string>)
    returns (todo: seq<string>, keys: seq<Key<G, K>>)
    requires cache.Valid()
    ensures source.None? ==> todo == hosts && keys == []
    ensures source.Some? ==>
              IsTodo(Elements(cache.order), source.value, v, hosts, todo) && keys == KeysFor(source.value, v, hosts)
  {
    if source.None? {
      return hosts, [];
    }
    todo, keys := [], [];
    for i := 0 to |hosts|
      invariant IsTodo(Elements(cache.order), source.value, v, hosts[..i], todo)
      invariant keys == KeysFor(source.value, v, hosts[..i])
    {
      var h := hosts[i];
      assert hosts[..i + 1] == hosts[..i] + [h];
      assert hosts[..i + 1][..i] == hosts[..i];
      if h !in v.built {
        todo := todo + [h];
      } else {
        var k := KeyOf(source.value, v, h);
        keys := keys + [k];
        var known := cache.Known(k);
        if !known {
          todo := todo + [h];
        }
      }
    }
    assert hosts[..|hosts|] == hosts;
  }
}
