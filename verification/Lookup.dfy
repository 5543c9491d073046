/** Lookup by keys that several owners may share: an ambiguous key leads nowhere. */
module Lookup {
  import opened Basics

  /** Among the first `n` owners, `a` is the only one with the key. */
  ghost predicate OnlyOwner<K(!new)>(keys: seq<seq<K>>, n: nat, k: K, a: nat)
    requires n <= |keys|
  {
    a < n && k in keys[a] && forall b :: 0 <= b < n && b != a ==> k !in keys[b]
  }

  ghost predicate NoOwner<K(!new)>(keys: seq<seq<K>>, n: nat, k: K)
    requires n <= |keys|
  {
    forall b :: 0 <= b < n ==> k !in keys[b]
  }

  /** The entry of a key: absent, ambiguous, or the place of its owner. */
  datatype Entry = Missing | Ambiguous | Place(a: nat)

  /** The entry after the first `n` owners. */
  function EntryOf<K(==)>(keys: seq<seq<K>>, n: nat, k: K): Entry
    requires n <= |keys|
  {
    if n == 0 then Missing
    else
      var e := EntryOf(keys, n - 1, k);
      if k !in keys[n - 1] then e else if e.Missing? then Place(n - 1) else Ambiguous
  }

  ghost predicate IsTable<K(!new)>(table: map<K, Entry>, keys: seq<seq<K>>, n: nat)
    requires n <= |keys|
  {
    forall k ::
      (k in table <==> EntryOf(keys, n, k) != Missing) && (k in table ==> table[k] == EntryOf(keys, n, k))
  }

  /** A key leads to an owner exactly when that owner alone has it, and is missing exactly when nobody does. */
  lemma {:induction false} EntryIff<K(!new)>(keys: seq<seq<K>>, n: nat, k: K, a: nat)
    requires n <= |keys|
    ensures EntryOf(keys, n, k) == Place(a) <==> OnlyOwner(keys, n, k, a)
    ensures EntryOf(keys, n, k) == Missing <==> NoOwner(keys, n, k)
  {
    if n > 0 {
      EntryIff(keys, n - 1, k, a);
      if k in keys[n - 1] {
        assert OnlyOwner(keys, n, k, a) <==> a == n - 1 && NoOwner(keys, n - 1, k);
      } else {
        assert OnlyOwner(keys, n, k, a) <==> OnlyOwner(keys, n - 1, k, a);
      }
    }
  }

  method AddOwner<K(!new, ==)>(table: map<K, Entry>, keys: seq<K>, n: nat) returns (r: map<K, Entry>)
    requires Distinct(keys) && forall k :: k in table ==> table[k] != Missing
    ensures forall k :: k in r <==> k in table || k in keys
    ensures forall k :: k in r ==> r[k] == if k !in keys then table[k] else if k in table then Ambiguous else Place(n)
  {
    r := table;
    var i := 0;
    while i < |keys|
      invariant i <= |keys|
      invariant forall k :: k in r <==> k in table || k in keys[..i]
      invariant forall k :: k in r ==> r[k] == if k !in keys[..i] then table[k] else if k in table then Ambiguous else Place(n)
    {
      assert keys[..i + 1] == keys[..i] + [keys[i]] && keys[i] !in keys[..i];
      r := r[keys[i] := if keys[i] in r then Ambiguous else Place(n)];
      i := i + 1;
    }
    assert keys[..|keys|] == keys;
  }

  method BuildTable<K(!new, ==)>(keys: seq<seq<K>>) returns (table: map<K, Entry>)
    requires forall a :: 0 <= a < |keys| ==> Distinct(keys[a])
    ensures IsTable(table, keys, |keys|)
  {
    table := map[];
    var n := 0;
    while n < |keys|
      invariant n <= |keys| && IsTable(table, keys, n)
    {
      table := AddOwner(table, keys[n], n);
      n := n + 1;
    }
  }

  /** The first key that leads to an owner. */
  function FirstPlace<K(==)>(keys: seq<K>, table: map<K, Entry>): Option<nat> {
    if keys == [] then None
    else if keys[0] in table && table[keys[0]].Place? then Some(table[keys[0]].a)
    else FirstPlace(keys[1..], table)
  }

  lemma FirstPlaceLeads<K(!new)>(keys: seq<K>, table: map<K, Entry>)
    ensures var a := FirstPlace(keys, table); a.Some? ==> exists k :: k in keys && k in table && table[k] == Place(a.value)
    ensures FirstPlace(keys, table).None? ==> forall k :: k in keys && k in table ==> !table[k].Place?
  {
  }

  method FindFirstPlace<K(==)>(keys: seq<K>, table: map<K, Entry>) returns (a: Option<nat>)
    ensures a == FirstPlace(keys, table)
  {
    var i := 0;
    while i < |keys|
      invariant i <= |keys| && FirstPlace(keys, table) == FirstPlace(keys[i..], table)
    {
      if keys[i] in table && table[keys[i]].Place? {
        return Some(table[keys[i]].a);
      }
      assert keys[i..][1..] == keys[i + 1..];
      i := i + 1;
    }
    return None;
  }

  // ----- collecting owners once each -----

  /** The first key of each chosen owner that has one. */
  function FirstKeys<K(==)>(keys: seq<seq<K>>, chosen: seq<nat>): set<K> {
    if chosen == [] then {}
    else FirstKeys(keys, chosen[..|chosen| - 1]) + FirstKey(keys, chosen[|chosen| - 1])
  }

  function FirstKey<K(==)>(keys: seq<seq<K>>, a: nat): set<K> {
    if a < |keys| && keys[a] != [] then {keys[a][0]} else {}
  }

  function Added<K(==)>(want: Option<nat>, keys: seq<seq<K>>, seen: set<K>): seq<nat> {
    if want.None? || FirstKey(keys, want.value) <= seen then [] else [want.value]
  }

  /** The wanted owners in order, leaving out those without keys and those whose first key was met before. */
  function Collected<K(==)>(wanted: seq<Option<nat>>, keys: seq<seq<K>>): seq<nat> {
    if wanted == [] then []
    else
      var before := Collected(wanted[..|wanted| - 1], keys);
      before + Added(wanted[|wanted| - 1], keys, FirstKeys(keys, before))
  }

  lemma CollectedNext<K>(wanted: seq<Option<nat>>, keys: seq<seq<K>>, i: nat)
    requires i < |wanted|
    ensures var before := Collected(wanted[..i], keys);
      Collected(wanted[..i + 1], keys) == before + Added(wanted[i], keys, FirstKeys(keys, before))
  {
    assert wanted[..i + 1][..i] == wanted[..i];
  }

  lemma FirstKeysNext<K>(keys: seq<seq<K>>, chosen: seq<nat>, a: nat)
    ensures FirstKeys(keys, chosen + [a]) == FirstKeys(keys, chosen) + FirstKey(keys, a)
  {
    assert (chosen + [a])[..|chosen|] == chosen;
  }

  method Collect<K(==)>(wanted: seq<Option<nat>>, keys: seq<seq<K>>) returns (chosen: seq<nat>)
    ensures chosen == Collected(wanted, keys)
  {
    chosen := [];
    var seen: set<K> := {};
    var i := 0;
    while i < |wanted|
      invariant i <= |wanted| && chosen == Collected(wanted[..i], keys) && seen == FirstKeys(keys, chosen)
    {
      CollectedNext(wanted, keys, i);
      if wanted[i].Some? && wanted[i].value < |keys| && keys[wanted[i].value] != [] && keys[wanted[i].value][0] !in seen {
        FirstKeysNext(keys, chosen, wanted[i].value);
        seen := seen + {keys[wanted[i].value][0]};
        chosen := chosen + [wanted[i].value];
      }
      i := i + 1;
    }
    assert wanted[..i] == wanted;
  }

  lemma {:induction false} FirstKeysOnlyFrom<K>(keys: seq<seq<K>>, chosen: seq<nat>, k: K)
    requires forall i :: 0 <= i < |chosen| ==> k !in FirstKey(keys, chosen[i])
    ensures k !in FirstKeys(keys, chosen)
  {
    if chosen != [] {
      FirstKeysOnlyFrom(keys, chosen[..|chosen| - 1], k);
    }
  }

  /** The wanted owners that are there, in order. */
  function Present(wanted: seq<Option<nat>>): seq<nat> {
    if wanted == [] then []
    else Present(wanted[..|wanted| - 1]) + if wanted[|wanted| - 1].Some? then [wanted[|wanted| - 1].value] else []
  }

  lemma {:induction false} PresentIff(wanted: seq<Option<nat>>, a: nat)
    ensures a in Present(wanted) <==> exists i :: 0 <= i < |wanted| && wanted[i] == Some(a)
  {
    if wanted != [] {
      var n := |wanted| - 1;
      PresentIff(wanted[..n], a);
      if exists i :: 0 <= i < n && wanted[i] == Some(a) {
        var i :| 0 <= i < n && wanted[i] == Some(a);
        assert wanted[..n][i] == Some(a);
      }
    }
  }

  /** When owners share no keys and nobody is wanted twice, everybody wanted is collected. */
  lemma {:induction false} EverybodyIsCollected<K(!new)>(wanted: seq<Option<nat>>, keys: seq<seq<K>>)
    requires forall a, b, k :: 0 <= a < |keys| && 0 <= b < |keys| && a != b && k in keys[a] ==> k !in keys[b]
    requires forall i :: 0 <= i < |wanted| && wanted[i].Some? ==> wanted[i].value < |keys| && keys[wanted[i].value] != []
    requires forall i, j :: 0 <= i < j < |wanted| && wanted[i].Some? ==> wanted[i] != wanted[j]
    ensures Collected(wanted, keys) == Present(wanted)
  {
    if wanted != [] {
      var n := |wanted| - 1;
      EverybodyIsCollected(wanted[..n], keys);
      if wanted[n].Some? {
        var a := wanted[n].value;
        var before := Present(wanted[..n]);
        PresentIff(wanted[..n], a);
        forall i | 0 <= i < |before| ensures keys[a][0] !in FirstKey(keys, before[i]) {
          PresentIff(wanted[..n], before[i]);
          assert before[i] in before && before[i] != a && keys[a][0] in keys[a];
        }
        FirstKeysOnlyFrom(keys, before, keys[a][0]);
      }
    }
  }

  lemma {:induction false} CollectedAreOwners<K>(wanted: seq<Option<nat>>, keys: seq<seq<K>>, a: nat)
    requires a in Collected(wanted, keys)
    ensures a < |keys| && Some(a) in wanted
  {
    var n := |wanted| - 1;
    if a in Collected(wanted[..n], keys) {
      CollectedAreOwners(wanted[..n], keys, a);
    }
  }

  lemma {:induction false} FirstKeysHas<K>(keys: seq<seq<K>>, chosen: seq<nat>, i: nat)
    requires i < |chosen|
    ensures FirstKey(keys, chosen[i]) <= FirstKeys(keys, chosen)
  {
    if i < |chosen| - 1 {
      FirstKeysHas(keys, chosen[..|chosen| - 1], i);
    }
  }

  /** Nobody is collected twice, wanted twice or not. */
  lemma {:induction false} CollectedAreDistinct<K>(wanted: seq<Option<nat>>, keys: seq<seq<K>>)
    ensures Distinct(Collected(wanted, keys))
  {
    if wanted != [] {
      var n := |wanted| - 1;
      var before := Collected(wanted[..n], keys);
      CollectedAreDistinct(wanted[..n], keys);
      forall i | 0 <= i < |before| ensures FirstKey(keys, before[i]) <= FirstKeys(keys, before) {
        FirstKeysHas(keys, before, i);
      }
    }
  }
}
