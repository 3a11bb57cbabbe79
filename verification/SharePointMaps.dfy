/** SharePointUtil: a map listed in the order of its values, and a map of folders
    without the folders that lie inside others. */
module SharePointMaps {
  import opened StringOrder

  /*** sortHashMapByValues ***/

  /** String.compareTo for values, path order for keys: both lexicographic. */
  type Key = string

  datatype Entry = Entry(key: Key, value: string)

  /** By value, then by key. */
  predicate Precedes(a: Entry, b: Entry)
  {
    Before(a.value, b.value) || (a.value == b.value && Before(a.key, b.key))
  }

  predicate Ordered(entries: seq<Entry>)
  {
    forall i, j :: 0 <= i < j < |entries| ==> Precedes(entries[i], entries[j])
  }

  /** The listing holds the pairs of the map and nothing else. */
  predicate Lists(entries: seq<Entry>, m: map<Key, string>)
  {
    && (forall i :: 0 <= i < |entries| ==> entries[i].key in m && m[entries[i].key] == entries[i].value)
    && (forall k :: k in m ==> Entry(k, m[k]) in entries)
  }

  /** Sorted, with repetitions. */
  predicate NonDecreasing(s: seq<string>)
  {
    forall i, j :: 0 <= i < j < |s| ==> AtMost(s[i], s[j])
  }

  /** The values of some keys, key by key. */
  function Image(m: map<Key, string>, keys: seq<Key>): (r: seq<string>)
    requires forall k :: k in keys ==> k in m
    ensures |r| == |keys|
  {
    seq(|keys|, i requires 0 <= i < |keys| => m[keys[i]])
  }

  lemma InsertedNonDecreasing(s: seq<string>, v: string, i: nat)
    requires NonDecreasing(s) && i <= |s|
    requires forall k :: 0 <= k < i ==> AtMost(s[k], v)
    requires forall k :: i <= k < |s| ==> AtMost(v, s[k])
    ensures NonDecreasing(s[..i] + [v] + s[i..])
  {
    var r := s[..i] + [v] + s[i..];
    forall a, b | 0 <= a < b < |r|
      ensures AtMost(r[a], r[b])
    {
      assert r[a] == if a < i then s[a] else if a == i then v else s[a - 1];
      assert r[b] == if b < i then s[b] else if b == i then v else s[b - 1];
    }
  }

  /** One step of Collections.sort, by insertion. */
  method InsertSorted(s: seq<string>, v: string) returns (r: seq<string>)
    requires NonDecreasing(s)
    ensures NonDecreasing(r)
    ensures multiset(r) == multiset(s) + multiset{v}
  {
    var i := 0;
    while i < |s| && AtMost(s[i], v)
      invariant 0 <= i <= |s|
      invariant forall k :: 0 <= k < i ==> AtMost(s[k], v)
    {
      i := i + 1;
    }
    forall k | i <= k < |s|
      ensures AtMost(v, s[k])
    {
      BeforeTotal(v, s[i]);
      if k > i && v != s[i] && s[i] != s[k] {
        BeforeTransitive(v, s[i], s[k]);
      }
    }
    InsertedNonDecreasing(s, v, i);
    assert s == s[..i] + s[i..];
    r := s[..i] + [v] + s[i..];
  }

  method SortStrings(s: seq<string>) returns (r: seq<string>)
    ensures NonDecreasing(r)
    ensures multiset(r) == multiset(s)
  {
    r := [];
    for i := 0 to |s|
      invariant NonDecreasing(r)
      invariant multiset(r) == multiset(s[..i])
    {
      assert s[..i + 1] == s[..i] + [s[i]];
      r := InsertSorted(r, s[i]);
    }
    assert s[..|s|] == s;
  }

  /** The list after its element `i` has been removed through the iterator. */
  function Without(keys: seq<Key>, i: nat): (r: seq<Key>)
    requires i < |keys|
    ensures |r| == |keys| - 1
    ensures forall a :: 0 <= a < |r| ==> r[a] == keys[if a < i then a else a + 1]
  {
    keys[..i] + keys[i + 1..]
  }

  lemma WithoutMembers(keys: seq<Key>, i: nat)
    requires Sorted(keys) && i < |keys|
    ensures Sorted(Without(keys, i))
    ensures forall k :: k in Without(keys, i) <==> k in keys && k != keys[i]
  {
    var rest := Without(keys, i);
    forall k | k in keys && k != keys[i]
      ensures k in rest
    {
      var a :| 0 <= a < |keys| && keys[a] == k;
      assert rest[if a < i then a else a - 1] == k;
    }
    forall a | 0 <= a < |rest|
      ensures rest[a] in keys && rest[a] != keys[i]
    {
      if a < i {
        BeforeAsymmetric(keys[a], keys[i]);
      } else {
        BeforeAsymmetric(keys[i], keys[a + 1]);
      }
    }
  }

  lemma WithoutImage(m: map<Key, string>, keys: seq<Key>, i: nat)
    requires i < |keys| && forall k :: k in keys ==> k in m
    ensures forall k :: k in Without(keys, i) ==> k in m
    ensures multiset(Image(m, Without(keys, i))) == multiset(Image(m, keys)) - multiset{m[keys[i]]}
  {
    var all := Image(m, keys);
    assert all == all[..i] + [all[i]] + all[i + 1..];
    assert Image(m, Without(keys, i)) == all[..i] + all[i + 1..];
  }

  /** The first remaining key with the wanted value. */
  method FindKey(m: map<Key, string>, keys: seq<Key>, v: string) returns (i: nat)
    requires forall k :: k in keys ==> k in m
    ensures i <= |keys|
    ensures i < |keys| ==> m[keys[i]] == v
    ensures forall k :: 0 <= k < i ==> m[keys[k]] != v
  {
    i := 0;
    while i < |keys| && m[keys[i]] != v
      invariant i <= |keys|
      invariant forall k :: 0 <= k < i ==> m[keys[k]] != v
    {
      i := i + 1;
    }
  }

  ghost predicate TrueTo(m: map<Key, string>, entries: seq<Entry>)
  {
    forall i :: 0 <= i < |entries| ==> entries[i].key in m && m[entries[i].key] == entries[i].value
  }

  /** Every key is still to come or already listed. */
  ghost predicate Accounted(m: map<Key, string>, sorted: seq<Entry>, keys: seq<Key>)
  {
    forall k :: k in m ==> k in keys || Entry(k, m[k]) in sorted
  }

  /** What is still to come follows everything listed so far. */
  ghost predicate Follows(m: map<Key, string>, sorted: seq<Entry>, keys: seq<Key>)
    requires forall k :: k in keys ==> k in m
  {
    forall i, k :: 0 <= i < |sorted| && k in keys ==> Precedes(sorted[i], Entry(k, m[k]))
  }

  ghost predicate Remaining(m: map<Key, string>, sorted: seq<Entry>, keys: seq<Key>)
  {
    && Sorted(keys) && (forall k :: k in keys ==> k in m)
    && Ordered(sorted) && TrueTo(m, sorted) && Accounted(m, sorted, keys) && Follows(m, sorted, keys)
  }

  lemma Suffix(s: seq<string>, v: nat)
    requires NonDecreasing(s) && v < |s|
    ensures NonDecreasing(s[v..]) && s[v..] != [] && s[v..][0] == s[v] && s[v..][1..] == s[v + 1..]
  {}

  lemma AllListed(m: map<Key, string>, sorted: seq<Entry>, keys: seq<Key>)
    requires Remaining(m, sorted, keys) && multiset(Image(m, keys)) == multiset{}
    ensures Ordered(sorted) && Lists(sorted, m)
  {
    assert |Image(m, keys)| == |multiset(Image(m, keys))|;
    assert keys == [];
  }

  /** The nested loops: for each value in order, take the first key that has it.
      The search never comes back empty-handed. */
  method SortHashMapByValues(m: map<Key, string>) returns (sorted: seq<Entry>)
    ensures Ordered(sorted)
    ensures Lists(sorted, m)
  {
    var mapKeys := Enumerate(m.Keys);
    var mapValues := SortStrings(Image(m, mapKeys));
    sorted := [];
    var v := 0;
    assert mapValues[0..] == mapValues;
    while v < |mapValues|
      invariant 0 <= v <= |mapValues|
      invariant Remaining(m, sorted, mapKeys)
      invariant multiset(mapValues[v..]) == multiset(Image(m, mapKeys))
    {
      sorted, mapKeys := TakeValue(m, sorted, mapKeys, mapValues, v);
      v := v + 1;
    }
    AllListed(m, sorted, mapKeys);
  }

  method TakeValue(m: map<Key, string>, sorted: seq<Entry>, keys: seq<Key>, values: seq<string>, v: nat)
    returns (sorted': seq<Entry>, keys': seq<Key>)
    requires NonDecreasing(values) && v < |values| && Remaining(m, sorted, keys)
    requires multiset(values[v..]) == multiset(Image(m, keys))
    ensures Remaining(m, sorted', keys') && multiset(values[v + 1..]) == multiset(Image(m, keys'))
  {
    Suffix(values, v);
    var i := FindKey(m, keys, values[v]);
    TakeNext(m, sorted, keys, values[v..], i);
    sorted' := sorted + [Entry(keys[i], values[v])];
    keys' := Without(keys, i);
  }

  /** One round of the outer loop. */
  lemma TakeNext(m: map<Key, string>, sorted: seq<Entry>, keys: seq<Key>, values: seq<string>, i: nat)
    requires Remaining(m, sorted, keys) && NonDecreasing(values) && values != []
    requires multiset(values) == multiset(Image(m, keys))
    requires i <= |keys| && (i < |keys| ==> m[keys[i]] == values[0])
    requires forall k :: 0 <= k < i ==> m[keys[k]] != values[0]
    ensures i < |keys|
    ensures Remaining(m, sorted + [Entry(keys[i], values[0])], Without(keys, i))
    ensures multiset(values[1..]) == multiset(Image(m, Without(keys, i)))
  {
    assert values[0] in multiset(Image(m, keys));
    var n :| 0 <= n < |keys| && Image(m, keys)[n] == values[0];
    LeastEntry(m, keys, values, i);
    WithoutImage(m, keys, i);
    assert values == [values[0]] + values[1..];
    TakeKey(m, sorted, keys, i);
  }

  /** The first key with the least value precedes every other remaining entry. */
  lemma LeastEntry(m: map<Key, string>, keys: seq<Key>, values: seq<string>, i: nat)
    requires Sorted(keys) && NonDecreasing(values) && values != []
    requires forall k :: k in keys ==> k in m
    requires multiset(values) == multiset(Image(m, keys))
    requires i < |keys| && m[keys[i]] == values[0]
    requires forall k :: 0 <= k < i ==> m[keys[k]] != values[0]
    ensures forall j :: 0 <= j < |keys| && j != i ==> Precedes(Entry(keys[i], m[keys[i]]), Entry(keys[j], m[keys[j]]))
  {
    forall j | 0 <= j < |keys| && j != i
      ensures Precedes(Entry(keys[i], m[keys[i]]), Entry(keys[j], m[keys[j]]))
    {
      assert Image(m, keys)[j] == m[keys[j]];
      assert m[keys[j]] in multiset(values);
      var n :| 0 <= n < |values| && values[n] == m[keys[j]];
      assert AtMost(values[0], values[n]);
    }
  }

  lemma TakeKey(m: map<Key, string>, sorted: seq<Entry>, keys: seq<Key>, i: nat)
    requires Remaining(m, sorted, keys) && i < |keys|
    requires forall j :: 0 <= j < |keys| && j != i ==> Precedes(Entry(keys[i], m[keys[i]]), Entry(keys[j], m[keys[j]]))
    ensures Remaining(m, sorted + [Entry(keys[i], m[keys[i]])], Without(keys, i))
  {
    var taken := Entry(keys[i], m[keys[i]]);
    var rest, next := Without(keys, i), sorted + [taken];
    WithoutMembers(keys, i);
    assert next[|sorted|] == taken;
    assert keys[i] in keys;
    assert Ordered(next);
    forall k | k in m
      ensures k in rest || Entry(k, m[k]) in next
    {
    }
    forall a, k | 0 <= a < |next| && k in rest
      ensures Precedes(next[a], Entry(k, m[k]))
    {
      var j :| 0 <= j < |keys| && keys[j] == k;
    }
  }

  /** There is only one such listing. */
  lemma {:induction false} ListingDetermined(a: seq<Entry>, b: seq<Entry>, m: map<Key, string>)
    requires Ordered(a) && Ordered(b) && Lists(a, m) && Lists(b, m)
    ensures a == b
  {
    OrderedSubset(a, b, m, 0);
    OrderedSubset(b, a, m, 0);
  }

  lemma PrecedesStrict(x: Entry, y: Entry)
    requires Precedes(x, y)
    ensures !Precedes(y, x) && x != y
  {
    if Before(x.value, y.value) {
      BeforeAsymmetric(x.value, y.value);
    } else {
      BeforeAsymmetric(x.key, y.key);
      BeforeIrreflexive(x.value);
    }
  }

  /** Two orderly listings of the same map agree from index `i` on if they agree before. */
  lemma {:induction false} OrderedSubset(a: seq<Entry>, b: seq<Entry>, m: map<Key, string>, i: nat)
    requires Ordered(a) && Ordered(b) && Lists(a, m) && Lists(b, m)
    requires i <= |a| && i <= |b| && a[..i] == b[..i]
    ensures a == b
    decreases |a| - i
  {
    if i == |a| || i == |b| {
      var longer, shorter := if i == |a| then b else a, if i == |a| then a else b;
      NothingBeyond(longer, shorter, m, i);
    } else {
      var p := IndexBeyond(a, b, m, i);
      var q := IndexBeyond(b, a, m, i);
      if p > i && q > i {
        PrecedesStrict(a[i], a[q]);
      }
      assert a[..i + 1] == a[..i] + [a[i]] && b[..i + 1] == b[..i] + [b[i]];
      OrderedSubset(a, b, m, i + 1);
    }
  }

  /** The entry at `i` of one listing occurs in the other, not before `i`. */
  lemma IndexBeyond(a: seq<Entry>, b: seq<Entry>, m: map<Key, string>, i: nat) returns (p: nat)
    requires Ordered(a) && Lists(a, m) && Lists(b, m)
    requires i < |a| && i <= |b| && a[..i] == b[..i]
    ensures i <= p < |b| && b[p] == a[i]
  {
    assert Entry(a[i].key, m[a[i].key]) in b;
    p :| 0 <= p < |b| && b[p] == a[i];
    if p < i {
      assert a[..i][p] == b[..i][p];
      PrecedesStrict(a[p], a[i]);
    }
  }

  lemma NothingBeyond(longer: seq<Entry>, shorter: seq<Entry>, m: map<Key, string>, i: nat)
    requires Ordered(longer) && Lists(longer, m) && Lists(shorter, m)
    requires i == |shorter| <= |longer| && longer[..i] == shorter[..i]
    ensures longer == shorter
  {
    if i < |longer| {
      var p := IndexBeyond(longer, shorter, m, i);
    }
  }

  /*** removeSubPathsFromMap ***/

  /** A path as its name elements, the root first. */
  type Path = p: seq<string> | p != [] witness ["/"]

  /** Path.startsWith: element by element. */
  predicate StartsWith(path: Path, start: Path)
  {
    start <= path
  }

  /** The keys among `paths` that have no other key as an ancestor. */
  ghost predicate Topmost(paths: set<Path>, path: Path)
  {
    path in paths && forall q :: q in paths && StartsWith(path, q) ==> q == path
  }

  method RemoveSubPathsFromMap<V>(input: map<Path, V>) returns (output: map<Path, V>)
    ensures forall p :: p in output <==> Topmost(input.Keys, p)
    ensures forall p :: p in output ==> p in input && output[p] == input[p]
  {
    output := input;
    var rest := input.Keys;
    while rest != {}
      invariant rest <= input.Keys
      invariant forall p :: p in output <==> p in input && (p in rest || Topmost(input.Keys, p))
      invariant forall p :: p in output ==> output[p] == input[p]
      decreases rest
    {
      var path :| path in rest;
      var others := input.Keys;
      ghost var was := output;
      while others != {}
        invariant others <= input.Keys
        invariant output == was || output == was - {path}
        invariant output == was - {path} && path in was <==>
                    path in was && exists q :: q in input.Keys - others && StartsWith(path, q) && path != q
        decreases others
      {
        var oneOfThePaths :| oneOfThePaths in others;
        if StartsWith(path, oneOfThePaths) && path != oneOfThePaths {
          output := output - {path};
        }
        others := others - {oneOfThePaths};
      }
      rest := rest - {path};
    }
  }

  /** The kept folders cover the input without overlapping: no kept path is
      inside another, and every input path has exactly one kept ancestor-or-self. */
  lemma TopmostCover(paths: set<Path>, p: Path)
    requires p in paths
    ensures exists q :: Topmost(paths, q) && StartsWith(p, q)
    ensures forall q, r :: Topmost(paths, q) && Topmost(paths, r) && StartsWith(p, q) && StartsWith(p, r) ==> q == r
    ensures forall q, r :: Topmost(paths, q) && Topmost(paths, r) && StartsWith(q, r) ==> q == r
  {
    var q := TopAncestor(paths, p);
    forall q, r | Topmost(paths, q) && Topmost(paths, r) && StartsWith(p, q) && StartsWith(p, r)
      ensures q == r
    {
      if |q| <= |r| {
        assert StartsWith(r, q);
      } else {
        assert StartsWith(q, r);
      }
    }
  }

  lemma {:induction false} TopAncestor(paths: set<Path>, p: Path) returns (q: Path)
    requires p in paths
    ensures Topmost(paths, q) && StartsWith(p, q)
    decreases |p|
  {
    if Topmost(paths, p) {
      q := p;
    } else {
      var r :| r in paths && StartsWith(p, r) && r != p;
      q := TopAncestor(paths, r);
    }
  }
}
