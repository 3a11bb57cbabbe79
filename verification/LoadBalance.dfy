/** Work goes whole to the monitor that has the least of it. */
module LoadBalance {

  /** selectFileMonitor: the first monitor with the fewest entries. */
  function LeastLoaded<K(==), V>(monitors: seq<map<K, V>>): (k: nat)
    requires monitors != []
    ensures k < |monitors|
    ensures forall i :: 0 <= i < |monitors| ==> |monitors[k]| <= |monitors[i]|
    ensures forall i :: 0 <= i < k ==> |monitors[k]| < |monitors[i]|
  {
    if |monitors| == 1 then 0
    else
      var k := LeastLoaded(monitors[..|monitors| - 1]);
      if |monitors[|monitors| - 1]| < |monitors[k]| then |monitors| - 1 else k
  }

  lemma LeastIs<K, V>(ms: seq<map<K, V>>, k: nat)
    requires k < |ms|
    requires forall j :: 0 <= j < |ms| ==> |ms[k]| <= |ms[j]|
    requires forall j :: 0 <= j < k ==> |ms[k]| < |ms[j]|
    ensures k == LeastLoaded(ms)
  {
    var least := LeastLoaded(ms);
    assert |ms[k]| == |ms[least]|;
  }

  /** No monitor has more than `d` entries above any other. */
  predicate Balanced<K(==), V>(ms: seq<map<K, V>>, d: nat)
  {
    forall i, j :: 0 <= i < |ms| && 0 <= j < |ms| ==> |ms[i]| <= |ms[j]| + d
  }

  /** At most `d` more entries for the least loaded keep that distance. */
  lemma PlacedOnLeast<K, V>(ms: seq<map<K, V>>, m: map<K, V>, d: nat)
    requires ms != [] && Balanced(ms, d)
    requires |ms[LeastLoaded(ms)]| <= |m| <= |ms[LeastLoaded(ms)]| + d
    ensures Balanced(ms[LeastLoaded(ms) := m], d)
  {}
}
