/** Last-one-wins collection: a sequence of optionally keyed values, of which
    the last under each key survives. */
module LastWins {
  import opened Basics

  /** Positions that carry a key no later position carries. */
  function Live<K(==)>(keys: seq<Option<K>>): set<nat> {
    set i | 0 <= i < |keys| && keys[i].Some? && forall j :: i < j < |keys| ==> keys[j] != keys[i]
  }

  /** The position is the first that carries its key. */
  predicate Opens<K(==)>(keys: seq<Option<K>>, i: nat)
    requires i < |keys|
  {
    keys[i].Some? && forall j :: 0 <= j < i ==> keys[j] != keys[i]
  }

  /** The position that survives under each key, in scan order. */
  function Survivor<K(==)>(keys: seq<Option<K>>, n: nat): map<K, nat>
    requires n <= |keys|
  {
    if n == 0 then map[]
    else if keys[n - 1].None? then Survivor(keys, n - 1)
    else Survivor(keys, n - 1)[keys[n - 1].value := n - 1]
  }

  /** The survivor under k is the last position that carries k, if any does. */
  ghost predicate IsLast<K>(keys: seq<Option<K>>, n: nat, k: K, m: map<K, nat>)
    requires n <= |keys|
  {
    if k in m then m[k] < n && keys[m[k]] == Some(k) && forall j :: m[k] < j < n ==> keys[j] != Some(k)
    else forall j :: 0 <= j < n ==> keys[j] != Some(k)
  }

  lemma {:induction false} SurvivorIsLast<K>(keys: seq<Option<K>>, n: nat, k: K)
    requires n <= |keys|
    ensures IsLast(keys, n, k, Survivor(keys, n))
  {
    if n > 0 {
      SurvivorIsLast(keys, n - 1, k);
    }
  }

  lemma SurvivorOpens<K>(keys: seq<Option<K>>, i: nat)
    requires i < |keys| && keys[i].Some?
    ensures keys[i].value !in Survivor(keys, i) <==> Opens(keys, i)
  {
    SurvivorIsLast(keys, i, keys[i].value);
  }

  /** The surviving positions of the keys no longer waiting. */
  ghost function Done<K>(m: map<K, nat>, waiting: set<K>): set<nat> {
    set k | k in m && k !in waiting :: m[k]
  }

  lemma DoneStep<K>(keys: seq<Option<K>>, waiting: set<K>, k: K)
    requires k in Survivor(keys, |keys|) && k in waiting
    ensures var m := Survivor(keys, |keys|);
            m[k] !in Done(m, waiting) && Done(m, waiting - {k}) == Done(m, waiting) + {m[k]}
  {
    var m := Survivor(keys, |keys|);
    forall j | j in m ensures m[j] < |keys| && keys[m[j]] == Some(j) {
      SurvivorIsLast(keys, |keys|, j);
    }
  }

  lemma DoneAll<K>(keys: seq<Option<K>>)
    ensures Done(Survivor(keys, |keys|), {}) == Live(keys)
  {
    var m := Survivor(keys, |keys|);
    forall i ensures i in Done(m, {}) <==> i in Live(keys) {
      if i in Done(m, {}) {
        var k :| k in m && m[k] == i;
        SurvivorIsLast(keys, |keys|, k);
      }
      if i in Live(keys) {
        SurvivorIsLast(keys, |keys|, keys[i].value);
      }
    }
  }

  /** The map holds, under each key of the first n positions, the value of the
      surviving position. */
  ghost predicate Retains<K, V>(keys: seq<Option<K>>, values: seq<V>, n: nat, m: map<K, V>) {
    && n <= |keys| == |values|
    && m.Keys == Survivor(keys, n).Keys
    && forall k :: k in m ==> Survivor(keys, n)[k] < |values| && m[k] == values[Survivor(keys, n)[k]]
  }

  lemma RetainsStep<K, V>(keys: seq<Option<K>>, values: seq<V>, i: nat, m: map<K, V>)
    requires Retains(keys, values, i, m) && i < |keys|
    ensures keys[i].None? ==> Retains(keys, values, i + 1, m) && !Opens(keys, i)
    ensures keys[i].Some? ==>
      && Retains(keys, values, i + 1, m[keys[i].value := values[i]])
      && (keys[i].value !in m <==> Opens(keys, i))
  {
    if keys[i].Some? {
      SurvivorOpens(keys, i);
    }
  }
}
