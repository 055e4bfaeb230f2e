/** Python dictionaries with string keys: they keep the order in which keys were first set. */
module OrderedDicts {
  import opened Lists

  datatype Dict<V> = Dict(keys: seq<string>, values: map<string, V>) {
    ghost predicate Valid() {
      && (forall k :: k in keys <==> k in values)
      && Distinct(keys)
    }
  }

  function Empty<V>(): Dict<V> {
    Dict([], map[])
  }

  /** d[k] = v */
  function Set<V>(d: Dict<V>, k: string, v: V): Dict<V> {
    Dict(if k in d.values then d.keys else d.keys + [k], d.values[k := v])
  }

  lemma SetKeepsValid<V>(d: Dict<V>, k: string, v: V)
    requires d.Valid()
    ensures Set(d, k, v).Valid()
  {
  }

  /** No string occurs twice in all the lists together. */
  ghost predicate EachOnce(d: Dict<seq<string>>) {
    && (forall k :: k in d.values ==> Distinct(d.values[k]))
    && (forall k, l, x :: k in d.values && l in d.values && x in d.values[k] && x in d.values[l] ==> k == l)
  }

  /** All lists one after the other, in the order of the keys. */
  function Concat(keys: seq<string>, values: map<string, seq<string>>): seq<string>
    requires forall k :: k in keys ==> k in values
  {
    if keys == [] then []
    else
      assert keys[|keys| - 1] in keys;
      Concat(keys[..|keys| - 1], values) + values[keys[|keys| - 1]]
  }

  lemma ConcatOneMore(keys: seq<string>, j: nat, values: map<string, seq<string>>)
    requires j < |keys| && forall k :: k in keys ==> k in values
    ensures Concat(keys[..j + 1], values) == Concat(keys[..j], values) + values[keys[j]]
  {
    assert keys[..j + 1][..j] == keys[..j];
  }

  lemma {:induction false} ConcatElements(keys: seq<string>, values: map<string, seq<string>>)
    requires forall k :: k in keys ==> k in values
    ensures forall x :: x in Concat(keys, values) <==> exists k :: k in keys && x in values[k]
  {
    if keys != [] {
      var init, last := keys[..|keys| - 1], keys[|keys| - 1];
      assert last in keys;
      ConcatElements(init, values);
      assert keys == init + [last];
    }
  }

  /** Lists that share nothing, taken one after the other, repeat nothing. */
  lemma {:induction false} ConcatDistinct(keys: seq<string>, values: map<string, seq<string>>)
    requires forall k :: k in keys ==> k in values && Distinct(values[k])
    requires Distinct(keys)
    requires forall k, l, x :: k in keys && l in keys && x in values[k] && x in values[l] ==> k == l
    ensures Distinct(Concat(keys, values))
  {
    if keys != [] {
      var init, last := keys[..|keys| - 1], keys[|keys| - 1];
      assert last in keys && keys == init + [last];
      ConcatDistinct(init, values);
      ConcatElements(init, values);
      var a, b := Concat(init, values), values[last];
      forall i, j | 0 <= i < |a| && 0 <= j < |b| ensures a[i] != b[j] {
        assert a[i] in a && b[j] in b;
        var k :| k in init && a[i] in values[k];
        assert last !in init;
        assert k in keys && k != last;
      }
    }
  }
}
