/** Binding normalisation of the Jinja wrapper (`Wrapper.getBindings`): each
    property key has every `.` replaced by `_` so that it is a usable template
    variable name; values are kept. The entries are collected in the
    iteration order of the `Properties` table, and when two keys normalise
    to the same binding key the later entry wins. That order is not specified
    by Java, so it is a parameter here. */
module Bindings {
  import opened Results
  import opened Strings
  import opened PropertyResolution

  /** `String.valueOf(key).replace('.', '_')`. */
  function BindingKey(key: string): string {
    Replace(key, '.', '_')
  }

  /** Every entry of `order` is a key of `props`. */
  predicate Covers(order: seq<string>, props: Properties) {
    forall i | 0 <= i < |order| :: order[i] in props
  }

  /** `order` lists every key of `props` and nothing else. An `entrySet()`
      iteration, which visits each key once, is such an order. Repeats are
      also allowed, and every contract in this module holds for such orders
      too; with colliding keys a repeat can change which value is last. */
  ghost predicate Enumerates(order: seq<string>, props: Properties) {
    Covers(order, props) && forall k | k in props :: k in order
  }

  /** Entry `i` is the last one in `order` whose key normalises like its own. */
  predicate LastWithKey(order: seq<string>, i: int) {
    0 <= i < |order| && forall j | i < j < |order| :: BindingKey(order[j]) != BindingKey(order[i])
  }

  /** `Collectors.toMap(..., (prev, next) -> next, HashMap::new)` over the
      entries of `props` visited in `order`. */
  function Collect(props: Properties, order: seq<string>): map<string, string>
    requires Covers(order, props)
    decreases |order|
  {
    if order == [] then map[]
    else
      var n := |order| - 1;
      Collect(props, order[..n])[BindingKey(order[n]) := props[order[n]]]
  }

  /** The binding keys are the normalised keys of the visited entries. */
  lemma {:induction false} CollectKey(props: Properties, order: seq<string>, bk: string)
    requires Covers(order, props)
    ensures bk in Collect(props, order) <==> exists i | 0 <= i < |order| :: BindingKey(order[i]) == bk
    decreases |order|
  {
    if order != [] {
      var n := |order| - 1;
      var prefix := order[..n];
      assert Covers(prefix, props);
      CollectKey(props, prefix, bk);
      if BindingKey(order[n]) != bk && bk !in Collect(props, prefix) {
        forall i | 0 <= i < |order| ensures BindingKey(order[i]) != bk {
          if i < n {
            assert order[i] == prefix[i];
          }
        }
      } else if BindingKey(order[n]) != bk {
        var i :| 0 <= i < n && BindingKey(prefix[i]) == bk;
        assert order[i] == prefix[i];
      }
    }
  }

  /** Each binding is made by the last visited entry that normalises to it. */
  lemma {:induction false} CollectLastEntry(props: Properties, order: seq<string>, bk: string)
    requires Covers(order, props) && bk in Collect(props, order)
    ensures exists i | LastWithKey(order, i) :: BindingKey(order[i]) == bk && Collect(props, order)[bk] == props[order[i]]
    decreases |order|
  {
    var n := |order| - 1;
    if BindingKey(order[n]) == bk {
      assert LastWithKey(order, n);
    } else {
      var prefix := order[..n];
      assert Covers(prefix, props);
      CollectLastEntry(props, prefix, bk);
      var i :| LastWithKey(prefix, i) && BindingKey(prefix[i]) == bk && Collect(props, prefix)[bk] == props[prefix[i]];
      assert LastWithKey(order, i);
    }
  }

  /** The last entry with a given binding key supplies that binding's value. */
  lemma {:induction false} CollectValue(props: Properties, order: seq<string>, i: int)
    requires Covers(order, props) && LastWithKey(order, i)
    ensures BindingKey(order[i]) in Collect(props, order)
    ensures Collect(props, order)[BindingKey(order[i])] == props[order[i]]
    decreases |order|
  {
    var n := |order| - 1;
    if i < n {
      var prefix := order[..n];
      assert Covers(prefix, props);
      assert prefix[i] == order[i];
      assert LastWithKey(prefix, i) by {
        forall j | i < j < n ensures BindingKey(prefix[j]) != BindingKey(prefix[i]) {
          assert prefix[j] == order[j];
        }
      }
      CollectValue(props, prefix, i);
    }
  }

  /** `b` is a normalisation of `props`: its keys are exactly the normalised
      property keys, and each binding carries the value of a property whose
      key normalises to it. */
  ghost predicate NormalisedFrom(props: Properties, b: map<string, string>) {
    && b.Keys == (set k | k in props :: BindingKey(k))
    && forall bk | bk in b :: exists k | k in props :: BindingKey(k) == bk && b[bk] == props[k]
  }

  /** No two property keys normalise to the same binding key. */
  ghost predicate NoCollisions(props: Properties) {
    forall k1, k2 | k1 in props && k2 in props && BindingKey(k1) == BindingKey(k2) :: k1 == k2
  }

  /** `getBindings(prop)`: null properties give null bindings. */
  function GetBindings(props: Option<Properties>, order: seq<string>): (b: Option<map<string, string>>)
    requires props.Some? ==> Enumerates(order, props.value)
    ensures b.None? <==> props.None?
    ensures props.Some? ==> NormalisedFrom(props.value, b.value)
    ensures props.Some? ==> forall bk | bk in b.value :: '.' !in bk
  {
    if props.None? then None
    else
      CollectNormalises(props.value, order);
      Some(Collect(props.value, order))
  }

  /** Collecting along an iteration order normalises the table. */
  lemma CollectNormalises(props: Properties, order: seq<string>)
    requires Enumerates(order, props)
    ensures NormalisedFrom(props, Collect(props, order))
    ensures forall bk | bk in Collect(props, order) :: '.' !in bk
  {
    var b := Collect(props, order);
    forall bk ensures bk in b <==> bk in (set k | k in props :: BindingKey(k)) {
      CollectKey(props, order, bk);
      if bk in (set k | k in props :: BindingKey(k)) {
        var k :| k in props && BindingKey(k) == bk;
        var i :| 0 <= i < |order| && order[i] == k;
      }
    }
    forall bk | bk in b
      ensures (exists k | k in props :: BindingKey(k) == bk && b[bk] == props[k]) && '.' !in bk
    {
      CollectLastEntry(props, order, bk);
      var i :| LastWithKey(order, i) && BindingKey(order[i]) == bk && b[bk] == props[order[i]];
      assert order[i] in props;
    }
  }

  /** Without collisions every property survives under its normalised key
      with its own value. */
  lemma ValuesKeptWithoutCollisions(props: Properties, order: seq<string>, k: string)
    requires Enumerates(order, props) && NoCollisions(props) && k in props
    ensures BindingKey(k) in GetBindings(Some(props), order).value
    ensures GetBindings(Some(props), order).value[BindingKey(k)] == props[k]
  {
    var b := GetBindings(Some(props), order).value;
    var k' :| k' in props && BindingKey(k') == BindingKey(k) && b[BindingKey(k)] == props[k'];
  }

  /** Without collisions the iteration order does not matter. */
  lemma OrderIrrelevantWithoutCollisions(props: Properties, order1: seq<string>, order2: seq<string>)
    requires Enumerates(order1, props) && Enumerates(order2, props) && NoCollisions(props)
    ensures GetBindings(Some(props), order1) == GetBindings(Some(props), order2)
  {
    var b1 := GetBindings(Some(props), order1).value;
    var b2 := GetBindings(Some(props), order2).value;
    assert b1.Keys == b2.Keys;
    forall bk | bk in b1 ensures b1[bk] == b2[bk] {
      var k :| k in props && BindingKey(k) == bk;
      ValuesKeptWithoutCollisions(props, order1, k);
      ValuesKeptWithoutCollisions(props, order2, k);
    }
    assert b1 == b2;
  }

  /** `a.b` and `a_b` collide: one binding `a_b` remains, holding the value of
      whichever entry the iteration visits last. */
  lemma CollisionExample()
    ensures BindingKey("a.b") == BindingKey("a_b") == "a_b"
    ensures var props := map["a.b" := "1", "a_b" := "2"];
      && GetBindings(Some(props), ["a.b", "a_b"]) == Some(map["a_b" := "2"])
      && GetBindings(Some(props), ["a_b", "a.b"]) == Some(map["a_b" := "1"])
  {
    var props := map["a.b" := "1", "a_b" := "2"];
    assert BindingKey("a.b") == "a_b";
    assert BindingKey("a_b") == "a_b";
    assert ["a.b", "a_b"][..1] == ["a.b"] && ["a_b", "a.b"][..1] == ["a_b"];
    assert ["a.b"][..0] == [] && ["a_b"][..0] == [];
    assert Collect(props, ["a.b"]) == map["a_b" := "1"];
    assert Collect(props, ["a_b"]) == map["a_b" := "2"];
    assert Collect(props, ["a.b", "a_b"]) == map["a_b" := "2"];
    assert Collect(props, ["a_b", "a.b"]) == map["a_b" := "1"];
    assert GetBindings(Some(props), ["a.b", "a_b"]) == Some(Collect(props, ["a.b", "a_b"]));
  }

  /** `app.name` becomes the binding `app_name`. */
  lemma DottedKeyExample()
    ensures GetBindings(Some(map["app.name" := "demo"]), ["app.name"]) == Some(map["app_name" := "demo"])
  {
    assert BindingKey("app.name") == "app_name";
  }
}
