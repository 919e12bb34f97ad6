/**
 The collections of the IR builder: items shared by where they are in the input file
 (dexlayout/dex_ir_builder.cc) and sorted by it at the end (dexlayout/dex_ir.h).
 */
module MapOrder {
  /** An object of the IR; only its identity matters here. */
  class Item {
    constructor () {
    }
  }

  /** Where an object is in the input; code items are told apart by their debug info too, others have 0 there. */
  datatype Key = Key(offset: nat, debugInfo: nat) {
    /** The order of pairs. */
    predicate Before(k: Key) {
      offset < k.offset || (offset == k.offset && debugInfo < k.debugInfo)
    }
  }

  /** One entry of the ordered map from keys to objects. */
  datatype Entry = Entry(key: Key, item: Item)

  predicate Ordered(es: seq<Entry>) {
    forall i, j :: 0 <= i < j < |es| ==> es[i].key.Before(es[j].key)
  }

  predicate OrderedByOffset(es: seq<Entry>) {
    forall i, j :: 0 <= i < j < |es| ==> es[i].key.offset < es[j].key.offset
  }

  /** Keys with one offset are equal. */
  predicate OffsetsTell(keys: seq<Key>) {
    forall i, j :: 0 <= i < |keys| && 0 <= j < |keys| && keys[i].offset == keys[j].offset ==> keys[i] == keys[j]
  }

  predicate Distinct(es: seq<Entry>) {
    forall i, j :: 0 <= i < j < |es| ==> es[i].item != es[j].item
  }

  /** The objects in the order of their keys. */
  function Items(es: seq<Entry>): (r: seq<Item?>)
    ensures |r| == |es| && forall i :: 0 <= i < |es| ==> r[i] == es[i].item
  {
    seq(|es|, i requires 0 <= i < |es| => es[i].item)
  }

  lemma ItemsInserted(es: seq<Entry>, k: nat, e: Entry)
    requires k <= |es|
    ensures multiset(Items(es[..k] + [e] + es[k..])) == multiset(Items(es)) + multiset{e.item}
  {
    var a, b := Items(es)[..k], Items(es)[k..];
    assert Items(es[..k] + [e] + es[k..]) == a + [e.item] + b;
    assert Items(es) == a + b;
  }

  lemma InsertedAt(es: seq<Entry>, k: nat, e: Entry)
    requires k <= |es|
    ensures var r := es[..k] + [e] + es[k..];
            e in r && forall x :: x in r <==> x in es || x == e
  {
    var r := es[..k] + [e] + es[k..];
    assert r[k] == e;
    assert es == es[..k] + es[k..];
  }

  lemma OrderedInserted(es: seq<Entry>, k: nat, e: Entry)
    requires Ordered(es) && k <= |es|
    requires forall i :: 0 <= i < k ==> es[i].key.Before(e.key)
    requires forall i :: k <= i < |es| ==> e.key.Before(es[i].key)
    ensures Ordered(es[..k] + [e] + es[k..])
  {
    hide Key.Before;
  }

  lemma DistinctInserted(es: seq<Entry>, k: nat, e: Entry)
    requires Distinct(es) && k <= |es|
    requires forall i :: 0 <= i < |es| ==> es[i].item != e.item
    ensures Distinct(es[..k] + [e] + es[k..])
  {
  }

  /** A vector that owns the items and a map that finds them by key. */
  class Collection {
    var vector: seq<Item?>
    var byKey: seq<Entry>

    /** The vector holds exactly the objects of the map. */
    ghost predicate Valid()
      reads this
    {
      && Ordered(byKey) && Distinct(byKey)
      && multiset(vector) == multiset(Items(byKey))
      && forall i :: 0 <= i < |vector| ==> vector[i] != null
    }

    constructor ()
      ensures Valid() && vector == [] && byKey == []
    {
      vector, byKey := [], [];
    }

    /** The first entry that does not come before the key. */
    method LowerBound(key: Key) returns (k: nat)
      requires Valid()
      ensures k <= |byKey|
      ensures forall i :: 0 <= i < k ==> byKey[i].key.Before(key)
      ensures forall i :: k <= i < |byKey| ==> !byKey[i].key.Before(key)
    {
      k := 0;
      while k < |byKey| && byKey[k].key.Before(key)
        invariant k <= |byKey|
        invariant forall i :: 0 <= i < k ==> byKey[i].key.Before(key)
      {
        k := k + 1;
      }
    }

    /** The object of a key, created when it is asked for first. */
    method GetOrCreate(key: Key) returns (item: Item)
      requires Valid()
      modifies this
      ensures Valid() && Entry(key, item) in byKey
      ensures forall e :: e in old(byKey) ==> e in byKey
      ensures forall e :: e in byKey ==> e in old(byKey) || (e == Entry(key, item) && fresh(item))
    {
      var k := LowerBound(key);
      if k < |byKey| && byKey[k].key == key {
        item := byKey[k].item;
        assert byKey[k] in byKey;
      } else {
        item := new Item();
        Inserted(k, Entry(key, item));
        vector := vector + [item];
        byKey := byKey[..k] + [Entry(key, item)] + byKey[k..];
      }
    }

    lemma Inserted(k: nat, e: Entry)
      requires Valid() && k <= |byKey|
      requires forall i :: 0 <= i < k ==> byKey[i].key.Before(e.key)
      requires forall i :: k <= i < |byKey| ==> e.key.Before(byKey[i].key)
      requires forall i :: 0 <= i < |byKey| ==> byKey[i].item != e.item
      ensures var es := byKey[..k] + [e] + byKey[k..];
              && Ordered(es) && Distinct(es) && multiset(vector + [e.item]) == multiset(Items(es))
              && e in es && forall x :: x in es <==> x in byKey || x == e
    {
      hide Ordered, Distinct, Items;
      ItemsInserted(byKey, k, e);
      InsertedAt(byKey, k, e);
      OrderedInserted(byKey, k, e);
      DistinctInserted(byKey, k, e);
    }

    /** Moves all objects out of the vector, and back in the order of the map. */
    method SortByMapOrder()
      requires Valid()
      modifies this`vector
      ensures Valid() && vector == Items(byKey)
      ensures multiset(vector) == multiset(old(vector))
    {
      SameSize();
      ghost var owned := vector;
      var pointers: map<Item, Item?> := map[];
      for i := 0 to |vector|
        invariant |vector| == |owned|
        invariant forall j :: i <= j < |vector| ==> vector[j] == owned[j]
        invariant forall j :: 0 <= j < i ==> owned[j] in pointers && pointers[owned[j]] == owned[j]
      {
        var element: Item := vector[i];
        pointers := pointers[element := vector[i]];
        vector := vector[i := null];
      }
      AllOwned(owned);
      for i := 0 to |vector|
        invariant |vector| == |byKey|
        invariant forall j :: 0 <= j < i ==> vector[j] == byKey[j].item
        invariant forall j :: i <= j < |byKey| ==>
                    byKey[j].item in pointers && pointers[byKey[j].item] == byKey[j].item
      {
        var p := byKey[i].item;
        vector := vector[i := pointers[p]];
        pointers := pointers[p := null];
      }
      assert vector == Items(byKey);
    }

    lemma SameSize()
      requires Valid()
      ensures |vector| == |byKey|
    {
      assert |multiset(vector)| == |vector| && |multiset(Items(byKey))| == |byKey|;
    }

    lemma AllOwned(owned: seq<Item?>)
      requires multiset(owned) == multiset(Items(byKey))
      ensures forall j :: 0 <= j < |byKey| ==> byKey[j].item in owned
    {
      forall j | 0 <= j < |byKey|
        ensures byKey[j].item in owned
      {
        assert Items(byKey)[j] in multiset(Items(byKey));
      }
    }
  }

  lemma SameObject(es: seq<Entry>, x: Entry, y: Entry)
    requires Ordered(es) && Distinct(es) && x in es && y in es
    ensures x.key == y.key <==> x.item == y.item
  {
  }

  /** The map holds exactly the objects referred to, under their keys. */
  ghost predicate Holds(es: seq<Entry>, keys: seq<Key>, refs: seq<Item>)
    requires |refs| == |keys|
  {
    && (forall i :: 0 <= i < |refs| ==> Entry(keys[i], refs[i]) in es)
    && (forall e :: e in es ==> exists i :: 0 <= i < |refs| && e == Entry(keys[i], refs[i]))
  }

  /** Pair order is order by offset exactly when no two keys differ only in the debug info. */
  lemma OrderByOffset(es: seq<Entry>, keys: seq<Key>, refs: seq<Item>)
    requires Ordered(es) && |refs| == |keys| && Holds(es, keys, refs)
    ensures OrderedByOffset(es) <==> OffsetsTell(keys)
  {
    if OrderedByOffset(es) {
      forall i, j | 0 <= i < |keys| && 0 <= j < |keys| && keys[i].offset == keys[j].offset
        ensures keys[i] == keys[j]
      {
        var x :| 0 <= x < |es| && es[x] == Entry(keys[i], refs[i]);
        var y :| 0 <= y < |es| && es[y] == Entry(keys[j], refs[j]);
      }
    }
    if OffsetsTell(keys) {
      forall x, y | 0 <= x < y < |es|
        ensures es[x].key.offset < es[y].key.offset
      {
        assert es[x] in es && es[y] in es;
        var i :| 0 <= i < |refs| && es[x] == Entry(keys[i], refs[i]);
        var j :| 0 <= j < |refs| && es[y] == Entry(keys[j], refs[j]);
        assert es[x].key.Before(es[y].key);
      }
    }
  }

  lemma HoldsMore(before: seq<Entry>, es: seq<Entry>, keys: seq<Key>, refs: seq<Item>, key: Key, item: Item)
    requires |refs| == |keys| && Holds(before, keys, refs)
    requires Entry(key, item) in es
    requires forall e :: e in before ==> e in es
    requires forall e :: e in es ==> e in before || e == Entry(key, item)
    ensures Holds(es, keys + [key], refs + [item])
  {
    var keys', refs' := keys + [key], refs + [item];
    forall e | e in es
      ensures exists i :: 0 <= i < |refs'| && e == Entry(keys'[i], refs'[i])
    {
      if e in before {
        var i :| 0 <= i < |refs| && e == Entry(keys[i], refs[i]);
        assert e == Entry(keys'[i], refs'[i]);
      } else {
        assert e == Entry(keys'[|refs|], refs'[|refs|]);
      }
    }
  }

  /**
   Any references, then the sort: two references share an object exactly when they have one key, and
   the collection is the objects referred to, each once and none lost, by increasing key.
   */
  method BuildAndSort(keys: seq<Key>) returns (refs: seq<Item>, c: Collection)
    ensures |refs| == |keys|
    ensures forall i, j :: 0 <= i < |refs| && 0 <= j < |refs| ==> (refs[i] == refs[j] <==> keys[i] == keys[j])
    ensures Ordered(c.byKey) && c.vector == Items(c.byKey) && Holds(c.byKey, keys, refs)
    ensures OrderedByOffset(c.byKey) <==> OffsetsTell(keys)
  {
    c := new Collection();
    refs := [];
    for k := 0 to |keys|
      invariant fresh(c) && c.Valid() && |refs| == k
      invariant Holds(c.byKey, keys[..k], refs)
    {
      ghost var before := c.byKey;
      var item := c.GetOrCreate(keys[k]);
      HoldsMore(before, c.byKey, keys[..k], refs, keys[k], item);
      assert keys[..k + 1] == keys[..k] + [keys[k]];
      refs := refs + [item];
    }
    assert keys[..|keys|] == keys;
    c.SortByMapOrder();
    forall i, j | 0 <= i < |refs| && 0 <= j < |refs|
      ensures refs[i] == refs[j] <==> keys[i] == keys[j]
    {
      SameObject(c.byKey, Entry(keys[i], refs[i]), Entry(keys[j], refs[j]));
    }
    OrderByOffset(c.byKey, keys, refs);
  }
}
