/**
 Merging edited items into an existing APE tag. Keys are compared after folding to upper case;
 the folding itself is a parameter.
 */
module ApeMerge {
  import opened Bytes
  import opened ApeTags

  type Folding = seq<byte> -> seq<byte>

  function FoldedKeys(fold: Folding, items: seq<Item>): set<seq<byte>> {
    set i | i in items :: fold(i.key)
  }

  /** The items whose folded key is not in the set, in order. */
  function Without(fold: Folding, items: seq<Item>, keys: set<seq<byte>>): seq<Item> {
    if items == [] then [] else
    (if fold(items[0].key) in keys then [] else [items[0]]) + Without(fold, items[1..], keys)
  }

  method MergeApeItems(fold: Folding, existing: seq<Item>, newItems: seq<Item>, overrideKeys: set<seq<byte>>)
    returns (merged: seq<Item>)
    ensures merged == Merged(fold, existing, newItems, Folded(fold, overrideKeys))
  {
    hide Without, Folded, FoldedKeys;
    var combined := CombinedKeys(fold, newItems, overrideKeys);
    merged := [];
    WithoutEnds(fold, existing, combined);
    for i := 0 to |existing|
      invariant merged + Without(fold, existing[i..], combined) == Without(fold, existing, combined)
    {
      WithoutStep(fold, existing, i, combined);
      if fold(existing[i].key) !in combined {
        merged := merged + [existing[i]];
      }
    }
    merged := merged + newItems;
  }

  method CombinedKeys(fold: Folding, newItems: seq<Item>, overrideKeys: set<seq<byte>>)
    returns (combined: set<seq<byte>>)
    ensures combined == Folded(fold, overrideKeys) + FoldedKeys(fold, newItems)
  {
    combined := Folded(fold, overrideKeys);
    for i := 0 to |newItems|
      invariant combined == Folded(fold, overrideKeys) + FoldedKeys(fold, newItems[..i])
    {
      assert newItems[..i + 1] == newItems[..i] + [newItems[i]];
      combined := combined + {fold(newItems[i].key)};
    }
    assert newItems[..|newItems|] == newItems;
  }

  function Folded(fold: Folding, keys: set<seq<byte>>): set<seq<byte>> {
    set k | k in keys :: fold(k)
  }

  lemma WithoutEnds(fold: Folding, items: seq<Item>, keys: set<seq<byte>>)
    ensures items[0..] == items && Without(fold, items[|items|..], keys) == []
  {
  }

  lemma WithoutStep(fold: Folding, items: seq<Item>, i: nat, keys: set<seq<byte>>)
    requires i < |items|
    ensures Without(fold, items[i..], keys)
         == (if fold(items[i].key) in keys then [] else [items[i]]) + Without(fold, items[i + 1..], keys)
  {
    assert items[i..][1..] == items[i + 1..];
  }

  /** Old items that are neither overridden nor replaced, then the new ones. */
  function Merged(fold: Folding, existing: seq<Item>, newItems: seq<Item>, overridden: set<seq<byte>>): seq<Item> {
    Without(fold, existing, overridden + FoldedKeys(fold, newItems)) + newItems
  }

  lemma {:induction false} WithoutMembers(fold: Folding, items: seq<Item>, keys: set<seq<byte>>)
    ensures forall i :: i in Without(fold, items, keys) <==> i in items && fold(i.key) !in keys
    decreases items
  {
    if items != [] {
      WithoutMembers(fold, items[1..], keys);
      assert items == [items[0]] + items[1..];
    }
  }

  lemma {:induction false} WithoutAppend(fold: Folding, a: seq<Item>, b: seq<Item>, keys: set<seq<byte>>)
    ensures Without(fold, a + b, keys) == Without(fold, a, keys) + Without(fold, b, keys)
    decreases a
  {
    if a == [] {
      assert a + b == b;
    } else {
      assert (a + b)[1..] == a[1..] + b;
      WithoutAppend(fold, a[1..], b, keys);
    }
  }

  lemma {:induction false} WithoutTwice(fold: Folding, items: seq<Item>, keys: set<seq<byte>>)
    ensures Without(fold, Without(fold, items, keys), keys) == Without(fold, items, keys)
    decreases items
  {
    if items != [] {
      var rest := Without(fold, items[1..], keys);
      WithoutTwice(fold, items[1..], keys);
      assert ([items[0]] + rest)[1..] == rest && [] + rest == rest;
    }
  }

  lemma {:induction false} WithoutAll(fold: Folding, items: seq<Item>, keys: set<seq<byte>>)
    requires FoldedKeys(fold, items) <= keys
    ensures Without(fold, items, keys) == []
    decreases items
  {
    if items != [] {
      assert items[0] in items && fold(items[0].key) in FoldedKeys(fold, items);
      forall k | k in FoldedKeys(fold, items[1..]) ensures k in keys {
        var i :| i in items[1..] && fold(i.key) == k;
        assert i in items;
      }
      WithoutAll(fold, items[1..], keys);
    }
  }

  /** Merging the same edit again changes nothing; no old item of an edited key is left; every other old
      item is still there, untouched and in its order; and the new items come last, in theirs. */
  lemma MergedOnce(fold: Folding, existing: seq<Item>, newItems: seq<Item>, overridden: set<seq<byte>>)
    ensures var once := Merged(fold, existing, newItems, overridden);
            Merged(fold, once, newItems, overridden) == once
    ensures var keys := overridden + FoldedKeys(fold, newItems);
            && Without(fold, Merged(fold, existing, newItems, overridden), keys) == Without(fold, existing, keys)
            && forall i :: i in Merged(fold, existing, newItems, overridden)
                 <==> i in newItems || (i in existing && fold(i.key) !in keys)
    ensures var merged := Merged(fold, existing, newItems, overridden);
            && |newItems| <= |merged| && merged[|merged| - |newItems|..] == newItems
            && forall i <- merged[..|merged| - |newItems|] :: i in existing
  {
    var keys := overridden + FoldedKeys(fold, newItems);
    var rest := Without(fold, existing, keys);
    WithoutAppend(fold, rest, newItems, keys);
    WithoutTwice(fold, existing, keys);
    WithoutAll(fold, newItems, keys);
    WithoutMembers(fold, existing, keys);
    assert rest + [] == rest;
  }

  /** Which items there are afterwards: the new ones, and the old ones whose key is, folded, neither that of a new
      item nor one to override, however that is spelt. */
  lemma KeysAreFolded(fold: Folding, existing: seq<Item>, newItems: seq<Item>, overrideKeys: set<seq<byte>>, i: Item)
    ensures i in Merged(fold, existing, newItems, Folded(fold, overrideKeys))
       <==> || i in newItems
            || (i in existing && (forall k <- overrideKeys :: fold(k) != fold(i.key))
                && forall n <- newItems :: fold(n.key) != fold(i.key))
  {
    MergedOnce(fold, existing, newItems, Folded(fold, overrideKeys));
  }
}
