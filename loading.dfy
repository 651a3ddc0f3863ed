/**
 * The batch loader of the item-load handler: the catalog store as a map
 * from item identity to the stored item, the upsert a collection load
 * performs, and the effect of the per-collection load loop on the store
 * and on the failure list.
 *
 * Whether the load of a collection raises is the oracle `fails`; a load
 * that raises leaves the store unchanged.
 */
module Loading {
  import opened Common
  import opened Decoding
  import opened Batching

  /** An item's identity in the catalog: its collection and its id. */
  datatype ItemKey = ItemKey(collection: string, id: string)

  type Store = map<ItemKey, Item>

  function KeyOf(item: Item): ItemKey
  {
    ItemKey(item.collection, item.id)
  }

  function Lookup(store: Store, k: ItemKey): Option<Item>
  {
    if k in store then Some(store[k]) else None
  }

  /** Insert-or-replace of each item in turn, by identity. */
  function Upsert(store: Store, items: seq<Item>): (r: Store)
    ensures r.Keys == store.Keys + (set i | 0 <= i < |items| :: KeyOf(items[i]))
    ensures items != [] ==> r[KeyOf(items[|items| - 1])] == items[|items| - 1]
  {
    if items == [] then store
    else
      var last := items[|items| - 1];
      Upsert(store, items[..|items| - 1])[KeyOf(last) := last]
  }

  /** The last item of `items` with identity `k`, if any. */
  function LastWithKey(items: seq<Item>, k: ItemKey): Option<Item>
  {
    if items == [] then None
    else if KeyOf(items[|items| - 1]) == k then Some(items[|items| - 1])
    else LastWithKey(items[..|items| - 1], k)
  }

  /** After an upsert, a key holds the last item loaded under it, or what it held before. */
  lemma {:induction false} UpsertAt(store: Store, items: seq<Item>, k: ItemKey)
    ensures Lookup(Upsert(store, items), k) ==
              if LastWithKey(items, k).Some? then LastWithKey(items, k) else Lookup(store, k)
  {
    if items != [] {
      UpsertAt(store, items[..|items| - 1], k);
    }
  }

  /** Two stores that agree on every key are equal. */
  lemma StoreExtensionality(a: Store, b: Store)
    requires forall k :: Lookup(a, k) == Lookup(b, k)
    ensures a == b
  {
    assert forall k :: k in a <==> Lookup(a, k).Some?;
    assert a.Keys == b.Keys;
  }

  /** Loading the same items a second time leaves the store as loading them once. */
  lemma UpsertIdempotent(store: Store, items: seq<Item>)
    ensures Upsert(Upsert(store, items), items) == Upsert(store, items)
  {
    forall k ensures Lookup(Upsert(Upsert(store, items), items), k) == Lookup(Upsert(store, items), k) {
      UpsertAt(Upsert(store, items), items, k);
      UpsertAt(store, items, k);
    }
    StoreExtensionality(Upsert(Upsert(store, items), items), Upsert(store, items));
  }

  /** Items filed under one collection are never found under another collection's key. */
  lemma {:induction false} LastWithKeyOtherCollection(items: seq<Item>, c: string, k: ItemKey)
    requires forall j :: 0 <= j < |items| ==> items[j].collection == c
    requires k.collection != c
    ensures LastWithKey(items, k) == None
  {
    if items != [] {
      LastWithKeyOtherCollection(items[..|items| - 1], c, k);
    }
  }

  /** The message ids the load loop adds over the collections `cs`: a failed collection adds its whole list. */
  function LoadFailures(ids: map<string, seq<string>>, fails: string -> bool, cs: seq<string>): seq<string>
  {
    if cs == [] then []
    else
      var c := cs[|cs| - 1];
      LoadFailures(ids, fails, cs[..|cs| - 1]) + (if fails(c) then Get(ids, c) else [])
  }

  /** The store after the load loop has visited the collections `cs`. */
  function LoadGroups(store: Store, items: map<string, seq<Item>>, fails: string -> bool, cs: seq<string>): Store
  {
    if cs == [] then store
    else
      var c := cs[|cs| - 1];
      var before := LoadGroups(store, items, fails, cs[..|cs| - 1]);
      if fails(c) then before else Upsert(before, Get(items, c))
  }

  /** One more iteration of the load loop, over the collection `cs[j]`. */
  lemma LoadStep(store: Store, items: map<string, seq<Item>>, ids: map<string, seq<string>>,
                 fails: string -> bool, cs: seq<string>, j: nat)
    requires j < |cs|
    ensures LoadFailures(ids, fails, cs[..j + 1]) ==
              LoadFailures(ids, fails, cs[..j]) + (if fails(cs[j]) then Get(ids, cs[j]) else [])
    ensures LoadGroups(store, items, fails, cs[..j + 1]) ==
              if fails(cs[j]) then LoadGroups(store, items, fails, cs[..j])
              else Upsert(LoadGroups(store, items, fails, cs[..j]), Get(items, cs[j]))
  {
    assert cs[..j + 1][..j] == cs[..j];
  }

  /** Every item is filed under its own collection. */
  ghost predicate FiledByCollection(items: map<string, seq<Item>>)
  {
    forall c, j :: c in items && 0 <= j < |items[c]| ==> items[c][j].collection == c
  }

  /**
   * After the load loop, a key holds the last item of its collection's group
   * loaded under it when that collection was visited and its load did not
   * fail; otherwise it holds what it held before. The outcome for one
   * collection depends on no other collection.
   */
  lemma {:induction false} LoadGroupsAt(store: Store, items: map<string, seq<Item>>, fails: string -> bool,
                                        cs: seq<string>, k: ItemKey)
    requires FiledByCollection(items)
    ensures Lookup(LoadGroups(store, items, fails, cs), k) ==
              if k.collection in cs && !fails(k.collection) && LastWithKey(Get(items, k.collection), k).Some?
              then LastWithKey(Get(items, k.collection), k)
              else Lookup(store, k)
  {
    if cs != [] {
      var c := cs[|cs| - 1];
      var prefix := cs[..|cs| - 1];
      LoadGroupsAt(store, items, fails, prefix, k);
      assert k.collection in cs <==> k.collection in prefix || k.collection == c;
      if !fails(c) {
        UpsertAt(LoadGroups(store, items, fails, prefix), Get(items, c), k);
        if k.collection != c {
          LastWithKeyOtherCollection(Get(items, c), c, k);
        }
      }
    }
  }

  /** The load loop's failures over `cs` depend only on the lists and outcomes of the collections in `cs`. */
  lemma {:induction false} LoadFailuresFrame(ids1: map<string, seq<string>>, fails1: string -> bool,
                                             ids2: map<string, seq<string>>, fails2: string -> bool,
                                             cs: seq<string>)
    requires forall c :: c in cs ==> fails1(c) == fails2(c) && Get(ids1, c) == Get(ids2, c)
    ensures LoadFailures(ids1, fails1, cs) == LoadFailures(ids2, fails2, cs)
  {
    if cs != [] {
      var prefix := cs[..|cs| - 1];
      assert forall c :: c in prefix ==> c in cs;
      LoadFailuresFrame(ids1, fails1, ids2, fails2, prefix);
    }
  }

  /** Appending a message id to the list of the last collection visited. */
  lemma AppendedToLast(ids: map<string, seq<string>>, fails: string -> bool, cs: seq<string>, m: string)
    requires Distinct(cs) && cs != []
    ensures var c := cs[|cs| - 1];
            multiset(LoadFailures(Appended(ids, c, m), fails, cs)) ==
              multiset(LoadFailures(ids, fails, cs)) + (if fails(c) then multiset{m} else multiset{})
  {
    DistinctPrefix(cs);
    LoadFailuresFrame(Appended(ids, cs[|cs| - 1], m), fails, ids, fails, cs[..|cs| - 1]);
  }

  /** Appending a message id to a visited collection's list adds that id to the load failures exactly when the collection fails. */
  lemma {:induction false} LoadFailuresAppended(ids: map<string, seq<string>>, fails: string -> bool,
                                                cs: seq<string>, c: string, m: string)
    requires Distinct(cs) && c in cs
    ensures multiset(LoadFailures(Appended(ids, c, m), fails, cs)) ==
              multiset(LoadFailures(ids, fails, cs)) + (if fails(c) then multiset{m} else multiset{})
  {
    if cs[|cs| - 1] == c {
      AppendedToLast(ids, fails, cs, m);
    } else {
      var prefix := cs[..|cs| - 1];
      DistinctPrefix(cs);
      assert c in prefix;
      LoadFailuresAppended(ids, fails, prefix, c, m);
      assert Get(Appended(ids, c, m), cs[|cs| - 1]) == Get(ids, cs[|cs| - 1]);
    }
  }

  /** The same load outcomes, except that collection `c` loads successfully. */
  function LoadsOk(fails: string -> bool, c: string): string -> bool
  {
    (x: string) => x != c && fails(x)
  }

  /**
   * A failed load of collection `c` contributes exactly `c`'s message-id list,
   * as one contiguous run in its order; with `c` succeeding instead, the rest
   * of the load failures are the same.
   */
  lemma {:induction false} CollectionFailureContributesGroup(ids: map<string, seq<string>>, fails: string -> bool,
                                                              cs: seq<string>, c: string)
      returns (p: seq<string>, q: seq<string>)
    requires Distinct(cs) && c in cs && fails(c)
    ensures LoadFailures(ids, fails, cs) == p + Get(ids, c) + q
    ensures LoadFailures(ids, LoadsOk(fails, c), cs) == p + q
  {
    var others := LoadsOk(fails, c);
    var last := cs[|cs| - 1];
    var prefix := cs[..|cs| - 1];
    DistinctPrefix(cs);
    if last == c {
      LoadFailuresFrame(ids, fails, ids, others, prefix);
      p, q := LoadFailures(ids, fails, prefix), [];
      assert LoadFailures(ids, fails, cs) == p + Get(ids, c);
      assert LoadFailures(ids, others, cs) == p;
    } else {
      assert c in prefix;
      var p', q' := CollectionFailureContributesGroup(ids, fails, prefix, c);
      var tail := if fails(last) then Get(ids, last) else [];
      assert others(last) == fails(last);
      assert LoadFailures(ids, fails, cs) == p' + Get(ids, c) + q' + tail;
      assert LoadFailures(ids, others, cs) == p' + q' + tail;
      AppendAssoc(p' + Get(ids, c), q', tail);
      AppendAssoc(p', q', tail);
      p, q := p', q' + tail;
    }
  }
}
