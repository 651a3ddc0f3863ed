/**
 * The collection batcher of the item-load handler: two `defaultdict(list)`
 * maps, items and message ids by collection, filled in record order, and
 * the order in which collections were first seen (the key order of the
 * items map, which the load loop iterates).
 */
module Batching {
  import opened Common
  import opened Decoding

  datatype Groups = Groups(order: seq<string>, items: map<string, seq<Item>>, ids: map<string, seq<string>>)

  const NoGroups: Groups := Groups([], map[], map[])

  /** Reading a `defaultdict(list)`: a missing key reads as the empty list. */
  function Get<V>(m: map<string, seq<V>>, key: string): seq<V>
  {
    if key in m then m[key] else []
  }

  /** `m[key].append(v)` on a `defaultdict(list)`. */
  function Appended<V>(m: map<string, seq<V>>, key: string, v: V): map<string, seq<V>>
  {
    m[key := Get(m, key) + [v]]
  }

  /** The two appends made for a decoded item, and the new key if the collection is new. */
  function AddToGroups(g: Groups, messageId: string, item: Item): (r: Groups)
    ensures Get(r.items, item.collection) == Get(g.items, item.collection) + [item]
    ensures Get(r.ids, item.collection) == Get(g.ids, item.collection) + [messageId]
    ensures forall c :: c != item.collection ==> Get(r.items, c) == Get(g.items, c) && Get(r.ids, c) == Get(g.ids, c)
    ensures item.collection in g.items ==> r.order == g.order
    ensures item.collection !in g.items ==> r.order == g.order + [item.collection]
  {
    var c := item.collection;
    Groups(if c in g.items then g.order else g.order + [c],
           Appended(g.items, c, item),
           Appended(g.ids, c, messageId))
  }

  /** The groups after the decode loop has seen `records`. */
  function Grouping(codec: Codec, records: seq<QueueRecord>): Groups
  {
    if records == [] then NoGroups
    else
      var g := Grouping(codec, records[..|records| - 1]);
      match Classify(codec, records[|records| - 1])
      case Decoded(m, item) => AddToGroups(g, m, item)
      case _ => g
  }

  /** The message ids the decode loop reports as failed, in record order. */
  function FailedIds(codec: Codec, records: seq<QueueRecord>): seq<string>
  {
    if records == [] then []
    else
      FailedIds(codec, records[..|records| - 1]) +
      match Classify(codec, records[|records| - 1])
      case DecodeFailed(m) => [m]
      case _ => []
  }

  /** One more iteration of the decode loop, over the record `records[i]`. */
  lemma DecodeStep(codec: Codec, records: seq<QueueRecord>, i: nat)
    requires i < |records|
    ensures Grouping(codec, records[..i + 1]) ==
              match Classify(codec, records[i])
              case Decoded(m, item) => AddToGroups(Grouping(codec, records[..i]), m, item)
              case _ => Grouping(codec, records[..i])
    ensures FailedIds(codec, records[..i + 1]) ==
              FailedIds(codec, records[..i]) +
              match Classify(codec, records[i])
              case DecodeFailed(m) => [m]
              case _ => []
  {
    assert records[..i + 1][..i] == records[..i];
  }

  /** Reference definition of one collection's group: the (message id, item) pairs of the records decoded into it, in record order. */
  function Members(codec: Codec, records: seq<QueueRecord>, c: string): seq<(string, Item)>
  {
    if records == [] then []
    else
      Members(codec, records[..|records| - 1], c) +
      match Classify(codec, records[|records| - 1])
      case Decoded(m, item) => if item.collection == c then [(m, item)] else []
      case _ => []
  }

  /** The shape the two maps keep: same keys, in `order` once each, parallel non-empty lists, items filed under their own collection. */
  ghost predicate WellFormed(g: Groups)
  {
    && Distinct(g.order)
    && (forall c :: c in g.items <==> c in g.order)
    && (forall c :: c in g.ids <==> c in g.order)
    && (forall c :: c in g.items ==> c in g.ids && |g.items[c]| == |g.ids[c]| > 0)
    && (forall c, k :: c in g.items && 0 <= k < |g.items[c]| ==> g.items[c][k].collection == c)
  }

  /** A collection seen for the first time is appended to the order without repeating it. */
  lemma AppendNewDistinct(order: seq<string>, c: string)
    requires Distinct(order) && c !in order
    ensures Distinct(order + [c])
  {
    forall i, j | 0 <= i < j < |order| + 1 ensures (order + [c])[i] != (order + [c])[j] {
      if j == |order| { assert (order + [c])[i] == order[i]; }
    }
  }

  /** One decoded item keeps the maps well formed. */
  lemma AddToGroupsWellFormed(g: Groups, m: string, item: Item)
    requires WellFormed(g)
    ensures WellFormed(AddToGroups(g, m, item))
  {
    var c0 := item.collection;
    if c0 !in g.items {
      assert c0 !in g.order;
      AppendNewDistinct(g.order, c0);
    }
  }

  /** The decode loop keeps the maps well formed. */
  lemma {:induction false} GroupingWellFormed(codec: Codec, records: seq<QueueRecord>)
    ensures WellFormed(Grouping(codec, records))
  {
    if records != [] {
      var prefix := records[..|records| - 1];
      GroupingWellFormed(codec, prefix);
      match Classify(codec, records[|records| - 1])
      case Decoded(m, item) => AddToGroupsWellFormed(Grouping(codec, prefix), m, item);
      case _ =>
    }
  }

  /** The group of `c` in `g` is exactly the list of pairs `ms`, entry by entry. */
  ghost predicate GroupIs(g: Groups, c: string, ms: seq<(string, Item)>)
  {
    if c in g.items then
      c in g.ids && |ms| == |g.items[c]| == |g.ids[c]| &&
      forall k :: 0 <= k < |ms| ==> ms[k] == (g.ids[c][k], g.items[c][k])
    else ms == []
  }

  /**
   * After the decode loop each collection's two lists are exactly the
   * message ids and the items of the records decoded into it, entry by
   * entry; a collection without such records has no key.
   */
  lemma {:induction false} GroupingIsMembers(codec: Codec, records: seq<QueueRecord>, c: string)
    ensures GroupIs(Grouping(codec, records), c, Members(codec, records, c))
  {
    if records != [] {
      var prefix := records[..|records| - 1];
      GroupingIsMembers(codec, prefix, c);
      GroupingWellFormed(codec, prefix);
      var g := Grouping(codec, prefix);
      match Classify(codec, records[|records| - 1])
      case Decoded(m, item) =>
        var ms := Members(codec, prefix, c);
        if item.collection == c {
          assert Members(codec, records, c) == ms + [(m, item)];
        } else {
          assert Members(codec, records, c) == ms;
        }
      case _ =>
    }
  }

  /** Each entry of a group comes from a record that decoded to exactly that message id and item. */
  lemma {:induction false} MembersOrigin(codec: Codec, records: seq<QueueRecord>, c: string, k: nat)
    requires k < |Members(codec, records, c)|
    ensures exists i :: 0 <= i < |records| &&
              Classify(codec, records[i]) == Decoded(Members(codec, records, c)[k].0, Members(codec, records, c)[k].1)
    ensures Members(codec, records, c)[k].1.collection == c
  {
    var prefix := records[..|records| - 1];
    if k < |Members(codec, prefix, c)| {
      MembersOrigin(codec, prefix, c, k);
      var i :| 0 <= i < |prefix| &&
               Classify(codec, prefix[i]) == Decoded(Members(codec, prefix, c)[k].0, Members(codec, prefix, c)[k].1);
      assert records[i] == prefix[i];
    } else {
      assert Classify(codec, records[|records| - 1]) ==
             Decoded(Members(codec, records, c)[k].0, Members(codec, records, c)[k].1);
    }
  }

  /** Entry k of a collection's item list and entry k of its message-id list come from the same record. */
  lemma GroupEntryOrigin(codec: Codec, records: seq<QueueRecord>, c: string, k: nat)
    requires c in Grouping(codec, records).items
    requires k < |Grouping(codec, records).items[c]|
    ensures c in Grouping(codec, records).ids && k < |Grouping(codec, records).ids[c]|
    ensures exists i :: 0 <= i < |records| &&
              Classify(codec, records[i]) ==
                Decoded(Grouping(codec, records).ids[c][k], Grouping(codec, records).items[c][k])
  {
    GroupingWellFormed(codec, records);
    GroupingIsMembers(codec, records, c);
    MembersOrigin(codec, records, c, k);
  }

  /** A record without a message id changes neither the groups nor the decode failures. */
  lemma {:induction false} SkippedRecordIsInert(codec: Codec, a: seq<QueueRecord>, r: QueueRecord, b: seq<QueueRecord>)
    requires !Truthy(r.messageId)
    ensures Grouping(codec, a + [r] + b) == Grouping(codec, a + b)
    ensures FailedIds(codec, a + [r] + b) == FailedIds(codec, a + b)
  {
    if b == [] {
      assert (a + [r] + b)[..|a|] == a;
      assert a + b == a;
    } else {
      var b' := b[..|b| - 1];
      SkippedRecordIsInert(codec, a, r, b');
      assert (a + [r] + b)[..|a + [r] + b| - 1] == a + [r] + b';
      assert (a + [r] + b)[|a + [r] + b| - 1] == b[|b| - 1];
      assert (a + b)[..|a + b| - 1] == a + b';
      assert (a + b)[|a + b| - 1] == b[|b| - 1];
    }
  }
}
