/**
 * The item-load Lambda handler: decode every record of an SQS batch, group
 * the decoded items by collection, load each collection with one upsert,
 * and report the message ids to redeliver.
 *
 * The batch-level specification is BatchFailures (the failure list, in
 * the order the handler builds it) and StoreAfterBatch (the catalog after
 * the loads); FailingIds is an independent record-by-record account of
 * which messages fail, and the lemmas below tie the two together.
 */
module ItemLoadHandler {
  import opened Common
  import opened Decoding
  import opened Batching
  import opened Loading
  import opened Dsn

  /** `None`, or `{"batchItemFailures": [{"itemIdentifier": id}, ...]}` (each entry represented by its id). */
  datatype Response = NoFailures | PartialBatchFailure(batchItemFailures: seq<string>)

  /** The handler either raises while assembling the DSN, before touching any record, or returns a response. */
  datatype HandlerResult = Raised(error: DsnError) | Returned(response: Response)

  /** The failure list: decode failures in record order, then each failed collection's ids in first-seen order. */
  function BatchFailures(codec: Codec, records: seq<QueueRecord>, fails: string -> bool): seq<string>
  {
    var g := Grouping(codec, records);
    FailedIds(codec, records) + LoadFailures(g.ids, fails, g.order)
  }

  /** The catalog after every collection of the batch has been loaded once. */
  function StoreAfterBatch(codec: Codec, records: seq<QueueRecord>, fails: string -> bool, store: Store): Store
  {
    var g := Grouping(codec, records);
    LoadGroups(store, g.items, fails, g.order)
  }

  /** A record is reported as failed when it decodes badly or its collection's load fails; a skipped record never is. */
  predicate RecordFails(codec: Codec, fails: string -> bool, record: QueueRecord)
  {
    match Classify(codec, record)
    case Skipped => false
    case DecodeFailed(_) => true
    case Decoded(_, item) => fails(item.collection)
  }

  /** Reference account: the ids of the records that fail, in record order. */
  function FailingIds(codec: Codec, records: seq<QueueRecord>, fails: string -> bool): seq<string>
  {
    if records == [] then []
    else
      var r := records[|records| - 1];
      FailingIds(codec, records[..|records| - 1], fails) +
      (if RecordFails(codec, fails, r) then [r.messageId.value] else [])
  }

  /** The ids of the records decoded into a collection whose load fails, in record order. */
  function LoadFailedIds(codec: Codec, records: seq<QueueRecord>, fails: string -> bool): seq<string>
  {
    if records == [] then []
    else
      LoadFailedIds(codec, records[..|records| - 1], fails) +
      match Classify(codec, records[|records| - 1])
      case Decoded(m, item) => if fails(item.collection) then [m] else []
      case _ => []
  }

  /** The ids of all records that carry a non-empty message id, in record order. */
  function NonSkippedIds(records: seq<QueueRecord>): seq<string>
  {
    if records == [] then []
    else
      var r := records[|records| - 1];
      NonSkippedIds(records[..|records| - 1]) + (if Truthy(r.messageId) then [r.messageId.value] else [])
  }

  /** Grouping one more decoded item adds its id to the load failures exactly when its collection fails. */
  lemma AddToGroupsLoadFailures(g: Groups, m: string, item: Item, fails: string -> bool)
    requires WellFormed(g)
    ensures var g' := AddToGroups(g, m, item);
            multiset(LoadFailures(g'.ids, fails, g'.order)) ==
              multiset(LoadFailures(g.ids, fails, g.order)) + (if fails(item.collection) then multiset{m} else multiset{})
  {
    var c := item.collection;
    var ids' := Appended(g.ids, c, m);
    if c in g.items {
      LoadFailuresAppended(g.ids, fails, g.order, c, m);
    } else {
      assert c !in g.order && c !in g.ids;
      LoadFailuresFrame(ids', fails, g.ids, fails, g.order);
      assert (g.order + [c])[..|g.order|] == g.order;
      assert LoadFailures(ids', fails, g.order + [c]) ==
             LoadFailures(g.ids, fails, g.order) + (if fails(c) then [m] else []);
    }
  }

  /** The load loop reports, with multiplicity, exactly the ids of the records whose collection fails. */
  lemma {:induction false} LoadFailuresMatchRecords(codec: Codec, records: seq<QueueRecord>, fails: string -> bool)
    ensures var g := Grouping(codec, records);
            multiset(LoadFailures(g.ids, fails, g.order)) == multiset(LoadFailedIds(codec, records, fails))
  {
    if records != [] {
      var prefix := records[..|records| - 1];
      LoadFailuresMatchRecords(codec, prefix, fails);
      var g := Grouping(codec, prefix);
      match Classify(codec, records[|records| - 1])
      case Decoded(m, item) =>
        GroupingWellFormed(codec, prefix);
        assert Grouping(codec, records) == AddToGroups(g, m, item);
        assert LoadFailedIds(codec, records, fails) ==
               LoadFailedIds(codec, prefix, fails) + (if fails(item.collection) then [m] else []);
        AddToGroupsLoadFailures(g, m, item, fails);
      case _ =>
        assert Grouping(codec, records) == g;
        assert LoadFailedIds(codec, records, fails) == LoadFailedIds(codec, prefix, fails);
    }
  }

  /** The reference account splits into decode failures and load failures. */
  lemma {:induction false} FailingIdsSplit(codec: Codec, records: seq<QueueRecord>, fails: string -> bool)
    ensures multiset(FailingIds(codec, records, fails)) ==
              multiset(FailedIds(codec, records)) + multiset(LoadFailedIds(codec, records, fails))
  {
    if records != [] {
      FailingIdsSplit(codec, records[..|records| - 1], fails);
    }
  }

  /**
   * Failure isolation: the reported list holds, with multiplicity, exactly
   * the ids of the records that fail; a record that decodes into a
   * collection whose load succeeds, or that is skipped, adds nothing.
   */
  lemma FailuresAreFailingRecords(codec: Codec, records: seq<QueueRecord>, fails: string -> bool)
    ensures multiset(BatchFailures(codec, records, fails)) == multiset(FailingIds(codec, records, fails))
  {
    LoadFailuresMatchRecords(codec, records, fails);
    FailingIdsSplit(codec, records, fails);
  }

  /** A message id is in the reference account exactly when some record carrying it fails. */
  lemma {:induction false} FailingIdsMembership(codec: Codec, records: seq<QueueRecord>, fails: string -> bool, m: string)
    ensures m in FailingIds(codec, records, fails) <==>
              exists i :: 0 <= i < |records| && RecordFails(codec, fails, records[i]) && records[i].messageId == Some(m)
  {
    if records != [] {
      var prefix := records[..|records| - 1];
      FailingIdsMembership(codec, prefix, fails, m);
      if exists i :: 0 <= i < |records| && RecordFails(codec, fails, records[i]) && records[i].messageId == Some(m) {
        var i :| 0 <= i < |records| && RecordFails(codec, fails, records[i]) && records[i].messageId == Some(m);
        if i < |prefix| {
          assert prefix[i] == records[i];
        }
      }
      if exists i :: 0 <= i < |prefix| && RecordFails(codec, fails, prefix[i]) && prefix[i].messageId == Some(m) {
        var i :| 0 <= i < |prefix| && RecordFails(codec, fails, prefix[i]) && prefix[i].messageId == Some(m);
        assert records[i] == prefix[i];
      }
    }
  }

  /** A message id is reported exactly when some record carrying it fails. */
  lemma ReportedIffSomeRecordFails(codec: Codec, records: seq<QueueRecord>, fails: string -> bool, m: string)
    ensures m in BatchFailures(codec, records, fails) <==>
              exists i :: 0 <= i < |records| && RecordFails(codec, fails, records[i]) && records[i].messageId == Some(m)
  {
    FailuresAreFailingRecords(codec, records, fails);
    assert m in BatchFailures(codec, records, fails) <==> m in multiset(BatchFailures(codec, records, fails));
    assert m in FailingIds(codec, records, fails) <==> m in multiset(FailingIds(codec, records, fails));
    FailingIdsMembership(codec, records, fails, m);
  }

  /** A batch in which no record fails reports no failures. */
  lemma NoFailingRecordNoFailures(codec: Codec, records: seq<QueueRecord>, fails: string -> bool)
    requires forall i :: 0 <= i < |records| ==> !RecordFails(codec, fails, records[i])
    ensures BatchFailures(codec, records, fails) == []
  {
    FailuresAreFailingRecords(codec, records, fails);
    if BatchFailures(codec, records, fails) != [] {
      var m := BatchFailures(codec, records, fails)[0];
      assert m in multiset(FailingIds(codec, records, fails));
      FailingIdsMembership(codec, records, fails, m);
    }
  }

  /** Were every load to fail, every record with a message id would be reported, in record order. */
  lemma {:induction false} EveryLoadFailingIsNonSkipped(codec: Codec, records: seq<QueueRecord>)
    ensures FailingIds(codec, records, (c: string) => true) == NonSkippedIds(records)
  {
    if records != [] {
      EveryLoadFailingIsNonSkipped(codec, records[..|records| - 1]);
    }
  }

  /**
   * Every record with a non-empty message id lands in exactly one place:
   * the decode failures or its collection's group. Counted with
   * multiplicity, the decode failures and all groups' ids are the ids of
   * the non-skipped records.
   */
  lemma RecordPartition(codec: Codec, records: seq<QueueRecord>)
    ensures var g := Grouping(codec, records);
            multiset(FailedIds(codec, records)) + multiset(LoadFailures(g.ids, (c: string) => true, g.order)) ==
              multiset(NonSkippedIds(records))
  {
    FailuresAreFailingRecords(codec, records, (c: string) => true);
    EveryLoadFailingIsNonSkipped(codec, records);
  }

  /**
   * A failed load of collection `c` appends exactly `c`'s message ids, in
   * order and contiguously, after the decode failures; had `c` loaded, the
   * list would be the same without them.
   */
  lemma {:induction false} CollectionFailureIsolation(codec: Codec, records: seq<QueueRecord>, fails: string -> bool, c: string)
    requires c in Grouping(codec, records).ids && fails(c)
    ensures exists p, q ::
              BatchFailures(codec, records, fails) ==
                FailedIds(codec, records) + p + Grouping(codec, records).ids[c] + q &&
              BatchFailures(codec, records, LoadsOk(fails, c)) ==
                FailedIds(codec, records) + p + q
  {
    var g := Grouping(codec, records);
    GroupingWellFormed(codec, records);
    assert c in g.order;
    var p, q := CollectionFailureContributesGroup(g.ids, fails, g.order, c);
    var d, group := FailedIds(codec, records), g.ids[c];
    assert Get(g.ids, c) == group;
    assert BatchFailures(codec, records, fails) == d + (p + group + q);
    assert BatchFailures(codec, records, LoadsOk(fails, c)) == d + (p + q);
    assert d + (p + group) + q == d + (p + group + q);
    assert d + p + group == d + (p + group);
    assert d + p + q == d + (p + q);
  }

  /**
   * Store isolation: after the batch, a key holds the last item of its
   * collection loaded under it when that collection's load succeeded, and
   * otherwise what it held before; no other collection's outcome matters.
   */
  lemma StoreAfterBatchAt(codec: Codec, records: seq<QueueRecord>, fails: string -> bool, store: Store, k: ItemKey)
    ensures var group := Get(Grouping(codec, records).items, k.collection);
            Lookup(StoreAfterBatch(codec, records, fails, store), k) ==
              if !fails(k.collection) && LastWithKey(group, k).Some? then LastWithKey(group, k) else Lookup(store, k)
  {
    var g := Grouping(codec, records);
    GroupingWellFormed(codec, records);
    LoadGroupsAt(store, g.items, fails, g.order, k);
  }

  /**
   * Redelivery: handling the same batch again after a first attempt leaves
   * the catalog as one attempt in which only the collections that failed
   * both times fail.
   */
  lemma RedeliveredBatchStore(codec: Codec, records: seq<QueueRecord>, fails1: string -> bool,
                              fails2: string -> bool, store: Store)
    ensures StoreAfterBatch(codec, records, fails2, StoreAfterBatch(codec, records, fails1, store)) ==
              StoreAfterBatch(codec, records, (c: string) => fails1(c) && fails2(c), store)
  {
    var once := StoreAfterBatch(codec, records, fails1, store);
    var both := (c: string) => fails1(c) && fails2(c);
    forall k ensures Lookup(StoreAfterBatch(codec, records, fails2, once), k) ==
                     Lookup(StoreAfterBatch(codec, records, both, store), k)
    {
      StoreAfterBatchAt(codec, records, fails2, once, k);
      StoreAfterBatchAt(codec, records, fails1, store, k);
      StoreAfterBatchAt(codec, records, both, store, k);
    }
    StoreExtensionality(StoreAfterBatch(codec, records, fails2, once), StoreAfterBatch(codec, records, both, store));
  }

  /** Handling a batch twice with the same load outcomes leaves the catalog as handling it once. */
  lemma RedeliveryIdempotent(codec: Codec, records: seq<QueueRecord>, fails: string -> bool, store: Store)
    ensures StoreAfterBatch(codec, records, fails, StoreAfterBatch(codec, records, fails, store)) ==
              StoreAfterBatch(codec, records, fails, store)
  {
    var once := StoreAfterBatch(codec, records, fails, store);
    forall k ensures Lookup(StoreAfterBatch(codec, records, fails, once), k) == Lookup(once, k) {
      StoreAfterBatchAt(codec, records, fails, once, k);
      StoreAfterBatchAt(codec, records, fails, store, k);
    }
    StoreExtensionality(StoreAfterBatch(codec, records, fails, once), once);
  }

  /**
   * The decode loop of `handler`: every record with a message id is either
   * filed under its item's collection or has its id added to the failures.
   */
  method DecodeRecords(codec: Codec, records: seq<QueueRecord>)
    returns (batchItemFailures: seq<string>, groups: Groups)
    ensures batchItemFailures == FailedIds(codec, records)
    ensures groups == Grouping(codec, records)
    ensures WellFormed(groups)
  {
    batchItemFailures := [];
    var order: seq<string> := [];
    var itemsByCollection: map<string, seq<Item>> := map[];
    var messageIdsByCollection: map<string, seq<string>> := map[];
    var i := 0;
    while i < |records|
      invariant 0 <= i <= |records|
      invariant batchItemFailures == FailedIds(codec, records[..i])
      invariant Groups(order, itemsByCollection, messageIdsByCollection) == Grouping(codec, records[..i])
    {
      var record := records[i];
      DecodeStep(codec, records, i);
      if !Truthy(record.messageId) {
        i := i + 1;
        continue;
      }
      var messageId := record.messageId.value;
      match DecodeBody(codec, record.body) {
        case Failure(_) =>
          batchItemFailures := batchItemFailures + [messageId];
        case Success(item) =>
          var c := item.collection;
          if c !in itemsByCollection {
            order := order + [c];
          }
          itemsByCollection := itemsByCollection[c := Get(itemsByCollection, c) + [item]];
          messageIdsByCollection := messageIdsByCollection[c := Get(messageIdsByCollection, c) + [messageId]];
      }
      i := i + 1;
    }
    assert records[..|records|] == records;
    groups := Groups(order, itemsByCollection, messageIdsByCollection);
    GroupingWellFormed(codec, records);
  }

  /**
   * The load loop of `handler`: each collection, in first-seen order, is
   * upserted as one group; when its load raises, its message ids are
   * appended to the failures and the store keeps its previous contents.
   */
  method LoadCollections(batchItemFailures: seq<string>, groups: Groups, fails: string -> bool, store: Store)
    returns (failures: seq<string>, loaded: Store)
    ensures failures == batchItemFailures + LoadFailures(groups.ids, fails, groups.order)
    ensures loaded == LoadGroups(store, groups.items, fails, groups.order)
  {
    failures := batchItemFailures;
    loaded := store;
    var j := 0;
    while j < |groups.order|
      invariant 0 <= j <= |groups.order|
      invariant failures == batchItemFailures + LoadFailures(groups.ids, fails, groups.order[..j])
      invariant loaded == LoadGroups(store, groups.items, fails, groups.order[..j])
    {
      var collectionId := groups.order[j];
      LoadStep(store, groups.items, groups.ids, fails, groups.order, j);
      if fails(collectionId) {
        var done := LoadFailures(groups.ids, fails, groups.order[..j]);
        assert batchItemFailures + done + Get(groups.ids, collectionId) ==
               batchItemFailures + (done + Get(groups.ids, collectionId));
        failures := failures + Get(groups.ids, collectionId);
      } else {
        loaded := Upsert(loaded, Get(groups.items, collectionId));
      }
      j := j + 1;
    }
    assert groups.order[..|groups.order|] == groups.order;
  }

  /**
   * `handler`: assemble the DSN (raising before any record is read when it
   * cannot), run the decode loop, then the load loop over the collections
   * in first-seen order, and report.
   */
  method Handler(records: seq<QueueRecord>, codec: Codec, settings: Settings, fails: string -> bool, store: Store)
    returns (result: HandlerResult, store': Store)
    ensures PgstacDsn(settings).Failure? ==> result == Raised(PgstacDsn(settings).error) && store' == store
    ensures PgstacDsn(settings).Success? ==> result.Returned?
    ensures result.Returned? ==>
              (result.response.NoFailures? <==> BatchFailures(codec, records, fails) == []) &&
              (result.response.PartialBatchFailure? ==>
                 result.response.batchItemFailures == BatchFailures(codec, records, fails)) &&
              store' == StoreAfterBatch(codec, records, fails, store)
    ensures result.Returned? && result.response.PartialBatchFailure? ==>
              multiset(result.response.batchItemFailures) == multiset(FailingIds(codec, records, fails))
  {
    var dsn := PgstacDsn(settings);
    if dsn.Failure? {
      return Raised(dsn.error), store;
    }

    var batchItemFailures, groups := DecodeRecords(codec, records);
    batchItemFailures, store' := LoadCollections(batchItemFailures, groups, fails, store);

    if batchItemFailures != [] {
      result := Returned(PartialBatchFailure(batchItemFailures));
    } else {
      result := Returned(NoFailures);
    }
    FailuresAreFailingRecords(codec, records, fails);
  }
}
