# stactools-ingest: the item loader and the item-creation service

This project models two parts of the stactools-ingest pipeline in Dafny and proves properties about them.

**The item-load Lambda handler.** It receives a batch of SQS records. Each record carries an SNS notification whose `"Message"` is a STAC item as JSON text. The handler runs in four steps:
1. It builds the pgstac connection string (the DSN), from a Secrets Manager secret or from environment variables plus an RDS IAM token.
2. It decodes each record. A record without a message id is skipped. A record that fails to decode has its message id reported as failed. Every other record is filed under its item's collection, together with its message id.
3. It upserts each collection's items as one load, in the order the collections were first seen. When a load raises, all of that collection's message ids are reported.
4. It returns the partial-batch-failure response, or nothing when no record failed.

**The stactools-uvx `create_stac_item` endpoint.** It rejects a request without a package name. It then builds the `uvx … stac <group> create-item …` command line and runs it with a temporary output path appended. It reads the item from that file, optionally overrides the item's `collection`, and validates the result. Each failure maps to an HTTP error.

Modules:
- `Common`: `Option` and `Result`, Python string truthiness, and distinctness.
- `JsonValues`: JSON values.
- `Dsn`: `get_pgstac_dsn` and a reader for the connection string it produces.
- `Decoding`: one record becomes skipped, a decode failure, or a decoded item.
- `Batching`: the decode loop's grouping by collection, as a fold over the records.
- `Loading`: the catalog store, the upsert, and the load loop, as folds over the collections.
- `ItemLoadHandler`: the handler method, plus the batch-level properties.
- `StactoolsUvx`: command building, the collection override, and the error mapping.

The handler's two loops are methods, `DecodeRecords` and `LoadCollections`. Each is proved against a specification function: `FailedIds` and `Grouping` for decoding, `LoadFailures` and `LoadGroups` for loading. `Handler` composes them. `FailingIds` is a separate record-by-record account of which messages fail. The lemmas connect the handler's failure list and final store to that account.

## Model

| member | source | states |
|---|---|---|
| `ItemLoadHandler.Handler` | packages/item-load/src/item_load/handler.py:120-197 | If the DSN cannot be built, the handler raises that error before reading any record and the store is untouched. Otherwise it returns a response. The response is `None` exactly when the failure list is empty; otherwise it holds that list, in the handler's order. The store ends as every non-failing collection's upsert leaves it. The reported ids are, with multiplicity, exactly the ids of the failing records. |
| `ItemLoadHandler.DecodeRecords` | packages/item-load/src/item_load/handler.py:133-164 | The decode loop's failure list is the decode-failure fold. Its `defaultdict` pair and collection order are the grouping fold. The maps stay well formed. |
| `ItemLoadHandler.LoadCollections` | packages/item-load/src/item_load/handler.py:166-184 | The load loop extends the list with each failing collection's ids, in first-seen order. The store ends as the upsert of every collection whose load did not raise. |
| `ItemLoadHandler.FailuresAreFailingRecords` | packages/item-load/src/item_load/handler.py:137-184 | Failure isolation. The reported list equals, as a multiset, the ids of the records that fail to decode or whose collection's load fails. Skipped records, and records in a collection that loads, are never reported. |
| `ItemLoadHandler.ReportedIffSomeRecordFails` | packages/item-load/src/item_load/handler.py:137-184 | A message id is reported if and only if some record carrying it fails. |
| `ItemLoadHandler.NoFailingRecordNoFailures` | packages/item-load/src/item_load/handler.py:186-197 | When no record fails, the failure list is empty, so the handler returns `None`. |
| `ItemLoadHandler.RecordPartition` | packages/item-load/src/item_load/handler.py:137-164 | Every record with a message id lands in exactly one place: the decode failures or one collection's id list. Together, with multiplicity, these are the ids of the non-skipped records. |
| `ItemLoadHandler.CollectionFailureIsolation` | packages/item-load/src/item_load/handler.py:166-184 | A failed load of collection `c` adds exactly `c`'s message-id list, in order and as one contiguous run, after the decode failures. Had `c` loaded, the list would be the same without that run. |
| `ItemLoadHandler.StoreAfterBatchAt` | packages/item-load/src/item_load/handler.py:166-184 | After the batch, a key holds the last item of its collection loaded under it, when that collection's load succeeded. Otherwise it keeps its old value. No other collection's outcome affects it. |
| `ItemLoadHandler.RedeliveredBatchStore` | packages/item-load/src/item_load/handler.py:166-184 | Handling a batch again after a first attempt leaves the store as a single attempt in which only the collections that failed both times fail. |
| `ItemLoadHandler.RedeliveryIdempotent` | packages/item-load/src/item_load/handler.py:169-174 | Because the load is an upsert, handling the same batch twice with the same outcomes leaves the store as handling it once. |
| `ItemLoadHandler.LoadFailuresMatchRecords` | packages/item-load/src/item_load/handler.py:158-184 | The load loop's failures equal, as a multiset, the ids of the records decoded into a failing collection. |
| `ItemLoadHandler.FailingIdsSplit` | packages/item-load/src/item_load/handler.py:137-184 | The failing records split into decode failures and load failures. |
| `ItemLoadHandler.AddToGroupsLoadFailures` | packages/item-load/src/item_load/handler.py:158-159 | Filing one more decoded item adds its id to the load failures exactly when its collection fails. |
| `ItemLoadHandler.FailingIdsMembership` | packages/item-load/src/item_load/handler.py:137-184 | An id is in the reference account if and only if some record carrying it fails. |
| `ItemLoadHandler.EveryLoadFailingIsNonSkipped` | packages/item-load/src/item_load/handler.py:137-141 | In the reference account `FailingIds`, with every load failing, the failing records are exactly those with a non-empty message id, in record order. `RecordPartition` uses this. |
| `Decoding.DecodeBody` | packages/item-load/src/item_load/handler.py:143-164 | A missing body gives the body error; a body that is not JSON gives the JSON error. A notification that is not an object or has no `"Message"` gives the message-missing error. A `"Message"` that is not a string, or whose text is not JSON, gives the message error. An inner value that is not an object, or that does not validate, gives the invalid-item error. A validated item with an empty collection gives the collection error. Otherwise the result is exactly the validated item, whose collection is non-empty. |
| `Decoding.NotificationRoundTrip` | packages/item-load/src/item_load/handler.py:143-155 | Under a faithful JSON parser, a published notification that wraps a valid item with a collection decodes to that item. |
| `Decoding.Classify` | packages/item-load/src/item_load/handler.py:137-164 | A record is skipped if and only if its message id is missing or empty. It fails if and only if it has an id and decoding fails. A decoded item carries the record's id and has a non-empty collection. |
| `Batching.AddToGroupsWellFormed` | packages/item-load/src/item_load/handler.py:158-159 | Filing an item keeps the properties below. The collection order has no repeats. It has the same keys as both maps. The two lists of each collection are parallel and non-empty. Every item sits under its own collection. |
| `Batching.AddToGroups` | packages/item-load/src/item_load/handler.py:158-159 | Filing a decoded item appends it to its collection's item list and its message id to the id list. Every other collection's lists are unchanged. A new collection is appended to the order; a known one leaves the order as it was. |
| `Batching.GroupingWellFormed` | packages/item-load/src/item_load/handler.py:135-164 | The decode loop keeps the maps well formed. |
| `Batching.GroupingIsMembers` | packages/item-load/src/item_load/handler.py:135-164 | Each collection's item list and id list are, entry by entry, the items and ids of the records decoded into it, in record order. A collection with no such records has no key. |
| `Batching.MembersOrigin` | packages/item-load/src/item_load/handler.py:137-159 | Every group entry comes from a record that decoded to exactly that id and item, and the item is filed under its own collection. |
| `Batching.GroupEntryOrigin` | packages/item-load/src/item_load/handler.py:158-159 | Entry k of a collection's item list and entry k of its id list come from the same record. |
| `Batching.SkippedRecordIsInert` | packages/item-load/src/item_load/handler.py:138-141 | Inserting a record without a message id anywhere in the batch changes neither the groups nor the decode failures. |
| `Loading.UpsertAt` | packages/item-load/src/item_load/handler.py:169-174 | After an upsert, each key holds the last loaded item with that key, or its previous value when there is none. |
| `Loading.Upsert` | packages/item-load/src/item_load/handler.py:169-175 | After an upsert, the store's keys are its old keys plus the identities of the loaded items, and the last item loaded holds its own key. |
| `Loading.UpsertIdempotent` | packages/item-load/src/item_load/handler.py:169-174 | Upserting the same items twice leaves the store as upserting them once. |
| `Loading.LastWithKeyOtherCollection` | packages/item-load/src/item_load/handler.py:166-174 | One collection's load never touches a key of another collection. |
| `Loading.LoadGroupsAt` | packages/item-load/src/item_load/handler.py:166-184 | After the load loop, each key's value depends only on its own collection: whether that collection was visited, whether its load failed, and its items. |
| `Loading.LoadFailuresFrame` | packages/item-load/src/item_load/handler.py:178-184 | The load failures over some collections depend only on those collections' id lists and outcomes. |
| `Loading.LoadFailuresAppended` | packages/item-load/src/item_load/handler.py:159-184 | Appending an id to a visited collection's list adds it to the load failures exactly when that collection fails. |
| `Loading.CollectionFailureContributesGroup` | packages/item-load/src/item_load/handler.py:178-184 | A failing collection contributes its whole id list as one contiguous run. Making it succeed removes exactly that run. |
| `Dsn.PgstacDsn` | packages/item-load/src/item_load/handler.py:95-117 | With a non-empty `PGSTAC_SECRET_ARN`, the call fails exactly when the secret lacks one of its five fields. The error names the first missing field in the order username, password, host, port, dbname, which is the `KeyError` the f-string raises. Without it, the call fails exactly when host, database or user is missing or empty, with the environment error. Every DSN it returns starts with `postgres://`; `SecretDsnFields` and `IamDsnFields` state its fields. |
| `Dsn.FormatDsn` | packages/item-load/src/item_load/handler.py:99-117 | The DSN is `postgres://`, then the user, then `:`, and at the end `/` followed by the database name; its length is the fields' lengths plus the scheme and four separators. `DsnRoundTrip` reads it back. |
| `Dsn.FirstMissing` | packages/item-load/src/item_load/handler.py:99 | The field whose lookup raises first: none exactly when all fields are present; otherwise a field the secret lacks, and every field before it in the list is present. |
| `Dsn.SplitAt` | packages/item-load/src/item_load/handler.py:99 | Splitting at the first separator: the parts rejoin to the input, and the first part holds no separator. |
| `Dsn.SplitAtJoin` | packages/item-load/src/item_load/handler.py:99 | Splitting a joined string at a separator absent from its first part gives back both parts. |
| `Dsn.DsnRoundTrip` | packages/item-load/src/item_load/handler.py:99 | Reading back a formatted DSN with the model's own splitter `ParseDsn` gives its five fields. |
| `Dsn.SecretDsnFields` | packages/item-load/src/item_load/handler.py:96-99 | With a complete secret, the DSN succeeds and carries exactly the secret's username, password, host, port and database. |
| `Dsn.IamDsnFields` | packages/item-load/src/item_load/handler.py:102-117 | Without a secret, when host, database and user are set, the DSN succeeds. It carries the environment's user, host and database, and the port: `POSTGRES_PORT` verbatim when set (even empty), 5432 otherwise. Its password is the IAM token generated for that host, user and port. |
| `Dsn.IamDsnDefaultPort` | packages/item-load/src/item_load/handler.py:102-117 | The case of `IamDsnFields` without `POSTGRES_PORT`: the DSN names port 5432, and the token is generated for port 5432. |
| `StactoolsUvx.BuildCommand` | src/stactools_uvx/app.py:61-74 | The command is the eight fixed elements `uvx --with requests,<package> --from stactools stac <group> create-item`, then the arguments unchanged, then for each option its `--key` and value, in order. Its length is 8 + len(args) + 2·len(options). |
| `StactoolsUvx.CommandPrefix` | src/stactools_uvx/app.py:61-69 | The fixed head has eight elements. |
| `StactoolsUvx.OptionArgs` | src/stactools_uvx/app.py:73-74 | The options take exactly two command-line elements each. |
| `StactoolsUvx.OptionArgsAt` | src/stactools_uvx/app.py:73-74 | Option k occupies exactly positions 2k (`"--" + key`) and 2k+1 (its value). |
| `StactoolsUvx.OptionArgsRoundTrip` | src/stactools_uvx/app.py:73-74 | The options can be read back from the command line unchanged, whatever their keys and values. |
| `StactoolsUvx.OverrideCollection` | src/stactools_uvx/app.py:87-88 | A missing or empty collection id leaves the document as produced. A non-empty one requires an object and sets `"collection"` to that id, keeping every other key. |
| `StactoolsUvx.OverrideCollectionIdempotent` | src/stactools_uvx/app.py:87-88 | Applying the override twice is the same as applying it once. |
| `StactoolsUvx.Unexpected` | src/stactools_uvx/app.py:104-106 | The catch-all error is a 500 whose detail is `"Unexpected error: "` followed by the reason. |
| `StactoolsUvx.CreateStacItem` | src/stactools_uvx/app.py:50-106 | An empty package name gives 400 `"Missing required parameter: package_name"`, and nothing runs; no other path gives 400. Otherwise the command run is the built command plus the output path as its single last element, 9 + len(args) + 2·len(options) elements in all. A non-zero exit gives 500 with the error text, stderr and stdout. A failed launch, an unreadable output, an override that fails, a document that is not an object, or a validation that fails each give 500 `"Unexpected error: "` followed by that failure's reason. The response succeeds exactly when the run exits 0, the output is read, the override applies and validation accepts, and it then returns the validated item. |

## Left out

- Logging everywhere, and the Lambda context (request id, remaining time): they do not affect results.
- `get_secret_dict` and `get_rds_token`: the Secrets Manager and RDS calls are inputs to `Dsn.PgstacDsn`. Their own failures, such as a missing secret or no credentials, are not modelled.
- `json.loads` and the STAC `Item` model are the abstract `Codec`: a parser and a validator that either succeed or raise. `model_dump` is the item's `document`.
- pypgstac's `PgstacDB` and `Loader`: a collection's load is an abstract upsert keyed by (collection, id). Whether it raises is the input `fails`. A load that raises is assumed to leave the store unchanged, because the database transaction is not visible here.
- `ItemLoadHandler.Handler`: each failure entry `{"itemIdentifier": id}` is represented by the id alone.
- `ItemLoadHandler.Handler`: the DSN string is computed but not passed to the abstract loader. A DSN that builds but cannot connect shows up only as a load failure, through `fails`.
- `ItemLoadHandler.Handler`: an event with no `"Records"` key is modelled as an empty record list. Records whose message id is not a string are not modelled.
- `Dsn.DsnRoundTrip`: holds only when the fields contain none of the separators that follow them (`:` in user or host, `@` in password, `/` in port). `get_pgstac_dsn` does not percent-encode them.
- `Dsn.ParseDsn`: the model's own splitter, which cuts the password at the first `@`. It is not a URI parser. A real URI reader such as libpq ends the authority at the first `/`, `?` or `#`. The round-trip lemmas (`DsnRoundTrip`, `SecretDsnFields`, `IamDsnFields`, `IamDsnDefaultPort`) say nothing about how a database client reads a DSN whose password holds those characters, such as an RDS IAM token. The token's format comes from the AWS library, which is not part of this model.
- `Loading.Upsert`: when two items in one collection's load share an identity, the last one wins. This is an assumption about pypgstac's `Methods.upsert` within a single `load_items` call, which is not part of this model.
- `StactoolsUvx.CreateStacItem`: the subprocess, the temporary file and reading it back are the input `run`. The temporary file's name is the input `outputName`.
- `StactoolsUvx.CreateStacItem`: for a document that is not a JSON object, the exact Python exception text is replaced by a fixed reason.
- `StactoolsUvx.CreateStacItem`: the FastAPI app, the request model's own validation (HTTP 422) and the two exception handlers that wrap `detail` are not modelled.
- The command length: the fixed head `uvx … create-item` has eight elements, so the command has 8 + len(args) + 2·len(options) elements before the output path and 9 + len(args) + 2·len(options) with it.
- Concurrency, and the async nature of the endpoint, are not modelled.
- Integer widths play no part.
