# casbin MongoDB adapter, modelled in Dafny

This project models the casbin storage adapter for MongoDB (`adapter.go`). The adapter keeps
casbin policy rules in the collection `casbin_rule`. Each rule is one document with a policy type
(`ptype`), six positional values (`v0`..`v5`) and a store identifier. A unique index over the seven
fields `ptype, v0..v5` rejects a second copy of a rule.

The MongoDB collection is replaced by an abstract store. It is a sequence of documents in
natural (insertion) order, and a counter supplies fresh identifiers. The model has seven modules:

- `Base`: `Option`, `Result`, the adapter's error cases, durations and identifiers.
- `Rules`: the `CasbinRule` document and the rule translator. `SavePolicyLine` turns an engine
  rule into a document and `LoadPolicyLine` turns a document back into the engine's token line.
  Both round trips are proved here.
- `Selector`: the partial equality selector that `RemoveFilteredPolicy` builds from
  `(ptype, fieldIndex, fieldValues...)`. Empty values are wildcards and the offset may be negative.
- `Store`: the store operations the adapter uses, as pure functions on the sequence: InsertOne
  (guarded by the unique index), DeleteOne, DeleteMany, UpdateOne with `$set`, InsertMany into
  a dropped collection, and the cursor read. The store invariant says identifiers are present,
  distinct and below the counter, and that with the index present no two documents share their
  seven fields. Every operation is proved to keep this invariant.
- `Connection`: the constructor arguments. This covers the `mongodb://` prefix, the database name
  taken from the URL path (default `casbin_rule`) and the timeout arity check (default 30 s).
- `MongoAdapter`: the `adapter` struct as a class. It holds the `filtered` and `updatable` flags,
  the collection, the identifier counter and whether the unique index exists. Its methods are
  the adapter's operations, each with a frame and a postcondition for its whole new state. The
  module also holds the constructors.
- `Scenarios`: the RBAC data set of the adapter's tests, and the loads, filtered deletions,
  updates and filtered-adapter flow those tests check, stated as lemmas and client methods.

Notes on the modelling:

- The doc comments of `NewAdapter` and `NewUpdatableAdapter` say the default database is
  `'casbin'`. The code uses `"casbin_rule"`, and the model follows the code
  (`Connection.DefaultDatabase`).
- `open` creates the unique index, but `SavePolicy` drops the collection first, and in MongoDB
  that drops the collection's indexes as well. `InsertMany` then creates a collection without
  the index. So after a `SavePolicy` the model's store no longer refuses duplicates
  (`uniqueIndex` becomes false), and `SavePolicy` inserts duplicate rules of the model as they are.
- `loadPolicyLine` returns the list of tokens it would hand to the engine: the type, then the
  values up to the last non-empty one. A document whose six values are all empty yields the empty
  line, which the engine ignores, so such a document loads nothing (`Rules.EmptyValuesLoadNothing`).
- A URL path of just `/` names the empty database, because the code strips the first character
  of any non-empty path (`Connection.DatabaseNameFromPath`).
- Go's map iteration order in `SavePolicy` is unspecified. The model visits the policy types in
  an arbitrary order (`:|`), so the result is stated as a multiset.

## Model

| member | source | states |
|---|---|---|
| Rules.SavePolicyLine | adapter.go:264-289 | The document has no identifier and the given type. Value i is `rule[i]` when the rule has more than i tokens and `""` otherwise. |
| Rules.SaveDropsExtraTokens | adapter.go:269-286 | Tokens past the sixth never reach the document: saving a longer rule equals saving its first six tokens. |
| Rules.LoadPolicyLine | adapter.go:203-222 | The line is empty exactly when all six values are empty. Otherwise it is the type followed by v0..vk, where vk is the last non-empty value. Empty values before vk are kept, and everything after vk is empty. |
| Rules.LoadIsTypeThenTrimmedValues | adapter.go:203-222 | The loaded line agrees with an independent definition: the type plus the values with trailing empty strings cut, or nothing when no value is left. |
| Rules.SaveThenLoad | adapter.go:203-222 | Round trip: a rule of one to six tokens whose last token is non-empty loads back as `[ptype] + rule`, combined with `savePolicyLine` at adapter.go:264-289. |
| Rules.SaveThenLoadAnyRule | adapter.go:264-289 | Round trip for every rule: the type plus the first six tokens with trailing empties cut, or nothing when those tokens are all empty. |
| Rules.LoadThenSave | adapter.go:203-222 | The reverse round trip: saving a non-empty loaded line rebuilds the document's seven fields. |
| Rules.EmptyValuesLoadNothing | adapter.go:206-221 | A document with no non-empty value loads as nothing at all, not even its type. |
| Rules.InteriorEmptyValuesKept | adapter.go:211-212 | A document with only v3 set loads as the type plus three empty values and v3. |
| Selector.BuildSelector | adapter.go:354-387 | The selector always fixes `ptype`. It fixes `vi` exactly when `fieldIndex <= i < fieldIndex + len(fieldValues)` and the value at `i - fieldIndex` is non-empty, with that value. It names no other field. |
| Selector.ConstrainPosition | adapter.go:358-362 | One position's step keeps the selector correct for every position up to and including i; the index `i - fieldIndex` is within `fieldValues` whenever it is read. |
| Selector.MatchesSelectorIff | adapter.go:354-392 | A document is deleted exactly when it has the type and holds the given value at every constrained position. |
| Selector.FirstFieldSelector | adapter_test.go:154 | `RemoveFilteredPolicy(0, v)` selects on the type and v0 only. |
| Selector.WildcardSelector | adapter_test.go:198 | `("domain1", "", "", "read")` at offset 0 selects on the type, v0 and v3 only. |
| Selector.NegativeOffsetSelector | adapter.go:358-362 | With offset -1 the second value lands on v0 and the first is ignored. |
| Store.FindFirst | adapter.go:346 | The position of the first document equal to the line on all seven fields, and no such position exactly when none matches. |
| Store.InsertOne | adapter.go:332 | With the index present, a document with the same seven fields makes the insert fail with a duplicate key. Otherwise the line is appended under the new identifier. |
| Store.DeleteOne | adapter.go:346 | When no document matches, the store is unchanged. Otherwise exactly one matching document is taken out and the rest keep their order. |
| Store.DeleteMany | adapter.go:392 | Every matching document is removed and every other document keeps its multiplicity. |
| Store.UpdateOne | adapter.go:411 | It fails, with a duplicate key, exactly when the index is present and another document than the first match already holds the update's fields. Otherwise identifiers and length are kept and at most one document changes. A changed document matched the filter and now holds the update's fields. When some document matches, the first match holds the update's fields afterwards. No match leaves the store unchanged. |
| Store.AssignIds | adapter.go:318 | InsertMany stores the documents in order under consecutive fresh identifiers. |
| Store.LoadedLinesExactly | adapter.go:243-254 | A load yields exactly the non-empty lines of the documents the filter selects. |
| Store.TranslateAll | adapter.go:303-306 | The documents of one policy type's rules, one per rule, in order. |
| Store.TranslationsPick | adapter.go:302-314 | The documents of a section do not depend on which policy type is visited first. |
| Store.AssignedIdsKeepFields | adapter.go:318 | After InsertMany the store holds exactly the given fields, and the invariant holds without the index. |
| Store.AddThenRemoveRestores | adapter_test.go:134-150 | With the index, a successful insert followed by a delete of the same rule restores the store exactly. |
| Store.AddThenRemoveKeepsFields | adapter_test.go:134-150 | In any case, a successful insert and a delete of the same rule leave the same fields as a multiset. |
| Store.InsertOneWellFormed | adapter.go:166-181 | A successful insert keeps the store invariant, including no duplicate fields while the index exists. |
| Store.DeleteOneWellFormed | adapter.go:346 | Deleting one document keeps the store invariant. |
| Store.DeleteManyWellFormed | adapter.go:392 | Deleting by selector keeps the store invariant. |
| Store.UpdateOneWellFormed | adapter.go:411 | A successful update keeps the store invariant. |
| Connection.NormalizeUrl | adapter.go:66-68 | The result always starts with `mongodb://` or `mongodb+srv://`. A URL that already does is kept, and any other gets `mongodb://` in front. |
| Connection.NormalizeIdempotent | adapter.go:66-68 | Normalising twice is normalising once. |
| Connection.NormalizeKeepsUrl | adapter.go:66-68 | The given URL is always the tail of the normalised one. |
| Connection.DatabaseName | adapter.go:76-81 | An empty path gives `casbin_rule`; otherwise the path without its first character. |
| Connection.DatabaseNameFromPath | adapter_test.go:393 | The path `/abc` names database `abc`; the path `/` names the empty database. |
| Connection.TimeoutFromArgs | adapter.go:94-100 | No argument gives 30 s and one argument is used as given. More than one is refused, and only then. |
| MongoAdapter.Adapter.Open | adapter.go:151-184 | The collection holds the existing documents' fields, in order, under fresh identifiers. The collection is `casbin_rule`, the unique index exists, both flags are clear and the arguments are kept. |
| MongoAdapter.Adapter.LoadFilteredPolicy | adapter.go:231-257 | `filtered` becomes whether a filter was given. The lines returned are those of the selected documents in cursor order. The store is untouched. |
| MongoAdapter.Adapter.LoadPolicy | adapter.go:225-227 | A load without filter clears `filtered` and returns every document's line. |
| MongoAdapter.Adapter.IsFiltered | adapter.go:260-262 | Returns the `filtered` flag. |
| MongoAdapter.Adapter.SavePolicy | adapter.go:292-323 | While filtered it fails and nothing changes. Otherwise it succeeds, and the store holds, as a multiset, exactly the documents of every rule of the `p` and `g` sections, without the unique index. |
| MongoAdapter.Adapter.DropTable | adapter.go:192-201 | The collection is empty and the unique index is gone. |
| MongoAdapter.Adapter.InsertMany | adapter.go:315-320 | The dropped collection receives exactly the given documents, in order. |
| MongoAdapter.TranslateSection | adapter.go:302-307 | Appends the documents of every rule of a section, visiting policy types in any order; the result is the input plus the section's documents as a multiset. |
| MongoAdapter.TranslateRules | adapter.go:303-306 | Appends the document of each rule of one policy type, in order. |
| MongoAdapter.Adapter.AddPolicy | adapter.go:326-337 | With the index present, an equal stored document makes it fail with nothing changed. Otherwise the rule's document is appended under a fresh identifier. |
| MongoAdapter.Adapter.RemovePolicy | adapter.go:340-351 | At most one document equal to the rule's is deleted. It always succeeds, and with no match the store is unchanged. |
| MongoAdapter.Adapter.RemoveFilteredPolicy | adapter.go:354-397 | The store becomes the old store minus every document the built selector matches. |
| MongoAdapter.Adapter.UpdatePolicy | adapter.go:400-416 | Unless updatable it fails and nothing changes. Otherwise the store becomes the `UpdateOne` result: the first exact match takes the new fields and keeps its identifier, or a duplicate-key error leaves the store unchanged. |
| MongoAdapter.NewAdapterWithClientOption | adapter.go:88-112 | Too many timeouts give an error and no adapter. A store that cannot take the unique index fails too. Otherwise the adapter is fresh and valid, with clear flags, the chosen timeout and the given options and database. |
| MongoAdapter.NewAdapter | adapter.go:65-84 | The URL is normalised and must parse. The database comes from the URL path. An adapter is returned exactly when there is no error, and then carries those values. |
| MongoAdapter.NewFilteredAdapter | adapter.go:116-124 | An unparsable URL gives `InvalidUrl`, and a store the index cannot accept gives `IndexBuildFailed`. Otherwise an adapter is built, with the normalised URL, the database from the path, the default timeout and the unique index, marked filtered and not updatable. |
| MongoAdapter.NewUpdatableAdapter | adapter.go:129-137 | An unparsable URL gives `InvalidUrl`, more than one timeout `TooManyArguments`, and a store the index cannot accept `IndexBuildFailed`. Otherwise an adapter is built, with the normalised URL, the database from the path, the chosen timeout and the unique index, marked updatable and not filtered. |
| MongoAdapter.NewUpdatableAdapterWithClientOption | adapter.go:141-149 | More than one timeout gives `TooManyArguments`, and a store the index cannot accept `IndexBuildFailed`. Otherwise an adapter is built with the given options and database, the chosen timeout and the unique index, marked updatable and not filtered. |
| Scenarios.LoadRbac | adapter_test.go:52-60 | Loading the RBAC data yields its four `p` lines and its `g` line in store order. |
| Scenarios.DataAdminSelection | adapter_test.go:152-154 | `RemoveFilteredPolicy(0, "data2_admin")` selects exactly the two data2_admin rules of the RBAC data. |
| Scenarios.RemoveDataAdminRules | adapter_test.go:152-158 | After that deletion, exactly the first two `p` rules and the `g` rule remain. |
| Scenarios.UpdateAliceRule | adapter_test.go:283-321 | Updating alice's read rule to write rewrites document 0 in place and keeps its identifier. |
| Scenarios.FilteredFlow | adapter_test.go:236-260 | After a filtered load SavePolicy is refused and the store is untouched; after an unfiltered load it succeeds. |
| Scenarios.AddThenRemove | adapter_test.go:134-150 | AddPolicy then RemovePolicy with the same rule: with the index a successful add is undone exactly, and in any case the same fields remain. |
| Scenarios.UpdatableFlow | adapter_test.go:271-297 | An updatable adapter built from a parsable URL over an acceptable store exists, and its UpdatePolicy is never refused as non-updatable. |

## Left out

- MongoDB driver calls are not modelled as such. This covers connecting and disconnecting, index
  creation, cursors, and the Find, Insert, Delete, Update and Drop operations. The collection is
  the abstract store above, and each call is the store function of the same name.
- Failures of the driver and the network are left out: connection errors, timeouts, a cursor that
  fails to decode, and `InsertMany` refusing an empty list when the model has no rules. In the
  model these operations succeed. The one failure kept is the unique index's duplicate-key
  refusal, and an index that cannot be built over existing duplicates (`IndexBuildFailed`).
- Context deadlines and cancellation are left out. The timeout is kept only as the adapter's
  configured value.
- The finalizer, `close` and `runtime.SetFinalizer` are left out; they concern object lifetime.
- `net/url.Parse` is a parameter of the constructors (`parsePath`) that returns the path of a
  URL, or nothing when the URL does not parse. `options.Client().ApplyURI` only records the URL.
- casbin's `persist.LoadPolicyLine` and the engine's model are left out. The model returns the
  token lines the adapter hands to the engine, rather than the `", "`-joined text and its
  re-splitting and comment handling.
- The MongoDB filter of `LoadFilteredPolicy` is an abstract predicate on documents. An empty
  selector (the nil filter) selects every document.
- The `sec` argument of AddPolicy, RemovePolicy, RemoveFilteredPolicy and UpdatePolicy is
  unused by the adapter, and the model ignores it too.
- `fieldIndex + len(fieldValues)` is unbounded in the model. A Go `int` overflow there is not
  modelled.
- The timeout argument's type assertion to `time.Duration` is left out. The model's timeout
  arguments already have that type, so the panic on another type cannot arise.
- MongoAdapter.Adapter.Open: documents already in the collection keep only their seven fields;
  the model gives them fresh identifiers 0..n-1 rather than keeping their `_id`, because the
  adapter never reads an identifier and only their distinctness matters to the store.
- Store.DeleteOne: it states that one matching document is removed, not that it is the first in
  natural order, because MongoDB does not promise which match it deletes.
- Scenarios.FilteredFlow: that the refused save leaves the store untouched is asserted inside
  the method body, not stated in an `ensures` clause.
