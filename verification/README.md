# scimply, modelled and proved in Dafny

scimply is a SCIM 2.0 server (RFC 7643, RFC 7644). This project models its core: the filter language and
its printer, attribute and patch paths, filter evaluation, the PATCH engine, the resource object and its JSON
form, the in-memory store with sorting and paging, the translation of filters to SQL, the flattening and
rebuilding of nested resources for SQL columns and mapped MongoDB documents, and bulk execution.

`dafny verify dfyconfig.toml` checks everything.

## How it is laid out

Code that computes is functions and lemmas. Code that changes things step by step is methods and classes,
each tied by its `ensures` to a specification about which the properties are then proved, what it computes
among them, told without its own body: `FilterParser`
(a position that advances and rolls back), `Resource`, the array loops of the PATCH engine, the in-place
stable sort, `MemoryStore`, `NodeStore`, `TranslationState` (the growing argument list), `FlatTable`,
`TreeResource` and the bulk `Handler`.

| files | what they hold |
|---|---|
| Text, Numbers, Values, Objects | strings with ASCII folding, decimals, JSON, objects read and written up to case |
| Literals, Paths, Filters, FilterParsing, FilterRoundTrip, FilterSpelling, PatchPaths | the filter language, its parser object, its printer and its words |
| FilterEval, Comparisons | evaluation, with every outcome an arbitrary map order allows; what the operators mean |
| Resources, ResourceObjects, Accessors, Patches, PatchEngine, PatchEffects | resources, their JSON form, access by path, PATCH and what is read after it |
| Choices, Sorting, KeyOrder, SortEngine, Paging | choosing, stable sorting, what the order of keys means, paging |
| Stores, StoreRuns, StoreEffects, StoreLists, UserNames, MemoryStores | the store as a state machine, its runs, what each request leaves, lists and user names, the store object |
| SharedNodes, SharedPatches, SharedStores | nested maps and the backing arrays of slices as nodes on the heap: what patching writes and what published resources share |
| SqlFilter, SqlLike, SqlReading, SqlMeaning | SQL clauses, LIKE, conditions read from the text by the words of SQL, their three-valued meaning |
| SqlRows, SqlExactness | the rows that show a resource, sub-tables included; the text of a filter against the evaluator |
| ListQuery, QueryReading | the Postgres list query, and the query read from its text |
| Trees, Flattening, Rebuilding, FlatRoundTrips, MappedDocs, MappedReading | nested maps against tables of dotted paths |
| BulkRequests, Bulk, BulkOutcomes, BulkLimits, BulkHandling | bulk requests, their meaning, every outcome an arbitrary map order allows, where they stop, the handler |
| WireNames | the names of fields in JSON and tables, and of the parts of a bulk request |

Go visits the keys of a map in an arbitrary order. Methods render this by picking any key not visited yet, so
what they ensure holds for every order. Where the outcome depends on the order (an object with keys that
differ only in case, a table whose paths overlap) the contract says what still holds and the exact result is
promised under the condition that removes the choice.

## Where code and expectation differ

- An attribute called `not` without a schema cannot be parsed, because the keyword wins. `WellFormed` excludes it.
- A string literal whose last character is a backslash leaves the position past the end of the text. The parser
  fails then, so no successful result has such a position (`FilterParsing.FilterParser.SkipLiteral`).
- A write through a value filter turns a single value into a list of one, whether or not the filter accepts it. It keeps
  the shape exactly when the value is a list or absent (`Patches.FilteredWriteShape`).
- An unfiltered path such as `emails.type` carries its sub-attribute in the attribute path, so replacing it on a list
  attribute replaces the list by an object. The rest of the value is kept exactly when it is absent, an object or an
  empty list (`Patches.ReplaceSubKeeps`, with `Patches.ListIsReplaced` for the list). The branches of the PATCH engine
  for a separate sub-attribute are modelled although parsed paths do not reach them.
- Only Create checks that a user name is free. `UserNames.NamesAfterWrite` says exactly when a request keeps names distinct.
- Create can admit a name that is taken: when a stored user carries it beside another, as in
  `{"USERNAME": "a", "username": "z"}`, the walk that looks for it may find the other (`UserNames.CreateAdmitsTakenName`).
  Create keeps names distinct in every order exactly when no other user may have the new name or every walk finds it
  taken (`UserNames.CreateKeepsNames`), so always when each user has one name (`UserNames.AdmittedIsFree`).
- The comparison used for sorting need not be transitive when numbers meet other keys. Every list over a set of keys
  comes out sorted exactly when no number stands, by its text, before a key that is no number and that key before a
  smaller number (`Sorting.SortsUnlessStraddled`); 10, "9" and 9 are such keys (`Sorting.MixedKeys`).
- On NULL columns the SQL text and the in-memory evaluator can differ, and the arguments of `co`, `sw` and `ew` go into a
  LIKE pattern as they are, so that `co "50%"` matches more than it should. A comparison is exact exactly when it rejects
  an absent attribute and its value has no percent sign, underscore or backslash where it goes into a pattern; under a
  `not`, when it accepts an absent attribute (`SqlExactness.ComparisonIsExact`, `SqlExactness.NegationIsExact`). A filter
  whose comparisons fit the number of `not`s above them never differs (`SqlExactness.PolarIsExact`).
- The sub-query of a value path is never Unknown: `emails[not (type eq "work")]` fails for an address without a type,
  which the evaluator accepts, and its negation holds (`SqlExactness.SubqueryLosesAbsent`). The sub-query takes the first
  letter of the attribute as its alias; under that same alias it is joined to its own rows instead of the resource
  (`SqlExactness.CaptureLosesElements`).
- A count of zero puts no LIMIT into the Postgres query, so all rows come where the in-memory store returns none
  (`QueryReading.PagesAgree`).
- Applying a patch writes into the values of its operations: into their maps, and by `append` into the room a slice has
  past its length (resource/patch.go:199-206 appends to the very slice that resource/filter_eval.go:136-157 hands out).
  A value used in two requests is shared by two resources, and patching one of them changes the other, whether the value
  is a map (`SharedStores.SharedValueIsWritten`) or a slice with spare capacity, as `[1, 2, 3]` has when decoded
  (`SharedStores.SharedSliceIsOverwritten`). Published resources stay as they are when no published resource holds a map
  or a backing array of the request's values (`SharedStores.NodeStore.Patch`).
- Flattening a resource and rebuilding it restores it exactly when `FlatRoundTrips.Restorable` holds; dots in keys
  (the enterprise extension URI has one), empty objects, maps under an empty key, nulls in SQL and attributes
  named like a fixed field are what it excludes.
- A mapped document loses an attribute that is stored at a path the mapping keeps for another attribute, even when that
  other attribute is absent and the mapping is one-to-one (`MappedReading.NamesSurvive`). It also loses the name of an
  attribute mapped to a path that starts with a dot: flattening drops such dots, so `.u` comes back as `u`. Entries are
  read back at their paths exactly when no path starts with one (`MappedReading.ReadInPlace`, `MappedReading.DotFirstLost`).
- A bulk operation without data aimed at the bulk endpoint by POST panics, and the panic ends the whole outer request;
  `Bulk.PanicsExactly` says which operations panic.

## Model

| member | source | states |
|---|---|---|
| Paths.PathRoundTrip | resource/path.go:18-106 | a text parses to a path exactly when the path is valid and prints as that text: parser and printer are inverse both ways |
| Literals.UnquoteQuote | connector/scim/client.go:411-414 | unquoting the JSON-escaped text of any string gives the string back |
| Literals.AfterEscaped | resource/filter.go:368-392 | the end of a literal is found right after its escaped body, whatever quotes and backslashes it holds and whatever follows |
| Numbers.ParsePrinted | connector/scim/client.go:420-421 | every canonical number is read back from its printed digits |
| Numbers.StripKeepsValue | resource/filter.go:400-434 | bringing a number into canonical form keeps its value |
| Numbers.ExponentShifts | resource/filter.go:400-434 | a literal with an exponent, either letter and any sign, is its digits shifted by so many places |
| FilterParsing.FilterParser.SkipWS | resource/filter.go:114-118 | the position stays in range and the rest of the text loses exactly its leading blanks |
| FilterParsing.FilterParser.TokenText | resource/filter.go:257-279 | the token is the text up to the first delimiter and the rest starts there |
| FilterParsing.FilterParser.TryKeyword | resource/filter.go:441-464 | a keyword is consumed with its blanks when it ends at a word boundary, otherwise the position is rolled back |
| FilterParsing.FilterParser.ReadOr | resource/filter.go:131-148 | the loop reads what the recursive grammar reads, to the same rest, with the position in range; terminates on the remaining text |
| FilterParsing.FilterParser.ReadAnd | resource/filter.go:150-167 | the same for chains of `and` |
| FilterParsing.FilterParser.ReadNot | resource/filter.go:169-189 | `not` needs a parenthesised filter; otherwise the position is rolled back to the primary |
| FilterParsing.FilterParser.ReadPrimary | resource/filter.go:191-207 | a group or an attribute expression |
| FilterParsing.FilterParser.ReadAttrOrValuePath | resource/filter.go:217-255 | a comparison, or a value path with its closing bracket |
| FilterParsing.FilterParser.ReadAttrPath | resource/filter.go:257-279 | the token must be a valid path |
| FilterParsing.FilterParser.ReadComparison | resource/filter.go:241-316 | operator, then for all but `pr` a value |
| FilterParsing.FilterParser.ReadValue | resource/filter.go:318-351 | a string, a number, true, false or null, the words only at a word boundary |
| FilterParsing.FilterParser.SkipLiteral | resource/filter.go:368-392 | a closed literal leaves the position in range right after its quote, although a backslash jumps two characters |
| FilterParsing.FilterParser.ReadNumber | resource/filter.go:400-434 | the scan in steps of sign, digits, fraction and exponent reads the number literal and stops where it ends |
| FilterParsing.Parse | resource/filter.go:96-107 | the parser object accepts exactly the texts of the grammar, with the grammar's tree, on every input |
| FilterRoundTrip.ReadBack | resource/filter.go:169-464 | a printed well-formed filter is read back from any context that can follow one, leaving that context |
| FilterRoundTrip.PrintParse | connector/scim/client.go:379-426 | for every well-formed filter of any depth, parsing its printed text gives the filter |
| FilterRoundTrip.PrintableLanguage | resource/filter.go:169-279 | the parser returns exactly the well-formed filters |
| FilterRoundTrip.ParsePrintParse | connector/scim/client.go:379-405 | what an accepted text means survives printing and parsing again |
| FilterRoundTrip.Precedence | resource/filter.go:131-207 | unparenthesised chains of any length, with any blanks around the connectives and any casing of them, read as a left fold of `or` over left folds of `and`; members may carry parentheses that override this |
| FilterRoundTrip.KeywordSpelled | resource/filter.go:441-464 | a keyword is read in any casing, with any blanks before and after it |
| FilterSpelling.ConnectivesRead | resource/filter.go:131-239 | around any filters `and`, `or`, `not (..)` and `path[..]` read as what they say |
| FilterSpelling.OperatorsRead | resource/filter.go:281-316 | each operator by its name before any literal |
| FilterSpelling.WordsRead | resource/filter.go:318-351 | `true`, `false` and `null` read as these values |
| FilterSpelling.NumbersRead | resource/filter.go:400-434 | the digits of a whole number read as the number |
| FilterSpelling.TextsRead | resource/filter.go:368-392 | a text without special characters reads as itself between quotes |
| PatchPaths.Parse | resource/path.go:126-175 | the patch path parser returns what its specification says on every text |
| PatchPaths.BracketsFound | resource/path.go:131-158 | first opening and last closing bracket are those around the filter, whatever brackets its literals hold |
| PatchPaths.PatchPathRoundTrip | connector/scim/client.go:428-444 | the parser returns exactly the valid patch paths, and each is read back from its printed text |
| Objects.LookupPut | resource/accessor.go:87-97 | a write under a name is seen under every casing of it, leaves other names alone and makes no case clash |
| Objects.LookupDrop | resource/accessor.go:99-107 | the same for removal |
| Objects.LookupKey | resource/filter_eval.go:123-134 | any walk finds the exact key first, otherwise some key of the same letters |
| FilterEval.EvalExpr | resource/filter_eval.go:24-107 | evaluation in any map order gives one of the outcomes its specification allows; what these are for each operator is stated by the Comparisons members below |
| FilterEval.OrderIrrelevant | resource/filter_eval.go:24-134 | on objects without case clashes at any depth there is one outcome, so map order does not matter |
| Comparisons.CompareTexts | resource/filter_eval.go:159-250 | on texts: `eq` is sameness up to the case of letters and `ne` its opposite, `co` holds when the text stands at some place, `sw` at the start, `ew` at the end, and the order is decided at the first differing character |
| Comparisons.CompareNumbers | resource/filter_eval.go:195-250 | numbers compare by their values, equality with a tolerance |
| Comparisons.EqualNumbers | resource/filter_eval.go:208-211 | up to fifteen decimal places the tolerance plays no part |
| Comparisons.ComparedAsTexts | resource/filter_eval.go:212-250 | all other pairs of values compare by their printed texts |
| Comparisons.CompareNumberText | resource/filter_eval.go:212 | a whole number below a million equals the text of its digits and no other |
| Comparisons.FoldIsSameLetters | resource/filter_eval.go:212 | folding makes two texts equal exactly when they have the same letters, each in either case |
| Comparisons.OrderLaws | resource/filter_eval.go:159-250 | `ge` is not `lt`, `le` is not `gt`, of two values at most one is greater, equality is symmetric |
| Comparisons.FilterOnText | resource/filter_eval.go:57-87 | the evaluator's verdict on a text attribute, in every walk, is that test |
| Comparisons.FilterOnNumber | resource/filter_eval.go:57-87 | the same for numbers |
| Comparisons.FilterOnList | resource/filter_eval.go:64-83 | a list passes exactly when some element, or its sub-attribute, does |
| Comparisons.FilterOnAbsent | resource/filter_eval.go:57-87 | without the attribute nothing is present and `ne` holds |
| Comparisons.ConnectedFilters | resource/filter_eval.go:24-48 | `and`, `or` and `not` join the verdicts of their parts |
| Comparisons.FilterInList | resource/filter_eval.go:93-117 | a value path holds exactly when its filter accepts some object of the list |
| Comparisons.OperatorNames | resource/filter.go:281-316 | the ten operator names in any casing, and no other text |
| WireNames.ResourceEntries | resource/resource.go:27-64 | each fixed field is in the JSON object under its name exactly when it is not empty, each free attribute under its own |
| WireNames.FilterOnId | resource/filter_eval.go:13-18 | a filter on `id` tests the identifier |
| Resources.JsonRoundTrip | resource/resource.go:27-158 | writing a resource to JSON and reading it back keeps everything but the fraction of its two times, so cloning twice is cloning once |
| ResourceObjects.Resource.FromMap | resource/resource.go:66-100 | reading a JSON object in any key order gives the specified resource |
| ResourceObjects.ParseMeta | resource/resource.go:102-135 | reading the metadata in any key order |
| ResourceObjects.Resource.ToMap | resource/resource.go:27-64 | the JSON object, fixed fields over free attributes, empty ones left out |
| ResourceObjects.Resource.Clone | resource/resource.go:137-158 | a fresh object whose attributes carry no reserved name; on settled attributes the same value with whole seconds |
| Accessors.Get | resource/accessor.go:5-30 | reads the value the path names, any casing: a value that some walk finds, the one value without case clashes |
| Accessors.Set | resource/accessor.go:32-56 | writes it in place and keeps all other attributes |
| Accessors.Delete | resource/accessor.go:58-72 | removes it in place and keeps all other attributes |
| Accessors.GetSet | resource/accessor.go:5-56 | a value set is the value read |
| Accessors.SetGet | resource/accessor.go:5-56 | setting what is read changes nothing |
| Accessors.SubWriteKeeps | resource/accessor.go:45-55 | writing a sub-attribute loses no other part of the parent exactly when that is absent, an object or an empty list |
| Patches.OpKeepsUnique | resource/patch.go:152-413 | no operation makes two keys of any object, at any depth, differ only in case |
| Patches.OpKeepsOthers | resource/patch.go:152-413 | every top-level attribute the operation does not name stays, and no other appears |
| PatchEffects.OpEffect | resource/patch.go:152-413 | what is read at the path after any operation with a path: add leaves a list with the new elements behind the old, or the value; replace leaves the value; remove leaves nothing; with a filter or a sub-attribute the same element by element; and exactly when it fails |
| PatchEffects.OpWithoutPath | resource/patch.go:177-187 | without a path each name of the value reads as given and each other name as before; remove or a value that is no object fails |
| PatchEffects.OpElsewhere | resource/accessor.go:5-72 | every path to another attribute, or to another sub-attribute of an object, reads as before |
| Patches.PatchesCompose | resource/patch.go:140-150 | two requests in one succeed exactly when one after the other does and give the same resource; the first failure is the outcome |
| Patches.ReplaceSubKeeps | resource/patch.go:356-359 | replacing an unfiltered sub-attribute keeps the rest of the value under exactly the same condition |
| Patches.ListIsReplaced | resource/patch.go:356-359 | replacing `emails.type` leaves of any list an object with the sub-attribute alone |
| Patches.FilteredWriteShape | resource/patch.go:210-237 | a write through a filter keeps the shape of the value exactly when it is a list or absent; it fails exactly when adding to an absent value |
| Patches.RemoveByFilter | resource/patch.go:309-340 | the unselected elements stay in order, a second remove changes nothing, the filter no longer holds; also for absent and single values |
| Patches.RemovedNotListed | resource/patch.go:309-327 | the same for the filter a list request evaluates on the whole patched resource |
| PatchEngine.MergeInto | resource/patch.go:177-187 | merging an object in any key order gives one result and keeps the attributes it does not name |
| PatchEngine.UpdateMatching | resource/patch.go:210-237 | the array loop updates the selected elements in place, each as some walk over its keys allows; exactly the selected ones without case clashes |
| PatchEngine.CompactUnselected | resource/patch.go:314-326 | the in-place compaction leaves, in order, elements that some walk does not select, and drops only those some walk selects; exactly the unselected ones without case clashes |
| PatchEngine.KeepIsOnly | resource/patch.go:314-326 | without case clashes the list of unselected elements is the only one the compaction can leave |
| PatchEngine.RunAdd | resource/patch.go:177-262 | a failure changes no attribute, whatever the keys; without case clashes the add loops and branches change the attributes as specified, and what is then read is stated by PatchEffects.OpEffect |
| PatchEngine.RunRemove | resource/patch.go:275-340 | the same for remove |
| PatchEngine.RunReplace | resource/patch.go:342-413 | the same for replace |
| PatchEngine.RunOp | resource/patch.go:152-163 | dispatch by kind; an unknown kind fails |
| PatchEngine.RunPatch | resource/patch.go:140-150 | operations run on a fresh clone and the resource is never written; on any settled attributes all but the attributes is as in the clone; without case clashes the result or the first error is the specified one |
| Sorting.SortsExactly | resource/sort.go:16-35 | every list over a set of keys comes out sorted exactly when the comparison is transitive on the set |
| Sorting.SortsUnlessStraddled | resource/sort.go:96-120 | for keys as read from JSON: exactly when no two of its numbers, the greater first by text, stand around a key that is no number |
| Sorting.SortIsStableSort | resource/sort.go:16-35 | over keys on which the comparison is transitive the result is sorted, a permutation, and keeps the order of equal keys |
| Sorting.OneKindChains | resource/sort.go:96-120 | on keys of one kind, with absent keys among them, the comparison is transitive |
| Sorting.OneNumberOneText | resource/sort.go:96-120 | mixing alone does no harm: one number and one text do not straddle |
| Sorting.MixedKeys | resource/sort.go:96-120 | 10, "9" and 9 in this order are left unsorted |
| KeyOrder.AbsentFirst | resource/sort.go:96-104 | an absent key comes before every other |
| KeyOrder.NumbersByValue | resource/sort.go:105-113 | numbers sort by value |
| KeyOrder.OthersByText | resource/sort.go:114-120 | other keys sort by their texts in lower case, decided at the first differing character |
| KeyOrder.DescendingTurns | resource/sort.go:27-34 | descending order is ascending order turned around |
| KeyOrder.ListKey | resource/sort.go:42-94 | a list sorts by the value of its first primary element, or of its first when none is primary |
| KeyOrder.PageShows | store/memory.go:172-206 | element k of a page is element startIndex - 1 + k of the list; there are count of them or as many as remain, all for a negative count |
| SortEngine.SortValue | resource/sort.go:42-94 | the sort key: the primary element of a list, else the first, else the value itself, each as some walk finds it |
| SortEngine.SortResources | resource/sort.go:16-35 | sorts the array in place: the same resources in some order whatever their keys, the order of the specification without case clashes; an unusable sort path leaves it alone |
| StoreRuns.RunKeepsInvariant | store/memory.go:63-303 | over every run, on any resources and whatever order maps are walked in, each stored resource carries its own key as id, its own type and no attribute named like a fixed field, as long as patches target none |
| StoreRuns.RunKeepsCreated | store/memory.go:209-303 | over every such run that does not delete or re-create it, the creation time, id and type a read shows never change |
| StoreRuns.CreatedTimeIsKept | store/memory.go:63-110 | from its creation on, a resource shows its creation second |
| StoreRuns.StepIsOnly | store/memory.go:63-334 | without case clashes a request does exactly what the deterministic step says |
| StoreRuns.RunIsOnly | store/memory.go:63-334 | so a run of such requests ends where the deterministic run does, and keeps the store without case clashes |
| StoreEffects.Deleted | store/memory.go:305-334 | after any delete the resource is gone and every other is stored exactly as before |
| StoreEffects.Created | store/memory.go:63-110 | a creation changes nothing, or stores the attributes given under the new id with both times, and changes nothing else |
| StoreEffects.Replaced | store/memory.go:209-248 | the same for a replacement, which keeps the creation time |
| StoreEffects.Modified | store/memory.go:257-303 | the same for a patch, which keeps all but attributes, type and time of change |
| StoreEffects.ModifiedAttributes | store/memory.go:257-303 | without case clashes the attributes are then those the operations make in turn |
| StoreEffects.CreatedUnlessTaken | store/memory.go:89-102 | without case clashes a creation is refused exactly for the type User, in any casing, when a stored user has the name in any casing |
| StoreEffects.ReadShows | store/memory.go:112-129 | a read shows what is stored with its times in whole seconds |
| UserNames.NamesAfterWrite | store/memory.go:209-303 | whatever the request, the resources and the walks: afterwards no two users may have a common name exactly when no other user may have a name of the version stored under the identifier of the request |
| UserNames.CreateKeepsNames | store/memory.go:89-102 | every outcome of a creation keeps names apart exactly when no other user may have the new name or every walk finds it taken |
| UserNames.AdmittedIsFree | store/memory.go:89-102 | when each user has one name, a name that is admitted is free |
| UserNames.CreateAdmitsTakenName | store/memory.go:336-345 | a stored user with its name under two keys: a second user of that name is admitted |
| UserNames.NamesWhenClean | store/memory.go:336-345 | without case clashes this is that user names are distinct |
| UserNames.NamesAfterRun | store/memory.go:63-303 | over every run in which created users have one name and Replace and Patch write no name that was not there, no two users come to have a common name |
| MemoryStores.GetUserName | store/memory.go:336-345 | the name of some entry of that name, any walk |
| MemoryStores.MemoryStore.Create | store/memory.go:63-110 | for any resource, one of the steps a creation may take: refused for a taken name, or a stamped clone with the attributes given is stored, nothing else changes, and a fresh copy of it is returned; exactly the deterministic step without case clashes |
| MemoryStores.MemoryStore.Get | store/memory.go:112-129 | a fresh copy of what is stored, or not found |
| MemoryStores.MemoryStore.Replace | store/memory.go:209-248 | for any resource, publishes a stamped clone with the attributes given and the old creation time, changes nothing else and returns a copy of it, or not found |
| MemoryStores.MemoryStore.Modify | store/memory.go:257-303 | publishes a patched clone with the id, type and creation second of the old one and the new time of change, and changes nothing else; on a patch error the store is unchanged; exactly the specified outcome without case clashes |
| MemoryStores.MemoryStore.Delete | store/memory.go:305-334 | afterwards the resource is not stored and every other is as it was; or not found |
| MemoryStores.MemoryStore.Snapshot | store/memory.go:148-155 | the published objects of a type, each once, in any order |
| MemoryStores.MemoryStore.ListDuring | store/memory.go:143-207 | with any requests completed by others between the steps of filtering, on any resources the result is one that the snapshot alone can give; the computed one when no listed resource has case clashes |
| StoreLists.ListIsOnly | store/memory.go:143-207 | without case clashes a snapshot has exactly one result: filtered in order, stably sorted, cut to the page |
| Choices.ChosenWereAccepted | store/memory.go:157-162 | whatever the walks, every resource of a filtered list comes from one that the filter may accept |
| Choices.AcceptedAreChosen | store/memory.go:157-162 | and each that no walk rejects is in the list |
| Choices.ChosenInOrder | store/memory.go:157-162 | and the list keeps the order of the snapshot |
| SharedNodes.Decode | resource/resource.go:137-158 | a decoded clone consists of new nodes that show the JSON value |
| SharedNodes.Append | resource/patch.go:199-206 | appends in place when the backing array has room, and overwrites what another slice shows there; otherwise into a new array |
| SharedPatches.Set | resource/accessor.go:32-56 | writes only nodes of the region of the attributes and the value, which stays closed but for new nodes; a sub-attribute is written into the map that is there |
| SharedPatches.ApplyOp | resource/patch.go:152-413 | the same for every operation, whatever its filter accepts; an add to a list with room in its array writes the slot past its length |
| SharedPatches.ApplyOps | resource/patch.go:140-150 | the same for a whole request; a value that it adds and then adds to, or replaces a sub-attribute in, is itself written |
| SharedStores.NodeStore.Put | store/memory.go:63-110 | publishes new nodes; no node held before changes |
| SharedStores.NodeStore.Patch | store/memory.go:257-303 | of the nodes held before, no map and no backing array changes but those of the request's values, in the resource patched or any other; so none when no published resource holds any of these |
| SharedStores.SharedValueIsWritten | resource/accessor.go:45-55 | a map used in the patches of two resources: a sub-attribute replaced in the second changes in the first |
| SharedStores.SharedSliceIsOverwritten | resource/patch.go:199-206 | a slice with room for one more used in the patches of two resources: the element added to the second replaces the one the first shows |
| MemoryStores.KeepOne | store/memory.go:157-162 | keeps a resource as some walk's verdict says and contributes a fresh clone of it |
| MemoryStores.FinishList | store/memory.go:164-206 | on any resources, a page of a permutation of them with clamped start, total and page size; of the sorted list without case clashes, of the list itself without a usable sort path |
| Paging.SortIgnoresOrder | resource/sort.go:16-35 | with distinct keys of one kind two snapshots in different orders sort to the same list |
| Paging.PagesCover | store/memory.go:172-199 | consecutive pages, past the end too, put together are the list |
| Paging.PagingCoversOnce | store/memory.go:143-207 | listing by user name page by page, each call in its own map order, returns each matching user exactly once and in order, for users with distinct names and no keys that differ only in case |
| SqlFilter.TranslationState.NewPlaceholder | connector/sql/filter.go:37-44 | appends one argument and numbers it |
| SqlFilter.TranslationState.TranslateExpr | connector/sql/filter.go:73-86 | the tokens of the specified clause, and the compared values appended to the arguments |
| SqlFilter.TranslationState.TranslateComparison | connector/sql/filter.go:88-143 | the same for one comparison, each operator in both dialects; what the words mean is stated by SqlExactness.ComparisonIsExact |
| SqlFilter.TranslationState.TranslateLogical | connector/sql/filter.go:145-159 | the same for a connective, left before right |
| SqlFilter.TranslationState.TranslateValuePath | connector/sql/filter.go:178-208 | the same through a sub-query's own state, whose arguments flow back |
| SqlFilter.TranslateFilter | connector/sql/filter.go:60-71 | the text and its arguments in order, or an error for an unmapped attribute; what the text means is stated by SqlExactness.TranslationMeaning |
| SqlFilter.PlaceholdersInOrder | connector/sql/filter.go:37-208 | the k-th placeholder from the left stands for the k-th compared value, sub-queries included, one for each argument |
| SqlExactness.KnownIsRight | connector/sql/filter.go:88-167 | the text read by the words of SQL alone, in either dialect: whatever is NULL, a verdict that is not Unknown is one the evaluator can give on the resource, the one it gives without case clashes, when the filters of its value paths are polar |
| SqlExactness.NeverUnknown | connector/sql/filter.go:88-167 | with no NULL compared, the text of every filter, value paths and `not` included, has a known verdict, and it is the evaluator's |
| SqlExactness.PolarIsExact | connector/sql/filter.go:88-167 | the text of filters whose comparisons reject an absent attribute under an even number of `not`s and accept one under an odd number, value paths included, selects a resource as the evaluator may, NULLs or not: exactly the accepted ones among those without case clashes |
| SqlRows.EqualityIsPolar | resource/filter_eval.go:195-213 | equality with a value rejects an absent attribute, inequality accepts one, presence is never in doubt |
| SqlExactness.ComparisonIsExact | connector/sql/filter.go:88-143 | the text of one comparison selects the evaluator's values of the column exactly when it rejects an absent attribute and a value that goes into a LIKE pattern has no special character |
| SqlExactness.NegationIsExact | connector/sql/filter.go:161-167 | the same for one negated comparison, exactly when it accepts an absent attribute |
| SqlExactness.NotLosesAbsent | connector/sql/filter.go:161-167 | a negated equality: the evaluator accepts a resource without the attribute, the text is Unknown |
| SqlExactness.TranslationMeaning | resource/filter_eval.go:24-48 | the text and arguments the translator returns, in either dialect, have these meanings on any resource, and select exactly the accepted rows among those without case clashes when the filter is polar or nothing is NULL |
| SqlExactness.TestsItsColumn | connector/sql/filter.go:88-103 | a comparison tests the column its attribute is mapped to, in the table the mapping names or under the alias |
| SqlReading.TextDeterminesClause | connector/sql/filter.go:73-208 | two filters with the same text, in either dialect, have the same clause: the bracketing leaves one reading |
| SqlReading.TextRead | connector/sql/filter.go:60-208 | a reader that knows only the words of SQL finds in the text the condition of the clause, with each placeholder, numbered or not, taken for its own argument |
| SqlMeaning.ConditionIsMeaning | connector/sql/filter.go:88-208 | with plain values in LIKE patterns that condition means what the clause does: the relations, the three patterns, NULL, brackets and sub-queries |
| SqlRows.RowVerdictIsPossible | connector/sql/filter.go:169-208 | the verdict on the columns and on the rows of sub-tables is one the evaluator can give on the resource they show |
| SqlLike.LikeIsExact | connector/sql/filter.go:122-140 | each of the three patterns agrees with its operator on every text exactly when the argument has no special character |
| SqlExactness.SubqueryLosesAbsent | connector/sql/filter.go:178-208 | inside a sub-query a negated comparison with NULL counts as No, and its negation outside as Yes |
| SqlExactness.CaptureLosesElements | connector/sql/filter.go:178-208 | a sub-query under its own alias is not joined to the resource |
| ListQuery.BuildListQuery | connector/postgres/query.go:14-64 | the text of the query clause by clause; its k-th placeholder is `$k`, there is one for each argument, and the arguments are the compared values, then count, then offset |
| QueryReading.QueryRead | connector/postgres/query.go:14-64 | the text read back: the filter's condition, the sort column, descending exactly when asked, LIMIT and OFFSET with their own arguments |
| QueryReading.QueryPages | connector/postgres/query.go:52-60 | with those arguments the rows are the page of startIndex and count, a count of zero meaning all |
| QueryReading.PagesAgree | store/memory.go:172-199 | which is the in-memory store's page exactly when the count is not zero or the page starts past the end |
| Trees.SetLeaf | connector/sql/reconstruct.go:76-89 | writing on a path no leaf lies above, below or at adds that leaf and keeps all others |
| Trees.SetAddsOne | connector/mongodb/store.go:550-563 | whatever was there, a nested write adds no leaf but its own and changes no other it keeps |
| Trees.SameTree | connector/sql/reconstruct.go:26-89 | trees with dot-free keys and no empty map are equal when their leaves are |
| Flattening.FlatTable.FlattenInto | connector/sql/reconstruct.go:26-38 | in any key order, for any keys: every leaf path is in the table with a value met there, all else is as before |
| Flattening.FromTop | connector/sql/reconstruct.go:26-38 | for dot-free keys the paths met are exactly the leaf paths of the tree |
| Rebuilding.TreeResource.ApplyAttr | connector/sql/reconstruct.go:57-74 | one entry sets its field, or zero when mistyped, or a nested attribute |
| Rebuilding.TreeResource.ApplyAttrToResource | connector/mongodb/store.go:461-486 | the same for MongoDB: a mistyped field is skipped, the location is an attribute like any other |
| WireNames.EntrySetsField | connector/sql/reconstruct.go:57-74 | an entry with the path of a field, in any casing, sets that field |
| WireNames.TableEntries | connector/sql/reconstruct.go:13-24 | the paths under which the fields are stored |
| Rebuilding.ReconstructResource | connector/sql/reconstruct.go:43-55 | in any entry order the fields come from entries that name them and the attributes hold no other leaves than the free entries, and all of these when no path lies above another |
| Rebuilding.ResourceAttrMap | connector/sql/reconstruct.go:13-24 | the fields and every leaf of the attributes |
| FlatRoundTrips.TreeRoundTrip | connector/sql/reconstruct.go:13-89 | in any orders, rebuilding the table of a resource gives the resource exactly when its attributes are restorable |
| FlatRoundTrips.TableRoundTrip | connector/sql/reconstruct.go:13-89 | in any orders, flattening what was rebuilt from a table gives the table, missing fields blank, exactly when the table is regular |
| MappedDocs.WriteMapped | connector/mongodb/store.go:384-397 | mapped attributes present in the resource are stored at their paths, id under `_id` |
| MappedDocs.ResourceToMappedDoc | connector/mongodb/store.go:379-413 | the document holds no other leaves than the stored entries, and all of them when their paths are apart |
| WireNames.DocumentPlaces | connector/mongodb/store.go:379-413 | with paths apart the identifier is stored under `_id`, a mapped attribute at its path, any other under its own |
| MappedReading.FlattenDoc | connector/mongodb/store.go:531-547 | merging the tables of inner documents meets the same leaves as flattening in place |
| MappedReading.ReverseMap | connector/mongodb/store.go:417-421 | each mapped path leads back to an attribute mapped to it |
| MappedReading.NameEntries | connector/mongodb/store.go:426-450 | every path gives its value to its name: the mapped attribute, id for `_id`, or itself |
| MappedReading.MappedDocToResource | connector/mongodb/store.go:416-459 | in any orders, the resource rebuilt from the named entries of the document |
| MappedReading.NamesSurvive | connector/mongodb/store.go:416-450 | with a one-to-one mapping and paths apart, all names come back exactly when no attribute is stored at a path the mapping keeps for another |
| MappedReading.ReadInPlace | connector/mongodb/store.go:531-547 | with paths apart, every entry is read back at its path exactly when no path starts with a dot |
| MappedReading.DotFirstLost | connector/mongodb/store.go:416-450 | an attribute mapped to a path that starts with a dot does not come back under its name, unless the document holds that very name outside the mapping |
| MappedReading.MappedRoundTrip | connector/mongodb/store.go:379-563 | then, when no path starts with a dot, writing and reading back, in any orders, gives the resource without its location exactly when its attributes are restorable |
| BulkRequests.ParseBulkRequest | resource/bulk.go:45-147 | a request that some walk reads in the body, the one there is without case clashes, its data strictly inside the body; refused without an array of operations that are objects with a known method |
| WireNames.OperationParts | resource/bulk.go:91-147 | method, identifier and path under their names in any casing, the four methods in any casing, the data as it is |
| WireNames.BulkEndpoint | server/server.go:102-140 | the bulk endpoint by its name in any casing, alone or before a slash |
| Bulk.PanicsExactly | server/bulk.go:97-167 | an operation panics exactly when it reaches a handler that does, or the bulk endpoint by POST without data or with a request that panics |
| Bulk.BulkLaw | server/bulk.go:56-81 | an accepted request answers with the results of exactly the operations up to and including the failOnErrors-th failure, in order, or all; a panic comes from the first operation that panics |
| BulkLimits.BulkStops | server/bulk.go:56-81 | by the status codes alone: with failOnErrors n, fewer than n of the replies before the last are 300 or more, and replies are missing only when just n are, the last one too; each reply answers its operation |
| BulkLimits.NotFoundStops | server/bulk.go:66-74 | with failOnErrors 1 a first reply of 404 is the only one |
| BulkLimits.TooLarge | server/bulk.go:50-54 | a request is too large exactly when there is a limit and more operations than that |
| BulkLimits.RequestLimit | resource/bulk.go:45-89 | the limit and the operations are read under their names in any casing; one operation that is none refuses the request |
| BulkLimits.LimitIs | resource/bulk.go:45-89 | the limit is the whole part of its number, nothing for anything else |
| BulkLimits.RefusalCodes | server/bulk.go:97-135 | a missing path and an unusable URL answer 400, the bulk endpoint answers 405 to all but POST, and the state stays |
| BulkOutcomes.BulkIsOnly | server/bulk.go:36-81 | of a body without case clashes, every outcome the prefix law allows is the specified one, through all nested requests |
| BulkHandling.Handler.HandleBulk | server/bulk.go:36-81 | on any body the handler has an outcome that the prefix law allows, nested requests included, and the specified one without case clashes; it ends because data lies strictly inside its body |
| BulkHandling.Handler.ExecuteOps | server/bulk.go:53-75 | on any operations, the results of the first ones in order up to the reply of 300 or more that reaches the limit, each from the state the one before left, or the first panic; the specified ones without case clashes |
| BulkHandling.Handler.ExecuteBulkOp | server/bulk.go:97-167 | missing path, unusable URL, every other request to the rest of the server, exactly; nested bulk by POST only |

## Left out

- Floating point: numbers are decimals, so the rounding, overflow and negative zero of float64 are not modelled; comparing two numbers uses the source's tolerance.
- `failOnErrors` beyond the range of a machine integer, and overflow when start index and page size are added.
- Byte escapes in string literals from 0x80 up and invalid UTF-8: strings are sequences of characters, and such escapes are refused.
- Case folding and upper-casing outside ASCII.
- The RFC 3339 text of a time: a time is written as its count of seconds; calendars and zones are not part of this model.
- ResourceObjects.Resource.ToMap: times are written as counts of seconds, because the RFC 3339 text is not modelled.
- ResourceObjects.ParseMeta: times are read as counts of seconds, because the RFC 3339 text is not modelled.
- PatchEngine.RunPatch: nested JSON values are immutable values here, so one object reached from two places (two operations of one request that bring the same map) is not modelled; which nodes are written is proved in SharedPatches, and on objects with keys that differ only in case the attributes depend on map order and only their frame is promised.
- SharedPatches.ApplyOp: which nodes are written and held is proved for all requests, what they show afterwards only for the requests that write a value of their own; filters may accept any elements and a new array may have any spare capacity.
- SharedStores.NodeStore.Patch: a map that holds itself, which a request can build by replacing a sub-attribute of a value by that value, shows no JSON value and cannot be patched further here.
- MemoryStores.MemoryStore.ListDuring: nested values are immutable values here, which assumes that each request brings values no other request uses; SharedStores.NodeStore.Patch proves from that assumption that published nodes stay unchanged, SharedStores.SharedValueIsWritten and SharedStores.SharedSliceIsOverwritten show that it is needed. The other requests are whole requests between two filtering steps; locks, contexts and hooks are not objects of their own.
- SortEngine.SortResources: the insertion sort that `sort.SliceStable` does on blocks of twenty, without its merging of blocks; both give the one stable order when the comparison is transitive on the keys, and on other keys they can differ beyond twenty resources.
- `setNested`, `setNestedAttr` and `setDotPath` are one function on values, and `flattenMap` is rendered by the same method as `flattenInto`.
- The exact results of all members whose contracts name `Unique`, `CaseUnique` or `Clean` are for objects without keys that differ only in case; on others the result depends on map order and the contract says what any walk can give.
- BulkHandling.Handler.HandleBulk: the exact result is promised for bodies without keys that differ only in case, the prefix law for all.
- StoreRuns.RunKeepsCreated: ids are parameters of Create, so that a new id is fresh appears as the assumption that no request re-creates the resource.
- SqlExactness.TranslationMeaning: `=` and `<` on two values that are not NULL are taken to be the evaluator's equality and order, and LIKE to ignore the case of letters; collations are not part of this model. A pattern that ends in a backslash selects nothing, which is Postgres's error; MySQL takes that backslash as it is. A column name without a table is taken for one of the resource's own table, inside sub-queries too.
- SqlExactness.KnownIsRight: values compared by `co`, `sw` and `ew` have no character special to LIKE; SqlExactness.ComparisonIsExact shows that this is needed.
- SqlFilter.PlaceholdersInOrder: MySQL placeholders are anonymous, so for MySQL the statement is about their number; SqlReading.TextRead takes each for its argument.
- Quoting of identifiers in SQL: names are tokens.
- Count and fallback queries, joins, table definitions and everything else that talks to a database.
- MappedReading.MappedRoundTrip: schemas and location are not stored in a mapped document, and the conversions of the BSON driver between writing and reading are not part of this model.
- Rebuilding.ReconstructResource: texts that a driver returns as bytes are taken as strings, and a table holds no maps.
- FlatRoundTrips.TreeRoundTrip: schemas are not part of the table.
- Reading a patch request from JSON, schema validation, MongoDB filter translation, SCIM 1.1 and list parameters are not part of this model.
- HTTP, routing beyond the bulk endpoint, middleware, audit, telemetry, configuration: the rest of the server is a parameter of the bulk model.
