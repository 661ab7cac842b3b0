# A model of the REST framework's query, repository and request cores

This project models the parts of the framework where a mistake would be hard to see: the LoopBack-style query
compiler and everything around it, the soft-deleting repository, the rate limiter, the tag-driven body processor,
streaming uploads, schema construction and the date codec. `dafny verify dfyconfig.toml` checks all of it.

**Queries.** `Lbq` gives `where` trees a direct meaning over the JSON view of a document; `Mongo` gives the query
documents the compiler writes a meaning over stored documents. `FieldResolution` and `Schemas` say which paths a
schema declares and what a dotted path resolves to. `WhereCompiler` is the compiler, as loops that take the keys of
an object in any order; its result is described by a relation, so that every theorem holds for every order.
`CompilerShape` says when every key is in its place, `CompilerAcceptance` when the server takes the query then,
`CompilerCorrectness` what the query means, and `CompilerOperands` which operands are refused or read as something
else. `Erasure` is about what is silently dropped, `CompilerSafety` and `CompilerFailures` about errors, warnings and
panics. `QueryParser`, `OrderParser`, `FilterParser` and `WherePrinter` read and print the JSON form, and
`RequestMeanings` says what a request asks for, down to its words and numbers. `WhereBuilders` and `FilterBuilders`
are the builders, with their fields updated in place, `BuilderCalls` says what single calls mean and when they fail,
`Slices` are the windows into arrays that they append to, and `FilterSharing` is about what builders and filters
share. `Projections` is about the fields a query returns.

**Repository.** `UpdateDocument` is the rewriting of updates and inserts, `RepositoryQuery` the way from a builder to
the query that is run, `Repositories` the operations as steps on a stored collection, `UpsertSeed` what an upsert
starts a document from, `RepositoryRuns` what holds over every run of operations, and `RepositoryEffects` what inserts
and updates leave in the collection in the caller's own terms.

**Requests.** `RateLimiter` is the INCR and EXPIRE NX protocol, `Uploads` the multipart loop on a disk that remembers
every state it has been in, `ProcessorCache` the operator tables and the metadata cache, `BodyProcessor` the pure pass
that processing amounts to, `BodyProcessorHeap` the in-place processor over a store of cells, `BodyByTags` what it
does in terms of the declarations alone, `UploadOutcomes` and `SchemaFields` what an upload's outcome and a schema's
entries say of the parts and the struct they come from, and `MongoDate` the byte codec of the UTC datetime element
(type 0x09 of the BSON specification, version 1.1).

Regular-expression matching, hexadecimal object ids, date strings, Unicode functions, generated file names, the time
and the outcome of each I/O step are parameters. Where the code does something other than its names or comments
suggest, the model follows the code: an undeclared dotted path stands for its declared ancestor, an empty member of an
`or` is dropped, an empty list from JSON is sent as null, a pattern need not be a string, a filter built by one
builder can carry its map and its arrays into another, a field never to be returned comes back when others are left
out, orders do not survive printing, a late registration of a processor is missed by types already used, the rate
limiter admits up to twice its maximum less one within one window's length, a key that a limiter gives may be the name
and address of another endpoint's client, and an upload to an undeclared field
panics.

## Model

| member | source | states |
|---|---|---|
| FieldResolution.GetFieldIfExists | database/lb_filter_utils.go:436-455 | the loop over parents ends and returns what resolution by last dots gives |
| FieldResolution.ResolveIsLongestAncestor | database/lb_filter_utils.go:436-455 | a path resolves exactly when the path or a dotted ancestor is declared, and then to the longest such |
| FieldResolution.SuffixIsLost | database/lb_filter_utils.go:449-452 | below a declared path an undeclared suffix is lost: the ancestor's field is used |
| WhereCompiler.ConvertOperand | database/lb_filter_utils.go:270-304 | object ids and dates are converted singly or item by item, all or nothing; a null passes for pointer fields only; an empty list becomes a nil slice |
| CompilerFailures.ConversionIsCast | database/lb_filter_utils.go:270-434 | for every field, key and operand: what is sent is the operand cast to the declared type, item by item in a list, and there is nothing to send exactly when it has no such reading; null passes for a field that may be nil |
| WhereCompiler.BuildWhere | database/lb_filter_utils.go:155-317 | in any key order: panics, fails or succeeds exactly as the tree says; warnings are exactly the visited unknown fields and errors exactly the codes met on the way; every entry of the query stems from an entry of the tree and every entry that compiles to something is represented |
| WhereCompiler.BuildEntry | database/lb_filter_utils.go:193-309 | one entry: skipped keys, unknown fields, nested objects, and/or lists, converted or dropped operands |
| WhereCompiler.BuildGroup | database/lb_filter_utils.go:232-254 | the members of a list are compiled one by one, those with empty results are left out; an error in any of them, or a list left empty, is an error with just these codes |
| CompilerCorrectness.CompilerCorrect | database/lb_filter_utils.go:155-317 | a well-scoped tree, one with every key in its place, operands the server takes, and no nil slice or operator document among its values, always compiles, without warnings, to a query the server accepts and that matches exactly the documents the tree holds of, whatever the key order |
| CompilerCorrectness.ObjectMeaning | database/lb_filter_utils.go:193-317 | the same for every object inside the tree and every query its entries may become |
| CompilerCorrectness.OpsMeaning | database/lb_filter_utils.go:160-192 | operator objects under a field: comparisons, existence, patterns and negated patterns mean what they say of the field's value, absent values included |
| CompilerAcceptance.AcceptedIffTaken | database/lb_filter_utils.go:155-317 | a shaped tree always compiles without warnings, and the server accepts its query exactly when every list operand is a filled list without operator documents (empty will do where nothing is converted and the slice is not nil), every pattern and its options are strings, and every document bound to a field can be read |
| CompilerAcceptance.ObjectAccepted | database/lb_filter_utils.go:193-317 | the same for every object inside the tree and every query its entries may become |
| CompilerOperands.EmptyListIsRefused | lbq/lb_query_parser.go:159-165 | an empty `inq` or `nin` list from JSON is a nil slice, and its query, compiled without error or warning, is rejected by the server |
| CompilerOperands.PatternMustBeString | database/lb_filter_utils.go:179-192 | a number as `like` or `nlike` pattern parses and compiles without error or warning to a query the server rejects |
| CompilerOperands.ValueMeansItselfIff | database/lb_filter_utils.go:306 | a value bound to an unconverted field is accepted, and means that value on every document exactly when there is no nil slice in it |
| CompilerOperands.EmptyListMeansNull | lbq/lb_query_parser.go:159-165 | a field bound to an empty list from JSON asks for null or nothing, not for an empty list |
| CompilerOperands.DollarDocumentIsOperator | database/lb_filter_utils.go:306 | a document with a dollar key bound to a field is read as operators: `$ne` asks for everything else |
| Lbq.WritesWhatIsMeant | lbq/lb_query_parser.go:159-165 | a value is written to the server as it is meant exactly when no nil slice is in it |
| Lbq.WireArrives | database/lb_filter_utils.go:306 | a value arrives as it is at any depth, null in the place of nil slices |
| Lbq.StringsInOrder | database/lb_filter_utils.go:155-317 | strings compare in dictionary order |
| Lbq.LexIsInjective | database/lb_filter_utils.go:193-202 | reading a key as an operator word or a path loses nothing: its text is what was read |
| Erasure.SameQueries | database/lb_filter_utils.go:193-309 | a tree that compiles may become exactly the queries that the tree without its unknown fields, `$` keys, unconvertible operands and emptied members may become, and that tree draws no warning |
| Erasure.ErasedShaped | database/lb_filter_utils.go:193-309 | what erasure leaves of a tree that compiles has every key in its place and every operand converted, whatever stood in the places that are not visited |
| Erasure.ErasedMeaning | database/lb_filter_utils.go:193-309 | the query of a successful call is accepted exactly when the operands left are taken, then means exactly the erased tree if these are plain, and matches every document the whole tree holds of if no member of an emitted `or` ends empty |
| CompilerSafety.NoVacuousSubqueries | database/lb_filter_utils.go:233-265 | a compiled query has no empty sub-document and no empty list at any depth below its root |
| CompilerSafety.ErrorsSurface | database/lb_filter_utils.go:237-262 | an error at any object the compiler reaches fails the whole call |
| CompilerFailures.ReportsWhatIsMet | database/lb_filter_utils.go:155-317 | a call reports exactly what the objects it reaches say of themselves: an error for a `$where`, a bad `exists` or a group without a filled member, a warning for a key without a field |
| CompilerFailures.FailsIff | database/lb_filter_utils.go:310-317 | a call that does not crash fails exactly when there is such an error |
| CompilerSafety.CrashesIffBareOperand | database/lb_filter_utils.go:204-214 | the nil field is dereferenced exactly when an operand stands under an operator key that no field covers |
| CompilerSafety.BareOperatorCrashes | database/lb_filter_utils.go:267 | an operator with an operand at the top level panics |
| CompilerSafety.OrDropsEmptyMember | database/lb_filter_utils.go:245 | an `or` of an empty member and another holds of everything, but its query asks for the other member; this is where a choice is lost |
| CompilerSafety.CollidingKeysLoseOne | database/lb_filter_utils.go:199-309 | of two keys of an object that are stored under one name, either entry may be the one that survives in a query the call may return, and the other is lost |
| CompilerSafety.SuffixCollides | database/lb_filter_utils.go:436-455 | a declared path and an undeclared one below it are stored under one name |
| CompilerSafety.SiblingsAreDiscarded | database/lb_filter_utils.go:175-192 | keys beside exists, like or nlike change neither the query nor the way the call ends |
| QueryParser.GetRawValue | lbq/lb_query_parser.go:144-174 | scalars and lists keep their values at any depth; objects give null |
| QueryParser.ParseWhereValue | lbq/lb_query_parser.go:58-142 | reads an object member by member, later members replacing earlier ones, or fails: how each kind of member reads is what ShorthandIsEq, PatternStandsAlone, LastCounts, GroupsMean, MembersMean and ReadIfWellFormed say of it |
| QueryParser.ParserShape | lbq/lb_query_parser.go:58-142 | a parsed tree has no `$` key at any depth, lists only under and/or, nested trees under every other key that is not an operator |
| QueryParser.ShorthandIsEq | lbq/lb_query_parser.go:133-135 | a value bound to a field, wherever it stands in an object, reads as the same tree as `eq` with that value |
| QueryParser.ShorthandMeans | lbq/lb_query_parser.go:133-135 | and for a declared field that tree holds exactly when the field equals the typed value |
| QueryParser.ObjectsAreNull | lbq/lb_query_parser.go:144-174 | an object in a list of operands, at any depth, is as good as null |
| QueryParser.PatternStandsAlone | lbq/lb_query_parser.go:71-88 | next to a pattern nothing counts but the options, and absent options are null ones; `like` comes before `nlike` |
| QueryParser.FirstIsFound | lbq/lb_query_parser.go:71-73 | looking a key up finds its first member |
| QueryParser.LastCounts | lbq/lb_query_parser.go:116-135 | reading an object goes by the last member with a key; an earlier one must only be readable |
| RequestMeanings.ReadIffWellFormed | lbq/lb_query_parser.go:58-142 | an object can be read exactly when it has a pattern, or no key starts with `$`, `and` and `or` have lists of readable objects, `inq` and `nin` lists, and other objects are readable |
| RequestMeanings.NumbersAreEqual | database/lb_filter_utils.go:16-28 | from the words in the JSON to the answer: between numbers `eq` is equality and `neq` its opposite |
| RequestMeanings.NumbersAreCompared | database/lb_filter_utils.go:16-28 | and `gt`, `gte`, `lt` and `lte` are greater, at least, less and at most |
| RequestMeanings.WordsAreFound | database/lb_filter_utils.go:16-28 | `inq` asks for one of the listed strings and `nin` for none of them |
| RequestMeanings.AbsenceIsFound | database/lb_filter_utils.go:163-178 | `exists` asks for the field to be there or not, `eq` null for nothing or null, `neq` null for something else |
| RequestMeanings.TextIsTyped | database/lb_filter_utils.go:340-434 | text compared with a date is an instant, text compared with an id an id, and a number that a program compares with a date is seconds |
| RequestMeanings.PatternsAreSought | database/lb_filter_utils.go:179-192 | `like` asks for a present value that matches the pattern under the options, and `nlike` for all others |
| RequestMeanings.GroupsMean | lbq/lb_query_parser.go:102-116 | an `and` of readable members asks for all of them, an `or` for one |
| RequestMeanings.MembersMean | lbq/lb_query_parser.go:89-141 | an object without patterns or repeated keys can be read exactly when each of its members alone can, and asks for all of them |
| QueryParser.NoWhereClause | database/lb_filter_utils.go:160-162 | no object reached while compiling a parsed tree carries `$where` |
| QueryParser.AnchoredNeverCrashes | database/lb_filter_utils.go:204-214 | with operators only under field keys, compiling what was parsed never meets a nil field |
| QueryParser.NestedOperatorCrashes | lbq/lb_query_parser.go:58-142 | an operator bound to an object parses and then panics in the compiler |
| WherePrinter.WhereRoundTrip | lbq/lb_query_parser.go:58-174 | a printed tree reads back as itself exactly when no operand is or holds a nil slice, which is what an empty list of JSON becomes |
| OrderParser.ParseOrderValue | lbq/lb_query_parser.go:176-206 | one order string or a list of them; any other value or any unreadable string fails |
| OrderParser.OrderIsSpelled | lbq/lb_query_parser.go:208-224 | a string reads as an order exactly when, without the white space around it, it is the field, one space and a word that is ASC or DESC in upper case |
| OrderParser.OrdersReadBack | lbq/lb_query_parser.go:176-224 | orders that were read read back from the list of their spellings |
| RequestMeanings.OrdersAreStrings | lbq/lb_query_parser.go:176-206 | orders are read exactly from a string that reads as an order, or from a list of nothing but such strings, in order |
| RequestMeanings.OrdersSort | database/lb_filter_utils.go:138-153 | the sort of a string that reads as an order is by its field, downwards exactly when its word spells "desc" in any mixture of cases; otherwise it spells "asc" |
| RequestMeanings.SortedInTurn | database/lb_filter_utils.go:138-153 | several orders sort in turn, and those of a builder up or down as it was told |
| Strings.SplitOfJoin | lbq/lb_query_parser.go:209 | cutting at a separator is the only way to get parts without it: with JoinOfSplit, splitting and joining are inverse |
| Strings.OnlySpaceIsTrimmed | lbq/lb_query_parser.go:209 | trimming takes away the white space at the ends and nothing else |
| FilterParser.ParseFilterValue | lbq/lb_query_parser.go:310-372 | the members of a filter are read independently, orders included; any bad one fails the whole |
| FilterParser.ParseIncludeValue | lbq/lb_query_parser.go:255-308 | includes as comma lists, arrays or objects with nested scopes |
| FilterParser.ParseFieldsValue | lbq/lb_query_parser.go:226-253 | field lists and field objects, or a failure |
| RequestMeanings.FilterIsItsMembers | lbq/lb_query_parser.go:310-372 | a filter reads exactly when its `where`, `order`, `fields` and `include` read, each by itself, and has what they read as; members that are not there leave nothing |
| RequestMeanings.NamesAreTrue | lbq/lb_query_parser.go:229-237 | a list of names reads like the object with all of them true |
| RequestMeanings.OnlyNamesAreRead | lbq/lb_query_parser.go:233-235 | a list with anything else in it fails |
| RequestMeanings.LastBoolCounts | lbq/lb_query_parser.go:238-248 | in an object of fields the last true or false of a name counts and everything else is passed over |
| RequestMeanings.CommasAreLists | lbq/lb_query_parser.go:262-268 | an include string is short for the list of its parts between commas, each an object with it for relation |
| RequestMeanings.ObjectsInclude | lbq/lb_query_parser.go:269-293 | an object includes the one relation it names, with the filter its scope reads as; without a name, or with a scope that does not read, it fails |
| RequestMeanings.ListsInclude | lbq/lb_query_parser.go:294-307 | a list includes what its items do one after the other, or fails with one of them; anything else includes nothing |
| RequestMeanings.WholeNumbersCount | database/lb_filter_utils.go:67-136 | a limit, or a number to skip, is sent exactly when a whole number above zero that fits 64 bits is asked for, and is that number |
| FilterParser.FilterRoundTrip | database/filter_builder.go:191-198 | a readable filter printed by its JSON tags reads back as itself exactly when no operand holds a nil slice, there are no orders and every relation has a name, nested scopes included |
| FilterParser.ParsePrintParse | lbq/lb_query_parser.go:44-56 | parsing, printing and parsing again is the identity exactly on those filters |
| WhereBuilders.WhereBuilder.Or | database/filter_builder.go:488-503 | one `or` of the non-empty sub-trees; the last failing sub-builder's error stays; a builder among its own arguments counts as it stands when its turn comes |
| WhereBuilders.OrWithItself | database/filter_builder.go:488-503 | a builder passed to its own `Or` goes on meaning the same |
| WhereBuilders.OthersAreSeen | database/filter_builder.go:488-503 | other builders count with what they build alone |
| WhereBuilders.WhereBuilder.And | database/filter_builder.go:505-532 | one `and` of the flattened sub-trees; the first failing sub-builder's error stays |
| WhereBuilders.WhereBuilder.Build | database/filter_builder.go:534-550 | nothing, the one condition, or an `and` of all; an error fails it |
| WhereBuilders.ConjunctionMeans | database/filter_builder.go:542-549 | the built tree holds exactly when all conditions hold |
| WhereBuilders.FlattenedMeans | database/filter_builder.go:508-526 | flattening keeps the meaning of a tree in which no `and` has siblings |
| WhereBuilders.SiblingsOfAndAreForgotten | database/filter_builder.go:516-520 | keys beside an `and` are lost by flattening |
| WhereBuilders.BuildMeansCalls | database/filter_builder.go:476-550 | building is a homomorphism: for any nesting of clean calls the tree means the conjunction of what each call says |
| BuilderCalls.FailsIffBroken | database/filter_builder.go:476-550 | building any expression over builders fails exactly when some condition in it is empty, at whatever depth |
| BuilderCalls.WhichErrorIsReported | database/filter_builder.go:488-532 | of several errors of sub-builders `Or` reports the last and `And` the first |
| BuilderCalls.EmptyIsIgnored | database/filter_builder.go:488-532 | a sub-builder without conditions makes no difference to `Or` or `And` |
| BuilderCalls.ConditionIsAdded | database/filter_builder.go:476-486 | a condition is added unless an error came before, its field is blank or it is empty, each of which leaves an error |
| BuilderCalls.BlankIsTrimmed | database/filter_builder.go:575-588 | a field is blank exactly when nothing is left of it without white space |
| BuilderCalls.StrictnessIsIrrelevant | database/filter_builder.go:360-371 | a value bound directly and one under `eq` say the same |
| BuilderCalls.RangeMeans | database/filter_builder.go:398-412 | a range says that the value lies between its ends, which belong to it unless it is exclusive |
| BuilderCalls.PatternMeans | database/filter_builder.go:446-458 | a pattern says that the value is there and matches it under the options |
| FilterBuilders.FilterBuilder.Fields | database/filter_builder.go:40-43 | adds fields to the builder's own map; panics exactly when that map is nil and there is something to add |
| FilterBuilders.FilterBuilder.OrderBy | database/filter_builder.go:55-75 | appends an order, in the next place of the array there is if it has room and in a new array otherwise; a blank field is an error |
| FilterBuilders.FilterBuilder.AddInclude | database/filter_builder.go:77-80 | appends an include with its scope in the same way |
| FilterBuilders.FilterBuilder.WithWhere | database/filter_builder.go:82-96 | appends the built tree if it has conditions; a failing builder's error is recorded |
| FilterBuilders.FilterBuilder.Build | database/filter_builder.go:98-125 | fails on a recorded error or a mixed projection, else conjoins all trees |
| FilterBuilders.FilterBuilder.FromLBFilter | database/filter_builder.go:127-144 | takes over the filter's own map and slices, and a limit that is set even when zero |
| FilterBuilders.FilterBuilder.Clone | database/filter_builder.go:157-181 | a new builder with its own map and arrays and the same contents |
| FilterBuilders.FilterBuilder.MergeWith | database/filter_builder.go:212-345 | merged conditions, projection, limit, skip, order and includes in a fresh builder with a fresh projection map and fresh arrays; errors of either side win, the first before the second |
| FilterBuilders.MergedWhereMeans | database/filter_builder.go:245-287 | merging two builders with conditions means their `and`, or their `or` |
| FilterBuilders.MergedProjectionIsValid | database/filter_builder.go:289-314 | a merge without an error has a projection that `Build` accepts |
| BuilderCalls.ProjectionsAreOneSided | database/filter_builder.go:559-573 | apart from the id a projection is valid exactly when it names only fields to return or only fields to leave out |
| BuilderCalls.NothingIsNeutral | database/filter_builder.go:212-345 | merging with a builder without contents changes nothing, on either side |
| BuilderCalls.MergeFailsIff | database/filter_builder.go:212-314 | a merge fails exactly when a side has failed, fields contradict each other where they may not, or the fields together mix inclusion and exclusion |
| BuilderCalls.OtherSideComesFirst | database/filter_builder.go:289-345 | the other side's limit counts as far as its cap allows, its fields, skip and order come before this side's, and its includes are added |
| BuilderCalls.DefaultMerge | database/filter_builder.go:231-240 | without a configuration both sides must hold, contradictions fail, and there is no cap |
| BuilderCalls.ToldLimits | database/filter_builder.go:98-125 | a builder sends a limit, or a number to skip, exactly where it was told to with a number above zero |
| FilterSharing.ErrorsStick | database/filter_builder.go:98-101 | after an error every later `Build` fails, whatever calls come in between, `FromLBFilter` included, until a reset |
| FilterSharing.CloneIsIndependent | database/filter_builder.go:157-181 | any sequence of calls on a clone leaves what the source shows as it is, nested scopes included, exactly when the calls write into no projection, order or include that the source reaches anything but what is there already; what they write is told from the calls alone |
| FilterSharing.HarmlessIff | database/filter_builder.go:40-144 | over any memory of projections and arrays: a filter shows the same at every depth exactly when all it reaches is left as it is |
| FilterSharing.ApartIsHarmless | database/filter_builder.go:157-181 | in particular when no filter loaded into the clone refers to anything the source reaches |
| FilterSharing.OthersStayIff | database/filter_builder.go:40-144 | the same for calls on any builder and what any other builder shows |
| FilterSharing.CloneKeepsBuild | database/filter_builder.go:98-125 | such calls leave the source building what it built |
| FilterSharing.CloneWritesThroughBuild | database/filter_builder.go:117-135 | a filter built by the source, loaded into the clone and extended there, changes what the source builds |
| FilterSharing.CloneWritesThroughScope | database/filter_builder.go:165-168 | a scope of the source, loaded into the clone and extended there, is extended in the source |
| FilterSharing.CloneOverwritesOrder | database/filter_builder.go:65 | a filter built while the orders had room, loaded into a clone and ordered there, replaces the order the source has got since |
| FilterSharing.ThreeOrdersLeaveRoom | database/filter_builder.go:55-67 | three orders leave such room where arrays grow by doubling |
| FilterSharing.CloneOverwritesInclude | database/filter_builder.go:77-80 | and so with includes |
| FilterSharing.FromLBFilterShares | database/filter_builder.go:132-135 | a builder made from a filter writes through to that filter's map |
| UpdateDocument.PrepareUpdateDocument | database/repository_helpers.go:23-173 | returns, refuses or panics as the rewriting rules say, for updates by operators and by plain fields; what these come to is what AskedIsSet, SetIsAsked, CurrentDates, InsertDefaultsAreSet, RefusedIff and PanicsIffEmpty say of it |
| UpdateDocument.ManagedFieldsAreNotSet | database/repository_helpers.go:46-95 | a prepared update sets a managed field exactly when its `$set` is not a plain map and asks for managed fields only |
| UpdateDocument.SetSurvives | database/repository_helpers.go:46-95 | what is left of `$set` in every case |
| UpdateDocument.UnmanagedFieldsAreKept | database/repository_helpers.go:75-95 | every requested field that is not managed is set to the value requested |
| UpdateDocument.AskedIsSet | database/repository_helpers.go:46-95 | every value the caller gives a field that is not managed, plainly, in a `$set` map, in an ordered `$set` whose last entry counts, or as a value that encodes to fields, is what `$set` gives it |
| UpdateDocument.SetIsAsked | database/repository_helpers.go:46-95 | and `$set` gives no field a value the caller has not, nor a managed one any but for a `$set` that escapes the rewriting |
| UpdateDocument.DatesAreOn | database/repository_helpers.go:97-137 | the dates the repository asks for itself are switched on, and others are the caller's |
| UpdateDocument.InsertDefaultsAreSet | database/repository_helpers.go:139-166 | for the case of an insert a managed `created` is the time, a managed `deleted` null, and everything else what the caller gives |
| UpdateDocument.InsertedFields | database/repository_helpers.go:175-194 | an inserted document holds the caller's fields, the time under a managed `created` and `modified`, and null under a managed `deleted` |
| UpdateDocument.RefusedIff | database/repository_helpers.go:43-170 | which error refuses an update: exactly when fields and operators are mixed, `$set` cannot be read, `$currentDate` or `$setOnInsert` is no map where the repository adds to it; and for emptiness only if no operator but `$currentDate` is there |
| UpdateDocument.OtherOperatorsAreKept | database/repository_helpers.go:23-173 | all other operators come through unchanged |
| UpdateDocument.CurrentDates | database/repository_helpers.go:97-137 | which fields end up in `$currentDate` |
| UpdateDocument.PreparingIsIdempotent | database/repository_helpers.go:23-173 | preparing twice is preparing once, unless inserting |
| UpdateDocument.PanicsIffEmpty | database/repository_helpers.go:43 | the nil map is written exactly when the update is empty and a date or default is due |
| UpdateDocument.FindOneOrCreateIsRefused | database/mongo_repository.go:304-315 | a model value as `$setOnInsert` is refused wherever `created` or `deleted` is managed |
| UpdateDocument.PlainUpdateReuse | database/repository_helpers.go:75-95 | a plain-field map used twice gives the same update exactly when it had a field of its own |
| RepositoryQuery.AdaptLoopbackFilter | database/lb_filter_utils.go:67-136 | the adapted filter's query, limit, skip, sort and projection; a non-empty where that compiles to nothing is refused, never match-all |
| RepositoryQuery.BuildSort | database/lb_filter_utils.go:138-153 | one sort entry per order, -1 exactly for DESC |
| Projections.BuildProjection | database/lb_filter_utils.go:103-133 | declared fields of those asked for, with the fields always included and without those never included; the id alone if nothing is left; without a request, all but the fields never included |
| Projections.SentProjection | database/lb_filter_utils.go:103-133 | a field is sent, with its value, exactly when the schema always includes it, or the caller names it and it is declared or lies below what is, and the schema does not keep it back; the id alone where nothing is left; what is kept back where nothing is named |
| Projections.RequiredIsReturned | database/lb_filter_utils.go:112-114 | a field the schema always includes comes back whatever is asked for |
| Projections.BannedIsHidden | database/lb_filter_utils.go:116-133 | a field the schema never includes is kept back exactly when no fields are named at all, or some are picked and none of them lies below it: leaving other fields out brings it back |
| Projections.RenamedIsReturned | database/lb_filter_utils.go:128-130 | projections go by JSON names: a field stored under another name comes back |
| Projections.MixedBySchema | database/lb_filter_utils.go:103-124 | a projection that was valid when built mixes inclusion and exclusion, which the server refuses, exactly when some fields are always included and another one is left out |
| RepositoryQuery.FixedQueryMeans | database/repository_helpers.go:15-21 | the fixed query asks for the same among documents whose `deleted` is an explicit null |
| RepositoryQuery.FixedQueryAccepted | database/repository_helpers.go:15-21 | the server accepts the fixed query exactly when it accepts the query |
| RepositoryQuery.BuildQuery | database/repository_helpers.go:223-237 | build, adapt and fix in this order, with every failure of theirs |
| RepositoryQuery.BuiltQueryMeans | database/repository_helpers.go:223-237 | for well-scoped conditions, whose operands the server takes, the query run is accepted and matches exactly the living documents all conditions hold of |
| RepositoryQuery.BuildQueryById | database/mongo_repository.go:256-272 | works on a clone of the caller's builder with the id condition appended; a null id is refused |
| RepositoryQuery.FindByIdMeans | database/mongo_repository.go:256-272 | for a convertible id without operators or nil slices in it the query is accepted and means: this id, and the caller's conditions, and not deleted |
| Repositories.Repository.Insert | database/mongo_repository.go:274-293 | stores one document in a new place and touches no other: the caller's fields, the time under a managed `created` and `modified`, and with soft deletion alive, so that every fixed query asks for it exactly when the query does |
| RepositoryEffects.InsertIsCounted | database/mongo_repository.go:274-293 | with soft deletion, counting by well-scoped conditions before and after an insert differs by one if they hold of the document, and not at all otherwise |
| Repositories.Repository.Count | database/mongo_repository.go:504-518 | the number of documents the built and accepted query matches; fails only if there is no query or the server rejects it, and panics exactly when compiling the conditions does |
| Repositories.Repository.UpdateDocuments | database/mongo_repository.go:347-372 | the prepared update rewrites every document that matches the fixed query, or exactly one if there is any, and no other; the count of a many-update is that of the documents it has made different; it fails only if there is no accepted query, the update is refused, or the server rejects it for a matching document |
| RepositoryEffects.RewrittenHasEffect | database/repository_helpers.go:23-173 | a document rewritten by a prepared update holds, as it is sent, every value the caller gives a field that is not managed, the time under a managed `modified` and the dates asked for, and is as before under every other name |
| RepositoryEffects.UpdatesAsAsked | database/mongo_repository.go:347-372 | after a successful update just the documents the builder's query asks for, or one of them, show the effect of the caller's update, and all others are as before |
| Repositories.Repository.Upsert | database/mongo_repository.go:317-345 | rewrites exactly one match, or, where nothing matches, inserts the one document made from the equalities of the fixed query, none of which lies below another, and the prepared update; it fails only for the like reasons, or where no such document can be made |
| Repositories.Repository.DeleteDocuments | database/mongo_repository.go:543-610 | marks, with soft deletion, or removes every matching document, or exactly one, and counts them; fails, changing nothing, only if there is no accepted query or a single deletion matches nothing |
| RepositoryRuns.FrozenTombstones | database/repository_helpers.go:196-203 | over every run with soft deletion no document leaves the store, and one that is not alive keeps its contents in every later state |
| RepositoryRuns.Lifecycle | database/repository_helpers.go:175-194 | over every run of inserts, orderly updates and deletions every document keeps an explicit `deleted`, null or a date |
| RepositoryRuns.LifecycleStep | database/mongo_repository.go:543-610 | only a deletion changes `deleted`, from null to its own time |
| RepositoryRuns.DeathIsADeletion | database/mongo_repository.go:543-610 | a document that stops being alive was deleted by an operation in between and carries its time |
| RepositoryRuns.DeleteManyClears | database/mongo_repository.go:504-610 | DeleteMany returns the prior Count, makes Count zero and leaves the number of stored documents |
| RepositoryRuns.CountOnce | database/mongo_repository.go:504-518 | for well-scoped conditions counting succeeds and does not depend on the order in which keys are visited |
| RepositoryRuns.UpsertVisibility | database/mongo_repository.go:331 | an upserted document is visible exactly when the caller gives a null `deleted` for the insert, or gives none and the query has exactly one equality on `deleted`, to null, where `$in` of one value and `$or` of one member count; otherwise no fixed query ever matches it |
| RepositoryRuns.UpsertOfTree | database/mongo_repository.go:317-345 | for a well-scoped tree and no `deleted` given for the insert: exactly when the tree asks for `deleted` once, as null, by a value, `eq`, `inq` of one value, in an `and` or in an `or` of one member; a tree that does not ask for it never makes a visible document |
| UpsertSeed.FixesWhatIsAsked | database/lb_filter_utils.go:193-309 | the compiled query fixes a stored name to exactly the values the tree asks for, `eq`, `inq` of one value, members of `and` and the one member of an `or` included |
| UpsertSeed.SeedHolds | database/mongo_repository.go:331-337 | the document an upsert starts from holds a value under a name exactly when the query fixes the name to that value, once; there is none when a name is fixed twice or lies below another |
| UpsertSeed.SeedIff | database/mongo_repository.go:331-337 | there is a seed exactly when the query fixes no name twice and none that lies below another |
| RateLimiter.Redis.CheckRateLimit | rate_limiter.go:33-76 | one atomic step on the counter of the limiter's own key or of the endpoint's name and the address, admitted exactly while the count is within the maximum; whose requests share a counter is what Serve and ServeEndpoint say |
| RateLimiter.CounterInWindow | rate_limiter.go:51-73 | in every run the counter counts the requests since its window was opened and expires one window after it: it always has an expiry |
| RateLimiter.AdmittedIffEarly | rate_limiter.go:51-73 | a request is admitted exactly when it is among the first Max of its window |
| RateLimiter.WindowAdmitsMin | rate_limiter.go:51-73 | each window admits exactly the lesser of its requests and Max |
| RateLimiter.IntervalBound | rate_limiter.go:51-73 | no half-open interval of one window's length admits more than 2 Max - 1 |
| RateLimiter.BoundIsReached | rate_limiter.go:51-73 | and there are runs that admit that many |
| RateLimiter.Serve | rate_limiter.go:33-76 | over every run of requests of any clients to any endpoints: a limited request is admitted exactly when the requests before it that share its counter, and no others, leave room for it |
| RateLimiter.ServeEndpoint | rate_limiter.go:46-49 | at an endpoint without a key a request is admitted exactly when the times of its own address's requests admit it; with a key, when those of all addresses together do |
| RateLimiter.OneAddressOneEndpoint | rate_limiter.go:46-49 | without keys, and as addresses have no underscore, requests share a counter exactly when they come from one address to endpoints of one name |
| RateLimiter.KeysMayMeet | rate_limiter.go:46-49 | a key that a limiter gives may be another endpoint's name and address, and then they share a counter |
| ProcessorCache.KeepRunes | body_fields_processor.go:370-395 | the rune filter keeps the wanted runes in order |
| ProcessorCache.KeepsWanted | body_fields_processor.go:370-395 | a rune survives exactly when it is there and wanted |
| ProcessorCache.StrongerFilterWins | body_fields_processor.go:370-395 | of two rune filters the stronger decides, in either order |
| ProcessorCache.NumericAbsorbs | body_fields_processor.go:370-395 | sanitizing to digits before or after sanitizing to letters and digits is sanitizing to digits |
| ProcessorCache.BuildStructFields | body_fields_processor.go:71-149 | the tagged exported fields with the functions their tags select, or an error for a dive into what cannot be dived into |
| ProcessorCache.UnexportedIsIgnored | body_fields_processor.go:77-79 | fields that are not exported make no difference to the metadata |
| ProcessorCache.SelectionAges | body_fields_processor.go:107-121 | an earlier selection is a subsequence of a later one, and equal exactly when no name in the tag was registered in between |
| ProcessorCache.CacheAgreement | body_fields_processor.go:207-223 | in every reachable state a cached entry is a subsequence of what would be built now, and equal exactly when no name in the type's tags was registered since it was made |
| ProcessorCache.ValidationIsExact | body_processor.go:109-136 | the cached validation mark is always right |
| ProcessorCache.LateRegistrationIsMissed | body_fields_processor.go:211-222 | a type used before its custom normalizer is registered never gets it |
| ProcessorCache.Operators.RegisterBodyNormalizer | body_processor.go:26-37 | adds a new name, refuses nil functions and taken names |
| ProcessorCache.Operators.RegisterBodySanitizer | body_processor.go:40-51 | the same for sanitizers |
| ProcessorCache.Operators.Load | body_fields_processor.go:210-222 | a cached entry, or one made now and kept |
| ProcessorCache.Operators.IsValidable | body_processor.go:109-136 | the mark of the cached entry, made on the way if missing; with a sound entry, whether the type is usable and has a validate tag |
| BodyProcessor.ShapeIsKept | body_fields_processor.go:186-320 | lengths, map keys, nils, struct types and all leaves but strings stay as they are |
| BodyProcessor.LeafByLeaf | body_fields_processor.go:225-349 | each leaf ends as the functions on its own path leave it, independently of all others; which functions these are is what ProcessByTags says |
| BodyProcessor.UntaggedFieldStays | body_fields_processor.go:97-99 | a field without tags keeps its whole value |
| BodyProcessor.StructFieldIgnoresItsFunctions | body_fields_processor.go:331-339 | a tagged struct is processed by the tags inside it, never by its own |
| BodyProcessor.OnePassIsTwo | body_fields_processor.go:245-252 | one pass with both operators equals a normalizing pass followed by a sanitizing one |
| BodyProcessorHeap.CachedIsUncached | body_fields_processor.go:207-223 | the cache and rebuilding give the same metadata for all types exactly when no name in a type's tags was registered after the type's first use |
| BodyProcessorHeap.Processor.ProcessStringValue | body_fields_processor.go:353-362 | one function changes a string in place, also behind one pointer, and nothing else |
| BodyProcessorHeap.Processor.ApplyProcessors | body_fields_processor.go:322-349 | follows one pointer, processes structs by their tags and applies the functions in order to anything else |
| BodyProcessorHeap.Processor.DiveList | body_fields_processor.go:257-266 | every element in place |
| BodyProcessorHeap.Processor.DiveMap | body_fields_processor.go:267-304 | pointers in place, structs and other values through a copy stored back under the same key |
| BodyProcessorHeap.Processor.CloneInline | body_fields_processor.go:285-286 | assignment copies structs and arrays part by part and shares what is behind references |
| BodyProcessorHeap.Processor.ProcessStruct | body_fields_processor.go:186-320 | on a value no place of which is shared, in-place processing succeeds exactly when every struct it enters is usable, and then leaves the value of the pure pass, without touching any other place; in terms of tags see ProcessByTags |
| BodyByTags.ProcessByTags | body_fields_processor.go:186-349 | a processed struct is what its declarations say: in each tagged field, in the elements of lists and maps of a field marked "dive", behind one pointer and in nested structs by their own tags, strings have the processors that the names select run over them, and nothing else changes; it succeeds exactly when the operator exists and every struct that is entered has no dive into what cannot be dived into |
| BodyByTags.StructIsByTags | body_fields_processor.go:186-349 | the pure pass does just that for every value, operator and moment at which the metadata were made |
| BodyByTags.MomentsOfRun | body_fields_processor.go:207-223 | such moments exist in every reachable state: a cached type has that of its first use, any other the present |
| BodyByTags.StringField | body_fields_processor.go:234-252 | a string field without a dive is what its normalize names and after them its sanitize names make of it; with an operator that family alone has an effect |
| BodyByTags.StringElement | body_fields_processor.go:253-304 | the same for the elements of a field with a dive |
| BodyByTags.SelectedRuns | body_fields_processor.go:107-121 | running the selected functions is running the named processors one after the other, unknown names passed over |
| BodyByTags.BuiltInEffects | body_fields_processor.go:365-433 | what each built-in name does to a string |
| Uploads.UploadHandler.Receive | file_upload.go:214-252 | in every state of the disk the file stays within its limit; on success it holds the whole payload, on any failure it is gone |
| Uploads.UploadHandler.ProcessStreamingFile | file_upload.go:183-276 | checks in order: extension, declared field, allowed type, creation, size before each write, write and read errors |
| Uploads.SizeDecides | file_upload.go:225-252 | without I/O failures a stream is refused for its size exactly when its total length exceeds a positive limit |
| Uploads.ChunkingIsIrrelevant | file_upload.go:225-252 | the verdict does not depend on how the bytes are cut into reads |
| Uploads.TypeEntryCanLiftLimits | file_upload.go:298-326 | a type entry of zero or less on the field lifts every other limit |
| UploadOutcomes.MostSpecificLimit | file_upload.go:298-326 | of the field's limit for the type, the field's own, the global one for the type and the global one, the first that is given is in force |
| Uploads.AcceptedIff | file_upload.go:75-180 | a request is accepted exactly when it is well-formed and complete, every part is acceptable by itself and the field requirements are met |
| UploadOutcomes.RequestRefusals | file_upload.go:75-156 | the verdict on a request: 400 if it is no readable form, then that of its parts, then 400 if it breaks off or a field's requirement is not met |
| UploadOutcomes.FirstBadDecides | file_upload.go:92-147 | of the parts the first that is not fine decides |
| UploadOutcomes.PartRefusals | file_upload.go:183-276 | why a part is refused: 415 exactly for a type that is not allowed, 413 for too long a file, 500 where the disk failed, 400 where the request did or for a file without an extension |
| UploadOutcomes.DisallowedIsRefused | file_upload.go:279-296 | a file of a type that is not allowed is refused for it before its contents are looked at |
| UploadOutcomes.CountsAllowed | file_upload.go:159-180 | no file will do unless one is required, one is always right, more only up to the number allowed |
| UploadOutcomes.ListedInOrder | file_upload.go:132-146 | under every field its files are listed in the order of their parts, with the client's and the stored name, the size and the type, in the directory of uploads or of temporary files |
| UploadOutcomes.ListedIsStored | file_upload.go:254-276 | every listed file is stored with the bytes of its part |
| UploadOutcomes.ValuesInOrder | file_upload.go:103-123 | values are listed in the order of their parts |
| Uploads.CrashesIff | file_upload.go:192-195 | the nil configuration is dereferenced exactly when a file with an extension for an undeclared field comes before anything is refused |
| Uploads.CrashLeavesFiles | file_upload.go:280 | such a crash leaves the files of earlier parts on disk |
| Uploads.UploadHandler.ValidateFieldRequirements | file_upload.go:159-180 | required fields are there and counts are within limits, where 0 means 1 and a negative number no limit |
| Uploads.UploadHandler.CleanupFiles | file_upload.go:329-337 | removes exactly the listed files |
| Uploads.UploadHandler.ProcessStreamingFileUploads | file_upload.go:75-156 | every refusal leaves the disk as it was; success leaves exactly the returned files; in every state in between each new file is within its limit |
| Uploads.UploadHandler.CleanupAfterResponse | file_upload.go:340-356 | removes exactly the temporary files, none when files are kept |
| Uploads.UploadHandler.Run | endpoint.go:132-146 | after a successful upload the files are there while the request runs; on exit they are gone unless they are kept |
| Schemas.ParseXSONTags | database/schema.go:352-380 | the name is the first part or the default, flags are the parts present, "-" gives no name |
| SchemaFields.TagNames | database/schema.go:352-380 | the name a tag gives is what stands before its first comma, or the field's own when that is empty, or none for "-" |
| SchemaFields.TagSwitches | database/schema.go:352-380 | the parts of a tag are switches, each on exactly when its word is among them |
| Schemas.Schema.InitFields | database/schema.go:97-104 | declares the fields of a struct in order under the given prefixes, in all tables |
| Schemas.Schema.InitField | database/schema.go:170-259 | dates, nested and inlined structs, lists, object ids and plain fields, in the table by path and, where there is no prefix, in the tables by field name; models and relations are left out |
| Schemas.Schema.constructor | database/schema.go:76-95 | the tables of a whole struct tree: by path, by field name, and of the fields always or never to be returned |
| Schemas.TableIsChains | database/schema.go:170-259 | the table holds exactly the chains of nested fields, each JSON path with the parallel BSON path |
| SchemaFields.ShapeIsDeclared | database/schema.go:170-259 | on each level the declared names are exactly those of the fields that stand there or in a struct inlined there, models and relations left out, each with its JSON and BSON name, type and pointer mark |
| Schemas.PathsMapInjectively | database/schema.go:190-197 | different JSON paths have different BSON paths |
| Schemas.TableIsPrefixClosed | database/schema.go:219-226 | every declared path below the top has its parent declared, and their BSON paths differ by one name |
| Schemas.ResolvedChain | database/lb_filter_utils.go:436-455 | against such a table a path resolves to the field of the longest chain it goes through |
| Schemas.ResolvesIff | database/lb_filter_utils.go:436-455 | and it resolves exactly when it goes through some chain |
| Schemas.SchemaGivesDistinctNames | database/lb_filter_utils.go:199-202 | over such a schema no two declared keys of a `where` share a stored name |
| Schemas.RulesAreTags | database/schema.go:106-122 | the tables of fields always or never to be returned hold just the top-level fields with those tags exactly when no two of these share both their field name and one of the tags |
| Schemas.SchemaGivesPlainRules | database/schema.go:106-122 | a schema meets what the theorems about projections ask for, and each of the two tables holds just its fields exactly when no two of them share a field name |
| Schemas.LaterNameWins | database/schema.go:110-114 | of two fields of one name, one of them inlined, only the later is kept back |
| Schemas.NoPointerIds | database/schema.go:234-236 | object ids, lists and plain fields are never marked as pointers |
| Schemas.NullIdIsDropped | database/lb_filter_utils.go:270-285 | so a null operand for an object id is never converted, even where the field may be nil |
| Schemas.DashIsEmptyName | database/schema.go:354-357 | at any depth a field tagged "-" that is not inlined or left out is declared under its parent's path and the empty name, and the fields of such a struct at the top as if they stood beside it |
| MongoDate.Date.UnmarshalBSONValue | database/types.go:48-91 | decodes datetimes and integers from little-endian bytes, with 64-bit wrap-around, or fails and changes nothing |
| MongoDate.Date.MarshalBSONValue | database/types.go:93-108 | eight little-endian bytes of the milliseconds, truncated toward zero |
| MongoDate.BytesRoundTrip | database/types.go:48-108 | unmarshalling and marshalling returns the same bytes exactly when the milliseconds lie within 9223372036854 of zero |
| MongoDate.InstantRoundTrip | database/types.go:48-108 | marshalling and unmarshalling truncates to milliseconds toward zero |
| MongoDate.EightAreMilliseconds | database/types.go:48-108 | eight bytes, the lowest first, hold signed milliseconds, both ways |
| MongoDate.FourAreSeconds | database/types.go:76-86 | four bytes, the lowest first, hold signed seconds |

## Left out

- WhereCompiler.BuildWhere: the order and the wording of the errors; nested ones are flattened into their codes.
- BodyProcessorHeap.Processor.ProcessStruct: needs a value no place of which is shared, and does not say what is in it when processing stops half-way with an error.
- Uploads.UploadHandler.ProcessStreamingFileUploads: takes the generated names to be new, and removal of a file to succeed.
- Uploads.UploadHandler.Run: the delay before the clean-up and what other stages do meanwhile are not modelled; only the order is.
- FilterSharing.CloneIsIndependent: the calls bring along filters that were there before; loading back what the clone itself has built in between starts a new sequence, to which OthersStayIff applies. How many places an array gains when it grows is any number.
- Repositories.Repository.Upsert: update paths above or below those of the seed, which the server refuses, are applied; longer lists of alternatives that a server version may rewrite into one equality are not.
- FilterParser.ParseFilterValue: a limit or skip is read by its value; written with a point or an exponent it reads as zero in the code.
- Uploads.UploadHandler.ValidateFieldRequirements: a field bound to a nil configuration, on which the code panics, is left out.
- RateLimiter.Redis.CheckRateLimit: a key is gone at its expiry, where Redis keeps it through that millisecond; a window there is one unit longer.
- Go integers other than int64, which dates are not read from, are left out; documents bound to a field are read as operators if any of their keys has a dollar sign, where the server goes by the first.
- Mongo operators and literal documents beyond those the compiler or a caller's `$` document can produce here (nested `$not`, `$elemMatch` and the like) count as not accepted.
- Schemas.Schema.InitField: the `filter` tag is read by an input; a tag part without `=`, on which the code panics, is left out.
- OrderParser.ParseOrderValue: upper case is modelled as far as it can spell ASC or DESC; JSON text itself, escapes included, is not modelled.
- Projections.BannedIsHidden: nested arrays of documents are paths like any other, and the schema's own names are taken to be plain.
- ProcessorCache.Operators.RegisterBodyNormalizer: a registered function is taken to transform strings; arbitrary reflection in custom functions is not modelled.
- Nil and empty maps of `where` trees are one value here, since every function modelled treats them alike; nil and empty slices are kept apart.
- Sorting by stored names: orders pass their names through.
- Keys of `where` trees are read once into operator words and paths; reading is shown to lose nothing.
- Sharing between operator maps of one update document: updates are values, and what the caller's map holds afterwards is stated only for plain fields.
- Array-valued fields in comparisons: stored arrays compare as whole values.
- Stored documents are flat maps from dotted paths; inserts of nested documents and positional updates are not modelled.
- Recursive struct types, on which schema construction does not end, and tags without a key: type trees are finite and tags are given by key.
- isRelation's answer and whether a type is a model are inputs: they depend on user code.
- Splitting of processor tags, and the file extension of a name, are inputs.
- validateAny, parameter parsing, authorization, routing, logging, index management, error mapping and include resolution.
- Failures of Redis, of the network and of the database other than a rejected update; hooks that run before a document is created.
- Concurrency of requests: each Redis command, each repository operation and each upload is one step.
