# FilterToQuery and checkUuid, modelled in Dafny

The model covers the query compiler of the backend, `FilterToQuery` in
`packages/utils/filterToQuery.util.ts`, and the identifier check `checkUuid`
in `packages/utils/uuid.util.ts`.

**What the compiler does.** `FilterToQuery` turns a client's JSON page query
into the pieces of a Sequelize `findAll` call:

- a `where` tree;
- the nested `include` descriptors the query needs;
- an `order` list;
- `limit` and `offset`.

**Its inputs.** It works against a declared schema:

- the filterable columns, each with a client alias, a physical key and
  optionally the dotted relation path of the include it lives in;
- the include descriptors, each with its path alias and an association name,
  which is what one path segment matches.

**Key resolution.** A filter key is either one of the 23 operator keywords
or a declared column alias. Taken together, the keys act as a whitelist.

**The authorization filter.** A caller may pass one. It is refused when it
uses the key `and` itself. Otherwise it is merged into the client's filter as
`{and: {and: filter, ...auth}}`, or replaces an empty filter.

**Module layout.** The modules follow the source:

| module | file | contents |
|---|---|---|
| `Json` | json.dfy | dynamically typed values: objects as ordered association lists, `o[k] = v`, object spread, `Object.entries`, truthiness, `[...new Set(a)]` |
| `Schema` | schema.dfy | the schema entities, the operator and reserved-word tables, `getPublicFilters`, the errors the code throws |
| `Keys` | keys.dfy | `parseKey`, `parseIncludeKey`, `parseGroupByCount`, `split(".")` |
| `Filter` | filter.dfy | `parseFilter` as a function over any key resolver, with the lemmas for when it succeeds, what it collects and what `where` holds |
| `Order` | order.dfy | `mapOrderBy` |
| `Include` | include.dfy | `mapInclude` |
| `Query` | query.dfy | the `FilterToQuery` class, the `PageQuery` class and the `parser` pipeline |
| `Guarantees` | guarantees.dfy | properties of the whole `parser` call |
| `Cases` | cases.dfy | the schema and expectations of `filterToQuery.util.spec.ts` |
| `FilterCases` | filter_cases.dfy | the `parseFilter` and `parser` unit tests on that schema |
| `Uuid` | uuid.dfy | `checkUuid` |

**State.** `mapInclude` mutates the shared include descriptors in place: it
sets `addInclude.include = [child]`. The class `Query.FilterToQuery` holds
that state as `links: seq<Option<nat>>`:

- `links[d] == Some(c)` means that declared descriptor `d` now carries the
  include `[descriptor c]`;
- `None` means `d` is as declared.

Include lists are lists of descriptor indices, so two entries that name the
same descriptor share one object, as they do in the source. `parser`
reassigns `pageQuery.filter`, so `PageQuery` is a class with a mutable
`filter` field.

**Methods and their specifications.** The methods of `FilterToQuery`
compute step by step, with loops. Each is proved equal to a specification
function: `ParseFilterSpec`, `OrderWith`, `IncludeLoop`, `CompileQuery` or
`ParserSpec`. The lemmas state the properties of those functions.

**Details of the code the model follows:**

- The `and` check in `parser` looks at the keys of the authorization filter
  (filterToQuery.util.ts:180-181).
- The operator keywords for `<=` and `>=` are `le` and `ge`
  (filterToQuery.util.ts:104-121).
- `contains` maps to `Op.substring`.
- `parseIncludeKey` throws the column error ("정의되지 않은 컬럼"), naming the
  relation alias.
- The constructor stores the schema as given (filterToQuery.util.ts:157).

**Behaviour of the code that the model keeps:**

- *Aliases pushed twice for object elements of an array.* The aliases of an
  object element of an array value are pushed twice (lines 258-261).
- *`concat` doubles the aliases.* `mapOrderBy` pushes onto the very array
  it is given and returns it, so the `concat` at line 205 joins that array
  with itself.
- *Deduplication makes the first two harmless.* Both duplications disappear
  in the `new Set` deduplication at line 218.
- *A `null` value throws.* A `null` filter value, or a `null` array element,
  reaches `Object.entries(null)` and throws.
- *One-element arrays can be reserved words.* The reserved-word lookup
  converts its argument to a property key, so `["isNull"]` is rewritten like
  `"isNull"`.
- *A shared descriptor keeps only the later nesting.* Two aliases that share
  a leading descriptor but continue differently leave that descriptor with
  the later chain's child only (`Include.LaterChainWins`).
- *Nesting outlives the call that wrote it.* The descriptors belong to the
  schema, and a service keeps one compiler for all its requests
  (apis/post/services/post.service.ts:24-25). `mapInclude` never clears the
  `include` of a path's last descriptor. After one call through `re1.re2`,
  a later call whose only path is `re1` still nests `re2` below `re1`
  (`Include.StaleNestingKept`).
- *A repeated segment makes a cycle.* A path that names one relation twice
  running, such as `re1.re1`, sets that descriptor's `include` to itself, so
  the nesting below it never ends (`Include.RepeatedSegmentCycles`).

## Model

| member | source | states |
|---|---|---|
| Json.PutFacts | packages/utils/filterToQuery.util.ts:280 | after `where[whereKey] = value` the key holds the value, every other key keeps its value, and a new key is appended last while an existing one keeps its place |
| Json.PutAllFacts | packages/utils/filterToQuery.util.ts:186-190 | the spread `...authFilter` leaves every key the authorization filter does not name unchanged |
| Json.PutAllKeys | packages/utils/filterToQuery.util.ts:186-190 | after the spread the keys are the old keys, still in front and in order, plus the spread keys, with no duplicate introduced |
| Json.PutAllKeepsHead | packages/utils/filterToQuery.util.ts:187-189 | a leading property whose key the spread does not name stays the first property |
| Json.IndexKeyInjective | packages/utils/filterToQuery.util.ts:252 | distinct indices get distinct keys, so the entries of an array or a string never share a key |
| Json.IndexKey | packages/utils/filterToQuery.util.ts:252 | the keys `Object.entries` gives array and string indices are non-empty decimal digit strings |
| Json.DedupFacts | packages/utils/filterToQuery.util.ts:218 | `[...new Set(a)]` holds every element of `a` exactly once and nothing else |
| Json.DedupOrder | packages/utils/filterToQuery.util.ts:218 | the deduplicated list keeps the order of first occurrences |
| Json.DedupNoDup | packages/utils/filterToQuery.util.ts:218 | a list without duplicates is unchanged by the deduplication |
| Json.PrefixFirstIndex | packages/utils/filterToQuery.util.ts:218 | the first occurrence of an element in a list is also its first occurrence in the list with its last element dropped |
| Schema.AndKeyword | packages/utils/filterToQuery.util.ts:73-76 | only the key "and" stands for `Op.and` in the operator table |
| Schema.RelationOf | packages/utils/filterToQuery.util.ts:410 | a column belongs to a relation exactly when its `includeAlias` is truthy, that is present and non-empty |
| Schema.ReservedOf | packages/utils/filterToQuery.util.ts:145-155 | only `isNull`, `eqNull` and `inNull` are reserved and they stand for `Op.is`, `Op.eq`, `Op.in`; a string looks itself up; numbers, booleans, null and objects are never reserved |
| Schema.GetPublicFilters | packages/utils/filterToQuery.util.ts:162-171 | the result has exactly one entry `{field: alias, ...publicFilter}` per column that has a public filter, and no more entries than columns |
| Schema.PublicFiltersAppend | packages/utils/filterToQuery.util.ts:163-170 | filter-then-map distributes over concatenating the column list, so declaration order is kept |
| Schema.PublicFiltersSingle | packages/utils/filterToQuery.util.ts:164-169 | one column contributes its entry when it has a public filter and nothing otherwise |
| Keys.Split | packages/utils/filterToQuery.util.ts:323 | `split(".")` always yields at least one segment |
| Keys.SplitFacts | packages/utils/filterToQuery.util.ts:323 | no segment of `split(".")` contains a dot, and joining the segments with dots gives the string back |
| Keys.SplitJoin | packages/utils/filterToQuery.util.ts:344 | splitting the dot-join of dot-free segments gives the same segments back |
| Keys.FindColumn | packages/utils/filterToQuery.util.ts:405 | `columns.find` returns the first column with the alias, or none has that alias |
| Keys.FindInclude | packages/utils/filterToQuery.util.ts:345-347 | `include.find` by association name returns the first matching descriptor, or none matches |
| Keys.ParseIncludeKey | packages/utils/filterToQuery.util.ts:380-388 | succeeds exactly when some descriptor declares the relation alias, then yields `$alias.key$`; otherwise throws the column error naming the alias |
| Keys.ParseKey | packages/utils/filterToQuery.util.ts:394-426 | an operator keyword gives its symbol as key and where-key; an unknown key throws the column error; a column of a declared relation gives `$alias.key$` and its relation; any other column gives its physical key |
| Keys.ResolverErrors | packages/utils/filterToQuery.util.ts:394-426 | key resolution throws nothing but the column error |
| Keys.ParseKeyWhitelist | packages/utils/filterToQuery.util.ts:396-408 | a key resolves only when it is an operator keyword or the alias of a declared column |
| Keys.WhereKeyAnd | packages/utils/filterToQuery.util.ts:396-403 | a resolved key's where-key is `Op.and` exactly when the key is "and" |
| Keys.AddAliasFacts | packages/utils/filterToQuery.util.ts:282-284 | pushing a relation unless already present keeps the old aliases in front, adds only that relation, and never creates a duplicate |
| Keys.ParseGroupByCount | packages/utils/filterToQuery.util.ts:296-305 | succeeds exactly when the field resolves, with its error otherwise; `attributes` is `[group]`; `group` is `alias.key` for a relation column and the key otherwise |
| Keys.GroupKeyIsWhereKey | packages/utils/filterToQuery.util.ts:298 | the group key is the filter's where-key without its `$` delimiters |
| Keys.ParseKeyAsWritten | packages/utils/filterToQuery.util.ts:396-403 | as written, a name every object inherits passes the operator check and resolves to the key "undefined" |
| Keys.ConstructorBypassesWhitelist | packages/utils/filterToQuery.util.ts:396-408 | the key "constructor" resolves as written with no column declared, and is rejected by the corrected resolution |
| Keys.ReservedLookupAsWritten | packages/utils/filterToQuery.util.ts:277-279 | as written, a string value is replaced when it is a reserved word or any inherited property name |
| Keys.ToStringValueReplaced | packages/utils/filterToQuery.util.ts:277-279 | the value "toString" is replaced as written although it names no reserved query, and is kept by the corrected lookup |
| Filter.CompileEntries | packages/utils/filterToQuery.util.ts:252-285 | the first `n` entries compile to exactly `n` results |
| Filter.ParseItems | packages/utils/filterToQuery.util.ts:255-266 | `value.map` over an array yields one element per element |
| Filter.FoldAliases | packages/utils/filterToQuery.util.ts:272-284 | the aliases `parseFilter` returns are exactly those its entries pushed or reached |
| Filter.ParseFilterSucceeds | packages/utils/filterToQuery.util.ts:248-290 | compiling succeeds exactly when every key of every object it walks resolves and no null stands where it descends; its only errors are the column error and the null error |
| Filter.EntriesSucceed | packages/utils/filterToQuery.util.ts:252-285 | the same for the first `n` entries of the loop |
| Filter.EntrySucceeds | packages/utils/filterToQuery.util.ts:253-280 | the same for one entry: its value compiles and its key resolves |
| Filter.ValueSucceeds | packages/utils/filterToQuery.util.ts:254-273 | the same for an array or object value |
| Filter.ItemsSucceed | packages/utils/filterToQuery.util.ts:255-266 | the same for the elements of an array value |
| Filter.ParseFilterAliases | packages/utils/filterToQuery.util.ts:248-290 | a relation is in the returned aliases exactly when some key resolved anywhere in the filter lies in it |
| Filter.EntriesAliases | packages/utils/filterToQuery.util.ts:252-285 | the same for the first `n` entries |
| Filter.EntryAliases | packages/utils/filterToQuery.util.ts:258-284 | the same for one entry |
| Filter.ValueAliases | packages/utils/filterToQuery.util.ts:255-273 | the same for an array or object value |
| Filter.ItemsAliases | packages/utils/filterToQuery.util.ts:255-266 | the same for the elements of an array value |
| Filter.CompiledEntry | packages/utils/filterToQuery.util.ts:252-285 | the `i`-th compiled entry is the compilation of entry `i` on its own |
| Filter.EntriesStep | packages/utils/filterToQuery.util.ts:252-285 | one loop iteration: an earlier error stays, a failing entry throws, a compiling entry is appended |
| Filter.EntriesStepOk | packages/utils/filterToQuery.util.ts:252-285 | a successful loop prefix extends the previous one by the last entry's compilation |
| Filter.WhereKeys | packages/utils/filterToQuery.util.ts:275 | one where-key per compiled entry, in entry order |
| Filter.LastWrite | packages/utils/filterToQuery.util.ts:280 | a key has a last written value exactly when some entry writes it |
| Filter.FoldWhere | packages/utils/filterToQuery.util.ts:280 | the keys of `where` are the distinct where-keys in first-write order, and each holds the value written to it last |
| Filter.ParseFilterWhere | packages/utils/filterToQuery.util.ts:248-290 | the same for `parseFilter` as a whole, entry by entry |
| Filter.EntryResolved | packages/utils/filterToQuery.util.ts:275 | each compiled entry carries the resolution of its own key |
| Filter.ReservedLiteral | packages/utils/filterToQuery.util.ts:277-280 | a string value is stored as `{[op]: null}` when reserved and unchanged otherwise |
| Filter.ScalarValue | packages/utils/filterToQuery.util.ts:280 | a number or boolean value is stored unchanged |
| Filter.NestedObject | packages/utils/filterToQuery.util.ts:269-273 | an object value is replaced by its own compiled `where`, and its aliases are pushed |
| Filter.ArrayItems | packages/utils/filterToQuery.util.ts:255-266 | an object element of an array is replaced by its compiled `where`; any other element is kept |
| Filter.ItemsStep | packages/utils/filterToQuery.util.ts:255-266 | one step of `value.map` appends the next element's image |
| Filter.SingletonReservedArray | packages/utils/filterToQuery.util.ts:277-279 | a one-element array holding a reserved word is rewritten like the word itself |
| Filter.EntriesAppend | packages/utils/filterToQuery.util.ts:252-285 | a compiling entry extends the loop, and its effect is one more write and alias push |
| Filter.EntriesErrStays | packages/utils/filterToQuery.util.ts:252-285 | the first entry that throws decides the error of the whole loop |
| Filter.EntriesErrKept | packages/utils/filterToQuery.util.ts:252-285 | once the loop has thrown, later entries do not change the error |
| Filter.EntriesErrAt | packages/utils/filterToQuery.util.ts:252-285 | an entry that throws after a successful prefix ends the loop with its error |
| Filter.EntriesErrNext | packages/utils/filterToQuery.util.ts:252-285 | an error of a prefix is the error of the next longer prefix |
| Filter.ItemsErrStays | packages/utils/filterToQuery.util.ts:255-266 | the first array element that throws decides the error of the whole map |
| Order.OrderWith | packages/utils/filterToQuery.util.ts:316-327 | the order has one entry per requested field |
| Order.OrderSucceeds | packages/utils/filterToQuery.util.ts:316-318 | `mapOrderBy` succeeds exactly when every field resolves |
| Order.OrderStepOk | packages/utils/filterToQuery.util.ts:316-327 | a successful step appends the field's entry and pushes its relation unless already collected |
| Order.OrderEntryAt | packages/utils/filterToQuery.util.ts:322-326 | entry `i` is the relation path's segments, then the field's key, then its direction |
| Order.OrderFirstError | packages/utils/filterToQuery.util.ts:318 | a failing call throws the error of the first field that does not resolve |
| Order.OrderAliasesGrow | packages/utils/filterToQuery.util.ts:319-321 | the given aliases stay in front, and no duplicate is introduced |
| Order.OrderAliases | packages/utils/filterToQuery.util.ts:319-321 | the aliases afterwards are exactly the given ones and the relations of the ordered fields |
| Order.OrderErrStays | packages/utils/filterToQuery.util.ts:316-318 | once a field fails, the later fields do not change the error |
| Include.ResolveSegments | packages/utils/filterToQuery.util.ts:344-352 | each segment yields one descriptor |
| Include.SegmentAt | packages/utils/filterToQuery.util.ts:344-351 | descriptor `k` is the first declared one whose association name is segment `k` |
| Include.SegmentsSucceed | packages/utils/filterToQuery.util.ts:348-350 | the path resolves exactly when every segment names a declared association |
| Include.SegmentsFirstError | packages/utils/filterToQuery.util.ts:348-350 | a failing path throws the include error naming its first unknown segment |
| Include.SegmentsErrStays | packages/utils/filterToQuery.util.ts:348-350 | an unknown segment decides the error whatever follows it |
| Include.ChainDeclared | packages/utils/filterToQuery.util.ts:344-352 | a resolved path has one declared descriptor per segment, and at least one |
| Include.ChainErrors | packages/utils/filterToQuery.util.ts:348-350 | a path fails only with the include error |
| Include.ChainWritesShape | packages/utils/filterToQuery.util.ts:357-365 | the reversed loop performs one write fewer than there are descriptors, all on declared descriptors |
| Include.ChainWritesDeclared | packages/utils/filterToQuery.util.ts:357-365 | every write of a resolved path's chain targets and stores declared descriptors |
| Include.Assign | packages/utils/filterToQuery.util.ts:359-360 | the writes keep the number of descriptors |
| Include.AssignAt | packages/utils/filterToQuery.util.ts:359-360 | a descriptor ends with the child of the last write to it, or as it was |
| Include.AssignIdempotent | packages/utils/filterToQuery.util.ts:359-360 | performing the same writes twice leaves the descriptors as performing them once |
| Include.AssignConcat | packages/utils/filterToQuery.util.ts:357-365 | two successive batches of writes act as their concatenation |
| Include.AssignValid | packages/utils/filterToQuery.util.ts:359-360 | writes of declared descriptors keep every link pointing at a declared descriptor |
| Include.LastToChain | packages/utils/filterToQuery.util.ts:357-365 | in a chain of distinct descriptors each one but the last is last written with its successor, and no other descriptor is written |
| Include.ChainNested | packages/utils/filterToQuery.util.ts:339-373 | after `mapInclude` on a path of distinct descriptors, walking down from the root as many `include` links as the path has segments meets exactly the path, in order |
| Include.FollowFrom | packages/utils/filterToQuery.util.ts:357-365 | links along a chain lead from any of its descriptors through the rest of it |
| Include.StaleNestingKept | packages/utils/filterToQuery.util.ts:355-365 | a path of one segment after a path `a.b` leaves `b` nested below `a` |
| Include.RepeatedSegmentCycles | packages/utils/filterToQuery.util.ts:355-365 | a path naming `a` twice running links `a` to itself, and walking down from `a` meets `a` at every depth |
| Include.ChainLeavesOthers | packages/utils/filterToQuery.util.ts:357-365 | descriptors outside the chain, and its last one, keep their `include` |
| Include.LaterChainWins | packages/utils/filterToQuery.util.ts:359-360 | of two paths through the same first descriptor, only the later one's child stays nested under it |
| Include.IncludeLoop | packages/utils/filterToQuery.util.ts:219-221 | one include entry per alias |
| Include.IncludeStepOk | packages/utils/filterToQuery.util.ts:219-221 | each successful call pushes its chain's root and performs its chain's writes |
| Include.IncludeRootAt | packages/utils/filterToQuery.util.ts:369-371 | entry `i` of the include list is the root descriptor of alias `i` |
| Include.IncludeLoopErrors | packages/utils/filterToQuery.util.ts:219-221 | the loop succeeds exactly when every alias resolves, and otherwise throws one alias's error |
| Include.IncludeWritesFrom | packages/utils/filterToQuery.util.ts:219-221 | every write of the loop comes from the chain of one of its aliases |
| Include.IncludeErrStays | packages/utils/filterToQuery.util.ts:219-221 | after the first alias that throws, nothing more is written and the error stays |
| Query.PageQuery.constructor | packages/utils/filterToQuery.util.ts:61-66 | a page query holds the filter, pagination, order and include alias it is given |
| Query.FilterToQuery.constructor | packages/utils/filterToQuery.util.ts:157 | a new compiler resolves keys by its schema and leaves every descriptor as declared |
| Query.FilterToQuery.ParseFilter | packages/utils/filterToQuery.util.ts:248-290 | the loop computes `ParseFilterSpec` of the filter |
| Query.FilterToQuery.CompileEntryAt | packages/utils/filterToQuery.util.ts:253-284 | one loop body computes the compilation of its entry |
| Query.FilterToQuery.ParseArray | packages/utils/filterToQuery.util.ts:255-266 | `value.map` computes the element-wise compilation of an array value |
| Query.FilterToQuery.MapOrderBy | packages/utils/filterToQuery.util.ts:312-332 | the loop computes `OrderWith` over all requested fields |
| Query.FilterToQuery.MapInclude | packages/utils/filterToQuery.util.ts:339-373 | an unknown segment throws and changes no descriptor; otherwise the root is pushed and exactly the chain's writes are made |
| Query.FilterToQuery.MapIncludes | packages/utils/filterToQuery.util.ts:215-222 | the loop over the deduplicated aliases computes `IncludeLoop`, descriptor writes included |
| Query.FilterToQuery.Parser | packages/utils/filterToQuery.util.ts:178-242 | `parser` returns `ParserSpec`'s result, leaves the merged filter in the page query, and makes exactly its descriptor writes |
| Query.FilterToQuery.Compile | packages/utils/filterToQuery.util.ts:196-241 | the steps after the merge compute `CompileQuery` |
| Query.Distinct | packages/utils/filterToQuery.util.ts:218 | `[...new Set(a)]` computes `Dedup(a)` |
| Guarantees.AuthWithAndRefused | packages/utils/filterToQuery.util.ts:179-184 | an authorization filter with the key "and" is refused before anything else happens, and the page query is left unchanged |
| Guarantees.WrapShape | packages/utils/filterToQuery.util.ts:186-191 | the merged filter is `{and: {and: filter, ...auth}}` with the client filter first, and with the authorization entries verbatim when their keys are distinct |
| Guarantees.PutAllFresh | packages/utils/filterToQuery.util.ts:188-189 | spreading properties with new, distinct keys appends them as they are |
| Guarantees.PutNew | packages/utils/filterToQuery.util.ts:280 | a write to a new key appends it |
| Guarantees.LastWriteAfterHead | packages/utils/filterToQuery.util.ts:280 | the value a key ends with is the last one written to it, wherever the first write was |
| Guarantees.EntryLocal | packages/utils/filterToQuery.util.ts:253-284 | an entry compiles the same in any object that holds it |
| Guarantees.EntriesShift | packages/utils/filterToQuery.util.ts:252-285 | dropping a first entry drops its compilation from the loop's result |
| Guarantees.KeyResolvedAt | packages/utils/filterToQuery.util.ts:275 | in a successful loop, each entry's key resolves to the resolution it carries |
| Guarantees.TailCompiles | packages/utils/filterToQuery.util.ts:186-190 | the authorization entries after the wrapped `and` compile as the authorization filter does on its own |
| Guarantees.ResolverAndOnlyFromAnd | packages/utils/filterToQuery.util.ts:396-403 | `parseKey` maps exactly the key "and" to `Op.and`, so no column can take its place |
| Guarantees.AllResolved | packages/utils/filterToQuery.util.ts:275 | in a successful loop every key resolves, entry by entry |
| Guarantees.AuthKeysNotAnd | packages/utils/filterToQuery.util.ts:181-189 | authorization keys other than "and" never write `Op.and` |
| Guarantees.AuthKeyNotAnd | packages/utils/filterToQuery.util.ts:181-189 | the same for one authorization key |
| Guarantees.HeadEntry | packages/utils/filterToQuery.util.ts:187-188 | the wrapped client filter is the entry under `Op.and` |
| Guarantees.InnerLookups | packages/utils/filterToQuery.util.ts:187-189 | an `Op.and` entry followed by entries that never write `Op.and` keeps its value, and they keep theirs |
| Guarantees.AuthEntries | packages/utils/filterToQuery.util.ts:187-189 | the same with the authorization filter's compiled entries as the followers |
| Guarantees.InnerEntries | packages/utils/filterToQuery.util.ts:187-189 | the inner object's `where` holds the compiled client filter under `Op.and` and the authorization conditions under their own keys |
| Guarantees.InnerWhere | packages/utils/filterToQuery.util.ts:187-189 | the same, stated on `parseFilter` of the inner object |
| Guarantees.WrappedWhere | packages/utils/filterToQuery.util.ts:186-191 | the outer object compiles to a single `Op.and` entry holding the inner object's `where` |
| Guarantees.ParserWhere | packages/utils/filterToQuery.util.ts:197 | `parser`'s `where` is `parseFilter` of the merged filter, `{}` when there is none |
| Guarantees.WrappedAuth | packages/utils/filterToQuery.util.ts:186-191 | after wrapping, every authorization condition appears under its key next to the client filter |
| Guarantees.AuthorizationAlwaysApplied | packages/utils/filterToQuery.util.ts:179-197 | a successful `parser` call with an authorization filter always applies it: next to a non-empty client filter under `Op.and`, or as the whole `where` |
| Guarantees.ParserIncludes | packages/utils/filterToQuery.util.ts:197-222 | the aliases hold no duplicate, and hold exactly the relations the filter and the order reach plus the page's `includeAlias`; the include list has one root per alias |
| Guarantees.CursorNeverReturns | packages/utils/filterToQuery.util.ts:230-232 | a request for `after`, `before` or `last` never gets a result |
| Guarantees.ParserPage | packages/utils/filterToQuery.util.ts:224-233 | the limit and offset returned are those of the pagination request |
| Guarantees.PaginationDefaults | packages/utils/filterToQuery.util.ts:224-229 | limit 9999 and offset 0 unless `first` or `skip` is truthy; `first: 0` falls back to 9999 |
| Guarantees.FalsyCursorIgnored | packages/utils/filterToQuery.util.ts:230 | empty `after` or `before` and zero `last` count as not given |
| Cases.NoOperators | packages/utils/filterToQuery.util.spec.ts:6-27 | the column aliases of the schema in the unit tests are not operator keywords |
| Cases.Test1Key | packages/utils/filterToQuery.util.spec.ts:8-16 | `test1` resolves to the plain column `key1` |
| Cases.Test2Key | packages/utils/filterToQuery.util.spec.ts:17-21 | `test2` resolves to `$re1.key2$` in relation `re1` |
| Cases.Test3Key | packages/utils/filterToQuery.util.spec.ts:22-26 | `test3` resolves to `$re1.re2.key3$` in relation `re1.re2` |
| Cases.Test4Key | packages/utils/filterToQuery.util.spec.ts:6-48 | an undeclared alias throws the column error |
| Cases.GroupByCases | packages/utils/filterToQuery.util.spec.ts:112-134 | `parseGroupByCount("test1")` and `parseGroupByCount("test3")` give the groups the unit tests expect |
| Cases.TestSplits | packages/utils/filterToQuery.util.spec.ts:28-47 | the relation paths split into their segments |
| Cases.OrderCase | packages/utils/filterToQuery.util.spec.ts:353-382 | the order of `test1 ASC, test2 ASC, test3 DESC` is the one the unit test expects, with `re1` and `re1.re2` collected |
| Cases.TestOrderEntries | packages/utils/filterToQuery.util.spec.ts:373-380 | the order entries of the three resolved test fields |
| Cases.TestOrderAliases | packages/utils/filterToQuery.util.spec.ts:373 | the relations of the three test fields, collected once each |
| Cases.OrderOfThree | packages/utils/filterToQuery.util.ts:316-327 | three resolving fields give their three entries in order and collect their relations |
| Cases.OrderStep | packages/utils/filterToQuery.util.ts:316-327 | a resolving field appends its entry and pushes its relation unless already collected |
| Cases.TestIncludes | packages/utils/filterToQuery.util.spec.ts:28-47 | the association names `re1`, `re2`, `re3` name descriptors 0, 1 and 2 |
| Cases.IncludeCase | packages/utils/filterToQuery.util.spec.ts:421-450 | `re1.re2.re3` resolves to descriptors 0, 1 and 2 in path order |
| Cases.ChainCase | packages/utils/filterToQuery.util.spec.ts:421-450 | that chain nests `re3` under `re2` and then `re2` under `re1`, and `re1` is the root pushed |
| Cases.ChainOfThree | packages/utils/filterToQuery.util.ts:344-352 | a path of three segments naming descriptors 0, 1 and 2 resolves to them in order |
| FilterCases.AndOrCase | packages/utils/filterToQuery.util.spec.ts:64-86 | the nested filter `{or: {test1}, and: {test1, test2}}` compiles to the `where` the unit test expects and collects `re1` |
| FilterCases.OrPart | packages/utils/filterToQuery.util.spec.ts:66-68 | `{test1: "ok"}` compiles to `{key1: "ok"}` |
| FilterCases.AndPart | packages/utils/filterToQuery.util.spec.ts:69-72 | `{test1: "ok", test2: "ok"}` compiles to `{key1: "ok", "$re1.key2$": "ok"}` and collects `re1` |
| FilterCases.EmptyFilterAuthCase | packages/utils/filterToQuery.util.spec.ts:310-322 | with an empty client filter the authorization filter replaces it, and the query is `{key1: "hello"}` with no includes and the default page |
| Cases.ResolveStep | packages/utils/filterToQuery.util.ts:344-352 | a segment that names a descriptor appends it to the resolved prefix |
| Uuid.MatchGroupsIsLayout | packages/utils/uuid.util.ts:17 | the anchored pattern of hex groups separated by dashes matches exactly the strings of its position-by-position layout |
| Uuid.UuidLayoutPositions | packages/utils/uuid.util.ts:17 | the 8-4-4-4-12 layout is 36 characters wide, and its dashes sit at 8, 13, 18 and 23 |
| Uuid.CheckUuidExactly | packages/utils/uuid.util.ts:16-20 | `checkUuid` accepts exactly the 36-character strings with dashes at 8, 13, 18 and 23 and hex digits of either case everywhere else |
| Uuid.AcceptedShape | packages/utils/uuid.util.ts:16-20 | an accepted string is 36 long, has dashes at those four positions only, and hex digits elsewhere |
| Uuid.LaidOutAccepted | packages/utils/uuid.util.ts:16-20 | a string laid out that way is accepted |
| Uuid.WrongLengthRejected | packages/utils/uuid.util.ts:17 | a string of any other length is rejected, since the pattern is anchored at both ends |
| Uuid.ForeignCharRejected | packages/utils/uuid.util.ts:17 | a character that is neither a hex digit nor a dash makes the string rejected |
| Uuid.MisplacedDashRejected | packages/utils/uuid.util.ts:17 | a dash off those positions, or anything else at one of them, makes the string rejected |
| Uuid.Lower | packages/utils/uuid.util.ts:17 | ASCII lower-casing keeps the length and maps each character |
| Uuid.Upper | packages/utils/uuid.util.ts:17 | ASCII upper-casing keeps the length and maps each character |
| Uuid.CaseInsensitive | packages/utils/uuid.util.ts:17 | changing the case of the letters never changes the verdict |
| Uuid.AcceptsExample | packages/utils/uuid.util.spec.ts:13-17 | a version-4 identifier such as `uuidV4` produces is accepted |
| Uuid.RejectsShortExample | packages/utils/uuid.util.ts:17 | the same identifier one character short is rejected |

## Left out

- HTTP routes, services, models and the database connection. They call the compiler but are not part of it.
- The Sequelize query the result feeds. `Op.*` symbols are a datatype, and the model builds no query object.
- `uuidV4`. It draws random bytes from the `uuid` package, which is not part of this model.
- `checkUuid` on non-string arguments. `RegExp.prototype.test` first converts its argument to a string; the model takes strings only.
- The descriptor fields `separate`, `limit` and `attributes`. The compiler never reads them. `model` is a name.
- JavaScript's property order for integer-like keys, which `Object.entries` lists first in ascending order. Objects are association lists in the order given.
- JavaScript's order of string keys before Symbol keys. Whatever the write order, a JavaScript object lists every string key before every `Op.*` key. In the model the keys of `where` are in write order (`Json.PutFacts`, `Filter.FoldWhere`), not in enumeration order.
- UTF-16. A string is a sequence of characters, while JavaScript indexes UTF-16 code units. For a string with a character outside the Basic Multilingual Plane, `Object.entries` gives one entry per code unit, more than the model's one per character.
- `Include.ChainNested`: requires the path's descriptors to be distinct. A path naming a descriptor twice, such as `re1.re1`, makes a cyclic include, and walking it never ends; `Include.RepeatedSegmentCycles` states that case.
- Numbers are integers. Floating-point values, `NaN` and `-0` are not modelled.
- `Guarantees.AuthorizationAlwaysApplied`: requires distinct authorization keys. A JSON object has distinct keys, so this excludes nothing that can occur.
- `Include.LaterChainWins`: states the behaviour of the code as it is. Nothing in the code merges two paths that share a prefix, and the model adds no merge.
- Error messages are datatype constructors. The texts appear as comments beside them.

## Findings

| source | as written | input that shows it | evidently intended | confidence | as-written member | corrected member |
|---|---|---|---|---|---|---|
| packages/utils/filterToQuery.util.ts:396-403 | `this.operators[key]` on a plain object literal is also truthy for names every object inherits from `Object.prototype` | the filter `{constructor: 1}` with no column declared: it passes the operator check, `.op` is `undefined`, and the condition is stored under the key "undefined" | only the 23 operator keywords are operators; any other key must be a declared column or throws the column error | not executed | Keys.ParseKeyAsWritten, Keys.ConstructorBypassesWhitelist | Keys.ParseKey, Keys.ParseKeyWhitelist |
| packages/utils/filterToQuery.util.ts:277-279 | `this.reserved[value]` on a plain object literal is also truthy for inherited names, and the value is replaced by the inherited function | the filter `{test1: "toString"}`: the value becomes `Object.prototype.toString` instead of the string | only `isNull`, `eqNull` and `inNull` are rewritten; any other value is kept | not executed | Keys.ReservedLookupAsWritten, Keys.ToStringValueReplaced | Schema.ReservedOf, Filter.ReservedLiteral |
