# ts-dsl-queries in Dafny

A model of the core of ts-dsl-queries, a small filter language. A filter is a tree:
- its leaves are `[field, operator, value]` triples;
- its interior nodes are `{o: "and" | "or", v: [...]}` objects.

The library does the following with filters:
- parses a filter from JSON text or from a raw value;
- validates it against a domain spec of allowed fields and operators;
- renames its fields;
- combines filters immutably with `and` / `or`;
- renders a filter as a SQL fragment with `?` placeholders and the ordered list of values they bind.

On top of that, a `Query` builder holds a SQL query record and sets its clauses:
- `where`, `having`, `limit`;
- `sort`, from sort strings;
- `paginate`, from numeric or field cursors.

A MySQL stringifier formats that record as `SELECT ... FROM ... WHERE ... GROUP BY ... HAVING ... ORDER BY ... LIMIT ...`.

The project has six modules:

- `Strings` (strings.dfy) holds the string helpers the source gets from JavaScript:
  - `trim`, `toLowerCase` (ASCII letters only), `split`, `join`;
  - collapsing runs of spaces;
  - decimal numerals.
- `Types` (types.dfy) defines:
  - `Json`, the raw JavaScript values the library inspects with duck tests. Objects are ordered lists of properties.
  - The typed filter tree, `Leaf` / `Node` / `Tree`, and its encoding back to `Json`.
  - The failures the library throws.
- `Functions` (functions.dfy) models src/Functions.ts:
  - the duck tests `isFilterLeaf`, `isFilterNode` and `isFilterData`;
  - `isDomainSpec`;
  - the operator and value validation, with its obstructions;
  - `applyFieldMap`, `toSqlQuery`, `filterToString` and `parseFilter`.
- `DslQueries` (dslquery.dfy) models src/DslQuery.ts:
  - `deepMerge`;
  - the `DslQuery` class: construction through `parseFilter`, `has`, `get`, `toString`, `and` / `or` through `modifyQuery`, and `mapFields`.
- `Queries` (query.dfy) models the `Query` class of src/Query.ts: `where`, `having`, `limit`, `sort` and `paginate`. It includes the cursor reader and the cursor HAVING tree.
- `Stringifier` (stringifier.dfy) models the `MysqlStringifier` of src/Query.ts:
  - field, table, grouping, sort and limit formatting;
  - `toString`, both as written and corrected (see Findings).

Two kinds of code get different treatment:

- **Code that works step by step is modelled as methods, proved against specification functions.** This covers:
  - the loops of `validateDslQueryValue`, `applyFieldMap`, `toSqlQuery`, `filterToString` and `deepMerge`;
  - the cursor loops of `paginate`;
  - the objects whose fields are updated in place: `DslQuery` and `Query`.
- **Pure code is modelled as functions, with lemmas about them.** This covers the duck tests, the spec check, parsing and the stringifier.

Where the source throws, the model returns a `Result` failure:
- `BadDomainSpec`, `BadFilter` and `InvalidPagination` carry the source's subcodes and obstruction codes;
- `NotImplemented` stands for the source's NotImplemented error;
- `TypeError` stands for a JavaScript TypeError the source does not catch.

Two behaviours are left as the code writes them, although a stricter reading would differ:

- A `between` leaf whose value is an array without exactly two elements is accepted by validation. `toSqlQuery` then renders two placeholders and binds the first two elements, binding `undefined` for any missing one. The model does the same (`Functions.SqlFragment`); it does not reject such arrays.
- `paginate` always compares cursor fields with `>`. The operator is looked up in a local sort list that holds only ascending entries, even when the query's own order is descending. The model does the same.

## Model

| member | source | states |
|---|---|---|
| Functions.EncodedLeafIsFilterLeaf | src/Functions.ts:22-34 | an encoded leaf passes isFilterLeaf exactly when its value is null, a string, a number, a boolean or an array |
| Functions.FilterLeafIsEncodedLeaf | src/Functions.ts:22-34 | whatever passes isFilterLeaf is the encoding of a typed leaf |
| Functions.IsFilterNode | src/Functions.ts:36-38 | an accepted node is an array, and the verdict is decided by whether its first element is a leaf |
| Functions.FilterNodeIgnoresTail | src/Functions.ts:36-38 | isFilterNode looks only at the first element: arrays with the same head get the same verdict |
| Functions.IsFilterData | src/Functions.ts:40-46 | accepted data is an object with a `v` (an array unless lite); it throws exactly on null or on a `v` whose node test throws |
| Functions.EncodedTreeIsFilterData | src/Functions.ts:36-46 | every encoded tree, and its child array, passes the strict duck tests |
| Functions.EncodedNodesAreFilterNode | src/Functions.ts:36-38 | every encoded node array passes isFilterNode |
| Functions.EncodedNodeIsFilterData | src/Functions.ts:40-46 | every encoded nested tree passes isFilterData |
| Functions.IsDomainSpec | src/Functions.ts:48-96 | a spec that passes is an object with only the two known keys, an array of default operators and field specs that are absent, null or an object; an array spec fails with InvalidKeys, or MissingComparisonOperators when empty |
| Functions.IsDomainSpecOrder | src/Functions.ts:48-96 | the checks fire in the source's order: ObjectRequired exactly for non-objects, TypeError for null, then InvalidKeys, MissingComparisonOperators, ComparisonOperatorsNotArray and MalformedFieldSpecs each exactly when the earlier checks pass and its own fails, and Pass otherwise |
| Functions.DecodeStrings | src/Functions.ts:144-145 | an operator list decodes to strings element by element, or fails on a non-string |
| Functions.DecodeFieldSpecs | src/Functions.ts:133-147 | decoded field specs have exactly the object's keys, each mapped to its operator list |
| Functions.DecodeSpec | src/Functions.ts:130-147 | a decoded spec carries the default operators and has field specs exactly when the object has them |
| Functions.EncodeSpecRoundTrip | src/Functions.ts:48-96 | the object form of every spec passes isDomainSpec and decodes back to the same spec |
| Functions.DecodeEncodeStrings | src/Functions.ts:144-145 | decoding an encoded operator list gives it back |
| Functions.DecodeEncodeFieldSpecs | src/Functions.ts:133-147 | decoding encoded field specs gives the same map back |
| Functions.ValidateDslQueryOperator | src/Functions.ts:98-112 | no obstruction exactly when the operator is "and" or "or", else one InvalidOperator, whatever list of valid operators is passed |
| Functions.ValueCheck | src/Functions.ts:165-183 | one InvalidValue exactly when the value is not null, a string, a number or a boolean |
| Functions.ElementObstructions | src/Functions.ts:209-211 | only InvalidValue, as many as there are elements that are not scalars (NonScalars), and none exactly when all elements are scalars |
| Functions.ElementObstructionsAppend | src/Functions.ts:209-211 | the element obstructions of two arrays put together are those of each, in order |
| Functions.CheckElements | src/Functions.ts:209-211 | the loop over the array elements yields exactly ElementObstructions |
| Functions.ValueObstructions | src/Functions.ts:185-218 | no value obstruction exactly when the value is a scalar, or a non-empty array of scalars under in / not in / between; an empty array or another operator gives exactly one |
| Functions.FieldObstructions | src/Functions.ts:129-161 | InvalidField exactly for a field missing from the field specs, InvalidComparison exactly for a known field whose operator is not allowed (compared case-insensitively), else nothing |
| Functions.LeafObstructions | src/Functions.ts:129-218 | a leaf is clean exactly when its field is known, its operator allowed and its value valid; an unknown field skips the operator check and comes first; a clean leaf holds a Value |
| Functions.ValidateLeaf | src/Functions.ts:129-218 | corrected (see Findings): validating one leaf yields exactly LeafObstructions |
| Functions.NodesObstructionsAppend | src/Functions.ts:124-220 | the obstructions of two node lists put together are those of each, in order |
| Functions.ObstructionsFollowLeaves | src/Functions.ts:124-220 | the recursive walk yields the obstructions of the leaves in depth-first order |
| Functions.LeafListObstructionsEmpty | src/Functions.ts:124-220 | a leaf list has no obstruction exactly when none of its leaves has one |
| Functions.NoObstructionsIffCleanLeaves | src/Functions.ts:114-223 | corrected (see Findings): a node list passes validation exactly when every leaf at any depth is clean, and then every leaf holds a Value |
| Functions.ValidateDslQueryValue | src/Functions.ts:114-223 | corrected (see Findings): the loop, recursing into nested trees, yields exactly the obstructions of the node list |
| Functions.LeafObstructionsAsWritten | src/Functions.ts:133-142 | as written: known fields are validated as intended, but an unknown field under a field spec without a "keys" entry throws a TypeError |
| Functions.UnknownFieldThrowsAsWritten | src/Functions.ts:135-142 | on field "age" against field specs {name}, the code as written throws where an InvalidField obstruction is intended |
| Functions.MappedNodes | src/Functions.ts:234-240 | field mapping keeps the number of nodes |
| Functions.MappedLeaves | src/Functions.ts:226-243 | the leaves of a mapped tree are its leaves renamed, in order |
| Functions.MappedTreeKeepsShape | src/Functions.ts:226-243 | mapping changes no operator, no value and no nesting, only field names |
| Functions.MappedTreeUnchanged | src/Functions.ts:236 | a map that renames none of the fields present leaves the tree as it is |
| Functions.Compose | src/Functions.ts:236 | the composed map renames every field as the two maps applied in turn |
| Functions.MappedTreeCompose | src/Functions.ts:226-243 | mapping twice equals mapping once by the composed map |
| Functions.MappedKeepsShaped | src/Functions.ts:226-243 | a mapped tree still passes the duck tests |
| Functions.ApplyFieldMap | src/Functions.ts:226-243 | the loop builds exactly the mapped tree |
| Functions.SqlFragment | src/Functions.ts:263-294 | the fragment starts with the delimited field and the operator; it binds `val[0]` and `val[1]` for between (undefined where missing), each element for another array operator, else the value itself |
| Functions.SqlFragmentPlaceholders | src/Functions.ts:263-294 | a leaf's fragment has as many `?` as it binds values |
| Functions.ToSqlQuery | src/Functions.ts:263-294 | the placeholder loop yields exactly SqlFragment |
| Functions.Render | src/Functions.ts:388-415 | an empty top-level tree renders as the empty string with no values; a parenthesised rendering is wrapped in one pair of parentheses; the bound values are those of the leaves, in depth-first, left-to-right order |
| Functions.RenderNodesAppend | src/Functions.ts:399-407 | rendering two node lists put together gives the parts and values of each, in order |
| Functions.RenderPlaceholders | src/Functions.ts:388-415 | for any translator that binds as many values as it writes `?`, the rendered text has exactly as many `?` as bound values |
| Functions.DefaultRenderPlaceholders | src/Functions.ts:296-301 | with the default translator, and no `?` in field names and operators, placeholders and bound values agree |
| Functions.FilterToString | src/Functions.ts:388-415 | the loop, recursing into nested trees, yields exactly Render with the given or the default translator |
| Functions.WithDefaults | src/Functions.ts:311-313 | the spec gets the default operator list only when it has none, and nothing else changes |
| Functions.PrepareSpecFillsDefaults | src/Functions.ts:311-317 | after the defaults are filled, MissingComparisonOperators cannot occur, and an empty spec becomes the default one |
| Functions.Normalise | src/Functions.ts:344-367 | a leaf becomes an "and" tree around it, a node array an "and" tree of its elements, a tree object keeps its `v` |
| Functions.DecodeEncodeNodes | src/Functions.ts:344-367 | decoding encoded nodes gives them back |
| Functions.ChildReadAsLeaf | src/Functions.ts:135-199 | on the leaf shapes the model decodes, the loop's reading of `next[0]`, `next[1]`, `next[2]` is the typed leaf; a string child is read as a leaf exactly when it has two characters or more |
| Functions.ShallowNodeTestAsWritten | src/Functions.ts:36-38 | `[["a","=",1],"b=c"]` and `[["a","=",1],["b","=",2,"x"]]` pass isFilterNode, their second child reads as a clean leaf, and the model refuses that child |
| Functions.Checked | src/Functions.ts:369-385 | corrected (see Findings): the result is the tree exactly when its root is and/or and no leaf has an obstruction; otherwise it fails with the Obstructions subcode and a non-empty list |
| Functions.ParseValue | src/Functions.ts:322-385 | a parsed value is an accepted tree |
| Functions.ParseFilter | src/Functions.ts:305-386 | corrected (see Findings): null comes back exactly for null, undefined or a blank string; a tree that comes back has an and/or root, no obstruction under the prepared spec and a Value at every leaf |
| Functions.ParseEncodedTree | src/Functions.ts:355-359 | a tree object parses to itself, its root operator defaulted to "and" and lower-cased, or fails with its obstructions |
| Functions.ParseEncodedLeaf | src/Functions.ts:345-349 | a leaf parses to an "and" tree holding it, or fails with its obstructions |
| Functions.ParseEncodedNodes | src/Functions.ts:350-354 | a node array parses to an "and" tree of those nodes, or fails with their obstructions |
| Functions.ParseMalformed | src/Functions.ts:360-367 | an object or array that none of the duck tests accepts fails with MalformedInputObject |
| Functions.ParseString | src/Functions.ts:323-333 | a string is trimmed and parsed as JSON text; text that does not parse fails with InvalidJson, and an object or array parses as that value would |
| DslQueries.DeepMerge | src/DslQuery.ts:161-190 | the recursive merge yields exactly the merge specification Merged |
| DslQueries.MergeEach | src/DslQuery.ts:181-184 | the loop over the added keys yields exactly MergeProps |
| DslQueries.MergePropsByKey | src/DslQuery.ts:181-184 | the merged object has the keys of both; each added key holds the merge of the two values; other keys keep the base value |
| DslQueries.MergeCopiesTree | src/DslQuery.ts:119-131 | merging a filter tree into `{}` gives an equal tree |
| DslQueries.CombineShape | src/DslQuery.ts:115-151 | the combined root is the joining operator and ends with the addition; a base with the opposite root is demoted under a new root, any other base keeps its children |
| DslQueries.CombineLeaves | src/DslQuery.ts:115-151 | the combined leaves are the base's followed by the addition's |
| DslQueries.CombineMeaning | src/DslQuery.ts:115-151 | under any valuation of the leaves, `and` gives base ∧ addition and `or` gives base ∨ addition; an empty base is true |
| DslQueries.OrOnEmpty | src/DslQuery.ts:119-146 | `or` on an empty query nests an empty "and" tree beside the addition |
| DslQueries.AdditionTreeShaped | src/DslQuery.ts:122-128 | a normalised leaf, node array, tree or query passes the duck tests |
| DslQueries.CombinedShaped | src/DslQuery.ts:115-151 | combining keeps the root valid and every leaf well-shaped |
| DslQueries.HasIn | src/DslQuery.ts:42-55 | the search finds the key exactly when some leaf at any depth is on that field |
| DslQueries.LeavesOn | src/DslQuery.ts:65-80 | the collected leaves are leaves of the tree on that field, and none exactly when no leaf is on it |
| DslQueries.GetIn | src/DslQuery.ts:65-80 | the recursive collection gathers the leaves on the field in depth-first order |
| DslQueries.HasAfterMapping | src/DslQuery.ts:101-113 | after mapping, a key is present exactly when some original field is renamed to it |
| DslQueries.DslQuery.Empty | src/DslQuery.ts:29-31 | a query built from nothing holds null |
| DslQueries.DslQuery.Parse | src/DslQuery.ts:29-31 | corrected (see Findings): construction fails exactly when parseFilter does, with its failure, and otherwise holds its value |
| DslQueries.DslQuery.Has | src/DslQuery.ts:37-58 | false on an empty query, else whether some leaf at any depth is on the key |
| DslQueries.DslQuery.Get | src/DslQuery.ts:60-83 | null exactly when `has` is false, else the non-empty list of leaves on the key |
| DslQueries.DslQuery.ToString | src/DslQuery.ts:85-91 | an empty query renders as "" with no values, any other as its tree rendered without parentheses; the values are those of the leaves in order |
| DslQueries.DslQuery.ModifyQuery | src/DslQuery.ts:115-151 | a fresh, valid query holding the base combined with the normalised addition; the receiver is unchanged |
| DslQueries.DslQuery.And | src/DslQuery.ts:93-95 | a fresh query with the addition joined by "and" |
| DslQueries.DslQuery.Or | src/DslQuery.ts:97-99 | a fresh query with the addition joined by "or" |
| DslQueries.DslQuery.MapFields | src/DslQuery.ts:101-113 | a fresh query holding the mapped tree, or the mapped `{v: []}` when empty |
| Queries.SortItem | src/Query.ts:98-102 | a leading `-` means descending, `+` ascending, and the sign is dropped from the field |
| Queries.ParseSort | src/Query.ts:97-103 | fails with a TypeError exactly when some comma-separated item is empty; otherwise one entry per item, entry k being item k read by SortItem |
| Queries.ParseFormatSort | src/Query.ts:97-103 | parsing the sort string of an order gives the order back |
| Queries.Query.constructor | src/Query.ts:71 | the builder holds the given record |
| Queries.Query.Where | src/Query.ts:77-80 | sets the WHERE tree and nothing else |
| Queries.Query.Having | src/Query.ts:82-85 | sets the HAVING tree and nothing else |
| Queries.Query.Limit | src/Query.ts:108-111 | sets the limit and nothing else |
| Queries.Query.Sort | src/Query.ts:87-106 | stores the parsed order; a tuple becomes a one-entry order; no argument or an empty string deletes it; a sort string with an empty item throws and leaves the record unchanged |
| Queries.PageSize | src/Query.ts:117 | the page size is the given size unless it is absent or zero, then 20 |
| Queries.PaginateWithoutCursor | src/Query.ts:117-122 | without a cursor, only the limit is set, to the page size |
| Queries.PaginateNumCursor | src/Query.ts:126-132 | `num:N` sets limit and offset to the page size and size × (N - 1), with N at least 1 |
| Queries.ClauseObstructionsSpec | src/Query.ts:138-167 | a cursor clause has no obstruction exactly when it is `field:value` and its field is in the order (if any); each obstruction names its clause and index |
| Queries.CursorObstructionsSpec | src/Query.ts:136-176 | the cursor passes exactly when every clause is good, and every obstruction points at a bad clause |
| Queries.CursorObstructionsNone | src/Query.ts:136-176 | no obstruction exactly when every clause is good |
| Queries.CursorObstructionsPoint | src/Query.ts:136-176 | every obstruction names a bad clause by its text and position, with one of the two cursor codes |
| Queries.ReadCursor | src/Query.ts:136-173 | the clause loop yields exactly the obstructions, the cursor data and the ascending sort of the cursor fields, and every clause compares with ">" |
| Queries.CursorFrom | src/Query.ts:188-194 | the cursor tree has an "or" root above its last clause and an "and" root at it |
| Queries.CursorMeaning | src/Query.ts:188-194 | the cursor tree holds exactly for rows after the cursor in lexicographic order of the cursor fields |
| Queries.CursorFromShaped | src/Query.ts:188-194 | the cursor tree passes the duck tests |
| Queries.CursorLeafParses | src/Query.ts:189 | the last clause's leaf parses to a one-leaf "and" tree |
| Queries.CursorClauseQuery | src/Query.ts:190-194 | one loop step (`and` with `>=`, then `or` with `>`) extends the cursor query by one clause |
| Queries.CursorLastQuery | src/Query.ts:188-189 | the loop starts from the query of the last clause |
| Queries.CursorQuery | src/Query.ts:187-194 | the loop builds exactly the cursor tree |
| Queries.PaginateFieldCursor | src/Query.ts:134-197 | a field cursor fails exactly when some clause is bad; otherwise HAVING holds exactly for rows after the cursor, a missing order becomes the cursor fields ascending, a present order is kept, and nothing else changes |
| Queries.Query.Paginate | src/Query.ts:113-198 | on success the record becomes the paginated one; on failure it is unchanged and the failure is returned |
| Stringifier.FormatFieldString | src/Query.ts:278-291 | a given table starts the text as its quoted name and a dot; a given alias ends it as ` AS ` and the quoted alias; its partners FieldIsJoinOfPieces and ReadFormatField show the text is the pieces joined by backticks and reads back into the same table, name and alias |
| Stringifier.FieldIsJoinOfPieces | src/Query.ts:278-291 | every formatted field is its pieces joined by backticks |
| Stringifier.ReadFormatField | src/Query.ts:278-291 | for names without backticks, the formatted field can be read back into the same table, name and alias |
| Stringifier.LimitToString | src/Query.ts:358-366 | no limit clause for none or zero; `n` for a limit; `n OFFSET m` for a pair |
| Stringifier.Tidy | src/Query.ts:268 | trim and space collapse: no double space, no space at either end, every other character kept |
| Stringifier.TablePlaceholders | src/Query.ts:304-326 | a table's text has as many `?` as its ON condition binds |
| Stringifier.TablesPlaceholders | src/Query.ts:293-302 | the tables' text has as many `?` as their ON conditions bind together |
| Stringifier.SelectPlaceholders | src/Query.ts:260-268 | the SELECT text's `?` are those of the tables, WHERE and HAVING |
| Stringifier.TidyPlaceholders | src/Query.ts:268 | trimming and collapsing keep every `?` |
| Stringifier.ToStringAsWritten | src/Query.ts:211-271 | as written: other verbs fail NotImplemented; the values are WHERE's then HAVING's; the text is tidy |
| Stringifier.PlaceholdersAsWritten | src/Query.ts:251-258 | as written, the text has the ON conditions' `?` beyond the bound values |
| Stringifier.JoinParamDropped | src/Query.ts:320 | a join ON `x = 1` renders one `?` with no bound value |
| Stringifier.ToString | src/Query.ts:211-271 | corrected: other verbs fail; it fails exactly without tables; the values are the ON conditions', WHERE's and HAVING's; the text is tidy |
| Stringifier.PlaceholdersMatchParams | src/Query.ts:251-258 | corrected: the text has exactly as many `?` as bound values |
| Stringifier.SortEndsInC | src/Query.ts:350-356 | a non-empty ORDER BY text ends in ASC or DESC |
| Stringifier.OrderRunsIntoLimit | src/Query.ts:265-268 | as written, ORDER BY followed by LIMIT renders `...ASCLIMIT` / `...DESCLIMIT` |
| Stringifier.ClausesApart | src/Query.ts:260-268 | corrected: the clauses are joined by single spaces |

## Left out

- Error messages and error classes (src/Errors.ts is not part of this model). Failures carry the subcode and obstruction codes only.
- `JSON.parse` is a parameter (`jsonParse`) that returns none on invalid text. `JSON.stringify`, used only for messages, is left out.
- Numbers are reals. Integer page sizes, limits and offsets are `int`. `parseInt` of a digit string is its decimal value.
- The translator is a static, process-wide field in the source. It is a parameter of `ToString` and `FilterToString` here.
- `parseFilter` adds default operators to the caller's spec object in place. Here the defaults are filled on a value (`WithDefaults`), and the caller's spec is not modelled as changed.
- The `o` rewrite on the caller's input object is modelled as a value too.
- `deepMerge` copies only the top level of arrays, so the nested trees of a combined query are shared with the original. Aliasing is not modelled, since trees are values here and nothing mutates a nested tree afterwards.
- `dslQueryToString` (src/Functions.ts:445-470) does not compile as written. The stringifier and `toString` use `filterToString` in its place, with the same default translator.
- Subqueries in fields and tables are not modelled (ComplexFieldData / ComplexTableData, hasSubquery).
- The unreachable UPDATE branch of `toString` is not modelled.
- The bodiless `sort` / `page` overloads of DslQuery are not modelled.
- example.ts is not part of this model.
- JavaScript objects with a `length` key, array properties with names, and prototype lookups are not modelled. Shapes that reach them return `OutsideModel` or `TypeError`.
- Functions.ParseFilter / Functions.DecodeNode: isFilterNode tests only the first child of a node array (src/Functions.ts:36-38), and the validation loop reads any child that is not a tree as `next[0]`, `next[1]`, `next[2]`. The source therefore validates and returns node arrays that the model refuses with `OutsideModel`, since a typed `Node` cannot hold them:
  - a string child, read character by character (`"b=c"` as field "b", operator "=", value "c");
  - an array child with more than three entries, whose extra entries are never looked at;
  - a leaf with a non-string field or operator (`[5,"=",1]`);
  - a nested `{v: …}` whose `o` is not a string (the nested `o` is never validated);
  - a nested object whose own `v` is not an array: the source treats it as a tree. `{v: ""}` validates clean (an empty `v`, src/Functions.ts:120-121) and is returned, while `{v: 5}` or `{v: {}}` throws a TypeError.
  `Functions.ShallowNodeTestAsWritten` exhibits the first two. The promises of `ParseFilter` (a Value at every leaf), `DslQuery.Valid` and `AllShaped`, relied on by `ApplyFieldMap`, `FilterToString`, `Has` and `Get`, hold for the filters the model accepts. For the refused shapes the source's later `has`/`get` can throw.
- Functions.DecodeFieldSpecs, Functions.DecodeSpec: an operator list that is not an array of strings is refused with `OutsideModel`, both for a field spec (even for a field the filter never uses) and for `defaultComparisonOperators`. isDomainSpec (src/Functions.ts:48-96) does not check the entries of either list, so the source accepts such a spec. It throws only when a leaf's operator is compared with a non-string entry (`toLowerCase`, src/Functions.ts:153), and returns normally for a filter with no such leaf.
- Functions.FieldObstructions: operators are compared with ASCII-only case folding. JavaScript `toLowerCase` folds every Unicode letter, so an allowed operator and a leaf operator that differ only in the case of a non-ASCII letter (`Ä`/`ä`) pass in the source and are obstructed here.
- DslQueries.DslQuery.ModifyQuery, DslQueries.DslQuery.And, DslQueries.DslQuery.Or: additions are limited to what `AdditionOk` accepts. Two kinds of argument the source also accepts are excluded, because a typed `Node` cannot hold what they push:
  - an empty DslQuery (`q.and(new DslQuery())`), whose null value passes the object test and is pushed as a null child;
  - a raw tree, node array or leaf that fails the shape checks, which the source pushes unvalidated.
- `isDslQueryData` and `isQueryLeaf` are called (src/Functions.ts:126, src/Functions.ts:235, src/DslQuery.ts:126) but defined in no source file. They are read as `isFilterData(_, true)` and `isFilterLeaf`, the duck tests of the same shape.
- Function fields (`FunctionFieldData`, `{func, args, a}`, src/Query.ts:24-28) are not modelled. `formatFieldString` treats them as simple fields (src/Query.ts:287-290), rendering the undefined `f`.
- Queries.Query.constructor: the source keeps the caller's `SqlQueryData` object by reference (src/Query.ts:71). `where`, `having`, `sort`, `limit` and `paginate` then change that same object in place (src/Query.ts:78, 83, 90, 95, 109), and `sort(list)` and `where(v)` store the caller's own array and tree. The model copies the record into the `Query`'s field, so the caller's record never changes and this aliasing is not captured.
- Queries.Query.Sort: an empty list of sort tuples gives `OutsideModel`. The source wraps it and stores `[[]]`, a tuple with no field or direction, which this model does not represent.
- Functions.ApplyFieldMap, Functions.FilterToString: require every leaf to be well-shaped (`AllShaped`). That is what parseFilter and the combinators guarantee of a DslQuery's value.
- Functions.RenderPlaceholders: stated for translators that bind as many values as they write `?`. The source accepts any translator.
- Functions.Render: a nested tree without `o` renders its parts joined by ` undefined `, as the source does. No lemma about that text is stated.
- Queries.Query.Paginate: a cursor field whose sort lookup fails cannot occur. The lookup is in the local sort list the loop has just extended.
- The DslQuery constructor's unused `sort` argument is not modelled.
- The MysqlStringifier object is not modelled; its methods are functions of the query record.

## Findings

| source | as written | input that shows it | evidently intended | confidence | as-written member | corrected member |
|---|---|---|---|---|---|---|
| src/Query.ts:265-267 | `GROUP BY ${group}` and `ORDER BY ${sort}` are not followed by a space, so the next clause runs into them | order `[["a","asc"]]` with limit 5: `... ORDER BY \`a\` ASCLIMIT 5` | every clause separated from the next by a space | high, not executed | Stringifier.OrderRunsIntoLimit | Stringifier.ClausesApart |
| src/Functions.ts:140 | the InvalidDslQueryField message reads `domainSpec.fieldSpecs.keys.join(...)`; a field-spec object has no `keys` member, so this throws a TypeError instead of recording the obstruction | leaf `["age","=",3]` with field specs `{name: []}` | an InvalidDslQueryField obstruction listing the known fields (`Object.keys(...)`) | high, not executed | Functions.UnknownFieldThrowsAsWritten | Functions.LeafObstructions |
| src/Query.ts:320 | a join's ON condition is rendered with its `?` placeholders, but its bound values are never added to the query's parameters | tables `a` and `b` joined ON `["x","=",1]`: one `?`, no parameters | the ON values bound before the WHERE and HAVING values, one per placeholder | high, not executed | Stringifier.JoinParamDropped | Stringifier.PlaceholdersMatchParams |
