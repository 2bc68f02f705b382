# cypher-rs in Dafny

A model of the core of cypher-rs. cypher-rs is a Neo4j server extension that stores Cypher queries under keys and serves each one as an HTTP endpoint. Three Java classes are modelled:

- **`CypherResultRenderer`** turns an execution result into a tree of lists, maps and scalars for the JSON codec. `renderer.dfy` models it. The `instanceof` chain of `convert(Object)` becomes the functions `Capabilities` and `Dispatch`. `convert` itself becomes `Convert`, with one arm per overload. A node's or relationship's `TreeMap` is built by `FillSorted` over `Values.TreePut`. The loops (`convertRows`, `convert(Iterator)` and the key loop of `convert(PropertyContainer)`) are methods proved against those functions.
- **`Utils`** holds the text-to-scalar coercion of request parameters (`convertIfNeeded`), the write-query guard (`isWriteQuery`), query-string and body parameter building (`toParams`), and the null case of `toJson`. `utils.dfy` models it.
- **`CypherRsService`** holds the endpoints. `service.dfy` models:
  - the read endpoint with its write-query guard;
  - the JSON write endpoint with its one-or-many collapse (`singleOrList`);
  - the CSV write endpoint, with the header and statistics maps as classes updated in place (`toMap`, `toParams(header,row)`, `add`, `accumulateStats`);
  - the CSV ingestion loop with its chunked commits.

Two more files support the model. `values.dfy` holds the Java objects the code passes around, plus the two ordered maps it builds: a `LinkedHashMap` (insertion order) and a `TreeMap` (key order under `String.compareTo`). `results.dfy` holds `Option` and `Result`.

Collaborators the code only calls are modelled as values:
- **The Cypher engine** is a function `Engine` from a query text and a parameter map to a `Result<Execution, string>`.
- **The stored queries** are a map from key to query text (`Store`).
- **A request body** arrives already parsed: a `Json` value for the JSON endpoint, and a sequence of split rows for the CSV endpoint.
- **Transactions** are recorded as a ghost log of events: `Run`, `Commit` and `Rollback`.

Behaviour of the code worth noting:
- **Property values are not converted.** A node or relationship becomes a sorted map of its raw property values; `convert` is not applied to them (`CypherResultRenderer.java:93`).
- **Executions without update statistics add nothing.** An execution that reports no statistics, or reports no updates, adds nothing to any counter, `rows` included (`CypherRsService.java:179`).
- **CSV rows are not checked against the header width.** A data row shorter than the header fails on its first missing column with an index error and a server error. Fields past the header's width are ignored (`CypherRsService.java:198`, `Service.FillIgnoresExtraFields`).
- **The read endpoint always answers with a list.** It returns a list of row maps even for a single row, because `render` always builds a list; only the JSON write endpoint unwraps a single result.
- **Repeated header names shift columns.** Repeated CSV header names collapse into one key at the position of their first occurrence, so later columns are read from shifted positions (`Service.Dedup`, `Service.ParamMap.constructor`).
- **The batch size is checked first.** It is parsed before the key is looked up and before any transaction is opened, and a malformed one is a server error.
- **A batch size of zero fails after one row.** The first data row runs before the `%` by zero fails; a negative batch size commits every |batch| rows.

## Model

Paths are relative to the repository root.

| member | source | states |
|---|---|---|
| Values.StrLtTotal | src/main/java/org/neo4j/cypher_rs/CypherResultRenderer.java:90 | the `String.compareTo` order used by the `TreeMap` is total: two keys are equal or one comes first |
| Values.StrLtTransitive | src/main/java/org/neo4j/cypher_rs/CypherResultRenderer.java:90 | the key order is transitive |
| Values.StrLtIrreflexive | src/main/java/org/neo4j/cypher_rs/CypherResultRenderer.java:90 | no key comes before itself |
| Values.TreePut | src/main/java/org/neo4j/cypher_rs/CypherResultRenderer.java:93 | defines `TreeMap.put` on the entries: a new key goes to its place in key order, an existing key has its value replaced; its key set, values and order are stated by `TreePutKeys`, `TreePutGet` and `TreePutSorted` |
| Values.TreePutKeys | src/main/java/org/neo4j/cypher_rs/CypherResultRenderer.java:93 | `TreeMap.put` adds exactly the key put to the key set |
| Values.TreePutGet | src/main/java/org/neo4j/cypher_rs/CypherResultRenderer.java:93 | after `put(k, v)`, `get(k)` is `v` and every other key keeps its value |
| Values.TreePutSorted | src/main/java/org/neo4j/cypher_rs/CypherResultRenderer.java:93 | `TreeMap.put` keeps the entries strictly ascending by key |
| Values.LinkedPut | src/main/java/org/neo4j/cypher_rs/CypherRsService.java:190 | defines `LinkedHashMap.put` on the entries: a new key is appended, an existing key keeps its place with the new value; stated by `LinkedPutKeys` and `LinkedPutGet` |
| Values.LinkedPutKeys | src/main/java/org/neo4j/cypher_rs/CypherRsService.java:190 | `LinkedHashMap.put` appends a new key at the end and leaves the key order alone for a key already present |
| Values.LinkedPutGet | src/main/java/org/neo4j/cypher_rs/CypherRsService.java:190 | after `put(k, v)`, `get(k)` is `v` and every other key keeps its value |
| Renderer.Capabilities | src/main/java/org/neo4j/cypher_rs/CypherResultRenderer.java:49-64 | the `instanceof` tests a value passes: a Map, a graph element, and Iterable exactly for paths, lists and other iterables |
| Renderer.Dispatch | src/main/java/org/neo4j/cypher_rs/CypherResultRenderer.java:47-67 | null takes the null arm; otherwise the first test in chain order that the value passes decides the arm; a value passing none is returned unchanged |
| Renderer.ConvertFollowsDispatch | src/main/java/org/neo4j/cypher_rs/CypherResultRenderer.java:47-68 | `convert` gives what the dispatched arm gives; a path takes the path arm and a list the list arm, although both are also Iterable; scalars and arrays come back unchanged |
| Renderer.Convert | src/main/java/org/neo4j/cypher_rs/CypherResultRenderer.java:47-68 | the result contains no path, iterator, other iterable or graph element: only null, scalars, arrays, lists and maps of such |
| Renderer.ConvertEntries | src/main/java/org/neo4j/cypher_rs/CypherResultRenderer.java:39-45 | `convert(Map)` keeps the keys in the input's iteration order and converts each value |
| Renderer.ConvertEach | src/main/java/org/neo4j/cypher_rs/CypherResultRenderer.java:70-76 | `convert(List)` gives a list of the same length with each element converted in place |
| Renderer.ConvertPath | src/main/java/org/neo4j/cypher_rs/CypherResultRenderer.java:52-53 | a path gives one converted element per node or relationship, in path order |
| Renderer.PathFlattens | src/main/java/org/neo4j/cypher_rs/CypherResultRenderer.java:52-53 | converting a path gives the list of its elements' property maps, in path order |
| Renderer.PathExample | src/main/java/org/neo4j/cypher_rs/CypherResultRenderer.java:52-53 | a node-relationship-node path with `since: forever` on the relationship gives `[{}, {since: forever}, {}]` |
| Renderer.ElementToMap | src/main/java/org/neo4j/cypher_rs/CypherResultRenderer.java:86-96 | a graph element gives a value with nothing left to convert |
| Renderer.FillSorted | src/main/java/org/neo4j/cypher_rs/CypherResultRenderer.java:91-94 | defines the key loop of `convert(PropertyContainer)` as one `TreeMap.put` per key, in key order of iteration; its result is stated by `FillSortedSpec` |
| Renderer.FillSortedSpec | src/main/java/org/neo4j/cypher_rs/CypherResultRenderer.java:90-94 | the key loop keeps the map sorted and raw-valued, adds exactly the visited keys, and maps each to its stored property |
| Renderer.FillSortedShape | src/main/java/org/neo4j/cypher_rs/CypherResultRenderer.java:90-94 | the key loop keeps the map sorted and raw-valued and adds exactly the visited keys |
| Renderer.FillSortedGet | src/main/java/org/neo4j/cypher_rs/CypherResultRenderer.java:91-93 | after the key loop, a visited key maps to its stored property and any other key to its earlier value |
| Renderer.ElementToMapSpec | src/main/java/org/neo4j/cypher_rs/CypherResultRenderer.java:86-96 | the element's map has the element's keys exactly, each once, in ascending order, each mapped to the raw stored value; no keys gives the empty map |
| Renderer.ConvertPropertyContainer | src/main/java/org/neo4j/cypher_rs/CypherResultRenderer.java:86-96 | the key loop with its `TreeMap` builds the element's map |
| Renderer.CanonicalIsFixedPoint | src/main/java/org/neo4j/cypher_rs/CypherResultRenderer.java:47-84 | `convert` leaves already-converted values unchanged |
| Renderer.ConvertIdempotent | src/main/java/org/neo4j/cypher_rs/CypherResultRenderer.java:47-84 | converting twice gives the same as converting once |
| Renderer.Render | src/main/java/org/neo4j/cypher_rs/CypherResultRenderer.java:16-37 | defines `render`: null when there are no rows, otherwise the list of the rows converted with `convert(Map)`; its shape is stated by `RenderSpec` |
| Renderer.RenderSpec | src/main/java/org/neo4j/cypher_rs/CypherResultRenderer.java:16-37 | `render` is null exactly when there are no rows; otherwise it is a list with one map per row, in row order, each with its row's columns in order |
| Renderer.RenderRows | src/main/java/org/neo4j/cypher_rs/CypherResultRenderer.java:16-37 | the `convertRows` loop builds the rendered value |
| Renderer.Cursor.Next | src/main/java/org/neo4j/cypher_rs/CypherResultRenderer.java:81 | `it.next()` yields the first remaining item and consumes it |
| Renderer.DrainIterator | src/main/java/org/neo4j/cypher_rs/CypherResultRenderer.java:78-84 | `convert(Iterator)` gives every remaining item converted, in order, and leaves the iterator exhausted |
| Utils.EqualsIgnoreCase | src/main/java/org/neo4j/cypher_rs/Utils.java:43-44 | defines `equalsIgnoreCase` against a lower-case ASCII word: same length and each character folds to the word's character; used by `ConvertIfNeeded` and exercised by `BooleanExamples` |
| Utils.LooksNumeric | src/main/java/org/neo4j/cypher_rs/Utils.java:45 | defines a match of `^[+-]?[0-9.]+$`: an optional sign followed by at least one character, each a digit or '.'; exercised by `NumericErrorExamples` and `StringExamples` |
| Utils.ParsesAsDouble | src/main/java/org/neo4j/cypher_rs/Utils.java:46 | defines which pattern matches `Double.parseDouble` accepts: exactly one '.' and at least one digit; exercised by `NumericErrorExamples` |
| Utils.ConvertIfNeeded | src/main/java/org/neo4j/cypher_rs/Utils.java:42-50 | "true"/"false" in any letter case give the boolean; numeric-looking text with a '.' gives a double and without one a 64-bit long; a numeric-looking text that does not parse is an error carrying the text; all other text stays a string; which numeric texts parse, and to what, is stated by `ConvertNumeric` and `ParseLong` |
| Utils.ConvertNumeric | src/main/java/org/neo4j/cypher_rs/Utils.java:45-47 | numeric-looking text is decided by the number parsers alone: with a '.' it coerces exactly when `Double.parseDouble` accepts it, and without one the outcome is exactly that of `Long.parseLong` |
| Utils.NumericIsNotBoolean | src/main/java/org/neo4j/cypher_rs/Utils.java:43-45 | a text matching the numeric pattern is neither "true" nor "false" in any case, so the boolean tests never shadow a number |
| Utils.ParseLong | src/main/java/org/neo4j/cypher_rs/Utils.java:47 | `Long.parseLong` succeeds exactly when the signed decimal value of the text lies in the 64-bit range, and then gives that value; otherwise it fails with the text |
| Utils.LongRoundTrip | src/main/java/org/neo4j/cypher_rs/Utils.java:45-47 | every 64-bit long written in decimal is read back as that long |
| Utils.LongOutOfRange | src/main/java/org/neo4j/cypher_rs/Utils.java:45-47 | every integer outside the 64-bit range, written in decimal, is a number format error carrying that text |
| Utils.BooleanExamples | src/main/java/org/neo4j/cypher_rs/Utils.java:43-44 | "true", "FALSE" and "TrUe" become booleans |
| Utils.LongExamples | src/main/java/org/neo4j/cypher_rs/Utils.java:45-47 | "-12" and "+21" become longs |
| Utils.NumericErrorExamples | src/main/java/org/neo4j/cypher_rs/Utils.java:45-46 | "3.5" becomes a double; "." and "1.2.3" match the pattern but do not parse |
| Utils.LongOverflow | src/main/java/org/neo4j/cypher_rs/Utils.java:47 | twenty or more digits without a leading zero overflow `Long.parseLong` and give a number format error |
| Utils.LongOverflowExample | src/main/java/org/neo4j/cypher_rs/Utils.java:47 | a 20-digit number overflows `Long.parseLong` |
| Utils.StringExamples | src/main/java/org/neo4j/cypher_rs/Utils.java:45-49 | "bar", "", "12a" and "1e5" stay strings |
| Utils.FindKeyword | src/main/java/org/neo4j/cypher_rs/Utils.java:53 | the scan from a position finds a keyword exactly when one starts at or after that position |
| Utils.IsWriteQuery | src/main/java/org/neo4j/cypher_rs/Utils.java:52-54 | a query is a write query exactly when one of create, set, remove, merge, delete or drop occurs anywhere in it, ignoring ASCII case and word boundaries |
| Utils.KeywordOpening | src/main/java/org/neo4j/cypher_rs/Utils.java:18 | a keyword match starts with the first three letters of one of the six keywords |
| Utils.KeywordMakesWrite | src/main/java/org/neo4j/cypher_rs/Utils.java:52-54 | one keyword occurrence anywhere makes the query a write query |
| Utils.WriteQueryExamples | src/main/java/org/neo4j/cypher_rs/Utils.java:18 | a create query and a `SET` query are write queries, and so is "offset", which contains "set" |
| Utils.ReadQueryExample | src/main/java/org/neo4j/cypher_rs/Utils.java:52-54 | `start n=node({id}) return n` is not a write query |
| Utils.CoerceAll | src/main/java/org/neo4j/cypher_rs/Utils.java:34-40 | a list coerces exactly when every element does, giving the coerced elements in order |
| Utils.CoerceAllFirstError | src/main/java/org/neo4j/cypher_rs/Utils.java:34-40 | a failing list fails with the error of its first failing element |
| Utils.CoerceAllKeepsFirstError | src/main/java/org/neo4j/cypher_rs/Utils.java:36-37 | once a prefix fails, the rest of the list is not looked at |
| Utils.ConvertListIfNeeded | src/main/java/org/neo4j/cypher_rs/Utils.java:34-40 | the element loop computes the list coercion, stopping at the first failure |
| Utils.ParamValue | src/main/java/org/neo4j/cypher_rs/Utils.java:23-29 | one value gives that value coerced; none or several give a list of the same length |
| Utils.ParamOf | src/main/java/org/neo4j/cypher_rs/Utils.java:23-29 | the loop body (an empty list put first, then overwritten by the coerced list; a single text coerced on its own) gives exactly the key's parameter value |
| Utils.ToParams | src/main/java/org/neo4j/cypher_rs/Utils.java:20-32 | the parameter map is built exactly when every key's values coerce, and is then the map of each key to its parameter value; otherwise it fails with the error of some key |
| Utils.ParamsSpec | src/main/java/org/neo4j/cypher_rs/Utils.java:20-32 | the parameter map has exactly the query-string keys; one value gives its scalar; no value or several give the list of coerced values in order |
| Utils.BodyParams | src/main/java/org/neo4j/cypher_rs/Utils.java:57-66 | an object body gives a one-element list, an array body gives its elements, anything else is bad input |
| Utils.ToJson | src/main/java/org/neo4j/cypher_rs/Utils.java:76-81 | `toJson` gives no text exactly for null |
| Service.SingleOrList | src/main/java/org/neo4j/cypher_rs/CypherRsService.java:127-130 | defines `singleOrList`: a single result stands for itself, any other number stays a list in order; stated by `SingleOrListNull` |
| Service.SingleOrListNull | src/main/java/org/neo4j/cypher_rs/CypherRsService.java:127-130 | a single result is returned unwrapped; the collapsed result is null only for a single null result; several results stay a list, so two nulls give `[null, null]` |
| Service.Dedup | src/main/java/org/neo4j/cypher_rs/CypherRsService.java:187-193 | defines the key order `toMap` builds by putting the names one by one; stated by `DedupSpec` |
| Service.DedupSpec | src/main/java/org/neo4j/cypher_rs/CypherRsService.java:187-193 | the map's key order holds every name once, and leaves distinct names as given |
| Service.DedupExample | src/main/java/org/neo4j/cypher_rs/CypherRsService.java:187-193 | the names a, b, a, c give the keys a, b, c |
| Service.ToMap | src/main/java/org/neo4j/cypher_rs/CypherRsService.java:187-193 | `toMap` gives a map with the names in order of first occurrence, each mapped to the given value |
| Service.LinkedPutUniform | src/main/java/org/neo4j/cypher_rs/CypherRsService.java:190 | putting the common value keeps every value equal to it |
| Service.StatsMap.constructor | src/main/java/org/neo4j/cypher_rs/CypherRsService.java:145 | the statistics map has the eight counter names in order, all zero |
| Service.Added | src/main/java/org/neo4j/cypher_rs/CypherRsService.java:202-207 | defines `add`: the i-th counter grows by the i-th amount, keys and order unchanged; `StatsMap.Add` is proved against it |
| Service.Accumulated | src/main/java/org/neo4j/cypher_rs/CypherRsService.java:177-185 | defines `accumulateStats`: no statistics or no updates leave the counters alone, otherwise the seven counters and the row count are added; stated by `AccumulatedAddsContribution` |
| Service.StatsMap.Add | src/main/java/org/neo4j/cypher_rs/CypherRsService.java:202-207 | `add` raises each entry, in place, by the amount at its position; the keys and their order stay |
| Service.StatsMap.Accumulate | src/main/java/org/neo4j/cypher_rs/CypherRsService.java:177-185 | `accumulateStats` adds the seven update counters and the row count, or nothing when there are no statistics or no updates |
| Service.AccumulatedAddsContribution | src/main/java/org/neo4j/cypher_rs/CypherRsService.java:177-185 | accumulating keeps the keys and adds the execution's contribution to each counter |
| Service.ParamMap.constructor | src/main/java/org/neo4j/cypher_rs/CypherRsService.java:146 | the header map holds the header names in order of first occurrence, all null |
| Service.ParamMap.Fill | src/main/java/org/neo4j/cypher_rs/CypherRsService.java:195-201 | `toParams(header, row)` overwrites the values in header order and stops at the first fault |
| Service.FillFrom | src/main/java/org/neo4j/cypher_rs/CypherRsService.java:195-201 | defines `toParams(header, row)` from column `i` on: each value becomes its column's coerced text, a missing column or a failed coercion stops it; stated by `FillFromKeys`, `FillFromOutcome` and `FillFromValues` |
| Service.FillFromKeys | src/main/java/org/neo4j/cypher_rs/CypherRsService.java:195-201 | filling keeps the header's keys and their order |
| Service.FillFromOutcome | src/main/java/org/neo4j/cypher_rs/CypherRsService.java:195-201 | filling succeeds exactly when every column is present and coerces; otherwise the fault is that of the first column that is missing or does not coerce |
| Service.FillFromValues | src/main/java/org/neo4j/cypher_rs/CypherRsService.java:198 | a successful fill gives each key the coerced text of its column |
| Service.FillIgnoresExtraFields | src/main/java/org/neo4j/cypher_rs/CypherRsService.java:197-198 | fields past the header's width do not change the outcome |
| Service.Attempt | src/main/java/org/neo4j/cypher_rs/CypherRsService.java:148 | defines one execution of the loop body before the statistics: fill the header map, run the query with it; stated by `AttemptSpec` |
| Service.Step | src/main/java/org/neo4j/cypher_rs/CypherRsService.java:147-153 | one pass of the loop body keeps the eight counters; a failed row stops the loop, a successful one is run, accumulated, counted and committed on a multiple of the batch size, and `%` by zero fails after the row ran; the cases are spelled out by `StepFacts` |
| Service.StepFacts | src/main/java/org/neo4j/cypher_rs/CypherRsService.java:147-153 | after a failure a row changes nothing; a row that fails to fill or run records the fault and leaves the count, counters and log alone; a row that runs is counted, accumulated and logged, followed by a commit exactly when the new count is a multiple of a non-zero batch size |
| Service.Ingest | src/main/java/org/neo4j/cypher_rs/CypherRsService.java:147-153 | the loop over all data rows keeps the eight counters; its outcome is stated by `IngestCount`, `IngestCommits`, `IngestTotals`, `IngestSucceeds` and `IngestOrder` |
| Service.AttemptSpec | src/main/java/org/neo4j/cypher_rs/CypherRsService.java:148 | a row runs exactly when it fills the header and the engine accepts the resulting parameters, which do not depend on the previous row |
| Service.IngestRows | src/main/java/org/neo4j/cypher_rs/CypherRsService.java:147-153 | the loop over the data rows, on the two maps in place, computes the ingestion function |
| Service.IngestStopsAtFault | src/main/java/org/neo4j/cypher_rs/CypherRsService.java:147-153 | after an exception the remaining rows are not looked at |
| Service.IngestCount | src/main/java/org/neo4j/cypher_rs/CypherRsService.java:150 | the count equals the number of executions, at most the number of rows, and all of them when nothing failed |
| Service.IngestCommits | src/main/java/org/neo4j/cypher_rs/CypherRsService.java:150-152 | with a non-zero batch size, commits happen exactly after execution |b|, 2|b|, ... |
| Service.IngestTotals | src/main/java/org/neo4j/cypher_rs/CypherRsService.java:148-149 | each counter ends as its start value plus the sum of every execution's contribution |
| Service.IngestSucceeds | src/main/java/org/neo4j/cypher_rs/CypherRsService.java:147-153 | the loop finishes without fault exactly when the batch size is non-zero (or there are no rows) and every row fills the header and runs |
| Service.IngestOrder | src/main/java/org/neo4j/cypher_rs/CypherRsService.java:147-148 | a successful loop runs every row once, in input order, each with its own parameters |
| Service.Rendered | src/main/java/org/neo4j/cypher_rs/CypherRsService.java:84-87 | a null rendering is answered with no content |
| Service.ReadOutcome | src/main/java/org/neo4j/cypher_rs/CypherRsService.java:78-91 | defines the read endpoint once the parameters are built: an engine failure is a server error, otherwise the rendered rows; stated by `ReadNoContent` |
| Service.ReadNoContent | src/main/java/org/neo4j/cypher_rs/CypherRsService.java:79-87 | a query is answered with no content exactly when it returns no rows; otherwise the body is the rendered list of rows |
| Service.ReadEndpoint | src/main/java/org/neo4j/cypher_rs/CypherRsService.java:73-94 | an unknown key is not found; a stored write query is refused whatever the engine would do; a parameter that does not coerce is a server error; otherwise the query runs with the query-string parameters |
| Service.Submit | src/main/java/org/neo4j/cypher_rs/CypherRsService.java:106-109 | the request succeeds exactly when every submission is an object the engine runs; it then gives one rendered result per submission, in order, each from the engine's outcome for that object; otherwise it fails with the fault of the first submission that is not an object (not a map) or whose run fails (the engine's message) |
| Service.SubmitStops | src/main/java/org/neo4j/cypher_rs/CypherRsService.java:106-109 | once a submission fails, the request fails with that fault |
| Service.WriteOutcome | src/main/java/org/neo4j/cypher_rs/CypherRsService.java:103-122 | defines the write endpoint once the key is found: an unreadable body is bad input, a failing submission a server error, otherwise the collapsed rendered results; stated by `WriteSpec` |
| Service.WriteSpec | src/main/java/org/neo4j/cypher_rs/CypherRsService.java:103-116 | a single object is answered with its own rendered result, never wrapped in a list; no content comes only from one submission that matched nothing |
| Service.WriteExamples | src/main/java/org/neo4j/cypher_rs/CypherRsService.java:112-116 | two submissions matching nothing give `[null, null]`; one gives no content |
| Service.WriteEndpoint | src/main/java/org/neo4j/cypher_rs/CypherRsService.java:100-125 | an unknown key is not found; otherwise the loop over the submissions gives the write outcome |
| Service.ParseInt | src/main/java/org/neo4j/cypher_rs/CypherRsService.java:138 | `Integer.parseInt` succeeds exactly when the text is an optional sign ('+' or '-') and digits whose value lies in the 32-bit range, and then gives that value; otherwise it fails with the text |
| Service.ParseIntRoundTrip | src/main/java/org/neo4j/cypher_rs/CypherRsService.java:138 | every 32-bit int written in decimal is read back as that int, and every integer outside the range is a number format error |
| Service.BatchSizeOf | src/main/java/org/neo4j/cypher_rs/CypherRsService.java:137-138 | the batch size defaults to 30000 |
| Service.BatchSizeExamples | src/main/java/org/neo4j/cypher_rs/CypherRsService.java:138 | "2" and "-2" parse; "x" and "" are number format errors |
| Service.DelimiterOf | src/main/java/org/neo4j/cypher_rs/CypherRsService.java:143-144 | the delimiter defaults to ','; an empty one fails on `charAt(0)`; otherwise it is the first character |
| Service.StatsJson | src/main/java/org/neo4j/cypher_rs/CypherRsService.java:155 | the response object has the counter names as keys, in order, each with its counter's value as a long |
| Service.CsvOutcome | src/main/java/org/neo4j/cypher_rs/CypherRsService.java:136-167 | defines the CSV endpoint: the batch size is parsed first, then the key, delimiter and header are checked, then the loop runs from zeroed counters and a null-valued header map; stated by `CsvRejected`, `CsvSucceeds`, `CsvReport` and `CsvCommits` |
| Service.WriteCsvEndpoint | src/main/java/org/neo4j/cypher_rs/CypherRsService.java:136-167 | the CSV endpoint, with its two maps and the loop, gives the response and transaction log of the CSV outcome |
| Service.CsvRejected | src/main/java/org/neo4j/cypher_rs/CypherRsService.java:137-146 | a bad batch size fails before any transaction; an unknown key, an empty delimiter or an empty body roll back without running anything |
| Service.CsvSucceeds | src/main/java/org/neo4j/cypher_rs/CypherRsService.java:141-155 | an upload succeeds exactly when the batch size is non-zero (or there is no data row) and every data row fills the header and runs |
| Service.CsvReport | src/main/java/org/neo4j/cypher_rs/CypherRsService.java:145-155 | a successful upload reports the sum of every counter over all executions; the executions are one per data row, in order |
| Service.CsvCommits | src/main/java/org/neo4j/cypher_rs/CypherRsService.java:150-163 | with a non-zero batch size a commit follows every |batch| rows; success ends with one more commit and failure with a rollback of the rows run since the last commit |
| Service.CsvCreateExample | src/main/java/org/neo4j/cypher_rs/CypherRsService.java:136-167 | three names with the default settings create 3 nodes and set 3 properties over 3 rows, with a single commit at the end |
| Service.CsvBatchExample | src/main/java/org/neo4j/cypher_rs/CypherRsService.java:150-154 | the same upload with batch size 2 commits after rows 2 and 3 |
| Service.CsvShortRowExample | src/main/java/org/neo4j/cypher_rs/CypherRsService.java:198 | a data row shorter than the header is a server error on the missing column, and nothing runs |
| Service.StringIsKept | src/main/java/org/neo4j/cypher_rs/Utils.java:49 | "foo", "bar" and "foobar" stay strings |

## Left out

- HTTP and JAX-RS plumbing: the status codes are the `Response` constructors, and response bodies and error messages are not modelled. The endpoints that create, list and delete stored queries are not modelled either; the stored queries are a plain map.
- Transactions and the engine's effects on the graph: the engine is a function of the query text and the parameters, so a row cannot see the effects of earlier rows. Commits and rollbacks are recorded in a ghost log instead of being carried out.
- Jackson, the JSON codec: request bodies arrive parsed as a `Json` value, and `toJson` of a non-null value stands for its own text. A body the codec cannot read is `None`.
- OpenCSV: CSV rows arrive already split into fields, so quoting, escaping and the delimiter's effect on splitting are not modelled. The `IOException` from reading the body, which gives 400, is not modelled either.
- Floating point: a double is kept as its decimal text. `Double.parseDouble` is modelled only by which texts it accepts among those the numeric pattern lets through.
- Utils.ConvertIfNeeded: `equalsIgnoreCase` is modelled exactly for "true" and "false", ASCII letters plus the long s. Other Unicode case pairs play no part for these two words.
- Service.ParseInt: digits outside ASCII, which `Integer.parseInt` also accepts, are not modelled.
- Values.StrLt: it orders by code point, while `String.compareTo` orders by UTF-16 unit. The two differ only beyond the Basic Multilingual Plane.
- Service.StatsMap.Add: the counters and `count` are unbounded, so 32-bit `int` overflow is not modelled.
- Utils.ToParams: which failing key's error is reported depends on the hash order of the query-string map. The model only states that it comes from some failing key.
- Service.Submit: a JSON `null` element in an array body, which Java passes to the engine as a null parameter map, is treated like any other non-object element, as a server error.
- `toJson(ExecutionResult)`, `toObject`, `writeToJson` and `readJson` are thin wrappers around `render` and the codec and are not modelled separately.
