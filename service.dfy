/** The HTTP service: the stored-query endpoints, the collapsing of
    per-submission results, and the CSV batch ingestion with its running
    statistics and chunked commits. */
module Service {
  import opened Results
  import opened Values
  import opened Utils
  import opened Renderer

  /** The exceptions that end a request with a server error. */
  datatype Fault =
    | ArrayIndex(index: int)          // ArrayIndexOutOfBoundsException
    | StringIndex(index: int)         // StringIndexOutOfBoundsException
    | BadNumber(text: string)         // NumberFormatException
    | DivideByZero                    // ArithmeticException from `% 0`
    | NoHeader                        // the null header of an empty CSV body, dereferenced
    | NotAMap                         // a JSON array element that is not an object
    | EngineFailure(message: string)  // whatever the Cypher engine throws

  // ---------------------------------------------------------------------
  // singleOrList

  /** One result stands for itself; none, or several, stay a list in
      submission order. */
  function SingleOrList(results: seq<Value>): (r: Value)
  {
    if |results| == 1 then results[0] else ListV(results)
  }

  /** The collapsed result is null exactly for a single submission that
      rendered to null; two such submissions give a list of two nulls. */
  lemma SingleOrListNull(results: seq<Value>)
    ensures |results| == 1 ==> SingleOrList(results) == results[0]
    ensures SingleOrList(results) == Null <==> results == [Null]
    ensures SingleOrList(results) != Null ==> (|results| == 1 || SingleOrList(results) == ListV(results))
    ensures SingleOrList([Null, Null]) == ListV([Null, Null])
  {
  }

  // ---------------------------------------------------------------------
  // toMap

  /** The names in order of first occurrence, each once: the key order a
      `LinkedHashMap` gets from putting them one by one. */
  function Dedup(names: seq<string>): (d: seq<string>)
  {
    if |names| == 0 then []
    else
      var d := Dedup(names[..|names| - 1]);
      var x := names[|names| - 1];
      if x in d then d else d + [x]
  }

  predicate Distinct(xs: seq<string>)
  {
    forall i, j :: 0 <= i < j < |xs| ==> xs[i] != xs[j]
  }

  /** Deduplication keeps every name, drops repeats, and leaves a list of
      distinct names as it is. */
  lemma {:induction false} DedupSpec(names: seq<string>)
    ensures forall x :: x in Dedup(names) <==> x in names
    ensures Distinct(Dedup(names))
    ensures Distinct(names) ==> Dedup(names) == names
  {
    if |names| > 0 {
      var init := names[..|names| - 1];
      DedupSpec(init);
      assert names == init + [names[|names| - 1]];
      if Distinct(names) {
        assert names[|names| - 1] !in init;
      }
    }
  }

  /** A repeated header name keeps its first position. */
  lemma DedupExample()
    ensures Dedup(["a", "b", "a", "c"]) == ["a", "b", "c"]
  {
    assert ["a", "b", "a", "c"][..3] == ["a", "b", "a"];
    assert ["a", "b", "a"][..2] == ["a", "b"];
    assert ["a", "b"][..1] == ["a"];
    assert ["a"][..0] == [];
  }

  /** `toMap(value, names)`: an insertion-ordered map from every name to
      `value`. */
  method ToMap<T>(value: T, names: seq<string>) returns (m: Entries<T>)
    ensures Keys(m) == Dedup(names)
    ensures forall i :: 0 <= i < |m| ==> m[i].1 == value
  {
    m := [];
    var i := 0;
    while i < |names|
      invariant 0 <= i <= |names|
      invariant Keys(m) == Dedup(names[..i])
      invariant forall j :: 0 <= j < |m| ==> m[j].1 == value
    {
      var x := names[i];
      assert names[..i + 1][..i] == names[..i];
      assert x in KeySet(m) <==> x in Keys(m);
      LinkedPutKeys(m, x, value);
      LinkedPutUniform(m, x, value);
      m := LinkedPut(m, x, value);
      i := i + 1;
    }
    assert names[..i] == names;
  }

  /** The map from each of `keys`, in order, to `v`. */
  function Uniform<T>(keys: seq<string>, v: T): (m: Entries<T>)
    ensures Keys(m) == keys
  {
    seq(|keys|, i requires 0 <= i < |keys| => (keys[i], v))
  }

  lemma UniformUnique<T>(m: Entries<T>, keys: seq<string>, v: T)
    requires Keys(m) == keys && forall i :: 0 <= i < |m| ==> m[i].1 == v
    ensures m == Uniform(keys, v)
  {
  }

  /** Putting `v` into a map whose values are all `v` keeps them so. */
  lemma {:induction false} LinkedPutUniform<T>(m: Entries<T>, k: string, v: T)
    requires forall j :: 0 <= j < |m| ==> m[j].1 == v
    ensures forall j :: 0 <= j < |LinkedPut(m, k, v)| ==> LinkedPut(m, k, v)[j].1 == v
  {
    if |m| > 0 && k != m[0].0 {
      LinkedPutUniform(m[1..], k, v);
      assert LinkedPut(m, k, v) == [m[0]] + LinkedPut(m[1..], k, v);
    }
  }

  // ---------------------------------------------------------------------
  // The statistics map: `add` and `accumulateStats`

  /** The statistics keys, in the order `add` receives its arguments. */
  const StatNames: seq<string> := ["nodes_created", "nodes_deleted", "relationships_created",
    "relationships_deleted", "labels_added", "labels_removed", "properties_set", "rows"]

  /** What one execution reports about its updates. */
  datatype QueryStats = QueryStats(
    nodesCreated: nat, nodesDeleted: nat,
    relationshipsCreated: nat, relationshipsDeleted: nat,
    labelsAdded: nat, labelsRemoved: nat,
    propertiesSet: nat, containsUpdates: bool)

  /** The outcome of one `engine.execute`: its result rows and, when the
      engine reports them, its statistics. */
  datatype Execution = Execution(rows: seq<Row>, stats: Option<QueryStats>)

  /** `add(data, stats...)`: the i-th counter grows by the i-th amount. */
  function Added(counts: Entries<nat>, deltas: seq<nat>): (r: Entries<nat>)
    requires |deltas| >= |counts|
  {
    seq(|counts|, i requires 0 <= i < |counts| => (counts[i].0, counts[i].1 + deltas[i]))
  }

  /** The amounts `accumulateStats` hands to `add`: the seven update
      counters followed by the number of result rows. */
  function Deltas(s: QueryStats, rowCount: nat): (d: seq<nat>)
    ensures |d| == |StatNames|
  {
    [s.nodesCreated, s.nodesDeleted, s.relationshipsCreated, s.relationshipsDeleted,
     s.labelsAdded, s.labelsRemoved, s.propertiesSet, rowCount]
  }

  /** `accumulateStats`: an execution without statistics, or whose
      statistics report no update, leaves every counter alone, `rows`
      included. */
  function Accumulated(counts: Entries<nat>, e: Execution): (r: Entries<nat>)
    requires |counts| <= |StatNames|
  {
    if e.stats.None? || !e.stats.value.containsUpdates then counts
    else Added(counts, Deltas(e.stats.value, |e.rows|))
  }

  /** What one execution adds to each counter. */
  function Contribution(e: Execution): (d: seq<nat>)
    ensures |d| == |StatNames|
  {
    if e.stats.None? || !e.stats.value.containsUpdates then [0, 0, 0, 0, 0, 0, 0, 0]
    else Deltas(e.stats.value, |e.rows|)
  }

  lemma AccumulatedAddsContribution(counts: Entries<nat>, e: Execution)
    requires |counts| <= |StatNames|
    ensures Keys(Accumulated(counts, e)) == Keys(counts)
    ensures forall i :: 0 <= i < |counts| ==>
      Accumulated(counts, e)[i].1 == counts[i].1 + Contribution(e)[i]
  {
  }

  /** The statistics map of one CSV request. */
  class StatsMap {
    var entries: Entries<nat>

    ghost predicate Valid()
      reads this
    {
      Keys(entries) == StatNames
    }

    /** `toMap(0, "nodes_created", ..., "rows")`. */
    constructor ()
      ensures Valid()
      ensures entries == Uniform(StatNames, 0)
    {
      DedupSpec(StatNames);
      var m := ToMap(0, StatNames);
      UniformUnique(m, StatNames, 0);
      entries := m;
    }

    /** `add`: each entry's value grows, in place, by the amount at its
        position; the keys and their order stay. */
    method Add(deltas: seq<nat>)
      requires |deltas| >= |entries|
      modifies this
      ensures entries == Added(old(entries), deltas)
      ensures Keys(entries) == Keys(old(entries))
      ensures old(Valid()) ==> Valid()
    {
      var i := 0;
      while i < |entries|
        invariant 0 <= i <= |entries| == |old(entries)|
        invariant forall j :: 0 <= j < |entries| ==>
          entries[j] == (if j < i then Added(old(entries), deltas)[j] else old(entries)[j])
      {
        entries := entries[i := (entries[i].0, entries[i].1 + deltas[i])];
        i := i + 1;
      }
    }

    /** `accumulateStats(data, result)`. */
    method Accumulate(e: Execution)
      requires Valid()
      modifies this
      ensures Valid()
      ensures entries == Accumulated(old(entries), e)
    {
      if e.stats.None? || !e.stats.value.containsUpdates {
        return;
      }
      Add(Deltas(e.stats.value, |e.rows|));
    }
  }

  // ---------------------------------------------------------------------
  // The header map: `toParams(header, row)`

  /** Overwriting the header map's values from column `i` on: each value
      becomes its column's coerced text. A row with fewer columns than the
      header fails on the first missing column; a text that cannot be
      coerced fails there. The columns before the failure are already
      overwritten. */
  function FillFrom(header: Entries<Value>, row: seq<string>, i: nat): (r: (Entries<Value>, Option<Fault>))
    requires i <= |header|
    decreases |header| - i
  {
    if i == |header| then (header, None)
    else if i >= |row| then (header, Some(ArrayIndex(i)))
    else
      match ConvertIfNeeded(row[i])
      case Err(text) => (header, Some(BadNumber(text)))
      case Ok(x) => FillFrom(header[i := (header[i].0, Prim(x))], row, i + 1)
  }

  /** Whether every column from `i` up to `n` is present and coerces. */
  predicate ColumnsCoerce(n: nat, row: seq<string>, i: nat)
  {
    (i < n ==> n <= |row|) && forall j :: i <= j < n ==> ConvertIfNeeded(row[j]).Ok?
  }

  /** The value column `j` of a well-formed row gets. */
  function Column(row: seq<string>, j: nat): Value
    requires j < |row| && ConvertIfNeeded(row[j]).Ok?
  {
    Prim(ConvertIfNeeded(row[j]).value)
  }

  /** Filling keeps the keys and their order. */
  lemma {:induction false} FillFromKeys(header: Entries<Value>, row: seq<string>, i: nat)
    requires i <= |header|
    ensures Keys(FillFrom(header, row, i).0) == Keys(header)
    decreases |header| - i
  {
    if i < |header| && i < |row| && ConvertIfNeeded(row[i]).Ok? {
      var next := header[i := (header[i].0, Prim(ConvertIfNeeded(row[i]).value))];
      FillFromKeys(next, row, i + 1);
      assert Keys(next) == Keys(header);
    }
  }

  /** Filling succeeds exactly when every remaining column is present and
      coerces; otherwise it reports the first column that is missing or
      does not coerce. */
  lemma FillFromOutcome(header: Entries<Value>, row: seq<string>, i: nat)
    requires i <= |header|
    ensures FillFrom(header, row, i).1.None? <==> ColumnsCoerce(|header|, row, i)
    ensures FillFrom(header, row, i).1.Some? ==>
      exists k :: i <= k < |header| && ColumnsCoerce(k, row, i) &&
        (k >= |row| || ConvertIfNeeded(row[k]).Err?) &&
        FillFrom(header, row, i).1.value == FirstFault(row, k)
  {
    FillFromSucceeds(header, row, i);
    if FillFrom(header, row, i).1.Some? {
      FillFromFault(header, row, i);
    }
  }

  lemma {:induction false} FillFromSucceeds(header: Entries<Value>, row: seq<string>, i: nat)
    requires i <= |header|
    ensures FillFrom(header, row, i).1.None? <==> ColumnsCoerce(|header|, row, i)
    decreases |header| - i
  {
    if i < |header| {
      if i < |row| && ConvertIfNeeded(row[i]).Ok? {
        var next := header[i := (header[i].0, Prim(ConvertIfNeeded(row[i]).value))];
        FillFromSucceeds(next, row, i + 1);
      } else {
        assert !ColumnsCoerce(|header|, row, i);
      }
    }
  }

  lemma {:induction false} FillFromFault(header: Entries<Value>, row: seq<string>, i: nat)
    requires i <= |header| && FillFrom(header, row, i).1.Some?
    ensures exists k :: (i <= k < |header| && ColumnsCoerce(k, row, i) &&
                         (k >= |row| || ConvertIfNeeded(row[k]).Err?) &&
                         FillFrom(header, row, i).1.value == FirstFault(row, k))
    decreases |header| - i
  {
    if i < |row| && ConvertIfNeeded(row[i]).Ok? {
      var next := header[i := (header[i].0, Prim(ConvertIfNeeded(row[i]).value))];
      FillFromFault(next, row, i + 1);
      var k :| i + 1 <= k < |header| && ColumnsCoerce(k, row, i + 1) &&
               (k >= |row| || ConvertIfNeeded(row[k]).Err?) &&
               FillFrom(next, row, i + 1).1.value == FirstFault(row, k);
      assert ColumnsCoerce(k, row, i);
    } else {
      assert ColumnsCoerce(i, row, i);
    }
  }

  /** A successful fill sets every remaining column's value to the coerced
      text of that column. */
  lemma {:induction false} FillFromValues(header: Entries<Value>, row: seq<string>, i: nat)
    requires i <= |header| && ColumnsCoerce(|header|, row, i)
    ensures |FillFrom(header, row, i).0| == |header|
    ensures forall j :: i <= j < |header| ==> FillFrom(header, row, i).0[j].1 == Column(row, j)
    ensures forall j :: 0 <= j < i ==> FillFrom(header, row, i).0[j] == header[j]
    decreases |header| - i
  {
    if i < |header| {
      var next := header[i := (header[i].0, Column(row, i))];
      FillFromValues(next, row, i + 1);
    }
  }

  /** The fault of a row whose columns before `k` coerce but column `k`
      does not. */
  function FirstFault(row: seq<string>, k: nat): Fault
  {
    if k >= |row| then ArrayIndex(k)
    else match ConvertIfNeeded(row[k])
      case Err(text) => BadNumber(text)
      case Ok(_) => ArrayIndex(k)
  }

  /** Fields past the header's width are never looked at. */
  lemma {:induction false} FillIgnoresExtraFields(header: Entries<Value>, row: seq<string>, extra: seq<string>, i: nat)
    requires i <= |header| <= |row|
    ensures FillFrom(header, row + extra, i) == FillFrom(header, row, i)
    decreases |header| - i
  {
    if i < |header| {
      assert (row + extra)[i] == row[i];
      var c := ConvertIfNeeded(row[i]);
      if c.Ok? {
        FillIgnoresExtraFields(header[i := (header[i].0, Prim(c.value))], row, extra, i + 1);
      }
    }
  }

  /** The header map of one CSV request, reused for every data row. */
  class ParamMap {
    var entries: Entries<Value>

    /** `toMap(null, header)`. */
    constructor (names: seq<string>)
      ensures entries == Uniform(Dedup(names), Null)
    {
      var m := ToMap(Null, names);
      UniformUnique(m, Dedup(names), Null);
      entries := m;
    }

    /** `toParams(header, row)`: overwrites the values in place, in header
        order, and stops at the first fault. */
    method Fill(row: seq<string>) returns (fault: Option<Fault>)
      modifies this
      ensures (entries, fault) == FillFrom(old(entries), row, 0)
    {
      var i := 0;
      while i < |entries|
        invariant 0 <= i <= |entries| == |old(entries)|
        invariant FillFrom(entries, row, i) == FillFrom(old(entries), row, 0)
      {
        if i >= |row| {
          return Some(ArrayIndex(i));
        }
        var c := ConvertIfNeeded(row[i]);
        if c.Err? {
          return Some(BadNumber(c.error));
        }
        entries := entries[i := (entries[i].0, Prim(c.value))];
        i := i + 1;
      }
      return None;
    }
  }

  // ---------------------------------------------------------------------
  // The CSV ingestion loop of `writeCsvEndpoint`

  /** The Cypher engine: a stored query and its parameters to an outcome.
      Its effect on the graph is not modelled. */
  type Engine = (string, map<string, Value>) -> Result<Execution, string>

  /** What happens to the open transaction, in order. */
  datatype Event =
    | Run(params: map<string, Value>, result: Execution)  // one successful `engine.execute`
    | Commit                                             // `tx.success(); tx.close()`
    | Rollback                                           // `tx.close()` without success

  /** The state of the ingestion loop after some data rows: the header map,
      the statistics map, `count`, the transaction log, and the exception
      that ended the loop, if any. */
  datatype Load = Load(header: Entries<Value>, stats: Entries<nat>, count: int,
                       log: seq<Event>, fault: Option<Fault>)

  function Abs(x: int): nat
  {
    if x < 0 then -x else x
  }

  /** Java's `%`, which truncates toward zero. */
  function JavaRem(a: int, b: int): (r: int)
    requires b != 0
    ensures a >= 0 ==> r == a % Abs(b)
  {
    if a >= 0 then a % Abs(b) else -((-a) % Abs(b))
  }

  /** Filling the header map from a row and running the query with it:
      the header map afterwards, and the execution or the fault. */
  function Attempt(engine: Engine, query: string, header: Entries<Value>, row: seq<string>)
    : (Entries<Value>, Result<Execution, Fault>)
  {
    var (h, f) := FillFrom(header, row, 0);
    if f.Some? then (h, Err(f.value))
    else match engine(query, AsMap(h))
      case Err(message) => (h, Err(EngineFailure(message)))
      case Ok(e) => (h, Ok(e))
  }

  /** One pass of the loop body for one data row: fill the header map, run
      the query with it, accumulate the statistics, count the row, and
      commit and reopen when the count is a multiple of the batch size.
      Once a row has failed, later rows change nothing. */
  function Step(engine: Engine, query: string, batch: int, s: Load, row: seq<string>): (r: Load)
    requires |s.stats| == |StatNames|
    ensures |r.stats| == |StatNames|
  {
    if s.fault.Some? then s
    else
      var (h, outcome) := Attempt(engine, query, s.header, row);
      match outcome
      case Err(f) => s.(header := h, fault := Some(f))
      case Ok(e) =>
        var count := s.count + 1;
        var ran := Load(h, Accumulated(s.stats, e), count, s.log + [Run(AsMap(h), e)], None);
        if batch == 0 then ran.(fault := Some(DivideByZero))
        else if JavaRem(count, batch) == 0 then ran.(log := ran.log + [Commit])
        else ran
  }

  /** The effect of one row on the loop state, case by case. */
  lemma StepFacts(engine: Engine, query: string, batch: int, s: Load, row: seq<string>)
    requires |s.stats| == |StatNames|
    ensures s.fault.Some? ==> Step(engine, query, batch, s, row) == s
    ensures s.fault.None? && Attempt(engine, query, s.header, row).1.Err? ==>
      var r := Step(engine, query, batch, s, row);
      r.log == s.log && r.count == s.count && r.stats == s.stats && r.fault.Some?
    ensures s.fault.None? && Attempt(engine, query, s.header, row).1.Ok? ==>
      var (h, outcome) := Attempt(engine, query, s.header, row);
      var r := Step(engine, query, batch, s, row);
      r.count == s.count + 1 && r.stats == Accumulated(s.stats, outcome.value) &&
      r.log == s.log + [Run(AsMap(h), outcome.value)] +
               (if batch != 0 && JavaRem(s.count + 1, batch) == 0 then [Commit] else []) &&
      (r.fault.None? <==> batch != 0)
  {
  }

  /** The loop over all data rows, in order. */
  function Ingest(engine: Engine, query: string, batch: int, s: Load, rows: seq<seq<string>>): (r: Load)
    requires |s.stats| == |StatNames|
    ensures |r.stats| == |StatNames|
  {
    if |rows| == 0 then s
    else Step(engine, query, batch, Ingest(engine, query, batch, s, rows[..|rows| - 1]), rows[|rows| - 1])
  }

  /** After a failure the remaining rows are not looked at. */
  lemma {:induction false} IngestStopsAtFault(engine: Engine, query: string, batch: int, s: Load,
                                              rows: seq<seq<string>>, n: nat)
    requires |s.stats| == |StatNames| && n <= |rows|
    requires Ingest(engine, query, batch, s, rows[..n]).fault.Some?
    ensures Ingest(engine, query, batch, s, rows) == Ingest(engine, query, batch, s, rows[..n])
    decreases |rows| - n
  {
    if n < |rows| {
      assert rows[..n + 1][..n] == rows[..n];
      IngestStopsAtFault(engine, query, batch, s, rows, n + 1);
    } else {
      assert rows[..n] == rows;
    }
  }

  /** The loop of `writeCsvEndpoint`, on the request's two maps. */
  method IngestRows(engine: Engine, query: string, batch: int, header: ParamMap, stats: StatsMap,
                    rows: seq<seq<string>>)
    returns (count: int, fault: Option<Fault>, ghost log: seq<Event>)
    requires stats.Valid()
    modifies header, stats
    ensures Load(header.entries, stats.entries, count, log, fault) ==
      Ingest(engine, query, batch, Load(old(header.entries), old(stats.entries), 0, [], None), rows)
  {
    ghost var s0 := Load(header.entries, stats.entries, 0, [], None);
    count, fault, log := 0, None, [];
    var i := 0;
    while i < |rows|
      invariant 0 <= i <= |rows|
      invariant stats.Valid()
      invariant fault.None?
      invariant Load(header.entries, stats.entries, count, log, None) == Ingest(engine, query, batch, s0, rows[..i])
    {
      assert rows[..i + 1][..i] == rows[..i];
      ghost var prev := Ingest(engine, query, batch, s0, rows[..i]);
      ghost var next := Step(engine, query, batch, prev, rows[i]);
      assert Ingest(engine, query, batch, s0, rows[..i + 1]) == next;
      fault := header.Fill(rows[i]);
      if fault.Some? {
        IngestStopsAtFault(engine, query, batch, s0, rows, i + 1);
        return;
      }
      var params := AsMap(header.entries);
      var outcome := engine(query, params);
      if outcome.Err? {
        fault := Some(EngineFailure(outcome.error));
        IngestStopsAtFault(engine, query, batch, s0, rows, i + 1);
        return;
      }
      stats.Accumulate(outcome.value);
      count := count + 1;
      log := log + [Run(params, outcome.value)];
      if batch == 0 {
        fault := Some(DivideByZero);
        IngestStopsAtFault(engine, query, batch, s0, rows, i + 1);
        return;
      }
      if JavaRem(count, batch) == 0 {
        log := log + [Commit];
      }
      i := i + 1;
    }
    assert rows[..i] == rows;
  }

  // ---------------------------------------------------------------------
  // What the ingestion loop does, over all inputs

  /** The successful executions of a log, in order. */
  function Runs(log: seq<Event>): (runs: seq<(map<string, Value>, Execution)>)
  {
    if |log| == 0 then []
    else
      var e := log[|log| - 1];
      if e.Run? then Runs(log[..|log| - 1]) + [(e.params, e.result)] else Runs(log[..|log| - 1])
  }

  /** For each commit of a log, how many rows had run before it. */
  function CommitPoints(log: seq<Event>): seq<nat>
  {
    if |log| == 0 then []
    else
      var init := log[..|log| - 1];
      if log[|log| - 1] == Commit then CommitPoints(init) + [|Runs(init)|] else CommitPoints(init)
  }

  /** The positive multiples of `b` up to `n`. */
  function Multiples(n: nat, b: nat): (ms: seq<nat>)
    requires b > 0
  {
    seq(n / b, j requires 0 <= j < n / b => (j + 1) * b)
  }

  /** The sum of counter `j` over a sequence of executions. */
  function Total(runs: seq<(map<string, Value>, Execution)>, j: nat): nat
    requires j < |StatNames|
  {
    if |runs| == 0 then 0 else Total(runs[..|runs| - 1], j) + Contribution(runs[|runs| - 1].1)[j]
  }

  /** The initial state: fresh maps, no row counted, nothing logged. */
  function Start(header: Entries<Value>, stats: Entries<nat>): Load
  {
    Load(header, stats, 0, [], None)
  }

  lemma RunsAppend(log: seq<Event>, e: Event)
    ensures Runs(log + [e]) == if e.Run? then Runs(log) + [(e.params, e.result)] else Runs(log)
    ensures CommitPoints(log + [e]) == if e == Commit then CommitPoints(log) + [|Runs(log)|] else CommitPoints(log)
  {
    assert (log + [e])[..|log|] == log;
  }

  /** `count` is the number of executions so far, and the loop stops early
      only on a fault. */
  lemma {:induction false} IngestCount(engine: Engine, query: string, batch: int,
                                       header: Entries<Value>, stats: Entries<nat>, rows: seq<seq<string>>)
    requires |stats| == |StatNames|
    ensures var r := Ingest(engine, query, batch, Start(header, stats), rows);
      r.count == |Runs(r.log)| <= |rows| && (r.fault.None? ==> r.count == |rows|)
  {
    if |rows| > 0 {
      var init, last := rows[..|rows| - 1], rows[|rows| - 1];
      var prev := Ingest(engine, query, batch, Start(header, stats), init);
      IngestCount(engine, query, batch, header, stats, init);
      StepFacts(engine, query, batch, prev, last);
      if prev.fault.None? && Attempt(engine, query, prev.header, last).1.Ok? {
        var (h, outcome) := Attempt(engine, query, prev.header, last);
        var run := Run(AsMap(h), outcome.value);
        RunsAppend(prev.log, run);
        RunsAppend(prev.log + [run], Commit);
      }
    }
  }

  lemma {:induction false} MulAtLeast(x: nat, b: nat)
    requires x >= 1
    ensures x * b >= b
  {
    if x > 1 {
      MulAtLeast(x - 1, b);
      assert x * b == (x - 1) * b + b;
    }
  }

  /** Quotient and remainder are the only ones of their kind. */
  lemma DivUnique(a: int, b: int, q: int, r: int)
    requires b > 0 && a == q * b + r && 0 <= r < b
    ensures a / b == q && a % b == r
  {
    var q0, r0 := a / b, a % b;
    assert a == q0 * b + r0 && 0 <= r0 < b;
    if q0 > q {
      assert q0 * b - q * b == (q0 - q) * b;
      MulAtLeast(q0 - q, b);
    } else if q0 < q {
      assert q * b - q0 * b == (q - q0) * b;
      MulAtLeast(q - q0, b);
    }
  }

  lemma DivStep(m: nat, b: nat)
    requires b > 0
    ensures (m + 1) % b == 0 ==> (m + 1) / b == m / b + 1 && m + 1 == (m / b + 1) * b
    ensures (m + 1) % b != 0 ==> (m + 1) / b == m / b
  {
    var q, r := m / b, m % b;
    if r + 1 == b {
      DivUnique(m + 1, b, q + 1, 0);
    } else {
      DivUnique(m + 1, b, q, r + 1);
    }
  }

  /** One more row adds one more multiple exactly when it lands on one. */
  lemma MultiplesStep(m: nat, b: nat)
    requires b > 0
    ensures Multiples(m + 1, b) == if (m + 1) % b == 0 then Multiples(m, b) + [m + 1] else Multiples(m, b)
  {
    DivStep(m, b);
    if (m + 1) % b == 0 {
      var ms := Multiples(m + 1, b);
      assert ms[m / b] == m + 1;
      assert ms[..m / b] == Multiples(m, b);
      assert ms == ms[..m / b] + [ms[m / b]];
    }
  }

  /** With a non-zero batch size a commit follows exactly the rows whose
      count is a multiple of its magnitude: after n rows there have been
      n / |batch| commits, at rows |batch|, 2|batch|, and so on. */
  lemma {:induction false} IngestCommits(engine: Engine, query: string, batch: int,
                                         header: Entries<Value>, stats: Entries<nat>, rows: seq<seq<string>>)
    requires |stats| == |StatNames| && batch != 0
    ensures var r := Ingest(engine, query, batch, Start(header, stats), rows);
      CommitPoints(r.log) == Multiples(|Runs(r.log)|, Abs(batch))
  {
    if |rows| > 0 {
      var init, last := rows[..|rows| - 1], rows[|rows| - 1];
      var prev := Ingest(engine, query, batch, Start(header, stats), init);
      IngestCommits(engine, query, batch, header, stats, init);
      IngestCount(engine, query, batch, header, stats, init);
      CommitsStep(engine, query, batch, prev, last);
    }
  }

  /** One pass of the loop keeps the commits at the multiples of |batch|. */
  lemma CommitsStep(engine: Engine, query: string, batch: int, prev: Load, last: seq<string>)
    requires |prev.stats| == |StatNames| && batch != 0
    requires prev.count == |Runs(prev.log)|
    requires CommitPoints(prev.log) == Multiples(|Runs(prev.log)|, Abs(batch))
    ensures var r := Step(engine, query, batch, prev, last);
      CommitPoints(r.log) == Multiples(|Runs(r.log)|, Abs(batch))
  {
    StepFacts(engine, query, batch, prev, last);
    if prev.fault.None? && Attempt(engine, query, prev.header, last).1.Ok? {
      var (h, outcome) := Attempt(engine, query, prev.header, last);
      var m, b := |Runs(prev.log)|, Abs(batch);
      var run := Run(AsMap(h), outcome.value);
      var r := Step(engine, query, batch, prev, last);
      var ran := prev.log + [run];
      RunsAppend(prev.log, run);
      assert |Runs(ran)| == m + 1 && CommitPoints(ran) == CommitPoints(prev.log);
      assert JavaRem(prev.count + 1, batch) == (m + 1) % b;
      MultiplesStep(m, b);
      if (m + 1) % b == 0 {
        assert r.log == ran + [Commit];
        RunsAppend(ran, Commit);
      } else {
        assert r.log == ran;
      }
    }
  }

  /** Every counter ends as its start value plus the sum, over the
      executions, of what each contributed. */
  lemma {:induction false} IngestTotals(engine: Engine, query: string, batch: int,
                                        header: Entries<Value>, stats: Entries<nat>, rows: seq<seq<string>>)
    requires |stats| == |StatNames|
    ensures var r := Ingest(engine, query, batch, Start(header, stats), rows);
      Keys(r.stats) == Keys(stats) &&
      forall j :: 0 <= j < |StatNames| ==> r.stats[j].1 == stats[j].1 + Total(Runs(r.log), j)
  {
    if |rows| > 0 {
      var init, last := rows[..|rows| - 1], rows[|rows| - 1];
      var prev := Ingest(engine, query, batch, Start(header, stats), init);
      IngestTotals(engine, query, batch, header, stats, init);
      StepFacts(engine, query, batch, prev, last);
      if prev.fault.None? && Attempt(engine, query, prev.header, last).1.Ok? {
        var (h, outcome) := Attempt(engine, query, prev.header, last);
        var run := Run(AsMap(h), outcome.value);
        RunsAppend(prev.log, run);
        RunsAppend(prev.log + [run], Commit);
        AccumulatedAddsContribution(prev.stats, outcome.value);
        var runs := Runs(prev.log + [run]);
        assert runs[..|runs| - 1] == Runs(prev.log);
      }
    }
  }

  /** The parameters a well-formed row gives the query: each header key
      with its column's coerced text. */
  function RowEntries(keys: seq<string>, row: seq<string>): (m: Entries<Value>)
    requires ColumnsCoerce(|keys|, row, 0)
    ensures Keys(m) == keys
  {
    seq(|keys|, j requires 0 <= j < |keys| => (keys[j], Column(row, j)))
  }

  /** Whether a row fills the header and the query then runs. */
  predicate RowRuns(engine: Engine, query: string, keys: seq<string>, row: seq<string>)
  {
    ColumnsCoerce(|keys|, row, 0) && engine(query, AsMap(RowEntries(keys, row))).Ok?
  }

  /** A row's attempt succeeds exactly when it fills the header and the
      query runs; the header map then holds that row's parameters,
      whatever the previous row left in it. */
  lemma AttemptSpec(engine: Engine, query: string, header: Entries<Value>, row: seq<string>)
    ensures Keys(Attempt(engine, query, header, row).0) == Keys(header)
    ensures Attempt(engine, query, header, row).1.Ok? <==> RowRuns(engine, query, Keys(header), row)
    ensures Attempt(engine, query, header, row).1.Ok? ==>
      Attempt(engine, query, header, row).0 == RowEntries(Keys(header), row) &&
      engine(query, AsMap(RowEntries(Keys(header), row))) == Ok(Attempt(engine, query, header, row).1.value)
  {
    FillFromKeys(header, row, 0);
    FillFromOutcome(header, row, 0);
    if ColumnsCoerce(|header|, row, 0) {
      FillFromValues(header, row, 0);
      var h := FillFrom(header, row, 0).0;
      assert h == RowEntries(Keys(header), row);
    }
  }

  /** The loop succeeds exactly when the batch size is usable (or there
      is no row) and every row fills the header and runs. */
  lemma {:induction false} IngestSucceeds(engine: Engine, query: string, batch: int,
                                          header: Entries<Value>, stats: Entries<nat>, rows: seq<seq<string>>)
    requires |stats| == |StatNames|
    ensures var r := Ingest(engine, query, batch, Start(header, stats), rows);
      Keys(r.header) == Keys(header) &&
      (r.fault.None? <==> (|rows| == 0 || batch != 0) &&
                          forall i :: 0 <= i < |rows| ==> RowRuns(engine, query, Keys(header), rows[i]))
  {
    if |rows| > 0 {
      var init, last := rows[..|rows| - 1], rows[|rows| - 1];
      var prev := Ingest(engine, query, batch, Start(header, stats), init);
      IngestSucceeds(engine, query, batch, header, stats, init);
      StepFacts(engine, query, batch, prev, last);
      AttemptSpec(engine, query, prev.header, last);
      assert rows == init + [last];
      RowsRunSplit(engine, query, Keys(header), init, last);
      if prev.fault.Some? {
        assert |init| > 0;
      }
    }
  }

  /** Every row runs exactly when the rows before the last do and the last
      one does. */
  lemma RowsRunSplit(engine: Engine, query: string, keys: seq<string>, init: seq<seq<string>>, last: seq<string>)
    ensures (forall i :: 0 <= i < |init + [last]| ==> RowRuns(engine, query, keys, (init + [last])[i])) <==>
      (forall i :: 0 <= i < |init| ==> RowRuns(engine, query, keys, init[i])) && RowRuns(engine, query, keys, last)
  {
    assert forall i :: 0 <= i < |init| ==> (init + [last])[i] == init[i];
    assert (init + [last])[|init|] == last;
  }

  /** The execution a well-formed row gives: its parameters and the
      engine's outcome for them. */
  function RunOf(engine: Engine, query: string, keys: seq<string>, row: seq<string>): (map<string, Value>, Execution)
    requires RowRuns(engine, query, keys, row)
  {
    var params := AsMap(RowEntries(keys, row));
    (params, engine(query, params).value)
  }

  /** A successful loop has run every row, in input order, each with its
      own parameters. */
  lemma {:induction false} IngestOrder(engine: Engine, query: string, batch: int,
                                       header: Entries<Value>, stats: Entries<nat>, rows: seq<seq<string>>)
    requires |stats| == |StatNames|
    ensures var r := Ingest(engine, query, batch, Start(header, stats), rows);
      r.fault.None? ==>
        |Runs(r.log)| == |rows| &&
        forall i :: 0 <= i < |rows| ==>
          RowRuns(engine, query, Keys(header), rows[i]) &&
          Runs(r.log)[i] == RunOf(engine, query, Keys(header), rows[i])
  {
    if |rows| > 0 {
      var init, last := rows[..|rows| - 1], rows[|rows| - 1];
      var prev := Ingest(engine, query, batch, Start(header, stats), init);
      IngestOrder(engine, query, batch, header, stats, init);
      IngestSucceeds(engine, query, batch, header, stats, init);
      StepFacts(engine, query, batch, prev, last);
      AttemptSpec(engine, query, prev.header, last);
      var att := Attempt(engine, query, prev.header, last);
      var r := Ingest(engine, query, batch, Start(header, stats), rows);
      if prev.fault.None? && att.1.Ok? && r.fault.None? {
        var run := Run(AsMap(att.0), att.1.value);
        assert Keys(prev.header) == Keys(header);
        assert RowRuns(engine, query, Keys(header), last);
        var step := RunOf(engine, query, Keys(header), last);
        assert (AsMap(att.0), att.1.value) == step;
        RunsAppend(prev.log, run);
        RunsAppend(prev.log + [run], Commit);
        assert r == Step(engine, query, batch, prev, last);
        if batch != 0 && JavaRem(prev.count + 1, batch) == 0 {
          assert r.log == (prev.log + [run]) + [Commit];
        } else {
          assert r.log == prev.log + [run];
        }
        assert Runs(r.log) == Runs(prev.log) + [step];
        forall i | 0 <= i < |rows|
          ensures RowRuns(engine, query, Keys(header), rows[i]) &&
                  Runs(r.log)[i] == RunOf(engine, query, Keys(header), rows[i])
        {
          if i < |init| {
            assert rows[i] == init[i];
            assert Runs(r.log)[i] == Runs(prev.log)[i];
          } else {
            assert i == |Runs(prev.log)| && rows[i] == last;
            assert Runs(r.log)[i] == step;
          }
        }
      }
    }
  }

  // ---------------------------------------------------------------------
  // The endpoints

  /** The response an endpoint gives, by status. */
  datatype Response =
    | NotFound                      // 404: no query stored under the key
    | NoContent                     // 204: the rendered result is null
    | NotAcceptable                 // 406: a write query on the read path
    | BadRequest(message: string)   // 400: a body that is not a JSON object or array
    | ServerError(fault: Fault)     // 500: an exception, with its cause
    | OkJson(body: Value)           // 200: the JSON text of this value

  /** The queries stored under their keys in the graph properties. */
  type Store = map<string, string>

  /** The response to a rendered result: no content for null. */
  function Rendered(v: Value): (r: Response)
    ensures r == NoContent <==> v.Null?
  {
    match ToJson(v)
    case None => NoContent
    case Some(json) => OkJson(json)
  }

  /** `readEndpoint` once the parameters are built: run the query and
      render its rows. */
  function ReadOutcome(outcome: Result<Execution, string>): Response
  {
    match outcome
    case Err(message) => ServerError(EngineFailure(message))
    case Ok(e) => Rendered(Render(e.rows))
  }

  /** A query that returns no rows is answered with no content. */
  lemma ReadNoContent(e: Execution)
    ensures ReadOutcome(Ok(e)) == NoContent <==> |e.rows| == 0
    ensures |e.rows| > 0 ==> ReadOutcome(Ok(e)) == OkJson(Render(e.rows))
  {
  }

  /** `readEndpoint`: an unknown key is not found; a stored write query is
      refused before anything runs; otherwise the query runs with the
      query-string parameters. */
  method ReadEndpoint(engine: Engine, store: Store, key: string, query: map<string, seq<string>>)
    returns (resp: Response)
    ensures key !in store ==> resp == NotFound
    ensures resp == NotAcceptable <==> key in store && IsWriteQuery(store[key])
    ensures key in store && !IsWriteQuery(store[key]) && !ParamsCoerce(query) ==>
      resp.ServerError? && resp.fault.BadNumber? &&
      exists k :: k in query && ParamValue(query[k]) == Err(resp.fault.text)
    ensures key in store && !IsWriteQuery(store[key]) && ParamsCoerce(query) ==>
      resp == ReadOutcome(engine(store[key], Params(query)))
  {
    if key !in store {
      return NotFound;
    }
    var cypher := store[key];
    if IsWriteQuery(cypher) {
      return NotAcceptable;
    }
    var params := ToParams(query);
    if params.Err? {
      return ServerError(BadNumber(params.error));
    }
    resp := ReadOutcome(engine(cypher, params.value));
  }

  /** Whether one submission is a parameter map the query runs with. */
  predicate Accepted(engine: Engine, query: string, p: Json)
  {
    p.JObject? && engine(query, p.fields).Ok?
  }

  /** The fault a submission that is not accepted ends the request with. */
  function Rejection(engine: Engine, query: string, p: Json): Fault
    requires !Accepted(engine, query, p)
  {
    if !p.JObject? then NotAMap else EngineFailure(engine(query, p.fields).error)
  }

  /** The rendered results of running the query once per submitted
      parameter map, in order; the first element that is not an object, or
      the first failing run, ends the request. */
  function Submit(engine: Engine, query: string, submissions: seq<Json>): (r: Result<seq<Value>, Fault>)
    ensures r.Ok? <==> forall i :: 0 <= i < |submissions| ==> Accepted(engine, query, submissions[i])
    ensures r.Ok? ==> |r.value| == |submissions|
    ensures r.Ok? ==> forall i :: 0 <= i < |submissions| ==>
      (submissions[i].JObject? && engine(query, submissions[i].fields).Ok? &&
       r.value[i] == Render(engine(query, submissions[i].fields).value.rows))
    ensures r.Err? ==>
      exists k :: (0 <= k < |submissions| && !Accepted(engine, query, submissions[k]) &&
                   (forall j :: 0 <= j < k ==> Accepted(engine, query, submissions[j])) &&
                   r.error == Rejection(engine, query, submissions[k]))
  {
    if |submissions| == 0 then Ok([])
    else
      var init := submissions[..|submissions| - 1];
      assert forall i :: 0 <= i < |init| ==> init[i] == submissions[i];
      var p := submissions[|submissions| - 1];
      match Submit(engine, query, init)
      case Err(f) => Err(f)
      case Ok(results) =>
        if !p.JObject? then Err(NotAMap)
        else match engine(query, p.fields)
          case Err(message) => Err(EngineFailure(message))
          case Ok(e) => Ok(results + [Render(e.rows)])
  }

  /** `writeEndpoint` once the key is found. */
  function WriteOutcome(engine: Engine, query: string, body: Option<Json>): Response
  {
    match BodyParams(body)
    case Err(message) => BadRequest(message)
    case Ok(submissions) =>
      match Submit(engine, query, submissions)
      case Err(f) => ServerError(f)
      case Ok(results) => Rendered(SingleOrList(results))
  }

  /** A single object is answered with its own rendered result, unwrapped;
      no content comes only from one submission that matched nothing. */
  lemma WriteSpec(engine: Engine, query: string, body: Option<Json>)
    ensures body.Some? && body.value.JObject? && engine(query, body.value.fields).Ok? ==>
      WriteOutcome(engine, query, body) == Rendered(Render(engine(query, body.value.fields).value.rows))
    ensures WriteOutcome(engine, query, body) == NoContent <==>
      BodyParams(body).Ok? && Submit(engine, query, BodyParams(body).value) == Ok([Null])
  {
    if body.Some? && body.value.JObject? && engine(query, body.value.fields).Ok? {
      var p := body.value;
      assert BodyParams(body) == Ok([p]);
      assert [p][..0] == [];
      var e := engine(query, p.fields).value;
      assert Submit(engine, query, [p]) == Ok([] + [Render(e.rows)]);
      assert SingleOrList([Render(e.rows)]) == Render(e.rows);
    }
    if BodyParams(body).Ok? && Submit(engine, query, BodyParams(body).value).Ok? {
      SingleOrListNull(Submit(engine, query, BodyParams(body).value).value);
    }
  }

  /** An engine whose query matches nothing. */
  function MatchNothing(query: string, params: map<string, Value>): Result<Execution, string>
  {
    Ok(Execution([], None))
  }

  /** Two submissions that match nothing give a list of two nulls; one
      such submission gives no content. */
  lemma WriteExamples(p: map<string, Value>, q: map<string, Value>)
    ensures WriteOutcome(MatchNothing, "match (n {name:{name}}) return n",
                         Some(JList([JObject(p), JObject(q)]))) == OkJson(ListV([Null, Null]))
    ensures WriteOutcome(MatchNothing, "match (n {name:{name}}) return n", Some(JObject(p))) == NoContent
  {
    var query := "match (n {name:{name}}) return n";
    var two := [JObject(p), JObject(q)];
    assert Render([]) == Null;
    assert Submit(MatchNothing, query, []) == Ok([]);
    var one := Submit(MatchNothing, query, [JObject(p)]);
    assert [JObject(p)][..0] == [];
    assert one == Ok([] + [Null]);
    assert two[..1] == [JObject(p)];
    var both := Submit(MatchNothing, query, two);
    assert both == Ok(one.value + [Null]);
    assert one.value + [Null] == [Null, Null];
    WriteSpec(MatchNothing, query, Some(JObject(p)));
  }

  /** `writeEndpoint`. */
  method WriteEndpoint(engine: Engine, store: Store, key: string, body: Option<Json>) returns (resp: Response)
    ensures key !in store ==> resp == NotFound
    ensures key in store ==> resp == WriteOutcome(engine, store[key], body)
  {
    if key !in store {
      return NotFound;
    }
    var params := BodyParams(body);
    if params.Err? {
      return BadRequest(params.error);
    }
    var cypher := store[key];
    var submissions := params.value;
    var results: seq<Value> := [];
    var i := 0;
    while i < |submissions|
      invariant 0 <= i <= |submissions|
      invariant Submit(engine, cypher, submissions[..i]) == Ok(results)
    {
      SubmitExtends(engine, cypher, submissions, i, results);
      var p := submissions[i];
      if !p.JObject? {
        SubmitStops(engine, cypher, submissions, i + 1);
        return ServerError(NotAMap);
      }
      var outcome := engine(cypher, p.fields);
      if outcome.Err? {
        SubmitStops(engine, cypher, submissions, i + 1);
        return ServerError(EngineFailure(outcome.error));
      }
      results := results + [Render(outcome.value.rows)];
      i := i + 1;
    }
    assert submissions[..i] == submissions;
    resp := Rendered(SingleOrList(results));
  }

  /** One more submission: it either adds its rendered result or ends the
      request with its fault. */
  lemma SubmitExtends(engine: Engine, query: string, submissions: seq<Json>, i: nat, results: seq<Value>)
    requires i < |submissions| && Submit(engine, query, submissions[..i]) == Ok(results)
    ensures !submissions[i].JObject? ==> Submit(engine, query, submissions[..i + 1]) == Err(NotAMap)
    ensures submissions[i].JObject? && engine(query, submissions[i].fields).Err? ==>
      Submit(engine, query, submissions[..i + 1]) == Err(EngineFailure(engine(query, submissions[i].fields).error))
    ensures submissions[i].JObject? && engine(query, submissions[i].fields).Ok? ==>
      Submit(engine, query, submissions[..i + 1]) ==
        Ok(results + [Render(engine(query, submissions[i].fields).value.rows)])
  {
    var longer := submissions[..i + 1];
    assert longer[..|longer| - 1] == submissions[..i];
    assert longer[|longer| - 1] == submissions[i];
  }

  /** A failure before the last submission is the failure of the request. */
  lemma SubmitErrorStays(engine: Engine, query: string, submissions: seq<Json>)
    requires |submissions| > 0 && Submit(engine, query, submissions[..|submissions| - 1]).Err?
    ensures Submit(engine, query, submissions) == Submit(engine, query, submissions[..|submissions| - 1])
  {
  }

  /** A failed prefix decides the whole request. */
  lemma {:induction false} SubmitStops(engine: Engine, query: string, submissions: seq<Json>, n: nat)
    requires n <= |submissions| && Submit(engine, query, submissions[..n]).Err?
    ensures Submit(engine, query, submissions) == Submit(engine, query, submissions[..n])
    decreases |submissions| - n
  {
    if n < |submissions| {
      var longer := submissions[..n + 1];
      assert longer[..|longer| - 1] == submissions[..n];
      SubmitErrorStays(engine, query, longer);
      SubmitStops(engine, query, submissions, n + 1);
    } else {
      assert submissions[..n] == submissions;
    }
  }

  // ---------------------------------------------------------------------
  // writeCsvEndpoint

  const MinInt: int := -0x8000_0000
  const MaxInt: int := 0x7FFF_FFFF
  const DefaultBatchSize: int := 30000

  /** `Integer.parseInt`: an optional sign and at least one digit, within
      32 bits. */
  function ParseInt(t: string): (r: Result<int, Fault>)
    ensures r.Ok? <==> |Unsigned(t)| > 0 && AllDigits(Unsigned(t)) && MinInt <= SignedValue(t) <= MaxInt
    ensures r.Ok? ==> r.value == SignedValue(t) && MinInt <= r.value <= MaxInt
    ensures r.Err? ==> r.error == BadNumber(t)
  {
    var digits := Unsigned(t);
    if |digits| == 0 || !AllDigits(digits) then Err(BadNumber(t))
    else
      var magnitude := DigitsValue(digits);
      var n: int := if t[0] == '-' then -(magnitude as int) else magnitude;
      if MinInt <= n <= MaxInt then Ok(n) else Err(BadNumber(t))
  }

  /** `Integer.parseInt` reads back every 32-bit int written in decimal,
      and rejects every integer outside that range. */
  lemma ParseIntRoundTrip(n: int)
    ensures MinInt <= n <= MaxInt ==> ParseInt(LongText(n)) == Ok(n)
    ensures n < MinInt || n > MaxInt ==> ParseInt(LongText(n)) == Err(BadNumber(LongText(n)))
  {
    LongTextShape(n);
    NoDotDigits(LongText(n));
  }

  /** The `batch` query parameter: 30000 when absent. */
  function BatchSizeOf(batch: Option<string>): (r: Result<int, Fault>)
    ensures batch.None? ==> r == Ok(DefaultBatchSize)
  {
    match batch
    case None => Ok(DefaultBatchSize)
    case Some(t) => ParseInt(t)
  }

  /** The `delim` query parameter: ',' when absent, otherwise its first
      character; an empty one has no first character. */
  function DelimiterOf(delim: Option<string>): (r: Result<char, Fault>)
    ensures delim.None? ==> r == Ok(',')
    ensures delim.Some? ==> (r.Ok? <==> |delim.value| > 0)
    ensures r.Ok? && delim.Some? ==> r.value == delim.value[0]
  {
    match delim
    case None => Ok(',')
    case Some(d) => if |d| == 0 then Err(StringIndex(0)) else Ok(d[0])
  }

  lemma BatchSizeExamples()
    ensures BatchSizeOf(Some("2")) == Ok(2)
    ensures BatchSizeOf(Some("-2")) == Ok(-2)
    ensures BatchSizeOf(Some("x")) == Err(BadNumber("x"))
    ensures BatchSizeOf(Some("")) == Err(BadNumber(""))
  {
    assert Unsigned("-2") == "2";
    assert DigitsValue("2") == 2 by { assert "2"[..0] == ""; }
    assert !AllDigits("x") by { assert "x"[0] == 'x'; }
  }

  /** The counters as the JSON object the endpoint returns. */
  function StatsJson(stats: Entries<nat>): (v: Value)
    ensures v.MapV? && Keys(v.entries) == Keys(stats)
    ensures forall i :: 0 <= i < |stats| ==> v.entries[i].1 == Prim(Long(stats[i].1))
  {
    MapV(seq(|stats|, i requires 0 <= i < |stats| => (stats[i].0, Prim(Long(stats[i].1)))))
  }

  /** `writeCsvEndpoint` on a body already split into rows, the first of
      them the header: the response, and what happened to the
      transactions. The batch size is parsed before anything else, even
      before the key is looked up, and before a transaction is opened. */
  function CsvOutcome(engine: Engine, store: Store, key: string, csv: seq<seq<string>>,
                      delim: Option<string>, batch: Option<string>): (Response, seq<Event>)
  {
    match BatchSizeOf(batch)
    case Err(f) => (ServerError(f), [])
    case Ok(size) =>
      if key !in store then (NotFound, [Rollback])
      else if DelimiterOf(delim).Err? then (ServerError(DelimiterOf(delim).error), [Rollback])
      else if |csv| == 0 then (ServerError(NoHeader), [Rollback])
      else
        var r := Ingest(engine, store[key], size, Start(Uniform(Dedup(csv[0]), Null), Uniform(StatNames, 0)), csv[1..]);
        if r.fault.Some? then (ServerError(r.fault.value), r.log + [Rollback])
        else (OkJson(StatsJson(r.stats)), r.log + [Commit])
  }

  /** `writeCsvEndpoint`. */
  method WriteCsvEndpoint(engine: Engine, store: Store, key: string, csv: seq<seq<string>>,
                          delim: Option<string>, batch: Option<string>)
    returns (resp: Response, ghost log: seq<Event>)
    ensures resp == CsvOutcome(engine, store, key, csv, delim, batch).0
    ensures log == CsvOutcome(engine, store, key, csv, delim, batch).1
  {
    var size := BatchSizeOf(batch);
    if size.Err? {
      return ServerError(size.error), [];
    }
    if key !in store {
      return NotFound, [Rollback];
    }
    var cypher := store[key];
    var separator := DelimiterOf(delim);
    if separator.Err? {
      return ServerError(separator.error), [Rollback];
    }
    if |csv| == 0 {
      return ServerError(NoHeader), [Rollback];
    }
    var stats := new StatsMap();
    var header := new ParamMap(csv[0]);
    ghost var start := Start(header.entries, stats.entries);
    var count, fault, ran := IngestRows(engine, cypher, size.value, header, stats, csv[1..]);
    ghost var r := Ingest(engine, cypher, size.value, start, csv[1..]);
    assert r.fault == fault && r.log == ran && r.stats == stats.entries;
    assert BatchSizeOf(batch) == Ok(size.value) && store[key] == cypher;
    assert !DelimiterOf(delim).Err? && |csv| != 0;
    assert start == Start(Uniform(Dedup(csv[0]), Null), Uniform(StatNames, 0));
    if fault.Some? {
      assert CsvOutcome(engine, store, key, csv, delim, batch) == (ServerError(r.fault.value), r.log + [Rollback]);
      return ServerError(fault.value), ran + [Rollback];
    }
    return OkJson(StatsJson(stats.entries)), ran + [Commit];
  }

  /** The counters after a sequence of executions from zero. */
  function Totals(runs: seq<(map<string, Value>, Execution)>): (m: Entries<nat>)
    ensures Keys(m) == StatNames
  {
    seq(|StatNames|, j requires 0 <= j < |StatNames| => (StatNames[j], Total(runs, j)))
  }

  /** The loop over the data rows of an upload whose parameters and
      header are usable. */
  function CsvLoad(engine: Engine, query: string, size: int, csv: seq<seq<string>>): (r: Load)
    requires |csv| > 0
    ensures |r.stats| == |StatNames|
  {
    Ingest(engine, query, size, Start(Uniform(Dedup(csv[0]), Null), Uniform(StatNames, 0)), csv[1..])
  }

  /** Past the checks, the response and the log come from the loop: a
      fault rolls back, success commits and reports the counters. */
  lemma CsvPastChecks(engine: Engine, store: Store, key: string, csv: seq<seq<string>>,
                      delim: Option<string>, batch: Option<string>)
    requires BatchSizeOf(batch).Ok? && key in store && DelimiterOf(delim).Ok? && |csv| > 0
    ensures var r := CsvLoad(engine, store[key], BatchSizeOf(batch).value, csv);
      CsvOutcome(engine, store, key, csv, delim, batch) ==
        if r.fault.Some? then (ServerError(r.fault.value), r.log + [Rollback])
        else (OkJson(StatsJson(r.stats)), r.log + [Commit])
  {
  }

  /** Once the batch size, the key, the delimiter and the header are
      usable, the upload succeeds exactly when the batch size is not zero
      (or there is no data row) and every data row fills the de-duplicated
      header and runs. */
  lemma CsvSucceeds(engine: Engine, store: Store, key: string, csv: seq<seq<string>>,
                    delim: Option<string>, batch: Option<string>)
    requires BatchSizeOf(batch).Ok? && key in store && DelimiterOf(delim).Ok? && |csv| > 0
    ensures CsvOutcome(engine, store, key, csv, delim, batch).0.OkJson? <==>
      (|csv| == 1 || BatchSizeOf(batch).value != 0) &&
      forall i :: 1 <= i < |csv| ==> RowRuns(engine, store[key], Dedup(csv[0]), csv[i])
  {
    var size, query, rows := BatchSizeOf(batch).value, store[key], csv[1..];
    CsvPastChecks(engine, store, key, csv, delim, batch);
    IngestSucceeds(engine, query, size, Uniform(Dedup(csv[0]), Null), Uniform(StatNames, 0), rows);
    assert forall i :: 1 <= i < |csv| ==> csv[i] == rows[i - 1];
  }

  /** A successful upload answers with the sums of the counters over all
      executions, and the executions are one per data row, in order. */
  lemma CsvReport(engine: Engine, store: Store, key: string, csv: seq<seq<string>>,
                  delim: Option<string>, batch: Option<string>)
    requires BatchSizeOf(batch).Ok? && key in store && DelimiterOf(delim).Ok? && |csv| > 0
    ensures var (resp, log) := CsvOutcome(engine, store, key, csv, delim, batch);
      resp.OkJson? ==>
        resp == OkJson(StatsJson(Totals(Runs(log)))) &&
        |Runs(log)| == |csv| - 1 &&
        forall i :: 1 <= i < |csv| ==>
          RowRuns(engine, store[key], Dedup(csv[0]), csv[i]) &&
          Runs(log)[i - 1] == RunOf(engine, store[key], Dedup(csv[0]), csv[i])
  {
    var r := CsvLoad(engine, store[key], BatchSizeOf(batch).value, csv);
    CsvPastChecks(engine, store, key, csv, delim, batch);
    LoadReport(engine, store[key], BatchSizeOf(batch).value, csv);
    RunsAppend(r.log, Commit);
  }

  lemma LoadReport(engine: Engine, query: string, size: int, csv: seq<seq<string>>)
    requires |csv| > 0
    ensures var r := CsvLoad(engine, query, size, csv);
      r.fault.None? ==>
        r.stats == Totals(Runs(r.log)) &&
        |Runs(r.log)| == |csv| - 1 &&
        forall i :: 1 <= i < |csv| ==>
          RowRuns(engine, query, Dedup(csv[0]), csv[i]) &&
          Runs(r.log)[i - 1] == RunOf(engine, query, Dedup(csv[0]), csv[i])
  {
    LoadTotals(engine, query, size, csv);
    var rows := csv[1..];
    var r := CsvLoad(engine, query, size, csv);
    IngestOrder(engine, query, size, Uniform(Dedup(csv[0]), Null), Uniform(StatNames, 0), rows);
    assert forall i :: 1 <= i < |csv| ==> csv[i] == rows[i - 1];
  }

  lemma LoadTotals(engine: Engine, query: string, size: int, csv: seq<seq<string>>)
    requires |csv| > 0
    ensures var r := CsvLoad(engine, query, size, csv);
      r.stats == Totals(Runs(r.log))
  {
    var r := CsvLoad(engine, query, size, csv);
    var stats := Uniform(StatNames, 0);
    IngestTotals(engine, query, size, Uniform(Dedup(csv[0]), Null), stats, csv[1..]);
    var t := Totals(Runs(r.log));
    assert Keys(r.stats) == Keys(t);
    forall j | 0 <= j < |StatNames| ensures r.stats[j] == t[j] {
      assert r.stats[j].0 == Keys(r.stats)[j] == t[j].0;
    }
  }

  /** With a non-zero batch size, a commit follows every |batch| executed
      rows; a successful upload commits once more at the end, a failed one
      rolls back, losing the rows run since the last commit. */
  lemma CsvCommits(engine: Engine, store: Store, key: string, csv: seq<seq<string>>,
                   delim: Option<string>, batch: Option<string>)
    requires BatchSizeOf(batch).Ok? && BatchSizeOf(batch).value != 0
    requires key in store && DelimiterOf(delim).Ok? && |csv| > 0
    ensures var (resp, log) := CsvOutcome(engine, store, key, csv, delim, batch);
      var n, b := |Runs(log)|, Abs(BatchSizeOf(batch).value);
      n <= |csv| - 1 &&
      (resp.OkJson? ==> n == |csv| - 1 && log[|log| - 1] == Commit &&
                        CommitPoints(log) == Multiples(n, b) + [n]) &&
      (!resp.OkJson? ==> log[|log| - 1] == Rollback && CommitPoints(log) == Multiples(n, b))
  {
    var size, query, rows := BatchSizeOf(batch).value, store[key], csv[1..];
    var header, stats := Uniform(Dedup(csv[0]), Null), Uniform(StatNames, 0);
    var r := CsvLoad(engine, query, size, csv);
    CsvPastChecks(engine, store, key, csv, delim, batch);
    IngestCount(engine, query, size, header, stats, rows);
    IngestCommits(engine, query, size, header, stats, rows);
    RunsAppend(r.log, Commit);
    RunsAppend(r.log, Rollback);
  }

  /** Nothing is run, and nothing committed, when the request is turned
      away before the loop: a bad batch size (before any transaction), an
      unknown key, an empty delimiter or an empty body (these three roll
      the open transaction back). */
  lemma CsvRejected(engine: Engine, store: Store, key: string, csv: seq<seq<string>>,
                    delim: Option<string>, batch: Option<string>)
    ensures var (resp, log) := CsvOutcome(engine, store, key, csv, delim, batch);
      (BatchSizeOf(batch).Err? ==> resp == ServerError(BatchSizeOf(batch).error) && log == []) &&
      (BatchSizeOf(batch).Ok? && key !in store ==> resp == NotFound && log == [Rollback]) &&
      (BatchSizeOf(batch).Ok? && key in store && DelimiterOf(delim).Err? ==>
        resp == ServerError(StringIndex(0)) && log == [Rollback]) &&
      (BatchSizeOf(batch).Ok? && key in store && DelimiterOf(delim).Ok? && |csv| == 0 ==>
        resp == ServerError(NoHeader) && log == [Rollback])
  {
  }

  /** Every execution contributes the same: the totals are that many times
      its contribution. */
  lemma {:induction false} TotalConstant(runs: seq<(map<string, Value>, Execution)>, e: Execution, j: nat)
    requires j < |StatNames|
    requires forall i :: 0 <= i < |runs| ==> runs[i].1 == e
    ensures Total(runs, j) == |runs| * Contribution(e)[j]
  {
    if |runs| > 0 {
      TotalConstant(runs[..|runs| - 1], e, j);
    }
  }

  /** An engine that creates one node with one property per call and
      returns it as one row, as `create (n {name:{name}}) return n` does. */
  function CreateOne(query: string, params: map<string, Value>): Result<Execution, string>
  {
    Ok(Execution([[("n", Null)]], Some(QueryStats(1, 0, 0, 0, 0, 0, 1, true))))
  }

  /** Three names uploaded with the default batch size and delimiter: three
      nodes and three properties created, three rows returned, one commit at
      the end. */
  lemma CsvCreateExample()
    ensures var (resp, log) := CsvOutcome(CreateOne, map["create" := "create (n {name:{name}}) return n"], "create",
                                          [["name"], ["foo"], ["bar"], ["foobar"]], None, None);
      resp == OkJson(StatsJson([("nodes_created", 3), ("nodes_deleted", 0),
                                ("relationships_created", 0), ("relationships_deleted", 0),
                                ("labels_added", 0), ("labels_removed", 0),
                                ("properties_set", 3), ("rows", 3)])) &&
      CommitPoints(log) == [3]
  {
    var store := map["create" := "create (n {name:{name}}) return n"];
    var csv := [["name"], ["foo"], ["bar"], ["foobar"]];
    assert Dedup(["name"]) == ["name"] by { assert ["name"][..0] == []; }
    forall i | 1 <= i < |csv| ensures RowRuns(CreateOne, store["create"], ["name"], csv[i]) {
      StringIsKept(csv[i][0]);
    }
    CsvSucceeds(CreateOne, store, "create", csv, None, None);
    CsvReport(CreateOne, store, "create", csv, None, None);
    CsvCommits(CreateOne, store, "create", csv, None, None);
    var (resp, log) := CsvOutcome(CreateOne, store, "create", csv, None, None);
    var runs := Runs(log);
    forall i | 0 <= i < |runs| ensures runs[i].1 == CreateOne("", map[]).value {
      assert runs[i] == RunOf(CreateOne, store["create"], ["name"], csv[i + 1]);
    }
    CreateOneTotals(runs);
    assert resp == OkJson(StatsJson(Totals(runs)));
    assert Multiples(3, 30000) == [];
  }

  /** The same three names with a batch size of 2: a commit after the
      second row, and the final one after the third. */
  lemma CsvBatchExample()
    ensures var (resp, log) := CsvOutcome(CreateOne, map["create" := "create (n {name:{name}}) return n"], "create",
                                          [["name"], ["foo"], ["bar"], ["foobar"]], None, Some("2"));
      resp.OkJson? && CommitPoints(log) == [2, 3]
  {
    BatchSizeExamples();
    CsvBatchOfTwo(Some("2"));
  }

  /** The three-row upload with any batch parameter that reads as 2. */
  lemma CsvBatchOfTwo(batch: Option<string>)
    requires BatchSizeOf(batch) == Ok(2)
    ensures var (resp, log) := CsvOutcome(CreateOne, map["create" := "create (n {name:{name}}) return n"], "create",
                                          [["name"], ["foo"], ["bar"], ["foobar"]], None, batch);
      resp.OkJson? && CommitPoints(log) == [2, 3]
  {
    ThreeNamesInBatches(map["create" := "create (n {name:{name}}) return n"],
                        [["name"], ["foo"], ["bar"], ["foobar"]], batch);
  }

  lemma ThreeNamesInBatches(store: Store, csv: seq<seq<string>>, batch: Option<string>)
    requires store == map["create" := "create (n {name:{name}}) return n"]
    requires csv == [["name"], ["foo"], ["bar"], ["foobar"]] && BatchSizeOf(batch) == Ok(2)
    ensures var (resp, log) := CsvOutcome(CreateOne, store, "create", csv, None, batch);
      resp.OkJson? && CommitPoints(log) == [2, 3]
  {
    ThreeNamesSucceed(store, csv, batch);
    var (resp, log) := CsvOutcome(CreateOne, store, "create", csv, None, batch);
    CsvCommits(CreateOne, store, "create", csv, None, batch);
    assert |Runs(log)| == 3;
    assert Multiples(3, 2) == [2];
  }

  lemma ThreeNamesSucceed(store: Store, csv: seq<seq<string>>, batch: Option<string>)
    requires store == map["create" := "create (n {name:{name}}) return n"]
    requires csv == [["name"], ["foo"], ["bar"], ["foobar"]] && BatchSizeOf(batch) == Ok(2)
    ensures CsvOutcome(CreateOne, store, "create", csv, None, batch).0.OkJson?
  {
    ThreeNamesRun(store["create"], csv);
    CsvSucceeds(CreateOne, store, "create", csv, None, batch);
  }

  /** Each of the three names runs under the one-column header. */
  lemma ThreeNamesRun(query: string, csv: seq<seq<string>>)
    requires csv == [["name"], ["foo"], ["bar"], ["foobar"]]
    ensures forall i :: 1 <= i < |csv| ==> RowRuns(CreateOne, query, Dedup(csv[0]), csv[i])
  {
    assert Dedup(["name"]) == ["name"] by { assert ["name"][..0] == []; }
    forall i | 1 <= i < |csv| ensures RowRuns(CreateOne, query, ["name"], csv[i]) {
      StringIsKept(csv[i][0]);
    }
  }

  /** Three executions of `CreateOne` add up to three of everything it
      reports. */
  lemma CreateOneTotals(runs: seq<(map<string, Value>, Execution)>)
    requires |runs| == 3 && forall i :: 0 <= i < |runs| ==> runs[i].1 == CreateOne("", map[]).value
    ensures Totals(runs) == [("nodes_created", 3), ("nodes_deleted", 0),
                             ("relationships_created", 0), ("relationships_deleted", 0),
                             ("labels_added", 0), ("labels_removed", 0),
                             ("properties_set", 3), ("rows", 3)]
  {
    var e := CreateOne("", map[]).value;
    assert Contribution(e) == [1, 0, 0, 0, 0, 0, 1, 1];
    forall j | 0 <= j < |StatNames| ensures Total(runs, j) == 3 * Contribution(e)[j] {
      TotalConstant(runs, e, j);
    }
  }

  /** A text that is neither a boolean nor a number is passed on as is. */
  lemma StringIsKept(t: string)
    requires t in {"foo", "bar", "foobar"}
    ensures ConvertIfNeeded(t) == Ok(Str(t))
  {
    assert t[0] != '-' && t[0] != '+' && t[0] != '.' && !IsDigit(t[0]);
  }

  /** A data row shorter than the header fails on its first missing
      column, before anything runs. */
  lemma CsvShortRowExample()
    ensures CsvOutcome(CreateOne, map["k" := "create (n {name:{name}, age:{age}}) return n"], "k",
                       [["name", "age"], ["foo"]], None, None) == (ServerError(ArrayIndex(1)), [Rollback])
  {
    var store := map["k" := "create (n {name:{name}, age:{age}}) return n"];
    var csv := [["name", "age"], ["foo"]];
    assert Dedup(["name", "age"]) == ["name", "age"] by {
      assert ["name", "age"][..1] == ["name"] && ["name"][..0] == [];
    }
    StringIsKept("foo");
    var header := Uniform(["name", "age"], Null);
    var filled := header[0 := ("name", Prim(Str("foo")))];
    assert FillFrom(header, ["foo"], 0) == FillFrom(filled, ["foo"], 1) == (filled, Some(ArrayIndex(1)));
    assert Attempt(CreateOne, store["k"], header, ["foo"]) == (filled, Err(ArrayIndex(1)));
    assert csv[1..] == [["foo"]] && [["foo"]][..0] == [];
    var start := Start(header, Uniform(StatNames, 0));
    var r := Step(CreateOne, store["k"], 30000, start, ["foo"]);
    assert r.fault == Some(ArrayIndex(1)) && r.log == [];
    assert Ingest(CreateOne, store["k"], 30000, start, [["foo"]]) == r;
    assert CsvLoad(CreateOne, store["k"], 30000, csv) == r;
    assert BatchSizeOf(None).value == 30000 && DelimiterOf(None).Ok?;
    CsvPastChecks(CreateOne, store, "k", csv, None, None);
    var r2 := CsvLoad(CreateOne, store["k"], BatchSizeOf(None).value, csv);
    assert r2 == r;
    assert CsvOutcome(CreateOne, store, "k", csv, None, None) == (ServerError(r.fault.value), r.log + [Rollback]);
    assert r.log + [Rollback] == [Rollback];
  }
}
