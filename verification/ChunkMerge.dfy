/** Merging the matrices of consecutive chunks, and chunked against unchunked execution.
    A series is identified by the key of its labelset; sample values are opaque. */
module ChunkMerge {
  import opened GoBasics
  import opened Sorting
  import opened RangeChunks

  type Value = real

  datatype RangePoint = RangePoint(timestamp: int, value: Value)

  datatype RangeSeries = RangeSeries(key: string, values: seq<RangePoint>)

  type Matrix = seq<RangeSeries>

  type Table = map<string, seq<RangePoint>>

  datatype RuntimeValue = MatrixValue(series: Matrix) | OtherValue

  const NOT_INCREASING := ExecutionError("chunked range merge encountered non-increasing timestamps")
  const NOT_A_MATRIX := ExecutionError("chunked range execution requires matrix child results")

  // ---- Merging two matrices -------------------------------------------------------------

  /** None: the incoming points do not start after the existing ones. */
  function AppendRangePointsStrict(existing: seq<RangePoint>, incoming: seq<RangePoint>): Option<seq<RangePoint>> {
    if existing == [] then Some(incoming)
    else if incoming == [] then Some(existing)
    else if incoming[0].timestamp <= existing[|existing| - 1].timestamp then None
    else Some(existing + incoming)
  }

  /** The points of each labelset of a matrix; a repeated labelset keeps its last series. */
  function TableOf(m: Matrix): Table {
    if m == [] then map[] else TableOf(m[..|m| - 1])[m[|m| - 1].key := m[|m| - 1].values]
  }

  function Lookup(t: Table, key: string): seq<RangePoint> {
    if key in t then t[key] else []
  }

  function AddSeries(t: Table, s: RangeSeries): Option<Table> {
    match AppendRangePointsStrict(Lookup(t, s.key), s.values)
    case None => None
    case Some(values) => Some(t[s.key := values])
  }

  /** Every series of the right matrix appended to the table, in order. */
  function MergeInto(t: Table, right: Matrix): Option<Table> {
    if right == [] then Some(t)
    else match MergeInto(t, right[..|right| - 1])
      case None => None
      case Some(t') => AddSeries(t', right[|right| - 1])
  }

  ghost function SetToSeq(s: set<string>): (r: seq<string>)
    ensures multiset(r) == multiset(s)
  {
    if s == {} then []
    else
      var x :| x in s;
      assert multiset(s) == multiset{x} + multiset(s - {x});
      [x] + SetToSeq(s - {x})
  }

  /** The keys in increasing order. */
  ghost function SortedKeys(s: set<string>): seq<string> {
    Sort(StringLe, SetToSeq(s))
  }

  function Rows(keys: seq<string>, t: Table): Matrix {
    seq(|keys|, i requires 0 <= i < |keys| => RangeSeries(keys[i], Lookup(t, keys[i])))
  }

  ghost function MatrixOf(t: Table): Matrix {
    Rows(SortedKeys(t.Keys), t)
  }

  ghost function Merged(left: Matrix, right: Matrix): Result<Matrix, EvalError> {
    if left == [] then Ok(right)
    else match MergeInto(TableOf(left), right)
      case None => Err(NOT_INCREASING)
      case Some(t) => Ok(MatrixOf(t))
  }

  method MergeMatrixValues(left: Matrix, right: Matrix) returns (r: Result<Matrix, EvalError>)
    ensures r == Merged(left, right)
  {
    if |left| == 0 {
      return Ok(right);
    }
    var merged: Table := map[];
    for i := 0 to |left|
      invariant merged == TableOf(left[..i])
    {
      assert left[..i + 1][..i] == left[..i];
      merged := merged[left[i].key := left[i].values];
    }
    assert left[..|left|] == left;
    for i := 0 to |right|
      invariant Some(merged) == MergeInto(TableOf(left), right[..i])
    {
      assert right[..i + 1][..i] == right[..i];
      var series := right[i];
      match AppendRangePointsStrict(Lookup(merged, series.key), series.values) {
        case None =>
          MergeStaysFailed(TableOf(left), right, i + 1);
          return Err(NOT_INCREASING);
        case Some(values) =>
          merged := merged[series.key := values];
      }
    }
    assert right[..|right|] == right;
    var keys := [];
    var todo := merged.Keys;
    while todo != {}
      invariant multiset(keys) + multiset(todo) == multiset(merged.Keys)
      decreases |todo|
    {
      var key :| key in todo;
      assert multiset(todo) == multiset{key} + multiset(todo - {key});
      keys := keys + [key];
      todo := todo - {key};
    }
    StringLeIsTotalOrder();
    SortIsCanonical(StringLe, keys, SetToSeq(merged.Keys));
    keys := Sort(StringLe, keys);
    return Ok(Rows(keys, merged));
  }

  lemma {:induction false} MergeStaysFailed(t: Table, right: Matrix, i: nat)
    requires i <= |right| && MergeInto(t, right[..i]).None?
    ensures MergeInto(t, right).None?
    decreases |right| - i
  {
    if i < |right| {
      assert right[..i + 1][..i] == right[..i];
      MergeStaysFailed(t, right, i + 1);
    } else {
      assert right[..i] == right;
    }
  }

  ghost predicate UniqueKeys(m: Matrix) {
    forall i, j | 0 <= i < j < |m| :: m[i].key != m[j].key
  }

  ghost predicate SortedByKey(m: Matrix) {
    forall i, j | 0 <= i < j < |m| :: StringLe(m[i].key, m[j].key) && m[i].key != m[j].key
  }

  lemma SortedKeysAreTheSet(s: set<string>)
    ensures multiset(SortedKeys(s)) == multiset(s)
    ensures SortedBy(StringLe, SortedKeys(s))
  {
    StringLeIsTotalOrder();
    SortSorts(StringLe, SetToSeq(s));
  }

  lemma DistinctKeys(keys: seq<string>, s: set<string>)
    requires multiset(keys) == multiset(s)
    ensures forall i, j | 0 <= i < j < |keys| :: keys[i] != keys[j]
    ensures forall key :: key in keys <==> key in s
  {
    forall i, j | 0 <= i < j < |keys|
      ensures keys[i] != keys[j]
    {
      assert keys == keys[..j] + keys[j..];
      assert keys[i] in multiset(keys[..j]) && keys[j] in multiset(keys[j..]);
      assert multiset(keys)[keys[i]] <= 1;
    }
    forall key
      ensures key in keys <==> key in s
    {
      assert key in keys <==> key in multiset(keys);
    }
  }

  lemma {:induction false} TableOfRows(keys: seq<string>, t: Table)
    ensures forall key :: key in TableOf(Rows(keys, t)) <==> key in keys
    ensures forall key | key in keys :: TableOf(Rows(keys, t))[key] == Lookup(t, key)
  {
    if keys != [] {
      var front := keys[..|keys| - 1];
      TableOfRows(front, t);
      assert Rows(keys, t)[..|keys| - 1] == Rows(front, t);
      assert keys == front + [keys[|keys| - 1]];
    }
  }

  /** Listing a table by key loses nothing: the list is sorted, without repetition, and its table
      is the table. */
  lemma MatrixOfTable(t: Table)
    ensures TableOf(MatrixOf(t)) == t
    ensures UniqueKeys(MatrixOf(t)) && SortedByKey(MatrixOf(t))
  {
    var keys := SortedKeys(t.Keys);
    SortedKeysAreTheSet(t.Keys);
    DistinctKeys(keys, t.Keys);
    TableOfRows(keys, t);
  }

  // ---- A child that is pointwise in time ------------------------------------------------

  /** What a pointwise plan denotes: at each time a value for each labelset present then. */
  type Denotation = int -> map<string, Value>

  ghost function Samples(f: Denotation, grid: seq<int>, key: string): seq<RangePoint> {
    if grid == [] then []
    else
      var rest := Samples(f, grid[1..], key);
      if key in f(grid[0]) then [RangePoint(grid[0], f(grid[0])[key])] + rest else rest
  }

  /** The matrix is the denotation on the grid. A labelset absent from the whole grid may be
      missing or be there without points. */
  ghost predicate Represents(m: Matrix, f: Denotation, grid: seq<int>) {
    && UniqueKeys(m)
    && forall key :: Lookup(TableOf(m), key) == Samples(f, grid, key)
  }

  ghost predicate Increasing(grid: seq<int>) {
    forall i, j | 0 <= i < j < |grid| :: grid[i] < grid[j]
  }

  lemma {:induction false} SamplesConcat(f: Denotation, a: seq<int>, b: seq<int>, key: string)
    ensures Samples(f, a + b, key) == Samples(f, a, key) + Samples(f, b, key)
  {
    if a == [] {
      assert a + b == b;
    } else {
      assert (a + b)[1..] == a[1..] + b;
      SamplesConcat(f, a[1..], b, key);
    }
  }

  lemma {:induction false} SamplesLieOnTheGrid(f: Denotation, grid: seq<int>, key: string)
    ensures forall p | p in Samples(f, grid, key) :: p.timestamp in grid
  {
    if grid != [] {
      SamplesLieOnTheGrid(f, grid[1..], key);
    }
  }

  /** Points of a later stretch of the grid can always be appended. */
  lemma LaterSamplesAppend(f: Denotation, a: seq<int>, b: seq<int>, key: string)
    requires Increasing(a + b)
    ensures AppendRangePointsStrict(Samples(f, a, key), Samples(f, b, key)) == Some(Samples(f, a + b, key))
  {
    SamplesConcat(f, a, b, key);
    var before, after := Samples(f, a, key), Samples(f, b, key);
    assert [] + after == after && before + [] == before;
    if before != [] && after != [] {
      SamplesLieOnTheGrid(f, a, key);
      SamplesLieOnTheGrid(f, b, key);
      assert before[|before| - 1].timestamp in a && after[0].timestamp in b;
      InOrder(a, b, before[|before| - 1].timestamp, after[0].timestamp);
    }
  }

  lemma InOrder(a: seq<int>, b: seq<int>, x: int, y: int)
    requires Increasing(a + b) && x in a && y in b
    ensures x < y
  {
    var i :| 0 <= i < |a| && a[i] == x;
    var j :| 0 <= j < |b| && b[j] == y;
    assert (a + b)[i] == x && (a + b)[|a| + j] == y;
  }

  lemma {:induction false} LookupAbsent(m: Matrix, key: string)
    requires forall i | 0 <= i < |m| :: m[i].key != key
    ensures key !in TableOf(m)
  {
    if m != [] {
      LookupAbsent(m[..|m| - 1], key);
    }
  }

  /** Merging never fails when every labelset's new points come later, and it appends them. */
  lemma {:induction false} MergeAppends(t: Table, right: Matrix)
    requires UniqueKeys(right)
    requires forall key :: AppendRangePointsStrict(Lookup(t, key), Lookup(TableOf(right), key)).Some?
    ensures MergeInto(t, right).Some?
    ensures forall key :: Lookup(MergeInto(t, right).value, key) == Lookup(t, key) + Lookup(TableOf(right), key)
  {
    if right != [] {
      var front, last := right[..|right| - 1], right[|right| - 1];
      LookupAbsent(front, last.key);
      forall key
        ensures AppendRangePointsStrict(Lookup(t, key), Lookup(TableOf(front), key)).Some?
      {
        assert key != last.key ==> Lookup(TableOf(front), key) == Lookup(TableOf(right), key);
      }
      MergeAppends(t, front);
      var before := MergeInto(t, front).value;
      assert Lookup(before, last.key) == Lookup(t, last.key) + [] == Lookup(t, last.key);
      assert Lookup(TableOf(right), last.key) == last.values;
      AppendIsConcat(Lookup(t, last.key), last.values);
    }
  }

  lemma AppendIsConcat(a: seq<RangePoint>, b: seq<RangePoint>)
    requires AppendRangePointsStrict(a, b).Some?
    ensures AppendRangePointsStrict(a, b) == Some(a + b)
  {
    assert [] + b == b && a + [] == a;
  }

  /** One merge step: representing a grid, then the next stretch of it. */
  lemma MergeRepresents(left: Matrix, right: Matrix, f: Denotation, a: seq<int>, b: seq<int>)
    requires Represents(left, f, a) && Represents(right, f, b) && Increasing(a + b)
    ensures Merged(left, right).Ok? && Represents(Merged(left, right).value, f, a + b)
  {
    forall key
      ensures AppendRangePointsStrict(Lookup(TableOf(left), key), Lookup(TableOf(right), key))
          == Some(Samples(f, a + b, key))
    {
      LaterSamplesAppend(f, a, b, key);
    }
    if left != [] {
      MergeAppends(TableOf(left), right);
      var t := MergeInto(TableOf(left), right).value;
      MatrixOfTable(t);
      forall key
        ensures Lookup(t, key) == Samples(f, a + b, key)
      {
        AppendIsConcat(Lookup(TableOf(left), key), Lookup(TableOf(right), key));
      }
    }
  }

  // ---- What one merge does, series by series --------------------------------------------

  /** The table of a matrix without repeated labelsets holds each series under its labelset, and
      nothing else. */
  lemma {:induction false} TableHolds(m: Matrix)
    requires UniqueKeys(m)
    ensures forall i | 0 <= i < |m| :: m[i].key in TableOf(m) && TableOf(m)[m[i].key] == m[i].values
    ensures forall key | key in TableOf(m) :: exists i :: 0 <= i < |m| && m[i].key == key
  {
    if m != [] {
      var front, last := m[..|m| - 1], m[|m| - 1];
      TableHolds(front);
      forall key | key in TableOf(m)
        ensures exists i :: 0 <= i < |m| && m[i].key == key
      {
        if key == last.key {
          assert m[|m| - 1].key == key;
        } else {
          assert key in TableOf(front);
          var i :| 0 <= i < |front| && front[i].key == key;
          assert m[i].key == key;
        }
      }
    }
  }

  /** The new points of a labelset do not start after its old ones. */
  predicate Overlaps(existing: seq<RangePoint>, incoming: seq<RangePoint>) {
    existing != [] && incoming != [] && incoming[0].timestamp <= existing[|existing| - 1].timestamp
  }

  /** Some labelset's new points do not start after its old ones. */
  ghost predicate SomeOverlap(t: Table, right: Matrix) {
    exists j :: 0 <= j < |right| && Overlaps(Lookup(t, right[j].key), right[j].values)
  }

  lemma SomeOverlapLast(t: Table, front: Matrix, last: RangeSeries)
    ensures SomeOverlap(t, front + [last]) <==> SomeOverlap(t, front) || Overlaps(Lookup(t, last.key), last.values)
  {
    var right := front + [last];
    assert forall j | 0 <= j < |front| :: right[j] == front[j];
    assert right[|front|] == last;
  }

  lemma MergeIntoFails(t: Table, front: Matrix, last: RangeSeries)
    requires MergeInto(t, front).None?
    ensures MergeInto(t, front + [last]).None?
  {
    assert (front + [last])[..|front|] == front;
  }

  lemma {:induction false} MergeIntoExactly(t: Table, right: Matrix)
    requires UniqueKeys(right)
    ensures MergeInto(t, right).None? <==> SomeOverlap(t, right)
    ensures MergeInto(t, right).Some? ==>
              && MergeInto(t, right).value.Keys == t.Keys + TableOf(right).Keys
              && forall key :: Lookup(MergeInto(t, right).value, key) == Lookup(t, key) + Lookup(TableOf(right), key)
  {
    if right != [] {
      var front, last := right[..|right| - 1], right[|right| - 1];
      MergeIntoExactly(t, front);
      LookupAbsent(front, last.key);
      assert right == front + [last];
      SomeOverlapLast(t, front, last);
      if SomeOverlap(t, front) {
        MergeIntoFails(t, front, last);
      } else {
        MergeIntoLast(t, front, last);
      }
    }
  }

  lemma MergeIntoLast(t: Table, front: Matrix, last: RangeSeries)
    requires MergeInto(t, front).Some? && last.key !in TableOf(front)
    requires MergeInto(t, front).value.Keys == t.Keys + TableOf(front).Keys
    requires forall key :: Lookup(MergeInto(t, front).value, key) == Lookup(t, key) + Lookup(TableOf(front), key)
    ensures var r, table := MergeInto(t, front + [last]), TableOf(front + [last]);
            && (r.None? <==> Overlaps(Lookup(t, last.key), last.values))
            && (r.Some? ==>
                  && r.value.Keys == t.Keys + table.Keys
                  && forall key :: Lookup(r.value, key) == Lookup(t, key) + Lookup(table, key))
  {
    assert (front + [last])[..|front|] == front;
    var before := MergeInto(t, front).value;
    assert Lookup(before, last.key) == Lookup(t, last.key) + [] == Lookup(t, last.key);
    if !Overlaps(Lookup(t, last.key), last.values) {
      AppendIsConcat(Lookup(t, last.key), last.values);
    }
  }

  /** One merge of matrices without repeated labelsets: the right matrix as it is when the left is
      empty; else an error exactly when some labelset's new points do not start after its old ones; else
      every labelset of either matrix once, with its old points followed by its new ones. */
  lemma MergedExactly(left: Matrix, right: Matrix)
    requires UniqueKeys(left) && UniqueKeys(right)
    ensures left == [] ==> Merged(left, right) == Ok(right)
    ensures left != [] ==>
              (Merged(left, right) == Err(NOT_INCREASING) <==>
                 exists i, j :: 0 <= i < |left| && 0 <= j < |right| && left[i].key == right[j].key
                                && Overlaps(left[i].values, right[j].values))
    ensures left != [] && Merged(left, right) != Err(NOT_INCREASING) ==>
              && Merged(left, right).Ok? && UniqueKeys(Merged(left, right).value)
              && var merged := TableOf(Merged(left, right).value);
                 && merged.Keys == TableOf(left).Keys + TableOf(right).Keys
                 && forall key :: Lookup(merged, key) == Lookup(TableOf(left), key) + Lookup(TableOf(right), key)
  {
    if left != [] {
      TableHolds(left);
      MergeIntoExactly(TableOf(left), right);
      if MergeInto(TableOf(left), right).Some? {
        MatrixOfTable(MergeInto(TableOf(left), right).value);
        forall i, j | 0 <= i < |left| && 0 <= j < |right| && left[i].key == right[j].key
          ensures !Overlaps(left[i].values, right[j].values)
        {
          assert Lookup(TableOf(left), right[j].key) == left[i].values;
        }
      } else {
        var j :| 0 <= j < |right| && Overlaps(Lookup(TableOf(left), right[j].key), right[j].values);
        var i :| 0 <= i < |left| && left[i].key == right[j].key;
        assert Overlaps(left[i].values, right[j].values);
      }
    }
  }

  // ---- Chunked execution ----------------------------------------------------------------

  /** The child plan: what it answers for given evaluation parameters. */
  type Plan = EvalParams -> Result<RuntimeValue, EvalError>

  /** Executing the chunks in order and merging as they arrive. */
  ghost function MergedRun(child: Plan, chunks: seq<EvalParams>): Result<Matrix, EvalError> {
    if chunks == [] then Ok([])
    else
      var before := MergedRun(child, chunks[..|chunks| - 1]);
      if before.Err? then before
      else match child(chunks[|chunks| - 1])
        case Err(e) => Err(InContext("executing chunked range subquery", e))
        case Ok(OtherValue) => Err(NOT_A_MATRIX)
        case Ok(MatrixValue(series)) =>
          match Merged(before.value, series)
          case Err(e) => Err(InContext("merging chunked range subquery", e))
          case Ok(m) => Ok(m)
  }

  ghost function Chunked(child: Plan, chunkPoints: int, params: EvalParams): Result<RuntimeValue, EvalError> {
    if params.mode != RangeMode then child(params)
    else if params.step <= 0 then Err(InContext("building range chunks", BAD_STEP))
    else if chunkPoints <= 0 then Err(InContext("building range chunks", BAD_CHUNK_POINTS))
    else match MergedRun(child, Split(params, chunkPoints))
      case Err(e) => Err(e)
      case Ok(m) => Ok(MatrixValue(m))
  }

  lemma {:induction false} RunStaysFailed(child: Plan, chunks: seq<EvalParams>, i: nat)
    requires i <= |chunks| && MergedRun(child, chunks[..i]).Err?
    ensures MergedRun(child, chunks) == MergedRun(child, chunks[..i])
    decreases |chunks| - i
  {
    if i < |chunks| {
      assert chunks[..i + 1][..i] == chunks[..i];
      RunStaysFailed(child, chunks, i + 1);
    } else {
      assert chunks[..i] == chunks;
    }
  }

  /** `trace` starts empty-handed and holds what is merged after each further chunk. */
  ghost predicate MergeTrace(child: Plan, chunks: seq<EvalParams>, trace: seq<Matrix>) {
    && 1 <= |trace| <= |chunks| + 1 && trace[0] == []
    && forall j | 0 <= j < |trace| - 1 ::
         && child(chunks[j]).Ok? && child(chunks[j]).value.MatrixValue?
         && Merged(trace[j], child(chunks[j]).value.series) == Ok(trace[j + 1])
  }

  /** Either every chunk was answered by a matrix and merged, and the result is the last merge; or the
      result is the failure of the first chunk that was not, under its context. */
  ghost predicate Explains(
      child: Plan, chunks: seq<EvalParams>, trace: seq<Matrix>, r: Result<RuntimeValue, EvalError>)
  {
    && MergeTrace(child, chunks, trace)
    && var n := |trace| - 1;
       if n == |chunks| then r == Ok(MatrixValue(trace[n]))
       else match child(chunks[n])
         case Err(e) => r == Err(InContext("executing chunked range subquery", e))
         case Ok(OtherValue) => r == Err(ExecutionError("chunked range execution requires matrix child results"))
         case Ok(MatrixValue(series)) =>
           && Merged(trace[n], series).Err?
           && r == Err(InContext("merging chunked range subquery", Merged(trace[n], series).error))
  }

  function AsValue(r: Result<Matrix, EvalError>): Result<RuntimeValue, EvalError> {
    if r.Err? then Err(r.error) else Ok(MatrixValue(r.value))
  }

  /** A failure stays explained when a chunk is added behind it. */
  lemma FailureStaysExplained(child: Plan, front: seq<EvalParams>, last: EvalParams, trace: seq<Matrix>, e: EvalError)
    requires Explains(child, front, trace, Err(e))
    ensures Explains(child, front + [last], trace, Err(e))
  {
    assert forall j | 0 <= j < |front| :: (front + [last])[j] == front[j];
  }

  /** What the last chunk makes of an explained success. */
  lemma LastChunkExplains(child: Plan, front: seq<EvalParams>, last: EvalParams, trace: seq<Matrix>, m: Matrix)
    returns (trace': seq<Matrix>)
    requires Explains(child, front, trace, Ok(MatrixValue(m)))
    ensures var r := match child(last)
                     case Err(e) => Err(InContext("executing chunked range subquery", e))
                     case Ok(OtherValue) => Err(NOT_A_MATRIX)
                     case Ok(MatrixValue(series)) =>
                       match Merged(m, series)
                       case Err(e) => Err(InContext("merging chunked range subquery", e))
                       case Ok(next) => Ok(MatrixValue(next));
            Explains(child, front + [last], trace', r)
  {
    assert forall j | 0 <= j < |front| :: (front + [last])[j] == front[j];
    trace' := trace;
    if child(last).Ok? && child(last).value.MatrixValue? && Merged(m, child(last).value.series).Ok? {
      trace' := trace + [Merged(m, child(last).value.series).value];
    }
  }

  lemma {:induction false} RunIsExplained(child: Plan, chunks: seq<EvalParams>) returns (trace: seq<Matrix>)
    ensures Explains(child, chunks, trace, AsValue(MergedRun(child, chunks)))
  {
    if chunks == [] {
      trace := [[]];
    } else {
      var front, last := chunks[..|chunks| - 1], chunks[|chunks| - 1];
      assert chunks == front + [last];
      trace := RunIsExplained(child, front);
      var before := MergedRun(child, front);
      if before.Err? {
        FailureStaysExplained(child, front, last, trace, before.error);
      } else {
        trace := LastChunkExplains(child, front, last, trace, before.value);
      }
    }
  }

  /** The loop over the chunks. */
  method RunChunks(child: Plan, chunks: seq<EvalParams>) returns (r: Result<Matrix, EvalError>)
    ensures exists trace :: Explains(child, chunks, trace, AsValue(r))
    ensures r == MergedRun(child, chunks)
  {
    ghost var trace := RunIsExplained(child, chunks);
    var merged := [];
    for i := 0 to |chunks|
      invariant MergedRun(child, chunks[..i]) == Ok(merged)
    {
      assert chunks[..i + 1][..i] == chunks[..i];
      var value := child(chunks[i]);
      if value.Err? {
        RunStaysFailed(child, chunks, i + 1);
        return Err(InContext("executing chunked range subquery", value.error));
      }
      if !value.value.MatrixValue? {
        RunStaysFailed(child, chunks, i + 1);
        return Err(NOT_A_MATRIX);
      }
      var next := MergeMatrixValues(merged, value.value.series);
      if next.Err? {
        RunStaysFailed(child, chunks, i + 1);
        return Err(InContext("merging chunked range subquery", next.error));
      }
      merged := next.value;
    }
    assert chunks[..|chunks|] == chunks;
    return Ok(merged);
  }

  method ExecuteChunked(child: Plan, chunkPoints: int, params: EvalParams) returns (r: Result<RuntimeValue, EvalError>)
    ensures params.mode != RangeMode ==> r == child(params)
    ensures params.mode == RangeMode && params.step <= 0 ==> r == Err(InContext("building range chunks", BAD_STEP))
    ensures params.mode == RangeMode && params.step > 0 && chunkPoints <= 0 ==>
              r == Err(InContext("building range chunks", BAD_CHUNK_POINTS))
    ensures params.mode == RangeMode && params.step > 0 && chunkPoints > 0 ==>
              exists trace :: Explains(child, Split(params, chunkPoints), trace, r)
    ensures r == Chunked(child, chunkPoints, params)
  {
    if params.mode != RangeMode {
      return child(params);
    }
    var split := SplitRangeIntoChunks(params, chunkPoints);
    if split.Err? {
      return Err(InContext("building range chunks", split.error));
    }
    var merged := RunChunks(child, split.value);
    return AsValue(merged);
  }

  /** A success has seen a matrix for every chunk; the first chunk that fails, or answers no matrix, or
      cannot be merged, decides a failure, whatever the later ones would have answered. */
  lemma ChunkFailuresSurface(
      child: Plan, chunks: seq<EvalParams>, trace: seq<Matrix>, r: Result<RuntimeValue, EvalError>)
    requires Explains(child, chunks, trace, r)
    ensures r.Ok? ==> forall i | 0 <= i < |chunks| :: child(chunks[i]).Ok? && child(chunks[i]).value.MatrixValue?
    ensures forall i | 0 <= i < |chunks| && child(chunks[i]).Err? ::
              && r.Err?
              && (i < |trace| ==> r == Err(InContext("executing chunked range subquery", child(chunks[i]).error)))
    ensures forall i | 0 <= i < |chunks| && child(chunks[i]).Ok? && !child(chunks[i]).value.MatrixValue? ::
              r.Err? && (i < |trace| ==> r == Err(NOT_A_MATRIX))
  {
  }

  /** A non-empty part of the range, or the whole range. */
  predicate PartOf(chunk: EvalParams, params: EvalParams) {
    || chunk == params
    || (chunk == params.(start := chunk.start, end := chunk.end)
        && params.start <= chunk.start <= chunk.end <= params.end)
  }

  /** On the range and on every non-empty part of it the child answers the denotation on that part's
      grid: what it says about a time does not depend on where the part starts or ends. */
  ghost predicate PointwiseChild(child: Plan, f: Denotation, params: EvalParams)
    requires params.step > 0
  {
    forall p | PartOf(p, params) ::
      child(p).Ok? && child(p).value.MatrixValue? && Represents(child(p).value.series, f, Grid(p.start, p.end, p.step))
  }

  lemma {:induction false} GridsConcat(a: seq<EvalParams>, b: seq<EvalParams>)
    requires forall i | 0 <= i < |a| :: a[i].step > 0
    requires forall i | 0 <= i < |b| :: b[i].step > 0
    ensures Grids(a + b) == Grids(a) + Grids(b)
  {
    if a == [] {
      assert a + b == b;
    } else {
      assert (a + b)[1..] == a[1..] + b;
      GridsConcat(a[1..], b);
    }
  }

  lemma {:induction false} RunRepresents(child: Plan, f: Denotation, params: EvalParams, chunks: seq<EvalParams>)
    requires params.step > 0 && PointwiseChild(child, f, params)
    requires forall i | 0 <= i < |chunks| :: PartOf(chunks[i], params) && chunks[i].step > 0
    requires Increasing(Grids(chunks))
    ensures MergedRun(child, chunks).Ok? && Represents(MergedRun(child, chunks).value, f, Grids(chunks))
  {
    if chunks != [] {
      var front, last := chunks[..|chunks| - 1], chunks[|chunks| - 1];
      assert chunks == front + [last];
      GridsConcat(front, [last]);
      assert Grids([last]) == Grid(last.start, last.end, last.step);
      IncreasingPrefix(Grids(front), Grids([last]));
      RunRepresents(child, f, params, front);
      assert PartOf(last, params);
      MergeRepresents(MergedRun(child, front).value, child(last).value.series, f, Grids(front), Grids([last]));
    }
  }

  lemma IncreasingPrefix(a: seq<int>, b: seq<int>)
    requires Increasing(a + b)
    ensures Increasing(a)
  {
    forall i, j | 0 <= i < j < |a|
      ensures a[i] < a[j]
    {
      assert (a + b)[i] == a[i] && (a + b)[j] == a[j];
    }
  }

  lemma {:induction false} GridIncreases(start: int, end: int, step: int)
    requires step > 0
    ensures Increasing(Grid(start, end, step))
    ensures forall t | t in Grid(start, end, step) :: start <= t
    decreases end - start
  {
    if start <= end {
      GridIncreases(start + step, end, step);
      var rest := Grid(start + step, end, step);
      assert forall j | 0 <= j < |rest| :: rest[j] in rest;
    }
  }

  /** Chunked execution never fails on a pointwise child and answers, labelset by labelset, the
      very points of unchunked execution, for every range and every chunk size. */
  lemma ChunkingIsInvisible(child: Plan, f: Denotation, params: EvalParams, chunkPoints: int)
    requires params.mode == RangeMode && params.step > 0 && chunkPoints > 0 && PointwiseChild(child, f, params)
    ensures var chunked := Chunked(child, chunkPoints, params);
            && chunked.Ok? && chunked.value.MatrixValue? && UniqueKeys(chunked.value.series)
            && forall key :: Lookup(TableOf(chunked.value.series), key)
                == Lookup(TableOf(child(params).value.series), key)
  {
    var chunks := Split(params, chunkPoints);
    SplitCoversTheGrid(params, chunkPoints);
    GridIncreases(params.start, params.end, params.step);
    forall i | 0 <= i < |chunks|
      ensures PartOf(chunks[i], params)
    {
      assert IsChunkOf(chunks[i], params, chunkPoints);
    }
    RunRepresents(child, f, params, chunks);
    assert PartOf(params, params);
  }

  /** The series order is not preserved: one merge of two non-empty matrices sorts by key. */
  lemma MergeSortsByKey(left: Matrix, right: Matrix)
    requires left != [] && Merged(left, right).Ok?
    ensures SortedByKey(Merged(left, right).value)
  {
    MatrixOfTable(MergeInto(TableOf(left), right).value);
  }
}
