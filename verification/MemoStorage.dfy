/** The memo's storage: cached values live in arrays the callers of the memo never hold, so a
    caller that rewrites its result in place leaves every later hit as it was. */
module MemoStorage {
  import opened GoBasics
  import opened RangeChunks

  type Cell = real

  /** A runtime value. Vectors and matrix rows are slices, that is, shared mutable storage. */
  datatype RuntimeValue = ScalarValue(v: Cell) | VectorValue(samples: array<Cell>) | MatrixValue(rows: seq<array<Cell>>)

  datatype Abstract = Scalar(v: Cell) | Vector(samples: seq<Cell>) | Matrix(rows: seq<seq<Cell>>)

  ghost function Storage(value: RuntimeValue): set<object> {
    match value
    case ScalarValue(_) => {}
    case VectorValue(samples) => {samples}
    case MatrixValue(rows) => set i | 0 <= i < |rows| :: rows[i]
  }

  ghost function Meaning(value: RuntimeValue): Abstract
    reads Storage(value)
  {
    match value
    case ScalarValue(v) => Scalar(v)
    case VectorValue(samples) => Vector(samples[..])
    case MatrixValue(rows) => Matrix(seq(|rows|, i requires 0 <= i < |rows| reads Storage(value) => rows[i][..]))
  }

  method CloneRow(row: array<Cell>) returns (copy: array<Cell>)
    ensures fresh(copy) && copy[..] == row[..]
  {
    copy := new Cell[row.Length](i requires 0 <= i < row.Length reads row => row[i]);
    assert forall i | 0 <= i < row.Length :: copy[i] == row[i];
  }

  /** A deep copy: the same meaning in storage of its own. */
  method CloneRuntimeValue(value: RuntimeValue) returns (copy: RuntimeValue)
    ensures fresh(Storage(copy)) && Meaning(copy) == Meaning(value)
  {
    match value {
      case ScalarValue(_) =>
        copy := value;
      case VectorValue(samples) =>
        var row := CloneRow(samples);
        copy := VectorValue(row);
      case MatrixValue(rows) =>
        var copies: seq<array<Cell>> := [];
        for i := 0 to |rows|
          invariant |copies| == i
          invariant forall j | 0 <= j < i :: fresh(copies[j]) && copies[j][..] == rows[j][..]
        {
          var row := CloneRow(rows[i]);
          copies := copies + [row];
        }
        copy := MatrixValue(copies);
    }
  }

  /** The request evaluator's memo. */
  class RequestMemo {
    var localMemo: map<string, RuntimeValue>

    constructor ()
      ensures Contents() == map[] && Owned() == {}
    {
      localMemo := map[];
    }

    ghost function Owned(): set<object>
      reads this
    {
      set key, o | key in localMemo && o in Storage(localMemo[key]) :: o
    }

    ghost function Contents(): map<string, Abstract>
      reads this, Owned()
    {
      map key | key in localMemo :: Meaning(localMemo[key])
    }

    /** One memoised execution, where `computed` is what the inner plan returns if it is run. The
        result means what the memo holds from then on, and shares no storage with it. */
    method ExecuteMemoized(key: string, computed: Result<RuntimeValue, EvalError>)
      returns (r: Result<RuntimeValue, EvalError>)
      requires computed.Ok? ==> Storage(computed.value) !! Owned()
      modifies this
      ensures key in old(Contents()) ==> r.Ok? && Meaning(r.value) == old(Contents())[key] && fresh(Storage(r.value))
      ensures key !in old(Contents()) ==> r == computed
      ensures Contents() == if key in old(Contents()) || computed.Err? then old(Contents())
                            else old(Contents())[key := Meaning(computed.value)]
      ensures r.Ok? ==> Storage(r.value) !! Owned()
      ensures fresh(Owned() - old(Owned()))
    {
      if key in localMemo {
        var copy := CloneRuntimeValue(localMemo[key]);
        Untouched();
        return Ok(copy);
      }
      if computed.Err? {
        return computed;
      }
      var stored := CloneRuntimeValue(computed.value);
      Untouched();
      StoreMemoizedValue(key, stored);
      return computed;
    }

    method StoreMemoizedValue(key: string, value: RuntimeValue)
      modifies this
      ensures Contents() == old(Contents())[key := Meaning(value)]
      ensures Owned() <= old(Owned()) + Storage(value)
    {
      ghost var before := localMemo;
      localMemo := localMemo[key := value];
      assert forall k | k in before :: Meaning(before[k]) == old(Meaning(localMemo[k]));
    }

    /** Allocating, and writing what the memo does not own, changes nothing in it. */
    twostate lemma Untouched()
      requires unchanged(this) && unchanged(old(Owned()))
      ensures Contents() == old(Contents()) && Owned() == old(Owned())
    {
      assert forall k | k in localMemo :: Meaning(localMemo[k]) == old(Meaning(localMemo[k]));
      assert Contents().Keys == old(Contents()).Keys;
    }
  }

  /** A caller changing its result in place. */
  method Overwrite(value: RuntimeValue, cell: Cell)
    modifies Storage(value)
  {
    match value {
      case ScalarValue(_) =>
      case VectorValue(samples) =>
        OverwriteRow(samples, cell);
      case MatrixValue(rows) =>
        for i := 0 to |rows| {
          OverwriteRow(rows[i], cell);
        }
    }
  }

  method OverwriteRow(row: array<Cell>, cell: Cell)
    modifies row
    ensures forall i | 0 <= i < row.Length :: row[i] == cell
  {
    for i := 0 to row.Length
      invariant forall j | 0 <= j < i :: row[j] == cell
    {
      row[i] := cell;
    }
  }

  /** What the memo does not own can be rewritten without the memo noticing. */
  method OverwriteBeside(memo: RequestMemo, value: RuntimeValue, cell: Cell)
    requires Storage(value) !! memo.Owned()
    modifies Storage(value)
    ensures memo.Contents() == old(memo.Contents()) && memo.Owned() == old(memo.Owned())
  {
    Overwrite(value, cell);
    memo.Untouched();
  }

  /** However the first caller rewrites its result, and whatever the inner plan would answer the
      second time, the second execution under the same key still means the first answer. */
  method HitAfterOverwrite(memo: RequestMemo, key: string, first: RuntimeValue, second: Result<RuntimeValue, EvalError>,
      cell: Cell)
    returns (again: RuntimeValue)
    requires Storage(first) !! memo.Owned() && memo !in Storage(first)
    requires second.Ok? ==> Storage(second.value) !! memo.Owned()
    modifies memo, Storage(first)
    ensures Meaning(again) == old(if key in memo.Contents() then memo.Contents()[key] else Meaning(first))
    ensures forall k | k in old(memo.Contents()) ::
              k in memo.Contents() && memo.Contents()[k] == old(memo.Contents())[k]
  {
    var mine := memo.ExecuteMemoized(key, Ok(first));
    assert second.Ok? ==> Storage(second.value) !! memo.Owned();
    OverwriteBeside(memo, mine.value, cell);
    var r := memo.ExecuteMemoized(key, second);
    again := r.value;
  }
}
