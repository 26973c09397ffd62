/** The ring of recent POST outcomes, against the plain history of all outcomes. */
module RttRing {
  import opened Sorting
  import opened GoBasics

  datatype Outcome = Outcome(rtt: int, isError: bool)

  datatype Summary = Summary(p50: int, p99: int, errPct: real)

  function Rtts(window: seq<Outcome>): seq<int> {
    seq(|window|, i requires 0 <= i < |window| => window[i].rtt)
  }

  function ErrorCount(window: seq<Outcome>): nat {
    if window == [] then 0 else ErrorCount(window[..|window| - 1]) + if window[|window| - 1].isError then 1 else 0
  }

  function P99Index(n: int): int
    requires n > 0
  {
    if n * 99 / 100 >= n then n - 1 else n * 99 / 100
  }

  function ErrorShare(errors: nat, n: nat): real
    requires n > 0
  {
    100.0 * (errors as real) / (n as real)
  }

  /** The summary of a list of outcomes, whatever their order. */
  function SummaryOf(window: seq<Outcome>): Summary {
    var n := |window|;
    if n == 0 then Summary(0, 0, 0.0)
    else
      var sorted := Sort(IntLe, Rtts(window));
      SortedLength(Rtts(window));
      Summary(sorted[n / 2], sorted[P99Index(n)], ErrorShare(ErrorCount(window), n))
  }

  lemma SortedLength(xs: seq<int>)
    ensures |Sort(IntLe, xs)| == |xs|
  {
    SortSorts(IntLe, xs);
  }

  /** The last min(n, capacity) outcomes. */
  function LastOf(history: seq<Outcome>, capacity: nat): seq<Outcome> {
    history[|history| - Min(|history|, capacity)..]
  }

  class Ring {
    const dur: array<int>
    const wasError: array<bool>
    var next: nat
    var filled: bool
    ghost var history: seq<Outcome>

    /** The slots in storage order, which is the order of observation only until the ring wraps. */
    ghost function Slots(n: nat): seq<Outcome>
      requires n <= dur.Length == wasError.Length
      reads this, dur, wasError
    {
      seq(n, i requires 0 <= i < n reads dur, wasError => Outcome(dur[i], wasError[i]))
    }

    /** The last min(n, capacity) observations, read off the ring: once it is full, the oldest of
        them is in the slot written next. */
    ghost function Window(): seq<Outcome>
      requires next < dur.Length == wasError.Length
      reads this, dur, wasError
    {
      WindowOf(Slots(dur.Length), next, filled)
    }

    ghost predicate Valid()
      reads this, dur, wasError
    {
      && next < dur.Length == wasError.Length
      && (if filled then |history| >= dur.Length else |history| == next)
      && Window() == LastOf(history, dur.Length)
    }

    constructor (capacity: int)
      ensures Valid() && history == [] && dur.Length == Max(capacity, 1)
      ensures fresh(dur) && fresh(wasError)
    {
      var size: nat := if capacity < 1 then 1 else capacity;
      dur := new int[size](_ => 0);
      wasError := new bool[size](_ => false);
      next, filled, history := 0, false, [];
    }

    method Observe(d: int, isErr: bool)
      requires Valid()
      modifies this, dur, wasError
      ensures Valid() && history == old(history) + [Outcome(d, isErr)]
    {
      ghost var x, slots := Outcome(d, isErr), Slots(dur.Length);
      WindowAfter(slots, next, filled, history, x);
      dur[next] := d;
      wasError[next] := isErr;
      assert Slots(dur.Length) == slots[next := x];
      history := history + [x];
      next := next + 1;
      if next >= dur.Length {
        next := 0;
        filled := true;
      }
      assert Window() == WindowOf(slots[old(next) := x], next, filled);
    }

    method CountErrors(n: nat) returns (errs: nat)
      requires n <= dur.Length == wasError.Length
      ensures errs == ErrorCount(Slots(n))
    {
      errs := 0;
      for i := 0 to n
        invariant errs == ErrorCount(Slots(i))
      {
        assert Slots(i + 1)[..i] == Slots(i);
        if wasError[i] {
          errs := errs + 1;
        }
      }
    }

    /** The summary is that of the last min(n, capacity) observations. */
    method Summarize() returns (s: Summary)
      requires Valid()
      ensures s == SummaryOf(LastOf(history, dur.Length))
    {
      var n := next;
      if filled {
        n := dur.Length;
        RotationKeepsSummary(Slots(n), next);
      } else {
        assert Slots(dur.Length)[..n] == Slots(n);
      }
      if n == 0 {
        return Summary(0, 0, 0.0);
      }
      var errs := CountErrors(n);
      var durs := dur[..n];
      assert durs == Rtts(Slots(n));
      SortedLength(durs);
      var sorted := Sort(IntLe, durs);
      s := Summary(sorted[n / 2], sorted[P99Index(n)], ErrorShare(errs, n));
    }
  }

  ghost function WindowOf(slots: seq<Outcome>, next: nat, filled: bool): seq<Outcome>
    requires next <= |slots|
  {
    if filled then slots[next..] + slots[..next] else slots[..next]
  }

  /** Overwriting the slot written next, and stepping past it, appends the new outcome to the
      window and drops the oldest one of a full ring. */
  lemma WindowAfter(slots: seq<Outcome>, next: nat, filled: bool, history: seq<Outcome>, x: Outcome)
    requires next < |slots| && WindowOf(slots, next, filled) == LastOf(history, |slots|)
    requires if filled then |history| >= |slots| else |history| == next
    ensures var wraps := next + 1 == |slots|;
            WindowOf(slots[next := x], if wraps then 0 else next + 1, filled || wraps) == LastOf(history + [x], |slots|)
  {
    var now := slots[next := x];
    if filled {
      assert LastOf(history + [x], |slots|) == LastOf(history, |slots|)[1..] + [x];
      assert (slots[next..] + slots[..next])[1..] + [x] == slots[next + 1..] + (slots[..next] + [x]);
      assert now[next + 1..] == slots[next + 1..] && now[..next + 1] == slots[..next] + [x];
    } else {
      assert LastOf(history + [x], |slots|) == history + [x];
      assert now[..next + 1] == slots[..next] + [x];
    }
  }

  // ---- The summary depends on the outcomes, not on their order --------------------------

  lemma {:induction false} ErrorCountConcat(a: seq<Outcome>, b: seq<Outcome>)
    ensures ErrorCount(a + b) == ErrorCount(a) + ErrorCount(b)
  {
    if b == [] {
      assert a + b == a;
    } else {
      assert (a + b)[..|a + b| - 1] == a + b[..|b| - 1];
      ErrorCountConcat(a, b[..|b| - 1]);
    }
  }

  lemma RttsConcat(a: seq<Outcome>, b: seq<Outcome>)
    ensures Rtts(a + b) == Rtts(a) + Rtts(b)
  {
  }

  lemma SortConcatCommutes(xs: seq<int>, ys: seq<int>)
    ensures Sort(IntLe, xs + ys) == Sort(IntLe, ys + xs)
  {
    SortIsCanonical(IntLe, xs + ys, ys + xs);
  }

  lemma SwapKeepsSummary(a: seq<Outcome>, b: seq<Outcome>)
    ensures SummaryOf(b + a) == SummaryOf(a + b)
  {
    ErrorCountConcat(a, b);
    ErrorCountConcat(b, a);
    RttsConcat(a, b);
    RttsConcat(b, a);
    SortConcatCommutes(Rtts(b), Rtts(a));
  }

  lemma RotationKeepsSummary(slots: seq<Outcome>, k: nat)
    requires k <= |slots|
    ensures SummaryOf(slots[k..] + slots[..k]) == SummaryOf(slots)
  {
    assert slots == slots[..k] + slots[k..];
    SwapKeepsSummary(slots[..k], slots[k..]);
  }

  /** The median never exceeds the 99th percentile, and the error share is a percentage. */
  lemma PercentilesAreOrdered(window: seq<Outcome>)
    ensures SummaryOf(window).p50 <= SummaryOf(window).p99
    ensures 0.0 <= SummaryOf(window).errPct <= 100.0
  {
    var n := |window|;
    if n > 0 {
      MedianIndexIsFirst(n);
      SortSorts(IntLe, Rtts(window));
      ErrorsAreOutcomes(window);
      ShareIsAPercentage(ErrorCount(window), n);
    }
  }

  lemma MedianIndexIsFirst(n: int)
    requires n > 0
    ensures n / 2 <= P99Index(n)
  {
  }

  lemma ShareIsAPercentage(errors: nat, n: nat)
    requires errors <= n && n > 0
    ensures 0.0 <= ErrorShare(errors, n) <= 100.0
  {
  }

  lemma {:induction false} ErrorsAreOutcomes(window: seq<Outcome>)
    ensures ErrorCount(window) <= |window|
  {
    if window != [] {
      ErrorsAreOutcomes(window[..|window| - 1]);
    }
  }

  // ---- What the numbers mean ------------------------------------------------------------

  /** How many of some times are below x. */
  function CountBelow(xs: seq<int>, x: int): nat {
    if xs == [] then 0 else (if xs[0] < x then 1 else 0) + CountBelow(xs[1..], x)
  }

  lemma {:induction false} CountAfterInsert(y: int, xs: seq<int>, x: int)
    ensures CountBelow(Insert(IntLe, y, xs), x) == CountBelow(xs, x) + if y < x then 1 else 0
  {
    if xs != [] && !IntLe(y, xs[0]) {
      CountAfterInsert(y, xs[1..], x);
      assert Insert(IntLe, y, xs)[1..] == Insert(IntLe, y, xs[1..]);
    } else {
      assert Insert(IntLe, y, xs)[1..] == xs;
    }
  }

  /** Sorting does not change how many are below. */
  lemma {:induction false} CountAfterSort(xs: seq<int>, x: int)
    ensures CountBelow(Sort(IntLe, xs), x) == CountBelow(xs, x)
  {
    if xs != [] {
      CountAfterSort(xs[1..], x);
      CountAfterInsert(xs[0], Sort(IntLe, xs[1..]), x);
    }
  }

  lemma {:induction false} CountInSorted(xs: seq<int>, k: nat, x: int)
    requires SortedBy(IntLe, xs) && k < |xs|
    ensures x <= xs[k] ==> CountBelow(xs, x) <= k
    ensures x > xs[k] ==> CountBelow(xs, x) > k
    decreases |xs|
  {
    assert IntLe(xs[0], xs[k]);
    if k > 0 {
      CountInSorted(xs[1..], k - 1, x);
    } else {
      if x <= xs[0] {
        NoneBelow(xs, x);
      }
    }
  }

  lemma {:induction false} NoneBelow(xs: seq<int>, x: int)
    requires forall i | 0 <= i < |xs| :: x <= xs[i]
    ensures CountBelow(xs, x) == 0
  {
    if xs != [] {
      NoneBelow(xs[1..], x);
    }
  }

  /** The errors of a window, counted one by one, are its failed outcomes. */
  lemma {:induction false} ErrorCountIsExact(window: seq<Outcome>)
    ensures ErrorCount(window) == |set i | 0 <= i < |window| && window[i].isError|
  {
    if window != [] {
      var n := |window| - 1;
      var front := window[..n];
      ErrorCountIsExact(front);
      var before := set i | 0 <= i < n && front[i].isError;
      var all := set i | 0 <= i < |window| && window[i].isError;
      assert all == if window[n].isError then before + {n} else before;
    }
  }

  /** x is of rank k: at most k times are less, and more than k are not greater. */
  predicate HasRank(xs: seq<int>, x: int, k: int) {
    CountBelow(xs, x) <= k < CountBelow(xs, x + 1)
  }

  lemma SortedHasRank(xs: seq<int>, k: nat)
    requires k < |xs|
    ensures k < |Sort(IntLe, xs)| && HasRank(xs, Sort(IntLe, xs)[k], k)
  {
    SortSorts(IntLe, xs);
    var sorted := Sort(IntLe, xs);
    CountInSorted(sorted, k, sorted[k]);
    CountInSorted(sorted, k, sorted[k] + 1);
    CountAfterSort(xs, sorted[k]);
    CountAfterSort(xs, sorted[k] + 1);
  }

  lemma P99IndexIs(n: int)
    requires n > 0
    ensures P99Index(n) == n * 99 / 100 < n
  {
  }

  /** Of n > 0 outcomes p50 is the latency of rank n/2 and p99 that of rank 99n/100. */
  lemma PercentilesHaveRank(window: seq<Outcome>)
    requires window != []
    ensures HasRank(Rtts(window), SummaryOf(window).p50, |window| / 2)
    ensures HasRank(Rtts(window), SummaryOf(window).p99, |window| * 99 / 100)
  {
    P99IndexIs(|window|);
    SortedHasRank(Rtts(window), |window| / 2);
    SortedHasRank(Rtts(window), P99Index(|window|));
  }

  /** The error share is a hundred times the failed outcomes over all of them. */
  lemma ErrorShareIsExact(window: seq<Outcome>)
    requires window != []
    ensures SummaryOf(window).errPct
            == 100.0 * (|set i | 0 <= i < |window| && window[i].isError| as real) / (|window| as real)
  {
    ErrorCountIsExact(window);
  }

  /** Without outcomes everything is zero. */
  lemma EmptySummary()
    ensures SummaryOf([]) == Summary(0, 0, 0.0)
  {
  }
}
