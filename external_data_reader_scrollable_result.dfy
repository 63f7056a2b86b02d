/** The reader-backed cursor (ExternalDataReaderScrollableResultImp): it counts
    its calls of Next against a row limit and closes its data reader at the
    end of the rows or when the limit is passed, at most once. */
module DataReaderScrollable {
  import opened Results
  import opened Scrollable

  /** The cursor's fields, with its data reader reduced to the rows it will
      deliver and how many of them Read has moved past:
      - `position` is _position, the number of Next calls minus one;
      - `maxRows` is _maxRows;
      - `isOpen` is _opened;
      - `closeCount` counts the calls that closed the reader (Batcher.CloseReader). */
  datatype ReaderState = ReaderState(
    rows: seq<Row>, readCount: nat, position: int, maxRows: int, isOpen: bool, closeCount: nat)

  /** What every reachable state satisfies: while the cursor is open, each
      Next call so far has read exactly one row; the reader has been closed
      once if the cursor is closed and never otherwise; and no more than
      maxRows + 1 rows have been read. */
  predicate ReaderValid(s: ReaderState)
  {
    && s.readCount <= |s.rows|
    && s.position >= -1
    && (s.isOpen ==> s.readCount == s.position + 1)
    && s.closeCount == (if s.isOpen then 0 else 1)
    && (s.readCount == 0 || s.readCount <= s.maxRows + 1)
  }

  /** A new cursor: position -1, open, and nothing read or closed yet. */
  function ReaderInit(rows: seq<Row>, maxRows: int): (r: ReaderState)
    ensures ReaderValid(r) && r.isOpen && r.position == -1
  {
    ReaderState(rows, 0, -1, maxRows, true, 0)
  }

  /** Close: the reader is closed only if the cursor is still open. */
  function ReaderClose(s: ReaderState): (r: ReaderState)
    ensures !r.isOpen
    ensures r.closeCount == s.closeCount + (if s.isOpen then 1 else 0)
    ensures r.rows == s.rows && r.readCount == s.readCount && r.position == s.position && r.maxRows == s.maxRows
    ensures ReaderValid(s) ==> ReaderValid(r)
  {
    if s.isOpen then s.(isOpen := false, closeCount := s.closeCount + 1) else s
  }

  /** Next: the position moves on, the cursor closes when it passes maxRows,
      an open cursor reads a row and closes at the end of the rows, and the
      call returns whether the cursor is still open. */
  function ReaderNext(s: ReaderState): (r: Step<ReaderState>)
    ensures r.result == Ok(r.state.isOpen)
    ensures r.state.position == s.position + 1
    ensures r.state.isOpen <==> s.isOpen && s.position + 1 <= s.maxRows && s.readCount < |s.rows|
    ensures r.state.rows == s.rows && r.state.maxRows == s.maxRows
    ensures !s.isOpen ==> r.state == s.(position := s.position + 1)
    ensures s.position + 1 > s.maxRows ==> !r.state.isOpen && r.state.readCount == s.readCount
    ensures s.readCount >= |s.rows| ==> !r.state.isOpen && r.state.readCount == s.readCount
    ensures r.state.readCount == s.readCount + (if r.state.isOpen then 1 else 0)
    ensures r.state.isOpen ==> s.readCount < |s.rows| && ReaderGet(r.state) == Ok(s.rows[s.readCount])
    ensures r.state.closeCount == s.closeCount + (if s.isOpen && !r.state.isOpen then 1 else 0)
    ensures ReaderValid(s) ==> ReaderValid(r.state)
  {
    var s1 := s.(position := s.position + 1);
    var s2 := if s1.position > s1.maxRows then ReaderClose(s1) else s1;
    var s3 :=
      if !s2.isOpen then s2
      else if s2.readCount < |s2.rows| then s2.(readCount := s2.readCount + 1)
      else ReaderClose(s2);
    Step(s3, Ok(s3.isOpen))
  }

  /** Get: the row the reader is on. */
  function ReaderGet(s: ReaderState): (r: Result<Row, CursorError>)
    ensures r.Ok? <==> s.isOpen && 0 < s.readCount <= |s.rows|
    ensures r.Ok? ==> r.value == s.rows[s.readCount - 1]
    ensures !s.isOpen ==> r == Err(Closed)
  {
    if !s.isOpen then Err(Closed)
    else if 0 < s.readCount <= |s.rows| then Ok(s.rows[s.readCount - 1])
    else Err(NoCurrentRow)
  }

  /** Scroll: with a non-positive count no call is made and the result is
      true; otherwise `countNext` calls of Next, stopping at the first false. */
  function ReaderScroll(s: ReaderState, countNext: int): (r: Step<ReaderState>)
    ensures countNext <= 0 ==> r == Step(s, Ok(true))
    ensures r.result.Ok?
    ensures countNext > 0 ==> (r.result == Ok(true) <==> AllSucceed(ReaderNext, s, countNext))
    ensures countNext > 0 && AllSucceed(ReaderNext, s, countNext) ==> r.state == Iterate(ReaderNext, s, countNext)
    ensures ReaderValid(s) ==> ReaderValid(r.state)
  {
    if countNext <= 0 then Step(s, Ok(true))
    else
      RunSucceedsIff(ReaderNext, s, countNext);
      RunNeverThrows(s, countNext);
      ValidAfterRun(s, countNext);
      Run(ReaderNext, s, countNext)
  }

  lemma {:induction false} RunNeverThrows(s: ReaderState, n: nat)
    decreases n
    ensures Run(ReaderNext, s, n).result.Ok?
  {
    if n > 0 && ReaderNext(s).result == Ok(true) {
      RunNeverThrows(ReaderNext(s).state, n - 1);
    }
  }

  lemma ValidAfterRun(s: ReaderState, n: nat)
    ensures ReaderValid(s) ==> ReaderValid(Run(ReaderNext, s, n).state)
  {
    if ReaderValid(s) {
      RunPreserves(ReaderNext, ReaderValid, s, n);
    }
  }

  /** Once closed, the cursor stays closed and every Next returns false. */
  lemma {:induction false} ClosedNeverSucceeds(s: ReaderState, k: nat)
    requires !s.isOpen
    decreases k
    ensures Successes(ReaderNext, s, k) == 0
    ensures !Iterate(ReaderNext, s, k).isOpen
  {
    if k > 0 {
      ClosedNeverSucceeds(ReaderNext(s).state, k - 1);
    }
  }

  function Min(a: int, b: int): int { if a <= b then a else b }

  function Max(a: int, b: int): int { if a <= b then b else a }

  /** From an open state, `k` calls of Next return true exactly as often as
      the smallest of `k`, the rows left in the reader, and the calls left
      before the position passes maxRows. */
  lemma {:induction false} SuccessesFromOpen(s: ReaderState, k: nat)
    requires ReaderValid(s) && s.isOpen
    decreases k
    ensures Successes(ReaderNext, s, k)
              == Min(k, Min(|s.rows| - s.readCount, Max(0, s.maxRows - s.position)))
  {
    if k > 0 {
      var st := ReaderNext(s);
      if st.state.isOpen {
        SuccessesFromOpen(st.state, k - 1);
      } else {
        ClosedNeverSucceeds(st.state, k - 1);
      }
    }
  }

  /** A new cursor returns true from exactly min(k, |rows|, maxRows + 1)
      of its first `k` calls of Next, and so never more than maxRows + 1
      times. */
  lemma TrueAtMostMaxRowsPlusOne(rows: seq<Row>, maxRows: int, k: nat)
    ensures Successes(ReaderNext, ReaderInit(rows, maxRows), k) == Min(k, Min(|rows|, Max(0, maxRows + 1)))
    ensures Successes(ReaderNext, ReaderInit(rows, maxRows), k) <= Max(0, maxRows + 1)
  {
    SuccessesFromOpen(ReaderInit(rows, maxRows), k);
  }

  /** The rows the cursor will still hand out: the unread rows of the
      reader, no more of them than the calls left before the position passes
      maxRows, and none once the cursor is closed. */
  function ReaderRemaining(s: ReaderState): (r: seq<Row>)
    ensures |r| <= Max(0, s.maxRows - s.position)
  {
    if s.isOpen && s.readCount <= |s.rows| then
      s.rows[s.readCount..Min(|s.rows|, s.readCount + Max(0, s.maxRows - s.position))]
    else []
  }

  /** Next hands out those rows one per call. */
  lemma NextHandsOutAt(s: ReaderState)
    ensures HandsOutAt(ReaderNext, ReaderRemaining, ReaderGet, ReaderValid, s)
  {
    if ReaderValid(s) && s.isOpen {
      var t := ReaderNext(s).state;
      var r := ReaderRemaining(s);
      if t.isOpen {
        assert r == s.rows[s.readCount..Min(|s.rows|, s.readCount + (s.maxRows - s.position))];
        assert ReaderRemaining(t) == s.rows[s.readCount + 1..Min(|s.rows|, s.readCount + (s.maxRows - s.position))];
        assert r[1..] == ReaderRemaining(t);
      }
    }
  }

  lemma NextHandsOut()
    ensures HandsOut(ReaderNext, ReaderRemaining, ReaderGet, ReaderValid)
  {
    forall s
      ensures HandsOutAt(ReaderNext, ReaderRemaining, ReaderGet, ReaderValid, s)
    {
      NextHandsOutAt(s);
    }
  }

  /** A new cursor hands out the first maxRows + 1 rows of its reader, in
      order: its first `k` calls of Next, for `k` up to that many rows, all
      return true, and Get is then on row `k - 1`. */
  lemma ReaderEnumerates(rows: seq<Row>, maxRows: int, k: nat)
    requires k <= Min(|rows|, Max(0, maxRows + 1))
    ensures ReaderRemaining(ReaderInit(rows, maxRows)) == rows[..Min(|rows|, Max(0, maxRows + 1))]
    ensures AllSucceed(ReaderNext, ReaderInit(rows, maxRows), k)
    ensures k > 0 ==> ReaderGet(Iterate(ReaderNext, ReaderInit(rows, maxRows), k)) == Ok(rows[k - 1])
  {
    var s := ReaderInit(rows, maxRows);
    NextHandsOut();
    IterateConsumes(ReaderNext, ReaderRemaining, ReaderGet, ReaderValid, s, k);
  }

  /** Scroll(n) with n > 0 returns true exactly when at least `n` rows
      remain, and consumes `n` of them, or all when fewer remain. */
  lemma ScrollEnumerates(s: ReaderState, n: int)
    requires ReaderValid(s) && n > 0
    ensures ReaderScroll(s, n).result == Ok(n <= |ReaderRemaining(s)|)
    ensures ReaderRemaining(ReaderScroll(s, n).state) ==
              if n <= |ReaderRemaining(s)| then ReaderRemaining(s)[n..] else []
  {
    NextHandsOut();
    RunConsumes(ReaderNext, ReaderRemaining, ReaderGet, ReaderValid, s, n);
  }

  /** The operations a caller can apply to the cursor. */
  datatype Call = NextCall | ScrollCall(countNext: int) | CloseCall | DisposeCall

  /** The state after one call; Dispose is Close. */
  function Apply(s: ReaderState, c: Call): ReaderState
  {
    match c
    case NextCall => ReaderNext(s).state
    case ScrollCall(n) => ReaderScroll(s, n).state
    case CloseCall => ReaderClose(s)
    case DisposeCall => ReaderClose(s)
  }

  /** The state after a sequence of calls. */
  function Perform(s: ReaderState, calls: seq<Call>): ReaderState
    decreases |calls|
  {
    if calls == [] then s
    else
      var s1 := Apply(s, calls[0]);
      Perform(s1, calls[1..])
  }

  /** However Close, Dispose, Next and Scroll are interleaved, the reader is
      closed at most once, and exactly once if the cursor is closed. */
  lemma {:induction false} ReaderClosedAtMostOnce(s: ReaderState, calls: seq<Call>)
    requires ReaderValid(s)
    decreases |calls|
    ensures ReaderValid(Perform(s, calls))
    ensures Perform(s, calls).closeCount <= 1
    ensures Perform(s, calls).closeCount == 1 <==> !Perform(s, calls).isOpen
  {
    if calls != [] {
      var s1 := Apply(s, calls[0]);
      ReaderClosedAtMostOnce(s1, calls[1..]);
    }
  }

  /** Nothing reopens a closed cursor. */
  lemma {:induction false} NeverReopens(s: ReaderState, calls: seq<Call>)
    requires !s.isOpen
    decreases |calls|
    ensures !Perform(s, calls).isOpen
  {
    if calls != [] {
      var s1 := Apply(s, calls[0]);
      if calls[0].ScrollCall? && calls[0].countNext > 0 {
        RunPreserves(ReaderNext, (x: ReaderState) => !x.isOpen, s, calls[0].countNext);
      }
      NeverReopens(s1, calls[1..]);
    }
  }

  /** The cursor object over its data reader. */
  class ExternalDataReaderScrollableResult {
    const rows: seq<Row>
    var readCount: nat
    var position: int
    const maxRows: int
    var isOpen: bool
    ghost var closeCount: nat

    ghost function State(): ReaderState
      reads this
    {
      ReaderState(rows, readCount, position, maxRows, isOpen, closeCount)
    }

    ghost predicate Valid()
      reads this
    {
      ReaderValid(State())
    }

    constructor (rows: seq<Row>, maxRows: int)
      ensures State() == ReaderInit(rows, maxRows) && Valid()
    {
      this.rows := rows;
      this.maxRows := maxRows;
      readCount := 0;
      position := -1;
      isOpen := true;
      closeCount := 0;
    }

    /** The data reader's Read: it moves to the next row if there is one. */
    method Read() returns (more: bool)
      modifies this
      ensures more == (old(readCount) < |rows|)
      ensures readCount == old(readCount) + (if more then 1 else 0)
      ensures position == old(position) && isOpen == old(isOpen) && closeCount == old(closeCount)
    {
      more := readCount < |rows|;
      if more {
        readCount := readCount + 1;
      }
    }

    method Get() returns (r: Result<Row, CursorError>)
      ensures r == ReaderGet(State())
    {
      if !isOpen {
        r := Err(Closed);
      } else if 0 < readCount <= |rows| {
        r := Ok(rows[readCount - 1]);
      } else {
        r := Err(NoCurrentRow);
      }
    }

    method Close()
      modifies this
      ensures State() == ReaderClose(old(State()))
    {
      if isOpen {
        closeCount := closeCount + 1;
        isOpen := false;
      }
    }

    method Dispose()
      modifies this
      ensures State() == ReaderClose(old(State()))
    {
      Close();
    }

    method Next() returns (r: bool)
      modifies this
      ensures Step(State(), Ok(r)) == ReaderNext(old(State()))
    {
      position := position + 1;
      if position > maxRows {
        Close();
      }
      if isOpen {
        var more := Read();
        if !more {
          Close();
        }
      }
      r := isOpen;
    }

    method Scroll(countNext: int) returns (r: bool)
      modifies this
      ensures Step(State(), Ok(r)) == ReaderScroll(old(State()), countNext)
    {
      ghost var s0 := State();
      var result := true;
      var n := countNext;
      while n > 0
        invariant countNext > 0 ==> 0 <= n <= countNext
        invariant countNext <= 0 ==> n == countNext
        invariant countNext > 0 ==>
                    Run(ReaderNext, s0, countNext) ==
                    (if result then Run(ReaderNext, State(), n) else Step(State(), Ok(false)))
        invariant countNext <= 0 ==> State() == s0 && result
      {
        n := n - 1;
        if result {
          ghost var before := State();
          result := Next();
          assert Run(ReaderNext, before, n + 1) ==
                   if result then Run(ReaderNext, State(), n) else Step(State(), Ok(false));
        }
      }
      r := result;
    }
  }
}
