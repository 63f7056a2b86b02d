/** The composite cursor (ListScrollableResultImp): it walks a list of
    sub-results in order, moving to the next one when the current one is
    exhausted, and closes itself, and every sub-result, after the last one. */
module ListScrollable {
  import opened Results
  import opened Scrollable

  /** A sub-result of the composite, which may be any cursor: its rows, how
      many of them it has moved past, and whether it is still open. */
  datatype SubResult = SubResult(rows: seq<Row>, pos: nat, isOpen: bool)

  /** The sub-result is open and has a row it has not moved to yet. */
  predicate HasRow(c: SubResult)
  {
    c.isOpen && c.pos < |c.rows|
  }

  /** The rows a sub-result will still hand out, in order. */
  function SubRemaining(c: SubResult): (r: seq<Row>)
    ensures r != [] <==> HasRow(c)
  {
    if HasRow(c) then c.rows[c.pos..] else []
  }

  /** A sub-result's Next: it moves to its next row while it is open and has
      one, hands out that row, and otherwise changes nothing and returns false. */
  function SubNext(c: SubResult): (r: (SubResult, bool))
    ensures r.1 == HasRow(c)
    ensures r.0.rows == c.rows && r.0.isOpen == c.isOpen
    ensures r.1 ==> SubRemaining(r.0) == SubRemaining(c)[1..] && SubGet(r.0) == Ok(SubRemaining(c)[0])
    ensures !r.1 ==> r.0 == c
  {
    if HasRow(c) then (c.(pos := c.pos + 1), true) else (c, false)
  }

  /** A sub-result's Get: the row it moved to last, while it is open. */
  function SubGet(c: SubResult): (r: Result<Row, CursorError>)
    ensures r.Ok? <==> c.isOpen && 0 < c.pos <= |c.rows|
    ensures r.Ok? ==> r.value == c.rows[c.pos - 1]
    ensures !c.isOpen ==> r == Err(Closed)
  {
    if !c.isOpen then Err(Closed)
    else if 0 < c.pos <= |c.rows| then Ok(c.rows[c.pos - 1])
    else Err(NoCurrentRow)
  }

  /** A sub-result's Close. */
  function SubClose(c: SubResult): (r: SubResult)
    ensures !r.isOpen && r.rows == c.rows && r.pos == c.pos
    ensures SubRemaining(r) == []
  {
    c.(isOpen := false)
  }

  /** The composite's fields: the list of sub-results, the index of the
      current one (currentInList) and the open flag (_opened). */
  datatype ListState = ListState(subs: seq<SubResult>, current: nat, isOpen: bool)

  /** The index of the current sub-result is within the list, or is 0 while the list is empty. */
  predicate ListValid(s: ListState)
  {
    s.current < |s.subs| || s.current == 0
  }

  /** The rows of the sub-results from index `i` on, one sub-result after the other. */
  function Pending(subs: seq<SubResult>, i: nat): seq<Row>
    decreases |subs| - i
  {
    if i >= |subs| then [] else SubRemaining(subs[i]) + Pending(subs, i + 1)
  }

  /** The rows the composite will still hand out: those of the current
      sub-result and of every later one, and none once it is closed. */
  function ListRemaining(s: ListState): seq<Row>
  {
    if s.isOpen && s.current < |s.subs| then Pending(s.subs, s.current) else []
  }

  /** Close: every sub-result is closed and the composite is no longer open. */
  function ListClose(s: ListState): (r: ListState)
    ensures !r.isOpen && r.current == s.current && |r.subs| == |s.subs|
    ensures forall i :: 0 <= i < |s.subs| ==>
              !r.subs[i].isOpen && r.subs[i].rows == s.subs[i].rows && r.subs[i].pos == s.subs[i].pos
    ensures ListRemaining(r) == []
  {
    ListState(CloseAll(s.subs), s.current, false)
  }

  /** Every sub-result of the list, closed. */
  function CloseAll(subs: seq<SubResult>): (r: seq<SubResult>)
    ensures |r| == |subs| && forall i :: 0 <= i < |subs| ==> r[i] == SubClose(subs[i])
  {
    seq(|subs|, i requires 0 <= i < |subs| => SubClose(subs[i]))
  }

  /** The first sub-result from index `i` on that has a row, or the length of
      the list when none has: every sub-result skipped has no row. */
  function FirstWithRow(subs: seq<SubResult>, i: nat): (j: nat)
    decreases |subs| - i
    ensures i <= |subs| ==> i <= j <= |subs|
    ensures i > |subs| ==> j == |subs|
    ensures forall k :: i <= k < j ==> !HasRow(subs[k])
    ensures j < |subs| ==> HasRow(subs[j])
  {
    if i >= |subs| then |subs|
    else if HasRow(subs[i]) then i
    else FirstWithRow(subs, i + 1)
  }

  /** Next. A closed composite returns false and consults nothing; indexing
      past the list throws; otherwise the current sub-result is asked, and
      each exhausted one, which an exhausted sub-result's Next leaves as it
      is, passes the turn to the next: so Next lands on the first sub-result
      from the current one on that has a row, moves it on and returns true,
      or, when none has, stops on the last one, closes the composite and
      returns false. */
  function ListNext(s: ListState): (r: Step<ListState>)
    ensures r.result.Err? <==> s.isOpen && s.current >= |s.subs|
    ensures r.result.Err? ==> r.state == s
    ensures r.result == Ok(true) ==> r.state.isOpen
    ensures r.result == Ok(false) ==> !r.state.isOpen
    ensures |r.state.subs| == |s.subs|
  {
    if !s.isOpen then Step(s, Ok(false))
    else if s.current >= |s.subs| then Step(s, Err(IndexOutOfRange))
    else
      var j := FirstWithRow(s.subs, s.current);
      if j < |s.subs| then Step(ListState(s.subs[j := SubNext(s.subs[j]).0], j, true), Ok(true))
      else Step(ListClose(s.(current := |s.subs| - 1)), Ok(false))
  }

  /** The current sub-result has a row: Next moves it on and returns true. */
  lemma NextOnRow(s: ListState)
    requires s.isOpen && s.current < |s.subs| && HasRow(s.subs[s.current])
    ensures ListNext(s) == Step(s.(subs := s.subs[s.current := SubNext(s.subs[s.current]).0]), Ok(true))
  {
  }

  /** The current sub-result, not the last, is exhausted: Next goes on with the next one. */
  lemma NextMovesOn(s: ListState)
    requires s.isOpen && s.current < |s.subs| - 1 && !HasRow(s.subs[s.current])
    ensures ListNext(s) == ListNext(s.(current := s.current + 1))
  {
    assert FirstWithRow(s.subs, s.current) == FirstWithRow(s.subs, s.current + 1);
  }

  /** The last sub-result is exhausted: Next closes the composite and returns false. */
  lemma NextPastLast(s: ListState)
    requires s.isOpen && s.current == |s.subs| - 1 && !HasRow(s.subs[s.current])
    ensures ListNext(s) == Step(ListClose(s), Ok(false))
  {
    assert FirstWithRow(s.subs, s.current) == |s.subs|;
  }

  /** What one call of Next does to the list: a closed composite changes
      nothing; the current index only grows and stays within the list; when
      the current sub-result has a row, Next stays on it; no sub-result's
      rows change; the sub-results before the current one and after the one
      Next stops on are untouched while the composite stays open; and after
      false every sub-result is closed. */
  lemma NextFrame(s: ListState)
    ensures var r := ListNext(s);
      && (!s.isOpen ==> r == Step(s, Ok(false)))
      && s.current <= r.state.current
      && (s.current < |s.subs| ==> r.state.current < |s.subs|)
      && (s.isOpen && s.current < |s.subs| && HasRow(s.subs[s.current]) ==>
            r.result == Ok(true) && r.state.current == s.current)
      && (forall i :: 0 <= i < |s.subs| ==> r.state.subs[i].rows == s.subs[i].rows)
      && (r.state.isOpen ==>
            forall i :: 0 <= i < |s.subs| && (i < s.current || r.state.current < i) ==> r.state.subs[i] == s.subs[i])
      && (s.isOpen && r.result == Ok(false) ==> forall i :: 0 <= i < |s.subs| ==> !r.state.subs[i].isOpen)
  {
    if s.isOpen && s.current < |s.subs| {
      var j := FirstWithRow(s.subs, s.current);
      if j < |s.subs| {
        var subs1 := s.subs[j := SubNext(s.subs[j]).0];
        assert forall i :: 0 <= i < |s.subs| ==> subs1[i].rows == s.subs[i].rows;
      }
    }
  }

  /** Get: the current sub-result's Get, and a throw past the list. */
  function ListGet(s: ListState): (r: Result<Row, CursorError>)
    ensures s.current >= |s.subs| ==> r == Err(IndexOutOfRange)
    ensures s.current < |s.subs| ==>
              (r.Ok? <==> s.subs[s.current].isOpen && 0 < s.subs[s.current].pos <= |s.subs[s.current].rows|)
    ensures r.Ok? ==> s.current < |s.subs| && r.value == s.subs[s.current].rows[s.subs[s.current].pos - 1]
    ensures s.current < |s.subs| && !s.subs[s.current].isOpen ==> r == Err(Closed)
  {
    if s.current < |s.subs| then SubGet(s.subs[s.current]) else Err(IndexOutOfRange)
  }

  /** Scroll: a non-positive count throws; otherwise `countNext` calls of
      Next, stopping at the first one that returns false. */
  function ListScroll(s: ListState, countNext: int): (r: Step<ListState>)
    ensures countNext <= 0 ==> r == Step(s, Err(ArgumentOutOfRange))
    ensures countNext > 0 ==> (r.result == Ok(true) <==> AllSucceed(ListNext, s, countNext))
    ensures countNext > 0 && AllSucceed(ListNext, s, countNext) ==> r.state == Iterate(ListNext, s, countNext)
  {
    if countNext <= 0 then Step(s, Err(ArgumentOutOfRange))
    else
      RunSucceedsIff(ListNext, s, countNext);
      Run(ListNext, s, countNext)
  }

  /** Sub-results without a row add no row to the composite's. */
  lemma {:induction false} PendingSkip(subs: seq<SubResult>, i: nat, j: nat)
    requires i <= j <= |subs|
    requires forall k :: i <= k < j ==> !HasRow(subs[k])
    decreases j - i
    ensures Pending(subs, i) == Pending(subs, j)
  {
    if i < j {
      PendingSkip(subs, i + 1, j);
    }
  }

  /** Replacing the sub-result at `j` leaves the rows pending after it alone. */
  lemma {:induction false} PendingAfter(subs: seq<SubResult>, j: nat, c: SubResult, i: nat)
    requires j < |subs| && j < i
    decreases |subs| - i
    ensures Pending(subs[j := c], i) == Pending(subs, i)
  {
    if i < |subs| {
      PendingAfter(subs, j, c, i + 1);
    }
  }

  /** Moving on a sub-result that has a row removes exactly the first row
      of the rows pending from it on, and Get is then on that row. */
  lemma RowAt(subs: seq<SubResult>, j: nat)
    requires j < |subs| && HasRow(subs[j])
    ensures var subs1 := subs[j := SubNext(subs[j]).0];
      && Pending(subs, j) != []
      && SubGet(subs1[j]) == Ok(Pending(subs, j)[0])
      && Pending(subs1, j) == Pending(subs, j)[1..]
  {
    var c := SubNext(subs[j]).0;
    PendingAfter(subs, j, c, j + 1);
    var a := SubRemaining(subs[j]);
    var p := Pending(subs, j + 1);
    assert Pending(subs, j) == a + p;
    assert (a + p)[1..] == a[1..] + p;
  }

  /** The composite hands out the rows of its sub-results in order: Next
      returns true exactly when a row remains, Get is then on the first
      remaining row, and Next has consumed exactly that row. */
  lemma NextEnumerates(s: ListState)
    requires Consultable(s)
    ensures ListValid(ListNext(s).state)
    ensures ListNext(s).result == Ok(ListRemaining(s) != [])
    ensures ListRemaining(s) != [] ==>
              ListGet(ListNext(s).state) == Ok(ListRemaining(s)[0])
              && ListRemaining(ListNext(s).state) == ListRemaining(s)[1..]
    ensures ListRemaining(s) == [] ==> ListRemaining(ListNext(s).state) == []
  {
    if s.isOpen {
      var j := FirstWithRow(s.subs, s.current);
      PendingSkip(s.subs, s.current, j);
      if j < |s.subs| {
        RowAt(s.subs, j);
      }
    }
  }

  /** The states in which Next consults the list: it is not empty. */
  predicate Consultable(s: ListState)
  {
    ListValid(s) && |s.subs| > 0
  }

  /** Next hands out, one per call, the rows ListRemaining lists. */
  lemma NextHandsOut()
    ensures HandsOut(ListNext, ListRemaining, ListGet, Consultable)
  {
    forall s
      ensures HandsOutAt(ListNext, ListRemaining, ListGet, Consultable, s)
    {
      if Consultable(s) {
        NextEnumerates(s);
      }
    }
  }

  /** After `k` calls of Next, with at least `k` rows remaining, every call
      has returned true, exactly the first `k` remaining rows are consumed,
      and Get is on the last of them. */
  lemma IterateEnumerates(s: ListState, k: nat)
    requires Consultable(s) && k <= |ListRemaining(s)|
    ensures AllSucceed(ListNext, s, k)
    ensures var t := Iterate(ListNext, s, k);
              Consultable(t) && ListRemaining(t) == ListRemaining(s)[k..]
    ensures k > 0 ==> ListGet(Iterate(ListNext, s, k)) == Ok(ListRemaining(s)[k - 1])
  {
    NextHandsOut();
    IterateConsumes(ListNext, ListRemaining, ListGet, Consultable, s, k);
  }

  /** Scroll(n) returns true exactly when at least `n` rows remain, and
      consumes `n` rows, or all of them when fewer remain. */
  lemma ScrollEnumerates(s: ListState, n: int)
    requires Consultable(s) && n > 0
    ensures ListScroll(s, n).result == Ok(n <= |ListRemaining(s)|)
    ensures ListRemaining(ListScroll(s, n).state) ==
              if n <= |ListRemaining(s)| then ListRemaining(s)[n..] else []
  {
    NextHandsOut();
    RunConsumes(ListNext, ListRemaining, ListGet, Consultable, s, n);
  }

  /** A composite over sub-results that have not been moved yet hands out
      all their rows, the first sub-result's before the second's. */
  lemma {:induction false} FreshPendingIsConcatenation(subs: seq<SubResult>, i: nat)
    requires i <= |subs|
    requires forall k :: 0 <= k < |subs| ==> subs[k].isOpen && subs[k].pos == 0
    decreases |subs| - i
    ensures Pending(subs, i) == Concat(subs[i..])
  {
    if i < |subs| {
      FreshPendingIsConcatenation(subs, i + 1);
      assert subs[i..][1..] == subs[i + 1..];
    }
  }

  /** All rows of a list of sub-results, one after the other. */
  function Concat(subs: seq<SubResult>): seq<Row>
  {
    if subs == [] then [] else subs[0].rows + Concat(subs[1..])
  }

  /** The composite object: its list of sub-results, currentInList and _opened. */
  class ListScrollableResult {
    var subs: seq<SubResult>
    var current: nat
    var isOpen: bool

    ghost function State(): ListState
      reads this
    {
      ListState(subs, current, isOpen)
    }

    ghost predicate Valid()
      reads this
    {
      ListValid(State())
    }

    /** A new composite has an empty list, is on index 0 and is open. */
    constructor ()
      ensures Valid() && subs == [] && current == 0 && isOpen
    {
      subs := [];
      current := 0;
      isOpen := true;
    }

    /** Appending a sub-result through the ScrollableResultses list. */
    method Add(c: SubResult)
      requires Valid()
      modifies this
      ensures Valid()
      ensures subs == old(subs) + [c] && current == old(current) && isOpen == old(isOpen)
    {
      subs := subs + [c];
    }

    method Get() returns (r: Result<Row, CursorError>)
      ensures r == ListGet(State())
    {
      if current < |subs| {
        r := SubGet(subs[current]);
      } else {
        r := Err(IndexOutOfRange);
      }
    }

    method Close()
      modifies this
      ensures State() == ListClose(old(State()))
    {
      var i := 0;
      while i < |subs|
        invariant 0 <= i <= |subs| && |subs| == |old(subs)|
        invariant current == old(current)
        invariant forall j :: 0 <= j < i ==> subs[j] == SubClose(old(subs)[j])
        invariant forall j :: i <= j < |subs| ==> subs[j] == old(subs)[j]
      {
        subs := subs[i := SubClose(subs[i])];
        i := i + 1;
      }
      isOpen := false;
    }

    method Dispose()
      modifies this
      ensures State() == ListClose(old(State()))
    {
      Close();
    }

    method Next() returns (r: Result<bool, CursorError>)
      requires Valid()
      modifies this
      decreases |subs| - current
      ensures Valid()
      ensures Step(State(), r) == ListNext(old(State()))
    {
      if !isOpen {
        return Ok(false);
      }
      if current >= |subs| {
        return Err(IndexOutOfRange);
      }
      ghost var s0 := State();
      var asked := SubNext(subs[current]);
      subs := subs[current := asked.0];
      if asked.1 {
        NextOnRow(s0);
        return Ok(true);
      }
      assert subs == s0.subs;
      if current < |subs| - 1 {
        NextMovesOn(s0);
        current := current + 1;
        r := Next();
        return;
      }
      NextPastLast(s0);
      Close();
      r := Ok(false);
    }

    method Scroll(countNext: int) returns (r: Result<bool, CursorError>)
      requires Valid()
      modifies this
      ensures Valid()
      ensures Step(State(), r) == ListScroll(old(State()), countNext)
    {
      if countNext <= 0 {
        return Err(ArgumentOutOfRange);
      }
      ghost var s0 := State();
      var result := true;
      var n := countNext;
      while n > 0
        invariant 0 <= n <= countNext
        invariant Valid()
        invariant result ==> Run(ListNext, s0, countNext) == Run(ListNext, State(), n)
        invariant !result ==> Run(ListNext, s0, countNext) == Step(State(), Ok(false))
      {
        if result {
          ghost var before := State();
          var b := Next();
          assert Run(ListNext, before, n) == if b == Ok(true) then Run(ListNext, State(), n - 1) else Step(State(), b);
          if b.Err? {
            return b;
          }
          result := b.value;
        }
        n := n - 1;
      }
      r := Ok(result);
    }
  }
}
