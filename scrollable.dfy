/** The shape shared by the two scrollable-result cursors (IScrollableResults):
    a cursor is a state `S` with a `Next` step that moves it and reports
    whether a row is now current, or throws. `Run` is the loop both `Scroll`
    implementations share, `result = result && Next()` repeated `n` times,
    whose short-circuit makes no further call once one has failed. */
module Scrollable {
  import opened Results

  /** A row as a cursor hands it out; its contents are not modelled. */
  type Row(!new)

  /** The exceptions the cursors raise. */
  datatype CursorError =
    | ArgumentOutOfRange   // Scroll with a non-positive count
    | IndexOutOfRange      // the composite indexed past its list of sub-results
    | NoCurrentRow         // a row is read before the first successful Next
    | Closed               // a row is read from a closed cursor or reader

  /** The cursor state after one call, and what the call returned or threw. */
  datatype Step<S> = Step(state: S, result: Result<bool, CursorError>)

  /** `n` calls of `result = result && next()`, starting with `result = true`:
      the first call that does not return true ends the run with its own
      outcome, and no later call is made. */
  function Run<S>(next: S -> Step<S>, s: S, n: nat): (r: Step<S>)
    decreases n
    ensures n == 0 ==> r == Step(s, Ok(true))
    ensures r.result != Ok(true) ==> n > 0
  {
    if n == 0 then Step(s, Ok(true))
    else
      var st := next(s);
      if st.result == Ok(true) then Run(next, st.state, n - 1) else st
  }

  /** The state after `k` calls of `next`, whatever they returned. */
  function Iterate<S>(next: S -> Step<S>, s: S, k: nat): S
    decreases k
  {
    if k == 0 then s else Iterate(next, next(s).state, k - 1)
  }

  /** Each of `k` successive calls of `next` returns true. */
  predicate AllSucceed<S>(next: S -> Step<S>, s: S, k: nat)
    decreases k
  {
    k == 0 || (next(s).result == Ok(true) && AllSucceed(next, next(s).state, k - 1))
  }

  /** How many of `k` successive calls of `next` return true. */
  function Successes<S>(next: S -> Step<S>, s: S, k: nat): nat
    decreases k
  {
    if k == 0 then 0
    else (if next(s).result == Ok(true) then 1 else 0) + Successes(next, next(s).state, k - 1)
  }

  /** A run returns true exactly when every one of its calls does, and then
      it has made all `n` calls. */
  lemma {:induction false} RunSucceedsIff<S>(next: S -> Step<S>, s: S, n: nat)
    ensures Run(next, s, n).result == Ok(true) <==> AllSucceed(next, s, n)
    ensures AllSucceed(next, s, n) ==> Run(next, s, n).state == Iterate(next, s, n)
  {
    if n > 0 && next(s).result == Ok(true) {
      RunSucceedsIff(next, next(s).state, n - 1);
    }
  }

  /** A run that does not return true stops at its first failing call: the
      `m` calls before it all returned true, and the run's outcome is that
      call's outcome, so no call is made after it. */
  lemma {:induction false} RunStopsAtFirstFailure<S>(next: S -> Step<S>, s: S, n: nat)
    requires Run(next, s, n).result != Ok(true)
    ensures exists m :: 0 <= m < n && AllSucceed(next, s, m) && next(Iterate(next, s, m)) == Run(next, s, n)
  {
    var st := next(s);
    if st.result != Ok(true) {
      assert AllSucceed(next, s, 0) && next(Iterate(next, s, 0)) == Run(next, s, n);
    } else {
      RunStopsAtFirstFailure(next, st.state, n - 1);
      var m :| 0 <= m < n - 1 && AllSucceed(next, st.state, m)
                && next(Iterate(next, st.state, m)) == Run(next, st.state, n - 1);
      assert AllSucceed(next, s, m + 1) && Iterate(next, s, m + 1) == Iterate(next, st.state, m);
    }
  }

  /** A property every call of `next` keeps also holds after a run. */
  lemma {:induction false} RunPreserves<S>(next: S -> Step<S>, inv: S -> bool, s: S, n: nat)
    requires inv(s)
    requires forall x :: inv(x) ==> inv(next(x).state)
    ensures inv(Run(next, s, n).state)
  {
    if n > 0 && next(s).result == Ok(true) {
      RunPreserves(next, inv, next(s).state, n - 1);
    }
  }

  /** In a state `x` satisfying `inv`, a call of `next` keeps `inv`, returns
      true exactly when a row of `remaining(x)` is left, then puts `get` on
      the first of them and leaves the rest remaining, and otherwise leaves
      no row remaining. */
  ghost predicate HandsOutAt<S>(
    next: S -> Step<S>, remaining: S -> seq<Row>, get: S -> Result<Row, CursorError>, inv: S -> bool, x: S)
  {
    inv(x) ==>
      && inv(next(x).state)
      && next(x).result == Ok(remaining(x) != [])
      && (remaining(x) != [] ==>
            get(next(x).state) == Ok(remaining(x)[0]) && remaining(next(x).state) == remaining(x)[1..])
      && (remaining(x) == [] ==> remaining(next(x).state) == [])
  }

  /** `next` hands out, one per call, the rows `remaining` lists, in every
      state satisfying `inv`. */
  ghost predicate HandsOut<S(!new)>(
    next: S -> Step<S>, remaining: S -> seq<Row>, get: S -> Result<Row, CursorError>, inv: S -> bool)
  {
    forall x :: HandsOutAt(next, remaining, get, inv, x)
  }

  /** `k` calls of such a cursor, with at least `k` rows remaining, all return
      true and consume exactly the first `k` rows, the last one being current. */
  lemma {:induction false} IterateConsumes<S(!new)>(
    next: S -> Step<S>, remaining: S -> seq<Row>, get: S -> Result<Row, CursorError>, inv: S -> bool, s: S, k: nat)
    requires HandsOut(next, remaining, get, inv) && inv(s) && k <= |remaining(s)|
    decreases k
    ensures AllSucceed(next, s, k)
    ensures inv(Iterate(next, s, k)) && remaining(Iterate(next, s, k)) == remaining(s)[k..]
    ensures k > 0 ==> get(Iterate(next, s, k)) == Ok(remaining(s)[k - 1])
  {
    var r := remaining(s);
    assert HandsOutAt(next, remaining, get, inv, s);
    if k == 0 {
      assert r[0..] == r;
    } else {
      var t := next(s).state;
      IterateConsumes(next, remaining, get, inv, t, k - 1);
      assert r[1..][k - 1..] == r[k..];
      if k > 1 {
        assert r[1..][k - 2] == r[k - 1];
      }
    }
  }

  /** A run of `n` calls of such a cursor returns true exactly when at least
      `n` rows remain, and consumes `n` rows, or all of them when fewer remain. */
  lemma {:induction false} RunConsumes<S(!new)>(
    next: S -> Step<S>, remaining: S -> seq<Row>, get: S -> Result<Row, CursorError>, inv: S -> bool, s: S, n: nat)
    requires HandsOut(next, remaining, get, inv) && inv(s)
    decreases n
    ensures Run(next, s, n).result == Ok(n <= |remaining(s)|)
    ensures remaining(Run(next, s, n).state) == if n <= |remaining(s)| then remaining(s)[n..] else []
  {
    var r := remaining(s);
    assert HandsOutAt(next, remaining, get, inv, s);
    if n > 0 && r != [] {
      RunConsumes(next, remaining, get, inv, next(s).state, n - 1);
      if n <= |r| {
        assert r[1..][n - 1..] == r[n..];
      }
    }
  }
}
