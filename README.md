# NHibernate: sequence-style generator configuration and scrollable results, in Dafny

This project is a Dafny model of three pieces of NHibernate, with proofs about each.

- **`SequenceStyleGenerator.Configure`** (module `SequenceStyle`, `sequence_style_generator.dfy`).
  This is the enhanced identifier generator's configuration step. From its string parameters and two dialect capabilities, it resolves the following:
  - the segment name, which is either qualified with catalog and schema or passed through;
  - the initial value, the increment size and the value column;
  - the optimizer strategy, including the increment correction for `none` and the `hilo` fallback for dialects without pooled sequences;
  - whether the backing structure is a sequence or a table;
  - the arguments with which the optimizer is built and the structure prepared.

  `Resolve` states the whole decision as one function. The class `SequenceStyleGenerator` has an imperative `Configure` that sets the three properties as the source does and is proved against `Resolve`.
- **`ListScrollableResultImp`** (module `ListScrollable`, `list_scrollable_result.dfy`).
  This is the composite cursor. It walks a list of sub-results in order, moves to the next sub-result when the current one is exhausted, and closes itself and every sub-result after the last one.
- **`ExternalDataReaderScrollableResultImp`** (module `DataReaderScrollable`, `external_data_reader_scrollable_result.dfy`).
  This is the reader-backed cursor. It counts `Next` calls against `maxRows` and closes its data reader at the end of the rows or on overflow, at most once.

The shared cursor shape of `IScrollableResults` lives in module `Scrollable` (`scrollable.dfy`):

- A cursor is a state with one `Next` step.
- `Run` is the loop `result = result && Next()` that both `Scroll` methods share. Its short-circuit makes no call after the first failure.
- `HandsOut` is the generic property "one `Next` call hands out the first of the remaining rows". `IterateConsumes` and `RunConsumes` lift it from one call to `k` calls of `Next` and to a whole `Scroll`.

Module `Results` holds the `Option` and `Result` types.

Each cursor class keeps the source's fields. A ghost `State()` function maps those fields to a datatype. Each method's postcondition ties the new state to a pure function of the old state (`ListNext`, `ListScroll`, `ListClose`, `ReaderNext`, `ReaderScroll`, `ReaderClose`). The properties are then proved about those functions.

### Where the model departs from the source's shape

- `IScrollableResults` would naturally be a trait. Here it is the generic `Run` loop and the `HandsOut` predicate, which both cursors instantiate.
- The composite's `Next` recurses through exhausted sub-results. Its specification, `ListNext`, states the recursion's outcome in closed form: the first sub-result from `currentInList` on that has a row (`FirstWithRow`). The class method `ListScrollableResult.Next` keeps the source's recursion and is proved equal to that closed form.
- The source's strategy name `OptimizerFactory.Pool` is modelled as the string `"pooled"`.

## Model

| member | source | states |
|---|---|---|
| SequenceStyle.Lookup | src/NHibernate/Id/Enhanced/SequenceStyleGenerator.cs:140-141 | an optional parameter is present exactly when its key is, with the key's value |
| SequenceStyle.GetString | src/NHibernate/Id/Enhanced/SequenceStyleGenerator.cs:135 | a string parameter is its value, or the default when absent |
| SequenceStyle.GetInt32 | src/NHibernate/Id/Enhanced/SequenceStyleGenerator.cs:171 | an absent int parameter gives the default; a present one succeeds exactly when its text parses, with the parsed value |
| SequenceStyle.GetBoolean | src/NHibernate/Id/Enhanced/SequenceStyleGenerator.cs:91 | an absent boolean parameter gives the default; a present one succeeds exactly when its text parses |
| SequenceStyle.DetermineSequenceName | src/NHibernate/Id/Enhanced/SequenceStyleGenerator.cs:133-151 | a name with '.' passes through unchanged; any other name, the default "hibernate_sequence" included, is qualified with the optional catalog and schema |
| SequenceStyle.DetermineValueColumnName | src/NHibernate/Id/Enhanced/SequenceStyleGenerator.cs:158-161 | the value column is the parameter, or "next_val" |
| SequenceStyle.DetermineInitialValue | src/NHibernate/Id/Enhanced/SequenceStyleGenerator.cs:169-172 | the initial value defaults to 1; a present parameter fails exactly when it does not parse, and otherwise is the parsed value |
| SequenceStyle.DetermineIncrementSize | src/NHibernate/Id/Enhanced/SequenceStyleGenerator.cs:179-182 | the increment defaults to 1; a present parameter fails exactly when it does not parse, and otherwise is the parsed value |
| SequenceStyle.DetermineOptimizationStrategy | src/NHibernate/Id/Enhanced/SequenceStyleGenerator.cs:188-192 | an explicit optimizer always wins; without one the strategy is "none" iff increment <= 1 and pooled iff increment > 1 |
| SequenceStyle.DetermineAdjustedIncrementSize | src/NHibernate/Id/Enhanced/SequenceStyleGenerator.cs:201-209 | the increment changes iff the strategy is "none" and the increment exceeds 1, and then becomes 1; "none" never keeps an increment above 1 |
| SequenceStyle.Resolve | src/NHibernate/Id/Enhanced/SequenceStyleGenerator.cs:87-123 | fails exactly when force_table_use, initial_value or increment_size does not parse; otherwise: a sequence iff the dialect has sequences and force_table_use (default false) is not set; structure named by the resolved name; both structure and optimizer get the corrected increment, which the hilo fallback leaves alone; pooled becomes hilo only on a sequence lacking pooled support; optimizer initial value -1 when initial_value is absent while the structure gets 1; returned class from the identifier type |
| SequenceStyle.DefaultsWhenAbsent | src/NHibernate/Id/Enhanced/SequenceStyleGenerator.cs:68-78 | with no parameters: qualified "hibernate_sequence", start 1, increment 1, strategy "none" with optimizer initial -1, a sequence iff the dialect supports one, column "next_val" on a table |
| SequenceStyle.ExplicitNoneCorrectsIncrement | src/NHibernate/Id/Enhanced/SequenceStyleGenerator.cs:203-206 | an explicit "none" with increment 10 runs with increment 1 in both the optimizer and the structure |
| SequenceStyle.ForcedTable | src/NHibernate/Id/Enhanced/SequenceStyleGenerator.cs:102-114 | force_table_use = true builds a table whatever the dialect supports |
| SequenceStyle.SequenceStyleGenerator.constructor | src/NHibernate/Id/Enhanced/SequenceStyleGenerator.cs:80-82 | a new generator has no identifier type, structure or optimizer |
| SequenceStyle.SequenceStyleGenerator.Configure | src/NHibernate/Id/Enhanced/SequenceStyleGenerator.cs:87-123 | the identifier type is set first; a parse failure leaves structure, optimizer and preparation as they were; otherwise structure and optimizer are Resolve's, and the structure is prepared with exactly the optimizer built |
| SequenceStyle.SequenceStyleGenerator.GeneratorKey | src/NHibernate/Id/Enhanced/SequenceStyleGenerator.cs:226-229 | the key is the configured structure's name, and there is none before configuration |
| SequenceStyle.ConfiguredKey | src/NHibernate/Id/Enhanced/SequenceStyleGenerator.cs:226-229 | after Configure, the generator key is the resolved sequence name, or absent when configuration failed |
| Scrollable.Run | src/NHibernate/Impl/ListScrollableResultImp.cs:183-190 | the loop `result = result && Next()` over n calls: with no call it returns true, and it can only fail after at least one call; its full meaning is stated by the lemmas below |
| Scrollable.RunSucceedsIff | src/NHibernate/Impl/ListScrollableResultImp.cs:183-190 | the accumulated result is true iff every one of the n calls of Next returned true, and then all n calls were made |
| Scrollable.RunStopsAtFirstFailure | src/NHibernate/Impl/ExternalDataReaderScrollableResultImp.cs:63-69 | a failed run ends with the outcome of its first failing call, after m < n successes, with no call after it |
| Scrollable.RunPreserves | src/NHibernate/Impl/ExternalDataReaderScrollableResultImp.cs:63-69 | a property each Next keeps holds after a Scroll loop |
| Scrollable.IterateConsumes | src/NHibernate/IScrollableResults.cs:29-33 | for a cursor that hands out its remaining rows, k calls of Next with k rows left all succeed, consume exactly the first k rows and leave Get on row k-1 |
| Scrollable.RunConsumes | src/NHibernate/IScrollableResults.cs:35-40 | for such a cursor, Scroll(n) returns true iff at least n rows remain and consumes n rows, or all of them |
| ListScrollable.SubRemaining | src/NHibernate/Impl/ListScrollableResultImp.cs:169 | a sub-result has rows left exactly when it is open with an unread row |
| ListScrollable.SubNext | src/NHibernate/Impl/ListScrollableResultImp.cs:169 | a sub-result's Next is true iff it has a row, and then hands out its first remaining row; an exhausted one is unchanged |
| ListScrollable.SubClose | src/NHibernate/Impl/ListScrollableResultImp.cs:159 | a closed sub-result has no rows left and keeps its rows and position |
| ListScrollable.SubGet | src/NHibernate/Impl/ListScrollableResultImp.cs:147 | a sub-result's Get gives a row exactly when it is open and has moved onto a row, and the row is the one it moved to last; a closed sub-result fails with Closed |
| ListScrollable.ListClose | src/NHibernate/Impl/ListScrollableResultImp.cs:155-164 | every sub-result is closed, rows and positions kept, the composite is no longer open and hands out nothing |
| ListScrollable.CloseAll | src/NHibernate/Impl/ListScrollableResultImp.cs:157-160 | each sub-result of the list is replaced by its closed self |
| ListScrollable.FirstWithRow | src/NHibernate/Impl/ListScrollableResultImp.cs:169-175 | the recursion stops at the first sub-result from the current one on that has a row; every sub-result skipped has none |
| ListScrollable.ListNext | src/NHibernate/Impl/ListScrollableResultImp.cs:166-178 | Next throws exactly when it indexes past the list, and then leaves every field as it was; true leaves the composite open and false leaves it closed; the list keeps its length |
| ListScrollable.NextOnRow | src/NHibernate/Impl/ListScrollableResultImp.cs:169-170 | when the current sub-result has a row, Next moves it on and returns true at the same index |
| ListScrollable.NextMovesOn | src/NHibernate/Impl/ListScrollableResultImp.cs:171-175 | an exhausted sub-result before the last passes the call to the next index |
| ListScrollable.NextPastLast | src/NHibernate/Impl/ListScrollableResultImp.cs:176-177 | an exhausted last sub-result closes the composite and Next returns false |
| ListScrollable.NextFrame | src/NHibernate/Impl/ListScrollableResultImp.cs:166-178 | closed: false and nothing consulted; currentInList never decreases and stays within the list; no sub-result's rows change; sub-results outside those visited are untouched; after false every sub-result is closed |
| ListScrollable.ListGet | src/NHibernate/Impl/ListScrollableResultImp.cs:145-148 | Get indexes the list at currentInList and throws past it; otherwise it returns a row exactly when that sub-result is open and on a row, the row it moved to last, and fails with Closed when that sub-result is closed |
| ListScrollable.ListScroll | src/NHibernate/Impl/ListScrollableResultImp.cs:180-191 | countNext <= 0 throws; otherwise true iff all countNext calls of Next return true, ending in the state after them |
| ListScrollable.PendingSkip | src/NHibernate/Impl/ListScrollableResultImp.cs:171-175 | skipping exhausted sub-results skips no row |
| ListScrollable.RowAt | src/NHibernate/Impl/ListScrollableResultImp.cs:169-170 | moving a sub-result on consumes exactly the first pending row and Get is then on it |
| ListScrollable.NextEnumerates | src/NHibernate/Impl/ListScrollableResultImp.cs:166-178 | on a non-empty list, Next returns true iff a row remains, Get is then on the first remaining row, and exactly that row is consumed |
| ListScrollable.IterateEnumerates | src/NHibernate/Impl/ListScrollableResultImp.cs:166-178 | k calls of Next with k rows remaining all return true and consume exactly the first k rows, Get being on row k-1 |
| ListScrollable.ScrollEnumerates | src/NHibernate/Impl/ListScrollableResultImp.cs:180-191 | Scroll(n) with n > 0 is true iff at least n rows remain, and consumes n rows or all of them |
| ListScrollable.FreshPendingIsConcatenation | src/NHibernate/Impl/ListScrollableResultImp.cs:124 | a composite over unread sub-results hands out all their rows, list order first |
| ListScrollable.ListScrollableResult.constructor | src/NHibernate/Impl/ListScrollableResultImp.cs:124-127 | a new composite has an empty list, index 0, and is open |
| ListScrollable.ListScrollableResult.Add | src/NHibernate/Impl/ListScrollableResultImp.cs:140-143 | adding through ScrollableResultses appends and changes nothing else |
| ListScrollable.ListScrollableResult.Get | src/NHibernate/Impl/ListScrollableResultImp.cs:145-148 | Get is the current sub-result's Get, and throws past the list |
| ListScrollable.ListScrollableResult.Close | src/NHibernate/Impl/ListScrollableResultImp.cs:155-164 | the loop closes every sub-result and then clears the open flag, as ListClose |
| ListScrollable.ListScrollableResult.Dispose | src/NHibernate/Impl/ListScrollableResultImp.cs:193-196 | Dispose is Close |
| ListScrollable.ListScrollableResult.Next | src/NHibernate/Impl/ListScrollableResultImp.cs:166-178 | the recursive method returns and leaves exactly what ListNext says |
| ListScrollable.ListScrollableResult.Scroll | src/NHibernate/Impl/ListScrollableResultImp.cs:180-191 | the loop returns and leaves exactly what ListScroll says, throwing out of the loop when Next throws |
| DataReaderScrollable.ReaderInit | src/NHibernate/Impl/ExternalDataReaderScrollableResultImp.cs:15-16 | a new cursor is at position -1, open, and satisfies the invariant |
| DataReaderScrollable.ReaderClose | src/NHibernate/Impl/ExternalDataReaderScrollableResultImp.cs:38-45 | the reader is closed only when the cursor was open; afterwards the cursor is closed, nothing else changes |
| DataReaderScrollable.ReaderNext | src/NHibernate/Impl/ExternalDataReaderScrollableResultImp.cs:47-59 | position +1 on every call, open or not; the cursor stays open exactly when it was open, the position does not pass maxRows and the reader has a row; past maxRows the cursor closes without reading; at the end of the rows it closes; the result is the open flag; a row is read exactly when true, and Get is then on it; the invariant is kept |
| DataReaderScrollable.ReaderGet | src/NHibernate/Impl/ExternalDataReaderScrollableResultImp.cs:28-31 | a row is returned exactly when the cursor is open and the reader is on a row, and it is the row read last; a closed cursor's Get fails |
| DataReaderScrollable.ReaderScroll | src/NHibernate/Impl/ExternalDataReaderScrollableResultImp.cs:61-70 | countNext <= 0 returns true and calls nothing; otherwise never throws, is true iff all calls of Next are, and keeps the invariant |
| DataReaderScrollable.RunNeverThrows | src/NHibernate/Impl/ExternalDataReaderScrollableResultImp.cs:61-70 | the reader's Scroll loop always returns a value |
| DataReaderScrollable.ValidAfterRun | src/NHibernate/Impl/ExternalDataReaderScrollableResultImp.cs:61-70 | the Scroll loop keeps the cursor invariant |
| DataReaderScrollable.ClosedNeverSucceeds | src/NHibernate/Impl/ExternalDataReaderScrollableResultImp.cs:53-58 | a closed cursor stays closed and every Next returns false |
| DataReaderScrollable.SuccessesFromOpen | src/NHibernate/Impl/ExternalDataReaderScrollableResultImp.cs:50-57 | from an open state, k calls of Next return true min(k, rows left, calls left before maxRows) times |
| DataReaderScrollable.TrueAtMostMaxRowsPlusOne | src/NHibernate/Impl/ExternalDataReaderScrollableResultImp.cs:50-52 | a new cursor's Next returns true min(k, rows, maxRows+1) times in k calls, so never more than maxRows+1 times |
| DataReaderScrollable.ReaderRemaining | src/NHibernate/Impl/ExternalDataReaderScrollableResultImp.cs:50-57 | no more rows remain than calls left before the position passes maxRows |
| DataReaderScrollable.NextHandsOutAt | src/NHibernate/Impl/ExternalDataReaderScrollableResultImp.cs:47-59 | one Next hands out the first remaining row, or ends with none remaining |
| DataReaderScrollable.ReaderEnumerates | src/NHibernate/Impl/ExternalDataReaderScrollableResultImp.cs:47-59 | a new cursor hands out the first maxRows+1 rows of its reader in order, Get being on row k-1 after k calls |
| DataReaderScrollable.ScrollEnumerates | src/NHibernate/Impl/ExternalDataReaderScrollableResultImp.cs:61-70 | Scroll(n) with n > 0 is true iff at least n rows remain, and consumes n rows or all of them |
| DataReaderScrollable.ReaderClosedAtMostOnce | src/NHibernate/Impl/ExternalDataReaderScrollableResultImp.cs:40-44 | under any sequence of Next, Scroll, Close and Dispose, the reader is closed at most once, and exactly once iff the cursor is closed |
| DataReaderScrollable.NeverReopens | src/NHibernate/Impl/ExternalDataReaderScrollableResultImp.cs:38-45 | no call reopens a closed cursor |
| DataReaderScrollable.ExternalDataReaderScrollableResult.constructor | src/NHibernate/Impl/ExternalDataReaderScrollableResultImp.cs:15-26 | a new cursor is in the initial state |
| DataReaderScrollable.ExternalDataReaderScrollableResult.Read | src/NHibernate/Impl/ExternalDataReaderScrollableResultImp.cs:55 | the reader moves to its next row iff it has one |
| DataReaderScrollable.ExternalDataReaderScrollableResult.Get | src/NHibernate/Impl/ExternalDataReaderScrollableResultImp.cs:28-31 | Get is the row the reader is on |
| DataReaderScrollable.ExternalDataReaderScrollableResult.Close | src/NHibernate/Impl/ExternalDataReaderScrollableResultImp.cs:38-45 | Close is ReaderClose |
| DataReaderScrollable.ExternalDataReaderScrollableResult.Dispose | src/NHibernate/Impl/ExternalDataReaderScrollableResultImp.cs:72-75 | Dispose is Close |
| DataReaderScrollable.ExternalDataReaderScrollableResult.Next | src/NHibernate/Impl/ExternalDataReaderScrollableResultImp.cs:47-59 | the method returns and leaves exactly what ReaderNext says |
| DataReaderScrollable.ExternalDataReaderScrollableResult.Scroll | src/NHibernate/Impl/ExternalDataReaderScrollableResultImp.cs:61-70 | the loop returns and leaves exactly what ReaderScroll says |

## Left out

- `Generate`, the optimizers, `SequenceStructure`, `TableStructure`, `OptimizerFactory.BuildOptimizer` and `Prepare` are not part of this model. They are foreign code. The model records only the arguments they receive: the `Structure` and `OptimizerArgs` values, and the ghost field `preparedWith`.
- The DDL methods `SqlCreateStrings` and `SqlDropString` are left out. They delegate to dialect SQL that is not part of this model.
- The warning logged by `DetermineAdjustedIncrementSize` is left out, because it is a side effect only.
- `PropertiesHelper` and `Table.Qualify` are parameters of the model (`Helpers`):
  - Parsing is an `Option`-valued function, so a parse failure is an error and not an exception.
  - Qualification is left uninterpreted.
  - `PropertiesHelper` is not part of this model. The model assumes that a malformed `force_table_use`, `initial_value` or `increment_size` makes the helper throw, and so aborts `Configure`. A helper that fell back to the default would be modelled by a parser that always succeeds; the parser never sees the default, so it cannot fall back to it for one parameter only.
  - `GetString` is modelled as a lookup with a default.
- The values of `PersistentIdGeneratorParmsNames.Schema`/`.Catalog` and of `OptimizerFactory.None`/`.Pool`/`.HiLo` are assumed to be "schema", "catalog", "none", "pooled" and "hilo". The contracts and lemmas refer to them through the named constants, so another choice of values changes no statement, only the strings compared.
- Only `IType.ReturnedClass` is consulted, and it is modelled as a string. The `Dialect` is reduced to its two capability flags.
- SequenceStyle.SequenceStyleGenerator.GeneratorKey: before `Configure`, the source dereferences a null structure. The model returns `None` instead of raising.
- The composite cursor's session plumbing is left out: `ExternalSessionIntercepter`, opening the session in the constructor, and disposing it in `Close`. This is resource handling with no effect on the cursor's state.
- Sub-results are modelled as values: rows, a position and an open flag, held in a `seq`. The model therefore does not capture two things:
  - a sub-result shared by reference with another holder;
  - a sub-result type whose exhausted `Next` still changes state, as a reader-backed cursor's position does. The model's exhausted sub-result is left unchanged.
- ListScrollable.ListScrollableResult.Add: `ScrollableResultses` hands callers the mutable list of sub-results. The model lets them only append to it. Removing, inserting, clearing or overwriting entries is not modelled. Such changes can leave `currentInList` past the end, so that the next `Next` throws. `Valid()`, which `Next` and `Scroll` require, rules out that state.
- The indexer errors of the composite's `List<T>` (an `ArgumentOutOfRangeException` in .NET) are modelled as `IndexOutOfRange`, kept apart from `Scroll`'s own `ArgumentOutOfRange`.
- The data reader is an abstract sequence of rows with a read count. `Batcher.CloseReader` is modelled as a ghost count of closes.
- `CriteriaLoader.ExternalReadRow` is modelled as the row the reader is on. When no row is current, it fails with `NoCurrentRow` or `Closed`; the real loader would throw.
- The generic `Get<T>` casts of both cursors are left out; they are runtime type casts.
- Row contents are an abstract type.
- Integer widths:
  - The generator's values are `Int32`, and no arithmetic is done on them.
  - The reader's `_position` is an unbounded `int`. The model does not capture its 32-bit wrap-around after 2^31 calls of `Next`.
- Concurrency is left out, because none appears in the modelled code.
