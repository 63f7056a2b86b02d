/** Configuration of the sequence-style identifier generator
    (SequenceStyleGenerator): from the generator's string parameters and two
    dialect capabilities it resolves the segment name, the initial value, the
    increment size, the value column and the optimizer strategy, chooses a
    sequence or a table as backing structure, and fixes the arguments the
    optimizer is built from. */
module SequenceStyle {
  import opened Results

  const DefaultSequenceName: string := "hibernate_sequence"
  const DefaultInitialValue: Int32 := 1
  const DefaultIncrementSize: Int32 := 1

  const SequenceParam: string := "sequence_name"
  const InitialParam: string := "initial_value"
  const IncrementParam: string := "increment_size"
  const OptimizerParam: string := "optimizer"
  const ForceTableParam: string := "force_table_use"
  const ValueColumnParam: string := "value_column"
  const DefaultValueColumnName: string := "next_val"

  /** The schema and catalog parameter names (PersistentIdGeneratorParmsNames). */
  const SchemaParam: string := "schema"
  const CatalogParam: string := "catalog"

  /** The optimizer strategy names (OptimizerFactory.None, .Pool and .HiLo). */
  const NoneStrategy: string := "none"
  const PoolStrategy: string := "pooled"
  const HiLoStrategy: string := "hilo"

  /** A C# int. */
  type Int32 = x: int | -0x8000_0000 <= x < 0x8000_0000

  /** The two dialect capabilities the configuration consults. */
  datatype Dialect = Dialect(supportsSequences: bool, supportsPooledSequences: bool)

  /** The helpers this model does not define: PropertiesHelper's parsing of a
      parameter's text and Table.Qualify(catalog, schema, name). The model
      assumes that a text the helper cannot parse makes it throw, which it
      writes as None; a helper that fell back to the default instead is a
      parser that never returns None. */
  datatype Helpers = Helpers(
    parseInt32: string -> Option<Int32>,
    parseBoolean: string -> Option<bool>,
    qualify: (Option<string>, Option<string>, string) -> string)

  /** A parameter whose text does not parse: configuration fails. */
  datatype ConfigError = NotAnInt32(param: string, text: string) | NotABoolean(param: string, text: string)

  /** The identifier type, of which only the class it returns is consulted. */
  datatype IdentifierType = IdentifierType(returnedClass: string)

  /** The database structure built: its constructor's arguments. */
  datatype Structure =
    | SequenceStructure(name: string, initialValue: Int32, incrementSize: Int32)
    | TableStructure(name: string, valueColumn: string, initialValue: Int32, incrementSize: Int32)

  /** The arguments of OptimizerFactory.BuildOptimizer. */
  datatype OptimizerArgs = OptimizerArgs(strategy: string, returnedClass: string, incrementSize: Int32, initialValue: Int32)

  /** What Configure leaves in the generator's three properties. */
  datatype Configuration = Configuration(identifierType: IdentifierType, structure: Structure, optimizer: OptimizerArgs)

  /** The value of a parameter, None when it is absent (TryGetValue). */
  function Lookup(parms: map<string, string>, name: string): (r: Option<string>)
    ensures r.Some? <==> name in parms
    ensures r.Some? ==> r.value == parms[name]
  {
    if name in parms then Some(parms[name]) else None
  }

  /** PropertiesHelper.GetString: the parameter, or the default when it is absent. */
  function GetString(name: string, parms: map<string, string>, default: string): (r: string)
    ensures name !in parms ==> r == default
    ensures name in parms ==> r == parms[name]
  {
    if name in parms then parms[name] else default
  }

  /** PropertiesHelper.GetInt32: the parsed parameter, the default when it is absent. */
  function GetInt32(h: Helpers, name: string, parms: map<string, string>, default: Int32): (r: Result<Int32, ConfigError>)
    ensures name !in parms ==> r == Ok(default)
    ensures name in parms ==> (r.Ok? <==> h.parseInt32(parms[name]).Some?)
    ensures name in parms && r.Ok? ==> Some(r.value) == h.parseInt32(parms[name])
  {
    if name !in parms then Ok(default)
    else match h.parseInt32(parms[name])
      case Some(v) => Ok(v)
      case None => Err(NotAnInt32(name, parms[name]))
  }

  /** PropertiesHelper.GetBoolean: the parsed parameter, the default when it is absent. */
  function GetBoolean(h: Helpers, name: string, parms: map<string, string>, default: bool): (r: Result<bool, ConfigError>)
    ensures name !in parms ==> r == Ok(default)
    ensures name in parms ==> (r.Ok? <==> h.parseBoolean(parms[name]).Some?)
    ensures name in parms && r.Ok? ==> Some(r.value) == h.parseBoolean(parms[name])
  {
    if name !in parms then Ok(default)
    else match h.parseBoolean(parms[name])
      case Some(v) => Ok(v)
      case None => Err(NotABoolean(name, parms[name]))
  }

  /** The sequence (or table) name: a name containing '.' is taken as already
      qualified and passed through; any other name, the default included, is
      qualified with the catalog and schema parameters, absent ones as null. */
  function DetermineSequenceName(parms: map<string, string>, h: Helpers): (r: string)
    ensures SequenceParam !in parms ==>
              r == h.qualify(Lookup(parms, CatalogParam), Lookup(parms, SchemaParam), "hibernate_sequence")
    ensures SequenceParam in parms && '.' in parms[SequenceParam] ==> r == parms[SequenceParam]
    ensures SequenceParam in parms && '.' !in parms[SequenceParam] ==>
              r == h.qualify(Lookup(parms, CatalogParam), Lookup(parms, SchemaParam), parms[SequenceParam])
  {
    var sequenceName := GetString(SequenceParam, parms, DefaultSequenceName);
    if '.' !in sequenceName then
      h.qualify(Lookup(parms, CatalogParam), Lookup(parms, SchemaParam), sequenceName)
    else
      sequenceName
  }

  /** The value column: the parameter, or "next_val". */
  function DetermineValueColumnName(parms: map<string, string>): (r: string)
    ensures ValueColumnParam !in parms ==> r == "next_val"
    ensures ValueColumnParam in parms ==> r == parms[ValueColumnParam]
  {
    GetString(ValueColumnParam, parms, DefaultValueColumnName)
  }

  /** The initial value: the parameter, or 1. */
  function DetermineInitialValue(parms: map<string, string>, h: Helpers): (r: Result<Int32, ConfigError>)
    ensures InitialParam !in parms ==> r == Ok(1)
    ensures InitialParam in parms ==> (r.Ok? <==> h.parseInt32(parms[InitialParam]).Some?)
    ensures InitialParam in parms && r.Ok? ==> Some(r.value) == h.parseInt32(parms[InitialParam])
  {
    GetInt32(h, InitialParam, parms, DefaultInitialValue)
  }

  /** The increment size: the parameter, or 1. */
  function DetermineIncrementSize(parms: map<string, string>, h: Helpers): (r: Result<Int32, ConfigError>)
    ensures IncrementParam !in parms ==> r == Ok(1)
    ensures IncrementParam in parms ==> (r.Ok? <==> h.parseInt32(parms[IncrementParam]).Some?)
    ensures IncrementParam in parms && r.Ok? ==> Some(r.value) == h.parseInt32(parms[IncrementParam])
  {
    GetInt32(h, IncrementParam, parms, DefaultIncrementSize)
  }

  /** The optimizer strategy: an explicit parameter always wins; without one
      it is "none" for an increment of at most 1 and "pooled" above. */
  function DetermineOptimizationStrategy(parms: map<string, string>, incrementSize: Int32): (r: string)
    ensures OptimizerParam in parms ==> r == parms[OptimizerParam]
    ensures OptimizerParam !in parms ==> (r == NoneStrategy <==> incrementSize <= 1)
    ensures OptimizerParam !in parms ==> (r == PoolStrategy <==> incrementSize > 1)
  {
    var defOptStrategy := if incrementSize <= 1 then NoneStrategy else PoolStrategy;
    GetString(OptimizerParam, parms, defOptStrategy)
  }

  /** The increment corrected for the strategy: it changes exactly when the
      strategy is "none" and the increment is above 1, and then becomes 1, so
      "none" never runs with an increment above 1. */
  function DetermineAdjustedIncrementSize(optimizationStrategy: string, incrementSize: Int32): (r: Int32)
    ensures r != incrementSize <==> (optimizationStrategy == NoneStrategy && incrementSize > 1)
    ensures r != incrementSize ==> r == 1
    ensures optimizationStrategy == NoneStrategy ==> r <= 1
  {
    if optimizationStrategy == NoneStrategy && incrementSize > 1 then 1 else incrementSize
  }

  /** The parameters whose text does not parse. */
  predicate Malformed(parms: map<string, string>, h: Helpers)
  {
    || (ForceTableParam in parms && h.parseBoolean(parms[ForceTableParam]).None?)
    || (InitialParam in parms && h.parseInt32(parms[InitialParam]).None?)
    || (IncrementParam in parms && h.parseInt32(parms[IncrementParam]).None?)
  }

  /** The whole of Configure as one value: which structure and which
      optimizer arguments a configuration resolves to, or the error that
      aborts it. */
  function Resolve(t: IdentifierType, parms: map<string, string>, dialect: Dialect, h: Helpers)
    : (r: Result<Configuration, ConfigError>)
    ensures r.Err? <==> Malformed(parms, h)
    ensures r.Ok? ==> ResolvedAsPromised(t, parms, dialect, h, r.value)
  {
    var forceTable := GetBoolean(h, ForceTableParam, parms, false);
    var sequenceName := DetermineSequenceName(parms, h);
    var initial := DetermineInitialValue(parms, h);
    var increment := DetermineIncrementSize(parms, h);
    if forceTable.Err? then Err(forceTable.error)
    else if initial.Err? then Err(initial.error)
    else if increment.Err? then Err(increment.error)
    else
    var forceTableUse := forceTable.value;
    var initialValue := initial.value;
    var incrementSize0 := increment.value;
    var valueColumnName := DetermineValueColumnName(parms);
    var strategy0 := DetermineOptimizationStrategy(parms, incrementSize0);
    var incrementSize := DetermineAdjustedIncrementSize(strategy0, incrementSize0);
    var useSequence := dialect.supportsSequences && !forceTableUse;
    var strategy :=
      if useSequence && strategy0 == PoolStrategy && !dialect.supportsPooledSequences then HiLoStrategy
      else strategy0;
    var structure :=
      if useSequence then SequenceStructure(sequenceName, initialValue, incrementSize)
      else TableStructure(sequenceName, valueColumnName, initialValue, incrementSize);
    var optimizerInitial := GetInt32(h, InitialParam, parms, -1).value;
    Ok(Configuration(t, structure, OptimizerArgs(strategy, t.returnedClass, incrementSize, optimizerInitial)))
  }

  /** What a successful configuration promises, stated against the inputs:
      - a sequence is built exactly when the dialect supports sequences and
        force_table_use (default false) is not set, and a table otherwise;
      - the structure is named by the resolved sequence name;
      - the structure and the optimizer get the same increment, the one
        corrected for the requested strategy, which the hilo fallback never
        changes;
      - the strategy is the requested one, except that "pooled" becomes
        "hilo" on a sequence whose dialect lacks pooled sequences;
      - so "none" never runs with an increment above 1 and a pooled sequence
        is only used where the dialect supports it;
      - without initial_value the structure starts at 1 and the optimizer is
        told -1; with it both get the parsed value. */
  ghost predicate ResolvedAsPromised(t: IdentifierType, parms: map<string, string>, dialect: Dialect, h: Helpers, c: Configuration)
  {
    var forceTableUse := ForceTableParam in parms && h.parseBoolean(parms[ForceTableParam]) == Some(true);
    && DetermineIncrementSize(parms, h).Ok?
    && DetermineInitialValue(parms, h).Ok?
    && var requested := DetermineOptimizationStrategy(parms, DetermineIncrementSize(parms, h).value);
    && c.identifierType == t
    && (c.structure.SequenceStructure? <==> dialect.supportsSequences && !forceTableUse)
    && c.structure.name == DetermineSequenceName(parms, h)
    && (c.structure.TableStructure? ==> c.structure.valueColumn == DetermineValueColumnName(parms))
    && c.structure.incrementSize == c.optimizer.incrementSize
    && c.optimizer.incrementSize == DetermineAdjustedIncrementSize(requested, DetermineIncrementSize(parms, h).value)
    && c.optimizer.strategy ==
         (if c.structure.SequenceStructure? && requested == PoolStrategy && !dialect.supportsPooledSequences
          then HiLoStrategy else requested)
    && (c.optimizer.strategy == NoneStrategy ==> c.optimizer.incrementSize <= 1)
    && (c.structure.SequenceStructure? && c.optimizer.strategy == PoolStrategy ==> dialect.supportsPooledSequences)
    && (OptimizerParam !in parms ==> (c.optimizer.strategy == NoneStrategy <==> c.optimizer.incrementSize <= 1))
    && (InitialParam !in parms ==> c.structure.initialValue == 1 && c.optimizer.initialValue == -1)
    && (InitialParam in parms ==>
          Some(c.structure.initialValue) == h.parseInt32(parms[InitialParam])
          && c.optimizer.initialValue == c.structure.initialValue)
    && c.optimizer.returnedClass == t.returnedClass
  }

  /** With no parameters at all: the default name qualified, a start value
      of 1, an increment of 1, strategy "none", and the table variant using
      the column "next_val" when the dialect has no sequences. */
  lemma DefaultsWhenAbsent(t: IdentifierType, dialect: Dialect, h: Helpers)
    ensures var r := Resolve(t, map[], dialect, h);
      && r.Ok?
      && r.value.structure.name == h.qualify(None, None, DefaultSequenceName)
      && r.value.structure.initialValue == 1
      && r.value.structure.incrementSize == 1
      && r.value.optimizer == OptimizerArgs(NoneStrategy, t.returnedClass, 1, -1)
      && (r.value.structure.SequenceStructure? <==> dialect.supportsSequences)
      && (r.value.structure.TableStructure? ==> r.value.structure.valueColumn == DefaultValueColumnName)
  {
    var r := Resolve(t, map[], dialect, h);
    assert !Malformed(map[], h);
    assert ResolvedAsPromised(t, map[], dialect, h, r.value);
  }

  /** An explicit "none" with increment 10 is corrected to increment 1, on
      either structure. */
  lemma ExplicitNoneCorrectsIncrement(t: IdentifierType, dialect: Dialect, h: Helpers)
    requires h.parseInt32("10") == Some(10)
    ensures var r := Resolve(t, map[IncrementParam := "10", OptimizerParam := NoneStrategy], dialect, h);
      r.Ok? && r.value.optimizer.strategy == NoneStrategy
      && r.value.optimizer.incrementSize == 1 && r.value.structure.incrementSize == 1
  {
    var parms := map[IncrementParam := "10", OptimizerParam := NoneStrategy];
    assert !Malformed(parms, h);
    var r := Resolve(t, parms, dialect, h);
    assert ResolvedAsPromised(t, parms, dialect, h, r.value);
  }

  /** force_table_use = true builds a table whatever the dialect supports. */
  lemma ForcedTable(t: IdentifierType, parms: map<string, string>, dialect: Dialect, h: Helpers)
    requires ForceTableParam in parms && h.parseBoolean(parms[ForceTableParam]) == Some(true)
    requires !Malformed(parms, h)
    ensures Resolve(t, parms, dialect, h).Ok? && Resolve(t, parms, dialect, h).value.structure.TableStructure?
  {
    var r := Resolve(t, parms, dialect, h);
    assert ResolvedAsPromised(t, parms, dialect, h, r.value);
  }

  /** The generator object: the three properties Configure sets, and the
      optimizer its database structure was last prepared with. */
  class SequenceStyleGenerator {
    var identifierType: Option<IdentifierType>
    var databaseStructure: Option<Structure>
    var optimizer: Option<OptimizerArgs>
    ghost var preparedWith: Option<OptimizerArgs>

    constructor ()
      ensures identifierType == None && databaseStructure == None && optimizer == None && preparedWith == None
    {
      identifierType := None;
      databaseStructure := None;
      optimizer := None;
      preparedWith := None;
    }

    /** Configure: the identifier type is set first; a parameter that does not
      parse aborts what follows, leaving the structure and the optimizer as
      they were; otherwise both are set as Resolve says and the structure is
      prepared with exactly the optimizer just built. */
    method Configure(t: IdentifierType, parms: map<string, string>, dialect: Dialect, h: Helpers)
      returns (err: Option<ConfigError>)
      modifies this
      ensures identifierType == Some(t)
      ensures err.Some? <==> Resolve(t, parms, dialect, h).Err?
      ensures err.Some? ==>
                (&& Resolve(t, parms, dialect, h) == Err(err.value)
                 && databaseStructure == old(databaseStructure) && optimizer == old(optimizer)
                 && preparedWith == old(preparedWith))
      ensures err.None? ==>
                (var c := Resolve(t, parms, dialect, h).value;
                 && databaseStructure == Some(c.structure) && optimizer == Some(c.optimizer)
                 && preparedWith == Some(c.optimizer))
    {
      identifierType := Some(t);

      var forceTable := GetBoolean(h, ForceTableParam, parms, false);
      if forceTable.Err? {
        return Some(forceTable.error);
      }
      var forceTableUse := forceTable.value;

      var sequenceName := DetermineSequenceName(parms, h);

      var initial := DetermineInitialValue(parms, h);
      if initial.Err? {
        return Some(initial.error);
      }
      var initialValue := initial.value;
      var increment := DetermineIncrementSize(parms, h);
      if increment.Err? {
        return Some(increment.error);
      }
      var incrementSize := increment.value;
      var valueColumnName := DetermineValueColumnName(parms);

      var optimizationStrategy := DetermineOptimizationStrategy(parms, incrementSize);
      incrementSize := DetermineAdjustedIncrementSize(optimizationStrategy, incrementSize);

      var structure;
      if dialect.supportsSequences && !forceTableUse {
        if optimizationStrategy == PoolStrategy && !dialect.supportsPooledSequences {
          optimizationStrategy := HiLoStrategy;
        }
        structure := SequenceStructure(sequenceName, initialValue, incrementSize);
      } else {
        structure := TableStructure(sequenceName, valueColumnName, initialValue, incrementSize);
      }
      databaseStructure := Some(structure);

      var built := OptimizerArgs(
        optimizationStrategy, t.returnedClass, incrementSize, GetInt32(h, InitialParam, parms, -1).value);
      optimizer := Some(built);

      preparedWith := Some(built);
      err := None;
    }

    /** GeneratorKey: the name of the configured structure; before Configure
        there is none and the call fails. */
    method GeneratorKey() returns (key: Option<string>)
      ensures databaseStructure.None? ==> key == None
      ensures databaseStructure.Some? ==> key == Some(databaseStructure.value.name)
    {
      match databaseStructure
      case None => key := None;
      case Some(s) => key := Some(s.name);
    }
  }

  /** After a successful Configure, GeneratorKey is the resolved sequence name. */
  method ConfiguredKey(t: IdentifierType, parms: map<string, string>, dialect: Dialect, h: Helpers)
    returns (key: Option<string>)
    ensures Malformed(parms, h) ==> key == None
    ensures !Malformed(parms, h) ==> key == Some(DetermineSequenceName(parms, h))
  {
    var g := new SequenceStyleGenerator();
    var err := g.Configure(t, parms, dialect, h);
    key := g.GeneratorKey();
  }
}
