/**
 * The older feature orchestrator (competition/featurise/__init__.py). Its calcer table is
 * built when the class body runs, keyed by each listed class's `name` attribute;
 * `create_calcer` writes both the engine and the sample table's name into the caller's
 * dictionary; features start from the sample calcer's output, every configured calcer is
 * left-merged onto it, and a target calcer, when there is one, is inner-merged last.
 * Merges are on the sample calcer's keys, taken here to be `(dt, grid_index)`.
 */
module LegacyFeaturising {
  import opened Wrappers
  import opened Tables
  import opened Warehouse
  import opened Registry
  import opened FeaturiseBase
  import opened Featurising

  // ------------------------------------------------------------ the calcer table

  /** The class names the class body lists, in order. */
  const ListedCalcers: seq<string> := ["SampleCalcer", "DatesFeaturesCalcer", "TargetBaseCalcer"]

  const CalcersModule: string := "competition.featurise.calcers"

  /** `CalcerBase` of the calcers module: its `name` is None. */
  const CalcerBaseClass: ClassInfo := ClassInfo("CalcerBase", CalcersModule, Some(None))

  /** `DateFeaturesCalcer`, the one concrete calcer the calcers module defines. */
  const DateFeaturesClass: ClassInfo := ClassInfo("DateFeaturesCalcer", CalcersModule, Some(Some("date_features")))

  /** The classes `from .calcers import *` brings into the package's namespace. */
  const ImportedCalcers: map<string, ClassInfo> :=
    map["CalcerBase" := CalcerBaseClass, "DateFeaturesCalcer" := DateFeaturesClass]

  /**
   * Evaluating the list display: each name is looked up in the namespace in order, and
   * the first one that is not defined raises NameError.
   */
  function LookupClasses(listed: seq<string>, namespace: map<string, ClassInfo>): (r: Result<seq<ClassInfo>, Exception>)
    ensures r.Success? <==> forall i :: 0 <= i < |listed| ==> listed[i] in namespace
    ensures r.Success? ==> |r.value| == |listed| && forall i :: 0 <= i < |listed| ==> r.value[i] == namespace[listed[i]]
    ensures r.Failure? ==> exists k :: 0 <= k < |listed| && listed[k] !in namespace && r.error == NameError(listed[k])
                                       && forall i :: 0 <= i < k ==> listed[i] in namespace
  {
    if listed == [] then Success([])
    else if listed[0] !in namespace then Failure(NameError(listed[0]))
    else
      var rest :- LookupClasses(listed[1..], namespace);
      Success([namespace[listed[0]]] + rest)
  }

  /**
   * `{c.name: c for c in classes}`: keyed by the `name` attribute, a later class with the
   * same name replacing an earlier one; a class without the attribute raises AttributeError.
   */
  function KeyByName(classes: seq<ClassInfo>): Result<map<Option<string>, ClassInfo>, Exception>
    decreases |classes|
  {
    if classes == [] then Success(map[])
    else
      var table :- KeyByName(classes[..|classes| - 1]);
      var c := classes[|classes| - 1];
      if c.nameAttr.None? then Failure(AttributeError("name"))
      else Success(table[c.nameAttr.value := c])
  }

  /** `Featuriser._calcers`, built from the listed class names. */
  function CalcerTable(listed: seq<string>, namespace: map<string, ClassInfo>): Result<map<Option<string>, ClassInfo>, Exception> {
    var classes :- LookupClasses(listed, namespace);
    KeyByName(classes)
  }

  /** The last class of `classes` whose `name` attribute is `n`, if any. */
  function LastNamed(classes: seq<ClassInfo>, n: Option<string>): Option<ClassInfo>
    decreases |classes|
  {
    if classes == [] then None
    else if classes[|classes| - 1].nameAttr == Some(n) then Some(classes[|classes| - 1])
    else LastNamed(classes[..|classes| - 1], n)
  }

  /**
   * The table is built exactly when every class has a `name` attribute, and then it maps
   * each name to the last class carrying it and holds no other key.
   */
  lemma {:induction false} KeyByNameLookup(classes: seq<ClassInfo>, n: Option<string>)
    ensures KeyByName(classes).Success? <==> forall i :: 0 <= i < |classes| ==> classes[i].nameAttr.Some?
    ensures KeyByName(classes).Success? ==>
              && (n in KeyByName(classes).value <==> LastNamed(classes, n).Some?)
              && (n in KeyByName(classes).value ==> KeyByName(classes).value[n] == LastNamed(classes, n).value)
    decreases |classes|
  {
    if classes != [] {
      var prefix := classes[..|classes| - 1];
      KeyByNameLookup(prefix, n);
      assert forall i :: 0 <= i < |prefix| ==> prefix[i] == classes[i];
    }
  }

  /**
   * As written, the class body names three classes the package never defines, so the
   * table cannot be built: evaluating the list raises NameError on its first entry, and
   * importing the package fails.
   */
  lemma AsWrittenTableFails()
    ensures CalcerTable(ListedCalcers, ImportedCalcers) == Failure(NameError("SampleCalcer"))
  {
    assert |"SampleCalcer"| == 12 && |"CalcerBase"| == 10 && |"DateFeaturesCalcer"| == 18;
    assert "SampleCalcer" !in ImportedCalcers;
  }

  /** What importing `competition.featurise` raises, if anything: building the calcer table. */
  function PackageRaising(): Raising {
    match CalcerTable(ListedCalcers, ImportedCalcers)
    case Failure(e) => map["competition.featurise" := e]
    case Success(_) => map[]
  }

  /**
   * `Repository()` as written cannot be built, whatever the other packages hold: its scan
   * imports `competition.featurise` first, and that import raises NameError once the
   * `competition` package itself has loaded (ImportError when there is none).
   */
  lemma AsWrittenRepositoryFails(modules: Modules)
    ensures FirstImportFailure(modules, PackageRaising(), ScanModules) ==
              Some(if "competition" in modules then NameError("SampleCalcer") else ImportError("competition"))
  {
    AsWrittenTableFails();
    var name := ScanModules[0];
    assert name[11] == '.' && name[..11] == "competition";
    if "competition" in modules {
      assert ParentFailure(modules, PackageRaising(), name, 0).None? by {
        ParentFailureFacts(modules, PackageRaising(), name, 0);
        assert forall j :: 0 <= j < |name| && name[j] == '.' ==> j == 11;
      }
    } else {
      ParentRaises(modules, PackageRaising(), name, 11);
    }
    FirstImportFailureAt(modules, PackageRaising(), ScanModules, 0);
  }

  /**
   * Nothing inside `competition.featurise` can be imported either: a dotted `register`
   * of `competition.featurise.featuriser.Featuriser` imports the package first and
   * raises its NameError, whatever the submodule holds.
   */
  lemma SubmoduleOfRaisingPackage(modules: Modules)
    requires "competition" in modules
    ensures Import(modules, PackageRaising(), "competition.featurise.featuriser") == Failure(NameError("SampleCalcer"))
  {
    AsWrittenTableFails();
    var name := "competition.featurise.featuriser";
    assert name[11] == '.' && name[..11] == "competition";
    assert name[21] == '.' && name[..21] == "competition.featurise";
    assert forall k :: 0 <= k < 21 && name[k] == '.' ==> k == 11;
    ParentRaises(modules, PackageRaising(), name, 21);
  }

  /**
   * Built from classes that exist and carry a `name`, the table maps every listed
   * class's name to it (the last one when two share a name), and holds no other key.
   */
  lemma CalcerTableLookup(listed: seq<string>, namespace: map<string, ClassInfo>, n: Option<string>)
    requires forall i :: 0 <= i < |listed| ==> listed[i] in namespace && namespace[listed[i]].nameAttr.Some?
    ensures CalcerTable(listed, namespace).Success?
    ensures var classes := seq(|listed|, i requires 0 <= i < |listed| => namespace[listed[i]]);
      && (n in CalcerTable(listed, namespace).value <==> LastNamed(classes, n).Some?)
      && (n in CalcerTable(listed, namespace).value ==> CalcerTable(listed, namespace).value[n] == LastNamed(classes, n).value)
  {
    var classes := seq(|listed|, i requires 0 <= i < |listed| => namespace[listed[i]]);
    assert LookupClasses(listed, namespace).value == classes;
    KeyByNameLookup(classes, n);
  }

  /** The one calcer the package defines, listed under its own name, is found under `date_features`. */
  lemma DefinedCalcerTable()
    ensures CalcerTable(["DateFeaturesCalcer"], ImportedCalcers) == Success(map[Some("date_features") := DateFeaturesClass])
  {
    var listed := ["DateFeaturesCalcer"];
    assert |"DateFeaturesCalcer"| == 18 && |"CalcerBase"| == 10;
    assert ImportedCalcers["DateFeaturesCalcer"] == DateFeaturesClass;
    assert listed[1..] == [];
    assert LookupClasses(listed[1..], ImportedCalcers) == Success([]);
    assert [DateFeaturesClass] + [] == [DateFeaturesClass];
    assert LookupClasses(listed, ImportedCalcers) == Success([DateFeaturesClass]);
    assert [DateFeaturesClass][..0] == [];
    assert KeyByName([DateFeaturesClass][..0]) == Success(map[]);
    assert KeyByName([DateFeaturesClass]) == Success(map[Some("date_features") := DateFeaturesClass]);
  }

  /** The entries a `str` name can reach: the None key of the table never matches one. */
  function NamedCalcers(calcers: map<Option<string>, ClassInfo>): (r: map<string, ClassInfo>)
    ensures forall n :: n in r <==> Some(n) in calcers
    ensures forall n :: n in r ==> r[n] == calcers[Some(n)]
  {
    map k | k in calcers && k.Some? :: k.value := calcers[k]
  }

  // ------------------------------------------------------------ argument injection

  /** What the older `create_calcer` writes into an argument dictionary. */
  function Injected(entries: map<string, Arg>, engine: Engine<Table>, sampleTable: string): map<string, Arg> {
    entries["engine" := EngineArg(engine)]["sample_table" := Setting(Text(sampleTable))]
  }

  /** `Injected` as a function on dictionaries. */
  function Injector(engine: Engine<Table>, sampleTable: string): map<string, Arg> -> map<string, Arg> {
    entries => Injected(entries, engine, sampleTable)
  }

  /**
   * Injection adds the two entries and leaves every other one alone, and a second
   * injection changes nothing: the shared default dictionary is harmless to reuse.
   */
  lemma InjectorFacts(engine: Engine<Table>, sampleTable: string, entries: map<string, Arg>)
    ensures var e := Injector(engine, sampleTable)(entries);
      && e.Keys == entries.Keys + {"engine", "sample_table"}
      && e["engine"] == EngineArg(engine)
      && e["sample_table"] == Setting(Text(sampleTable))
      && (forall key :: key in entries && key != "engine" && key != "sample_table" ==> e[key] == entries[key])
      && Injector(engine, sampleTable)(e) == e
  {
    var e := Injected(entries, engine, sampleTable);
    assert Injected(e, engine, sampleTable) == e;
  }

  lemma InjectorIdempotent(engine: Engine<Table>, sampleTable: string, entries: map<string, Arg>)
    ensures Injector(engine, sampleTable)(Injector(engine, sampleTable)(entries)) == Injector(engine, sampleTable)(entries)
  {
    InjectorFacts(engine, sampleTable, entries);
  }

  // ------------------------------------------------------------ features

  /** `features_dd` after left-merging each frame in turn onto `start`. */
  function LeftFold(start: Frame, frames: seq<Frame>): Frame
    decreases |frames|
  {
    if frames == [] then start
    else LeftMerge(LeftFold(start, frames[..|frames| - 1]), frames[|frames| - 1])
  }

  /**
   * Left merges keep exactly the starting keys, and a column of a starting row that no
   * merged frame supplies for that key keeps its starting value.
   */
  lemma {:induction false} LeftFoldKeeps(start: Frame, frames: seq<Frame>, k: Key, c: string)
    ensures LeftFold(start, frames).Keys == start.Keys
    ensures k in start && c in start[k] && (forall i :: 0 <= i < |frames| ==> c !in RowAt(frames[i], k))
            ==> c in LeftFold(start, frames)[k] && LeftFold(start, frames)[k][c] == start[k][c]
    decreases |frames|
  {
    if frames != [] {
      var prefix := frames[..|frames| - 1];
      LeftFoldKeeps(start, prefix, k, c);
      assert forall i :: 0 <= i < |prefix| ==> prefix[i] == frames[i];
    }
  }

  /** The calcer `create_calcer` builds for a known configured name is the one `CalcerFor` describes. */
  lemma CreatedIsCalcerFor(config: seq<(string, Args)>, entries: seq<map<string, Arg>>,
                           calcers: map<Option<string>, ClassInfo>, engine: Engine<Table>, sampleTable: string, i: int)
    requires |entries| == |config| && 0 <= i < |config| && Some(config[i].0) in calcers
    ensures config[i].0 in NamedCalcers(calcers) && Names(config)[i] == config[i].0
    ensures CalcerFor(Names(config), entries, NamedCalcers(calcers), Injector(engine, sampleTable), i)
            == Calcer(calcers[Some(config[i].0)], Injected(entries[i], engine, sampleTable))
  {
  }

  /** One more left merge extends the fold by one frame. */
  lemma LeftFoldSnoc(start: Frame, frames: seq<Frame>, next: Frame)
    ensures LeftFold(start, frames + [next]) == LeftMerge(LeftFold(start, frames), next)
  {
    assert (frames + [next])[..|frames|] == frames;
  }

  /** The target calcer's output, when there is a target calcer. */
  function TargetOutput(target: Option<Calcer>, compute: Calcer -> Frame): Option<Frame> {
    match target
    case Some(calcer) => Some(compute(calcer))
    case None => None
  }

  /**
   * What the older `get_features` returns: KeyError for the first unknown configured
   * name, otherwise the left-merge fold onto the sample output, inner-merged with the
   * target output when there is one.
   */
  function LegacyFeatures(sample: Frame, names: seq<string>, entries: seq<map<string, Arg>>,
                          objects: map<string, ClassInfo>, stamp: map<string, Arg> -> map<string, Arg>,
                          compute: Calcer -> Frame, target: Option<Frame>): Result<Frame, Exception>
    requires |entries| == |names|
  {
    var k := FirstUnknown(names, objects);
    if k < |names| then Failure(KeyError(names[k]))
    else
      var features := LeftFold(sample, Frames(names, entries, objects, stamp, compute));
      Success(if target.Some? then InnerMerge(features, target.value) else features)
  }

  /**
   * Every sample key is kept unless a target drops it: without a target the result has
   * exactly the sample keys, with one exactly the keys the sample and the target share.
   * Sample values that no configured calcer overrides survive.
   */
  lemma LegacyFeaturesKeys(sample: Frame, names: seq<string>, entries: seq<map<string, Arg>>,
                           objects: map<string, ClassInfo>, stamp: map<string, Arg> -> map<string, Arg>,
                           compute: Calcer -> Frame, target: Option<Frame>)
    requires |entries| == |names|
    ensures var r := LegacyFeatures(sample, names, entries, objects, stamp, compute, target);
      && (r.Failure? <==> exists i :: 0 <= i < |names| && names[i] !in objects)
      && (r.Success? && target.None? ==> r.value.Keys == sample.Keys)
      && (r.Success? && target.Some? ==> r.value.Keys == sample.Keys * target.value.Keys)
  {
    var k := FirstUnknown(names, objects);
    if k == |names| {
      var frames := Frames(names, entries, objects, stamp, compute);
      LeftFoldKeeps(sample, frames, Key(0, 0), "");
    }
  }

  /** A sample column no configured calcer and no target supplies comes through unchanged. */
  lemma SampleColumnSurvives(sample: Frame, names: seq<string>, entries: seq<map<string, Arg>>,
                             objects: map<string, ClassInfo>, stamp: map<string, Arg> -> map<string, Arg>,
                             compute: Calcer -> Frame, k: Key, c: string)
    requires |entries| == |names| && forall i :: 0 <= i < |names| ==> names[i] in objects
    requires k in sample && c in sample[k]
    requires forall i :: 0 <= i < |names| ==> c !in RowAt(compute(Calcer(objects[names[i]], stamp(entries[i]))), k)
    ensures var r := LegacyFeatures(sample, names, entries, objects, stamp, compute, None);
      r.Success? && k in r.value && c in r.value[k] && r.value[k][c] == sample[k][c]
  {
    var frames := Frames(names, entries, objects, stamp, compute);
    LeftFoldKeeps(sample, frames, k, c);
  }

  class LegacyFeaturiser {
    const engine: Engine<Table>
    const sampleTable: string
    /** `_calcers`, as `CalcerTable` builds it. */
    const calcers: map<Option<string>, ClassInfo>
    /** `sample_calcer`: None only until construction has created it. */
    var sampleCalcer: Option<Calcer>
    var targetCalcer: Option<Calcer>

    constructor (engine: Engine<Table>, sampleTable: string, calcers: map<Option<string>, ClassInfo>)
      ensures this.engine == engine && this.sampleTable == sampleTable && this.calcers == calcers
      ensures sampleCalcer.None? && targetCalcer.None?
    {
      this.engine := engine;
      this.sampleTable := sampleTable;
      this.calcers := calcers;
      sampleCalcer := None;
      targetCalcer := None;
    }

    /**
     * `create_calcer(name, args)`: the engine and the sample table's name are written into
     * the caller's dictionary first; an unknown name then raises KeyError.
     */
    method CreateCalcer(name: string, args: Args) returns (r: Result<Calcer, Exception>)
      modifies args
      ensures args.entries == Injected(old(args.entries), engine, sampleTable)
      ensures Some(name) in calcers ==> r == Success(Calcer(calcers[Some(name)], args.entries))
      ensures Some(name) !in calcers ==> r == Failure(KeyError(name))
    {
      args.entries := args.entries["engine" := EngineArg(engine)];
      args.entries := args.entries["sample_table" := Setting(Text(sampleTable))];
      if Some(name) !in calcers {
        return Failure(KeyError(name));
      }
      r := Success(Calcer(calcers[Some(name)], args.entries));
    }

    /**
     * `Featuriser(engine, sample_table, target_name, target_args)`. The sample calcer is
     * built with `create_calcer`'s shared default dictionary `defaults`, the target calcer
     * (only when a target name is given) with `targetArgs`, `__init__`'s own shared default
     * when the caller passes none. Either lookup can raise KeyError.
     */
    static method Create(engine: Engine<Table>, sampleTable: string, calcers: map<Option<string>, ClassInfo>,
                         targetName: Option<string>, targetArgs: Args, defaults: Args)
      returns (r: Result<LegacyFeaturiser, Exception>)
      modifies defaults, targetArgs
      ensures Some("sample") !in calcers ==> r == Failure(KeyError("sample"))
      ensures Some("sample") in calcers && targetName.Some? && Some(targetName.value) !in calcers
              ==> r == Failure(KeyError(targetName.value))
      ensures r.Success? <==> Some("sample") in calcers && (targetName.None? || Some(targetName.value) in calcers)
      ensures r.Success? ==>
                && fresh(r.value)
                && r.value.engine == engine && r.value.sampleTable == sampleTable && r.value.calcers == calcers
                && r.value.sampleCalcer == Some(Calcer(calcers[Some("sample")], Injected(old(defaults.entries), engine, sampleTable)))
                && r.value.targetCalcer == if targetName.None? then None
                                           else Some(Calcer(calcers[Some(targetName.value)],
                                                            Injected(old(targetArgs.entries), engine, sampleTable)))
      ensures defaults.entries == Injected(old(defaults.entries), engine, sampleTable)
      ensures targetArgs.entries == if targetArgs == defaults || (targetName.Some? && Some("sample") in calcers)
                                    then Injected(old(targetArgs.entries), engine, sampleTable)
                                    else old(targetArgs.entries)
    {
      var featuriser := new LegacyFeaturiser(engine, sampleTable, calcers);
      var sample :- featuriser.CreateCalcer("sample", defaults);
      featuriser.sampleCalcer := Some(sample);
      featuriser.targetCalcer := None;
      if targetName.Some? {
        InjectorFacts(engine, sampleTable, old(targetArgs.entries));
        var target :- featuriser.CreateCalcer(targetName.value, targetArgs);
        featuriser.targetCalcer := Some(target);
      }
      r := Success(featuriser);
    }

    /**
     * The older `get_features(config)`: configured calcers are created in order (each
     * dictionary up to the first unknown name gets the two entries written in) and their
     * outputs left-merged onto the sample output; the target output is inner-merged last.
     */
    method GetFeatures(config: seq<(string, Args)>, compute: Calcer -> Frame) returns (r: Result<Frame, Exception>)
      requires sampleCalcer.Some?
      modifies set i | 0 <= i < |config| :: config[i].1
      ensures r == LegacyFeatures(compute(sampleCalcer.value), Names(config), old(ArgsEntries(config)),
                                  NamedCalcers(calcers), Injector(engine, sampleTable), compute,
                                  TargetOutput(targetCalcer, compute))
      ensures Stamped(config, ArgsEntries(config), old(ArgsEntries(config)), Injector(engine, sampleTable),
                      FirstUnknown(Names(config), NamedCalcers(calcers)) + 1)
    {
      var features :- MergeConfigured(config, compute(sampleCalcer.value), compute);
      if targetCalcer.Some? {
        features := InnerMerge(features, compute(targetCalcer.value));
      }
      r := Success(features);
    }

    /** The loop of the older `get_features`: left-merge each configured calcer's output onto `sample`. */
    method MergeConfigured(config: seq<(string, Args)>, sample: Frame, compute: Calcer -> Frame)
      returns (r: Result<Frame, Exception>)
      modifies set i | 0 <= i < |config| :: config[i].1
      ensures var k := FirstUnknown(Names(config), NamedCalcers(calcers));
        k < |config| ==> r == Failure(KeyError(config[k].0))
      ensures FirstUnknown(Names(config), NamedCalcers(calcers)) == |config| ==>
        r == Success(LeftFold(sample, Frames(Names(config), old(ArgsEntries(config)), NamedCalcers(calcers),
                                             Injector(engine, sampleTable), compute)))
      ensures Stamped(config, ArgsEntries(config), old(ArgsEntries(config)), Injector(engine, sampleTable),
                      FirstUnknown(Names(config), NamedCalcers(calcers)) + 1)
    {
      ghost var names := Names(config);
      ghost var entries := ArgsEntries(config);
      ghost var objects := NamedCalcers(calcers);
      ghost var stamp := Injector(engine, sampleTable);
      ghost var k := FirstUnknown(names, objects);
      ghost var frames: seq<Frame> := [];
      var features := sample;
      var i := 0;
      while i < |config|
        invariant 0 <= i <= |config| && i <= k
        invariant |frames| == i
        invariant forall j :: 0 <= j < i ==> frames[j] == compute(CalcerFor(names, entries, objects, stamp, j))
        invariant features == LeftFold(sample, frames)
        invariant Stamped(config, ArgsEntries(config), entries, stamp, i)
      {
        var calcer := CreateStamped(config, i, entries);
        if calcer.Failure? {
          UnknownAt(names, objects, i);
          return Failure(calcer.error);
        }
        CreatedIsCalcerFor(config, entries, calcers, engine, sampleTable, i);
        UnknownAt(names, objects, i);
        var output := compute(calcer.value);
        LeftFoldSnoc(sample, frames, output);
        FramesSnoc(frames, names, entries, objects, stamp, compute, i, output);
        frames := frames + [output];
        features := LeftMerge(features, output);
        i := i + 1;
      }
      FramesPointwise(frames, names, entries, objects, stamp, compute);
      r := Success(features);
    }

    /**
     * One step of the loop: `create_calcer` on entry `i`, whose dictionary (and so every
     * alias of it) is stamped, the earlier entries already having been.
     */
    method CreateStamped(config: seq<(string, Args)>, i: int, ghost entries: seq<map<string, Arg>>)
      returns (r: Result<Calcer, Exception>)
      requires 0 <= i < |config|
      requires Stamped(config, ArgsEntries(config), entries, Injector(engine, sampleTable), i)
      modifies config[i].1
      ensures Stamped(config, ArgsEntries(config), entries, Injector(engine, sampleTable), i + 1)
      ensures Some(config[i].0) in calcers
              ==> r == Success(Calcer(calcers[Some(config[i].0)], Injected(entries[i], engine, sampleTable)))
      ensures Some(config[i].0) !in calcers ==> r == Failure(KeyError(config[i].0))
    {
      ghost var stamp := Injector(engine, sampleTable);
      ghost var before := ArgsEntries(config);
      r := CreateCalcer(config[i].0, config[i].1);
      ghost var after := ArgsEntries(config);
      assert forall j :: 0 <= j < |config| ==>
        after[j] == if config[j].1 == config[i].1 then stamp(before[j]) else before[j];
      forall j | 0 <= j < |config| {
        InjectorIdempotent(engine, sampleTable, entries[j]);
      }
      StampedNext(config, before, after, entries, stamp, i);
    }
  }
}
