/**
 * The feature orchestrator (competition/featurise/featuriser.py): builds each
 * configured calcer through the registry, computes its keyed output, and folds the
 * outputs together with outer merges on `(dt, grid_index)`. The calcers' `compute`
 * is not visible here and is a parameter that returns a frame or raises.
 */
module Featurising {
  import opened Wrappers
  import opened Tables
  import opened Warehouse
  import opened Registry
  import opened FeaturiseBase

  /** `dataframes[0]` merged in turn with each later frame, `how='outer'`. */
  function OuterFold(frames: seq<Frame>): Frame
    requires |frames| > 0
    decreases |frames|
  {
    if |frames| == 1 then frames[0]
    else OuterMerge(OuterFold(frames[..|frames| - 1]), frames[|frames| - 1])
  }

  /** The key set of a fold of outer merges is the union of all the frames' key sets. */
  lemma {:induction false} OuterFoldKeys(frames: seq<Frame>)
    requires |frames| > 0
    ensures forall k :: k in OuterFold(frames) <==> exists i :: 0 <= i < |frames| && k in frames[i]
    decreases |frames|
  {
    if |frames| > 1 {
      var prefix := frames[..|frames| - 1];
      OuterFoldKeys(prefix);
      assert forall i :: 0 <= i < |prefix| ==> prefix[i] == frames[i];
    }
  }

  /**
   * In the fold, a column of a key holds the value of the LAST frame that has the key
   * and the column; frames without the key leave it alone.
   */
  lemma {:induction false} OuterFoldValues(frames: seq<Frame>, k: Key, c: string, i: int)
    requires 0 <= i < |frames| && k in frames[i] && c in frames[i][k]
    requires forall j :: i < j < |frames| ==> k !in frames[j] || c !in frames[j][k]
    ensures k in OuterFold(frames) && c in OuterFold(frames)[k]
    ensures OuterFold(frames)[k][c] == frames[i][k][c]
    decreases |frames|
  {
    OuterFoldKeys(frames);
    if |frames| > 1 {
      var prefix, last := frames[..|frames| - 1], frames[|frames| - 1];
      var fold := OuterFold(prefix);
      assert OuterFold(frames) == OuterMerge(fold, last);
      assert Combines(OuterFold(frames)[k], RowAt(fold, k), RowAt(last, k));
      if i < |frames| - 1 {
        assert prefix[i] == frames[i];
        assert forall j :: i < j < |prefix| ==> prefix[j] == frames[j];
        OuterFoldValues(prefix, k, c, i);
        assert c !in RowAt(last, k);
      } else {
        assert RowAt(last, k)[c] == frames[i][k][c];
      }
    }
  }

  /** The arguments after `args['engine'] = self.engine`. */
  function WithEngine(entries: map<string, Arg>, engine: Engine<Table>): map<string, Arg> {
    entries["engine" := EngineArg(engine)]
  }

  /** What `create_calcer` does to an argument dictionary, as a function on dictionaries. */
  function EngineWriter(engine: Engine<Table>): map<string, Arg> -> map<string, Arg> {
    entries => WithEngine(entries, engine)
  }

  /** A second write of the same entry changes nothing, so an aliased dictionary is stamped once. */
  lemma EngineWriterIdempotent(engine: Engine<Table>, entries: map<string, Arg>)
    ensures EngineWriter(engine)(EngineWriter(engine)(entries)) == EngineWriter(engine)(entries)
    ensures "engine" in EngineWriter(engine)(entries) && EngineWriter(engine)(entries)["engine"] == EngineArg(engine)
    ensures forall key :: key in entries && key != "engine" ==> EngineWriter(engine)(entries)[key] == entries[key]
  {
    assert WithEngine(WithEngine(entries, engine), engine) == WithEngine(entries, engine);
  }

  function Names(config: seq<(string, Args)>): (r: seq<string>)
    ensures |r| == |config| && forall i :: 0 <= i < |config| ==> r[i] == config[i].0
  {
    seq(|config|, i requires 0 <= i < |config| => config[i].0)
  }

  /** The argument dictionaries of a configuration, as they currently stand. */
  function ArgsEntries(config: seq<(string, Args)>): (r: seq<map<string, Arg>>)
    reads set i | 0 <= i < |config| :: config[i].1
    ensures |r| == |config| && forall i :: 0 <= i < |config| ==> r[i] == config[i].1.entries
  {
    seq(|config|, i requires 0 <= i < |config| reads set j | 0 <= j < |config| :: config[j].1 => config[i].1.entries)
  }

  /** The index of the first name the registry does not know, or the length when all are known. */
  function FirstUnknown(names: seq<string>, objects: map<string, ClassInfo>): (k: nat)
    ensures k <= |names|
    ensures forall i :: 0 <= i < k ==> names[i] in objects
    ensures k < |names| ==> names[k] !in objects
  {
    if names == [] then 0
    else if names[0] !in objects then 0
    else 1 + FirstUnknown(names[1..], objects)
  }

  /** Up to the first unknown name, entry `i` is registered exactly when it comes before it. */
  lemma UnknownAt(names: seq<string>, objects: map<string, ClassInfo>, i: int)
    requires 0 <= i < |names| && i <= FirstUnknown(names, objects)
    ensures names[i] in objects <==> i < FirstUnknown(names, objects)
  {
  }

  /** The calcer built for entry `i`: the registered class, with its arguments as `stamp` leaves them. */
  function CalcerFor(names: seq<string>, entries: seq<map<string, Arg>>, objects: map<string, ClassInfo>,
                     stamp: map<string, Arg> -> map<string, Arg>, i: int): Calcer
    requires |entries| == |names| && 0 <= i < |names| && names[i] in objects
  {
    Calcer(objects[names[i]], stamp(entries[i]))
  }

  /** The calcer outputs, in configuration order, when every name is registered. */
  function Frames(names: seq<string>, entries: seq<map<string, Arg>>, objects: map<string, ClassInfo>,
                  stamp: map<string, Arg> -> map<string, Arg>, compute: Calcer -> Frame): (r: seq<Frame>)
    requires |entries| == |names| && forall i :: 0 <= i < |names| ==> names[i] in objects
    ensures |r| == |names|
    ensures forall i :: 0 <= i < |names| ==> r[i] == compute(Calcer(objects[names[i]], stamp(entries[i])))
  {
    var r := seq(|names|, i requires 0 <= i < |names| => compute(CalcerFor(names, entries, objects, stamp, i)));
    assert forall i :: 0 <= i < |names| ==> r[i] == compute(CalcerFor(names, entries, objects, stamp, i));
    r
  }

  /** Appending the output of calcer `i` keeps the outputs built so far pointwise equal to `CalcerFor`. */
  lemma FramesSnoc(frames: seq<Frame>, names: seq<string>, entries: seq<map<string, Arg>>,
                   objects: map<string, ClassInfo>, stamp: map<string, Arg> -> map<string, Arg>,
                   compute: Calcer -> Frame, i: int, output: Frame)
    requires |entries| == |names| && 0 <= i < FirstUnknown(names, objects) && |frames| == i
    requires forall j :: 0 <= j < i ==> frames[j] == compute(CalcerFor(names, entries, objects, stamp, j))
    requires output == compute(CalcerFor(names, entries, objects, stamp, i))
    ensures forall j :: 0 <= j < i + 1 ==> (frames + [output])[j] == compute(CalcerFor(names, entries, objects, stamp, j))
  {
  }

  /** A sequence that agrees with the calcer outputs entry by entry is `Frames`. */
  lemma FramesPointwise(frames: seq<Frame>, names: seq<string>, entries: seq<map<string, Arg>>,
                        objects: map<string, ClassInfo>, stamp: map<string, Arg> -> map<string, Arg>,
                        compute: Calcer -> Frame)
    requires |entries| == |names| && forall i :: 0 <= i < |names| ==> names[i] in objects
    requires |frames| == |names|
    requires forall i :: 0 <= i < |names| ==> frames[i] == compute(CalcerFor(names, entries, objects, stamp, i))
    ensures frames == Frames(names, entries, objects, stamp, compute)
  {
  }

  /** The index of the first failed result, or the length when all succeed. */
  function FirstFailed<T>(rs: seq<Result<T, Exception>>): (k: nat)
    ensures k <= |rs|
    ensures forall i :: 0 <= i < k ==> rs[i].Success?
    ensures k < |rs| ==> rs[k].Failure?
  {
    if rs == [] then 0
    else if rs[0].Failure? then 0
    else
      var k := FirstFailed(rs[1..]);
      assert forall i :: 1 <= i < k + 1 ==> rs[i] == rs[1..][i - 1];
      1 + k
  }

  /** Up to the first failure, result `i` fails exactly when it is that failure. */
  lemma FailedAt<T>(rs: seq<Result<T, Exception>>, i: int)
    requires 0 <= i < |rs| && i <= FirstFailed(rs)
    ensures rs[i].Failure? <==> i == FirstFailed(rs)
  {
  }

  /**
   * Round `i` of the first loop of `get_features`: `create_calcer` looks the name up,
   * raising KeyError when it is unknown, and then the built calcer's `compute` returns
   * its output or raises.
   */
  function Round(names: seq<string>, entries: seq<map<string, Arg>>, objects: map<string, ClassInfo>,
                 stamp: map<string, Arg> -> map<string, Arg>, compute: Calcer -> Result<Frame, Exception>, i: int)
    : (r: Result<Frame, Exception>)
    requires |entries| == |names| && 0 <= i < |names|
    ensures names[i] !in objects ==> r == Failure(KeyError(names[i]))
    ensures names[i] in objects ==> r == compute(Calcer(objects[names[i]], stamp(entries[i])))
  {
    if names[i] in objects then compute(CalcerFor(names, entries, objects, stamp, i))
    else Failure(KeyError(names[i]))
  }

  /** Every round of the first loop, as if none raised before it. */
  function Rounds(names: seq<string>, entries: seq<map<string, Arg>>, objects: map<string, ClassInfo>,
                  stamp: map<string, Arg> -> map<string, Arg>, compute: Calcer -> Result<Frame, Exception>)
    : (r: seq<Result<Frame, Exception>>)
    requires |entries| == |names|
    ensures |r| == |names| && forall i :: 0 <= i < |names| ==> r[i] == Round(names, entries, objects, stamp, compute, i)
  {
    seq(|names|, i requires 0 <= i < |names| => Round(names, entries, objects, stamp, compute, i))
  }

  /** One more returning round extends the outputs gathered so far. */
  lemma OutputsSnoc(rounds: seq<Result<Frame, Exception>>, frames: seq<Frame>, i: int, output: Frame)
    requires 0 <= i < |rounds| && |frames| == i
    requires forall j :: 0 <= j < i ==> rounds[j] == Success(frames[j])
    requires rounds[i] == Success(output)
    ensures forall j :: 0 <= j < i + 1 ==> rounds[j] == Success((frames + [output])[j])
  {
  }

  /** The outputs of rounds that all returned. */
  function Outputs(rounds: seq<Result<Frame, Exception>>): (r: seq<Frame>)
    requires forall i :: 0 <= i < |rounds| ==> rounds[i].Success?
    ensures |r| == |rounds| && forall i :: 0 <= i < |rounds| ==> rounds[i] == Success(r[i])
  {
    seq(|rounds|, i requires 0 <= i < |rounds| => rounds[i].value)
  }

  /**
   * What `get_features` returns for configuration names `names` whose argument
   * dictionaries held `entries` on entry: the first round that raises decides the error
   * (KeyError for an unknown name, or what `compute` raises); with none, an empty
   * configuration raises IndexError, and otherwise the outer-merge fold.
   */
  function Features(names: seq<string>, entries: seq<map<string, Arg>>, objects: map<string, ClassInfo>,
                    engine: Engine<Table>, compute: Calcer -> Result<Frame, Exception>): Result<Frame, Exception>
    requires |entries| == |names|
  {
    var rounds := Rounds(names, entries, objects, EngineWriter(engine), compute);
    var k := FirstFailed(rounds);
    if k < |names| then Failure(rounds[k].error)
    else if |names| == 0 then Failure(IndexError)
    else Success(OuterFold(Outputs(rounds)))
  }

  class Featuriser {
    const engine: Engine<Table>
    const repository: Repository

    constructor (engine: Engine<Table>, repository: Repository)
      ensures this.engine == engine && this.repository == repository
    {
      this.engine := engine;
      this.repository := repository;
    }

    /**
     * `create_calcer(name, args)`: writes the engine into the caller's dictionary first,
     * then builds the registered class with it; an unknown name raises KeyError, after
     * the write.
     */
    method CreateCalcer(name: string, args: Args) returns (r: Result<Calcer, Exception>)
      modifies args
      ensures args.entries == WithEngine(old(args.entries), engine)
      ensures name in repository.objects ==> r == Success(Calcer(repository.objects[name], args.entries))
      ensures name !in repository.objects ==> r == Failure(KeyError(name))
    {
      args.entries := args.entries["engine" := EngineArg(engine)];
      var cls :- repository.GetObject(name);
      r := Success(Calcer(cls, args.entries));
    }

    /**
     * `get_features(config)`: calcers are built and computed in configuration order and
     * their outputs folded with outer merges. Every dictionary up to and including the
     * first round that raises gets the engine written into it; the later ones are
     * untouched unless they are shared with an earlier one.
     */
    method GetFeatures(config: seq<(string, Args)>, compute: Calcer -> Result<Frame, Exception>)
      returns (r: Result<Frame, Exception>)
      modifies set i | 0 <= i < |config| :: config[i].1
      ensures r == Features(Names(config), old(ArgsEntries(config)), repository.objects, engine, compute)
      ensures Stamped(config, ArgsEntries(config), old(ArgsEntries(config)), EngineWriter(engine),
                      FirstFailed(Rounds(Names(config), old(ArgsEntries(config)), repository.objects,
                                         EngineWriter(engine), compute)) + 1)
    {
      var frames :- ComputeAll(config, compute);
      if |frames| == 0 {
        return Failure(IndexError);
      }
      var features := MergeFrames(frames);
      r := Success(features);
    }

    /**
     * The first loop of `get_features`: create and compute each calcer, stopping at the
     * first round that raises, whether the lookup or `compute`.
     */
    method ComputeAll(config: seq<(string, Args)>, compute: Calcer -> Result<Frame, Exception>)
      returns (r: Result<seq<Frame>, Exception>)
      modifies set i | 0 <= i < |config| :: config[i].1
      ensures var rounds := Rounds(Names(config), old(ArgsEntries(config)), repository.objects, EngineWriter(engine), compute);
        var k := FirstFailed(rounds);
        && (k < |config| ==> r == Failure(rounds[k].error))
        && (k == |config| ==> r == Success(Outputs(rounds)))
      ensures Stamped(config, ArgsEntries(config), old(ArgsEntries(config)), EngineWriter(engine),
                      FirstFailed(Rounds(Names(config), old(ArgsEntries(config)), repository.objects,
                                         EngineWriter(engine), compute)) + 1)
    {
      ghost var names := Names(config);
      ghost var entries := ArgsEntries(config);
      ghost var objects := repository.objects;
      ghost var rounds := Rounds(names, entries, objects, EngineWriter(engine), compute);
      ghost var k := FirstFailed(rounds);
      var frames: seq<Frame> := [];
      var i := 0;
      while i < |config|
        invariant 0 <= i <= |config| && i <= k
        invariant |frames| == i
        invariant forall j :: 0 <= j < i ==> rounds[j] == Success(frames[j])
        invariant repository.objects == objects
        invariant Stamped(config, ArgsEntries(config), entries, EngineWriter(engine), i)
      {
        var calcer := CreateStamped(config, i, entries);
        if calcer.Failure? {
          FailedAt(rounds, i);
          return Failure(calcer.error);
        }
        assert rounds[i] == compute(calcer.value);
        var output := compute(calcer.value);
        if output.Failure? {
          FailedAt(rounds, i);
          return Failure(output.error);
        }
        OutputsSnoc(rounds, frames, i, output.value);
        frames := frames + [output.value];
        i := i + 1;
      }
      assert frames == Outputs(rounds);
      r := Success(frames);
    }

    /**
     * One round of the first loop: `create_calcer` for entry `i` writes the engine into
     * its dictionary, and so into every alias of it, which stamps one more entry.
     */
    method CreateStamped(config: seq<(string, Args)>, i: int, ghost entries: seq<map<string, Arg>>)
      returns (r: Result<Calcer, Exception>)
      requires 0 <= i < |config|
      requires Stamped(config, ArgsEntries(config), entries, EngineWriter(engine), i)
      modifies config[i].1
      ensures Stamped(config, ArgsEntries(config), entries, EngineWriter(engine), i + 1)
      ensures config[i].0 in repository.objects
              ==> r == Success(Calcer(repository.objects[config[i].0], WithEngine(entries[i], engine)))
      ensures config[i].0 !in repository.objects ==> r == Failure(KeyError(config[i].0))
    {
      ghost var before := ArgsEntries(config);
      r := CreateCalcer(config[i].0, config[i].1);
      ghost var after := ArgsEntries(config);
      assert forall j :: 0 <= j < |config| ==>
        after[j] == if config[j].1 == config[i].1 then EngineWriter(engine)(before[j]) else before[j];
      forall j | 0 <= j < |config| {
        EngineWriterIdempotent(engine, entries[j]);
      }
      StampedNext(config, before, after, entries, EngineWriter(engine), i);
    }
  }

  /**
   * `now` is what the dictionaries `entries` become once the first `n` configuration
   * entries have been passed through `stamp` in place: a dictionary shared by any of
   * them is stamped, every other one is as it was.
   */
  ghost predicate Stamped(config: seq<(string, Args)>, now: seq<map<string, Arg>>, entries: seq<map<string, Arg>>,
                          stamp: map<string, Arg> -> map<string, Arg>, n: int)
  {
    && |now| == |config| && |entries| == |config|
    && forall j :: 0 <= j < |config| ==>
         now[j] == if config[j].1 in Written(config, n - 1) then stamp(entries[j]) else entries[j]
  }

  /**
   * Stamping entry `i`'s dictionary in place (and so every alias of it) stamps one more
   * entry, provided a second stamp changes nothing.
   */
  lemma StampedNext(config: seq<(string, Args)>, before: seq<map<string, Arg>>, after: seq<map<string, Arg>>,
                    entries: seq<map<string, Arg>>, stamp: map<string, Arg> -> map<string, Arg>, i: int)
    requires 0 <= i < |config| && |after| == |config|
    requires Stamped(config, before, entries, stamp, i)
    requires forall j :: 0 <= j < |config| ==> stamp(stamp(entries[j])) == stamp(entries[j])
    requires forall j :: 0 <= j < |config| ==>
               after[j] == if config[j].1 == config[i].1 then stamp(before[j]) else before[j]
    ensures Stamped(config, after, entries, stamp, i + 1)
  {
    assert Written(config, i) == Written(config, i - 1) + {config[i].1};
  }

  /** The argument dictionaries of the first `k + 1` configuration entries. */
  function Written(config: seq<(string, Args)>, k: int): set<Args> {
    set j | 0 <= j < |config| && j <= k :: config[j].1
  }

  /** One more round of the merge loop outer-merges one more output. */
  lemma OuterFoldSnoc(frames: seq<Frame>, next: Frame)
    requires |frames| > 0
    ensures OuterFold(frames + [next]) == OuterMerge(OuterFold(frames), next)
  {
    assert (frames + [next])[..|frames|] == frames;
  }

  /** Round `j` of the merge loop extends the fold over the first `j` outputs by output `j`. */
  lemma OuterFoldStep(frames: seq<Frame>, j: int)
    requires 1 <= j < |frames|
    ensures OuterFold(frames[..j + 1]) == OuterMerge(OuterFold(frames[..j]), frames[j])
  {
    assert frames[..j + 1] == frames[..j] + [frames[j]];
    OuterFoldSnoc(frames[..j], frames[j]);
  }

  /** Before the merge loop, the fold covers the first output alone. */
  lemma OuterFoldFirst(frames: seq<Frame>)
    requires |frames| > 0
    ensures OuterFold(frames[..1]) == frames[0]
  {
    assert frames[..1][0] == frames[0];
  }

  /** The merge loop of `get_features`. */
  method MergeFrames(frames: seq<Frame>) returns (features: Frame)
    requires |frames| > 0
    ensures features == OuterFold(frames)
  {
    features := frames[0];
    OuterFoldFirst(frames);
    var j := 1;
    while j < |frames|
      invariant 1 <= j <= |frames|
      invariant features == OuterFold(frames[..j])
    {
      OuterFoldStep(frames, j);
      features := OuterMerge(features, frames[j]);
      j := j + 1;
    }
    assert frames[..j] == frames;
  }

  /** With a single calcer its output, or what its `compute` raises, comes back unchanged. */
  lemma SingleCalcerUnchanged(name: string, entries: map<string, Arg>, objects: map<string, ClassInfo>,
                              engine: Engine<Table>, compute: Calcer -> Result<Frame, Exception>)
    requires name in objects
    ensures Features([name], [entries], objects, engine, compute)
              == compute(Calcer(objects[name], WithEngine(entries, engine)))
  {
    var rounds := Rounds([name], [entries], objects, EngineWriter(engine), compute);
    if rounds[0].Success? {
      assert Outputs(rounds) == [rounds[0].value];
    }
  }

  /**
   * The outcome of `get_features`: success exactly when the configuration is non-empty
   * and no round raises, IndexError for an empty configuration, and on success a frame
   * whose keys are exactly the union of the calcer outputs' keys.
   */
  lemma FeaturesFacts(names: seq<string>, entries: seq<map<string, Arg>>, objects: map<string, ClassInfo>,
                      engine: Engine<Table>, compute: Calcer -> Result<Frame, Exception>)
    requires |entries| == |names|
    ensures var r := Features(names, entries, objects, engine, compute);
      var rounds := Rounds(names, entries, objects, EngineWriter(engine), compute);
      && (r.Success? <==> names != [] && forall i :: 0 <= i < |names| ==> rounds[i].Success?)
      && (names == [] ==> r == Failure(IndexError))
      && (r.Success? ==> forall k :: k in r.value <==> exists i :: 0 <= i < |names| && k in rounds[i].value)
  {
    var r := Features(names, entries, objects, engine, compute);
    var rounds := Rounds(names, entries, objects, EngineWriter(engine), compute);
    if r.Success? {
      OuterFoldKeys(Outputs(rounds));
    }
  }

  /**
   * The first round that raises decides the error: KeyError when its name is unknown,
   * otherwise what its calcer's `compute` raises, whatever the later rounds would do.
   */
  lemma FeaturesFailAt(names: seq<string>, entries: seq<map<string, Arg>>, objects: map<string, ClassInfo>,
                       engine: Engine<Table>, compute: Calcer -> Result<Frame, Exception>, i: int)
    requires |entries| == |names| && 0 <= i < |names|
    requires Round(names, entries, objects, EngineWriter(engine), compute, i).Failure?
    requires forall j :: 0 <= j < i ==> Round(names, entries, objects, EngineWriter(engine), compute, j).Success?
    ensures names[i] !in objects ==> Features(names, entries, objects, engine, compute) == Failure(KeyError(names[i]))
    ensures names[i] in objects ==>
              Features(names, entries, objects, engine, compute)
                == Failure(compute(Calcer(objects[names[i]], WithEngine(entries[i], engine))).error)
  {
    var rounds := Rounds(names, entries, objects, EngineWriter(engine), compute);
    FailedAt(rounds, i);
  }

  /**
   * With calcers whose `compute` always returns, only the registry can fail: KeyError
   * for the first unknown name exactly when some name is unknown.
   */
  lemma ReturningComputeFacts(names: seq<string>, entries: seq<map<string, Arg>>, objects: map<string, ClassInfo>,
                              engine: Engine<Table>, compute: Calcer -> Result<Frame, Exception>)
    requires |entries| == |names|
    requires forall c :: compute(c).Success?
    ensures var r := Features(names, entries, objects, engine, compute);
      && ((exists i :: 0 <= i < |names| && names[i] !in objects) <==> r.Failure? && r.error.KeyError?)
      && (FirstUnknown(names, objects) < |names| ==> r == Failure(KeyError(names[FirstUnknown(names, objects)])))
  {
    var rounds := Rounds(names, entries, objects, EngineWriter(engine), compute);
    var k := FirstUnknown(names, objects);
    assert forall j :: 0 <= j < |names| ==> (rounds[j].Failure? <==> names[j] !in objects);
    if k < |names| {
      FeaturesFailAt(names, entries, objects, engine, compute, k);
    }
  }
}
