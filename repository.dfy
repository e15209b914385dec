/**
 * The name registry (competition/repository.py): a dictionary from names to classes,
 * filled at construction by scanning three packages for classes whose names end in
 * one of the object types, and afterwards by explicit registrations that may name a
 * class directly or by a dotted path. Reflection is modelled by `Modules`: what
 * `import_module` and `getmembers(module, isclass)` would report, and by `Raising`:
 * the modules whose own top-level code raises when they are imported.
 */
module Registry {
  import opened Wrappers
  import opened Tables
  import opened Naming

  /** A class as reflection sees it: `__name__`, `__module__`, and its `name` attribute if any. */
  datatype ClassInfo = ClassInfo(className: string, moduleName: string, nameAttr: Option<Option<string>>)

  /** One `(name, obj)` pair of `getmembers(module, isclass)`. */
  datatype Member = Member(attr: string, cls: ClassInfo)

  /** The importable modules and the classes each exposes, in `getmembers` order. */
  type Modules = map<string, seq<Member>>

  /** The modules whose import raises, with what their top-level code raises. */
  type Raising = map<string, Exception>

  /** What `register` accepts: a class, or a dotted path to one. */
  datatype Target = Class(cls: ClassInfo) | Dotted(path: string)

  /** `Repository.modules`. */
  const ScanModules: seq<string> := ["competition.featurise", "competition.estimators", "competition.pipeline"]

  /** `Repository.object_types`. */
  const ObjectTypes: seq<string> :=
    ["calcer", "transformer", "selector", "classifier", "spliter", "search", "pipeline"]

  /** `__name__` of the registry's own module. */
  const ThisModule: string := "competition.repository"

  predicate EndsWith(s: string, suffix: string) {
    |suffix| <= |s| && s[|s| - |suffix|..] == suffix
  }

  /** `name.lower().endswith(type)` for some object type. */
  predicate HasObjectSuffix(attr: string) {
    exists t :: t in ObjectTypes && EndsWith(Lower(attr), t)
  }

  /** The discovery filter: not from a `...base` module, not from this module, an object-type name. */
  predicate Discoverable(m: Member) {
    && !EndsWith(m.cls.moduleName, "base")
    && m.cls.moduleName != ThisModule
    && HasObjectSuffix(m.attr)
  }

  /** The key `register` stores a class under: the given name, else `camel2snake(__name__)`. */
  function RegisteredName(name: Option<string>, cls: ClassInfo): (r: string)
    ensures name.Some? ==> r == name.value
    ensures name.None? ==> r == Camel2Snake(cls.className)
  {
    match name
    case Some(n) => n
    case None => Camel2Snake(cls.className)
  }

  /** The name discovery passes: the `name` attribute when the class has one (possibly None). */
  function DiscoveryName(cls: ClassInfo): Option<string> {
    match cls.nameAttr
    case Some(n) => n
    case None => None
  }

  /** The key a discovered class ends up under. */
  function DiscoveryKey(m: Member): string {
    RegisteredName(DiscoveryName(m.cls), m.cls)
  }

  /** One step of discovery: a discoverable member is registered, any other is skipped. */
  function DiscoverStep(objects: map<string, ClassInfo>, m: Member): map<string, ClassInfo> {
    if Discoverable(m) then objects[DiscoveryKey(m) := m.cls] else objects
  }

  /** Discovery over a module's members, in order. */
  function DiscoverMembers(objects: map<string, ClassInfo>, ms: seq<Member>): map<string, ClassInfo>
    decreases |ms|
  {
    if ms == [] then objects
    else DiscoverStep(DiscoverMembers(objects, ms[..|ms| - 1]), ms[|ms| - 1])
  }

  /** Discovery over the scanned modules, in order. */
  function DiscoverModules(objects: map<string, ClassInfo>, modules: Modules, names: seq<string>): map<string, ClassInfo>
    requires forall n :: n in names ==> n in modules
    decreases |names|
  {
    if names == [] then objects
    else DiscoverMembers(DiscoverModules(objects, modules, names[..|names| - 1]), modules[names[|names| - 1]])
  }

  /** The class the last discoverable member with key `n` brings, if there is one. */
  function LastFor(ms: seq<Member>, n: string): Option<ClassInfo>
    decreases |ms|
  {
    if ms == [] then None
    else if Discoverable(ms[|ms| - 1]) && DiscoveryKey(ms[|ms| - 1]) == n then Some(ms[|ms| - 1].cls)
    else LastFor(ms[..|ms| - 1], n)
  }

  /**
   * Discovery, name by name: a name holds the class of the LAST discoverable member that
   * claims it (later ones silently overwrite), and otherwise what it held before.
   */
  lemma {:induction false} DiscoverMembersLookup(objects: map<string, ClassInfo>, ms: seq<Member>, n: string)
    ensures n in DiscoverMembers(objects, ms) <==> n in objects || LastFor(ms, n).Some?
    ensures LastFor(ms, n).Some? ==> DiscoverMembers(objects, ms)[n] == LastFor(ms, n).value
    ensures LastFor(ms, n).None? && n in objects ==> DiscoverMembers(objects, ms)[n] == objects[n]
    decreases |ms|
  {
    if ms != [] {
      DiscoverMembersLookup(objects, ms[..|ms| - 1], n);
    }
  }

  /** Over the scanned modules: a name is present exactly when it was before or some module's discovery claims it. */
  lemma {:induction false} DiscoverModulesKeys(objects: map<string, ClassInfo>, modules: Modules, names: seq<string>, n: string)
    requires forall m :: m in names ==> m in modules
    ensures n in DiscoverModules(objects, modules, names) <==>
              n in objects || exists k :: 0 <= k < |names| && LastFor(modules[names[k]], n).Some?
    decreases |names|
  {
    if names != [] {
      var prefix := names[..|names| - 1];
      DiscoverModulesKeys(objects, modules, prefix, n);
      DiscoverMembersLookup(DiscoverModules(objects, modules, prefix), modules[names[|names| - 1]], n);
      assert forall k :: 0 <= k < |prefix| ==> prefix[k] == names[k];
    }
  }

  /** A discovered class really passed the filter: `LastFor` only ever returns a discoverable member's class. */
  lemma {:induction false} LastForIsDiscoverable(ms: seq<Member>, n: string)
    requires LastFor(ms, n).Some?
    ensures exists i :: 0 <= i < |ms| && Discoverable(ms[i]) && DiscoveryKey(ms[i]) == n && ms[i].cls == LastFor(ms, n).value
    decreases |ms|
  {
    var last := ms[|ms| - 1];
    if !(Discoverable(last) && DiscoveryKey(last) == n) {
      LastForIsDiscoverable(ms[..|ms| - 1], n);
      var i :| 0 <= i < |ms| - 1 && Discoverable(ms[..|ms| - 1][i]) && DiscoveryKey(ms[..|ms| - 1][i]) == n
                 && ms[..|ms| - 1][i].cls == LastFor(ms[..|ms| - 1], n).value;
      assert ms[i] == ms[..|ms| - 1][i];
    }
  }

  /** Classes from `...base` modules, from this module, or without an object-type name change nothing. */
  lemma SkippedMembers(objects: map<string, ClassInfo>, m: Member)
    requires EndsWith(m.cls.moduleName, "base") || m.cls.moduleName == ThisModule || !HasObjectSuffix(m.attr)
    ensures DiscoverStep(objects, m) == objects
  {
  }

  /** `flag |= name.lower().endswith(type)` over the object types. */
  method ObjectSuffixFlag(attr: string) returns (flag: bool)
    ensures flag <==> HasObjectSuffix(attr)
  {
    var lower := Lower(attr);
    flag := false;
    var i := 0;
    while i < |ObjectTypes|
      invariant 0 <= i <= |ObjectTypes|
      invariant flag <==> exists t :: t in ObjectTypes[..i] && EndsWith(lower, t)
    {
      assert ObjectTypes[..i + 1] == ObjectTypes[..i] + [ObjectTypes[i]];
      flag := flag || EndsWith(lower, ObjectTypes[i]);
      i := i + 1;
    }
    assert ObjectTypes[..i] == ObjectTypes;
  }

  // ------------------------------------------------------------ dotted paths

  /** `s.split('.')`. */
  function Split(s: string): (r: seq<string>)
    ensures |r| >= 1
    ensures forall i :: 0 <= i < |r| ==> '.' !in r[i]
  {
    if s == [] then [""]
    else if s[0] == '.' then [""] + Split(s[1..])
    else
      var rest := Split(s[1..]);
      [[s[0]] + rest[0]] + rest[1..]
  }

  /** `'.'.join(parts)`. */
  function Join(parts: seq<string>): string {
    if parts == [] then ""
    else if |parts| == 1 then parts[0]
    else parts[0] + "." + Join(parts[1..])
  }

  /** Joining the pieces of a split gives the text back. */
  lemma {:induction false} JoinSplit(s: string)
    ensures Join(Split(s)) == s
  {
    if s != [] {
      JoinSplit(s[1..]);
      var rest := Split(s[1..]);
      if s[0] == '.' {
        assert s == "." + s[1..];
      } else if |rest| == 1 {
        assert s == [s[0]] + s[1..];
      } else {
        assert Split(s)[1..] == rest[1..];
        assert s == [s[0]] + s[1..];
      }
    }
  }

  /** Splitting a join of dot-free pieces gives the pieces back. */
  lemma {:induction false} SplitJoin(parts: seq<string>)
    requires |parts| >= 1 && forall i :: 0 <= i < |parts| ==> '.' !in parts[i]
    ensures Split(Join(parts)) == parts
  {
    if |parts| == 1 {
      SplitOfNoDot(parts[0]);
    } else {
      SplitJoin(parts[1..]);
      SplitAfterWord(parts[0], Join(parts[1..]));
      assert [parts[0]] + parts[1..] == parts;
    }
  }

  lemma {:induction false} SplitOfNoDot(w: string)
    requires '.' !in w
    ensures Split(w) == [w]
  {
    if w != [] {
      SplitOfNoDot(w[1..]);
      assert w == [w[0]] + w[1..];
    }
  }

  lemma {:induction false} SplitAfterWord(w: string, rest: string)
    requires '.' !in w
    ensures Split(w + "." + rest) == [w] + Split(rest)
  {
    if w == [] {
      assert w + "." + rest == "." + rest;
      assert ("." + rest)[1..] == rest;
    } else {
      SplitAfterWord(w[1..], rest);
      assert (w + "." + rest)[1..] == w[1..] + "." + rest;
      assert w == [w[0]] + w[1..];
    }
  }

  /** `'.'.join(parts[:-1])` and `parts[-1]`. */
  function ModulePart(path: string): string {
    var parts := Split(path);
    Join(parts[..|parts| - 1])
  }

  function ClassPart(path: string): string {
    var parts := Split(path);
    parts[|parts| - 1]
  }

  /**
   * The module is everything before the last `.` and the class everything after it;
   * a path without a `.` has an empty module part and is all class part.
   */
  lemma DottedPath(path: string)
    ensures '.' !in ClassPart(path)
    ensures '.' in path ==> path == ModulePart(path) + "." + ClassPart(path)
    ensures '.' !in path ==> ModulePart(path) == "" && ClassPart(path) == path
  {
    var parts := Split(path);
    JoinSplit(path);
    if '.' !in path {
      SplitOfNoDot(path);
    } else {
      JoinLast(parts);
    }
  }

  lemma {:induction false} JoinLast(parts: seq<string>)
    requires |parts| >= 2
    ensures Join(parts) == Join(parts[..|parts| - 1]) + "." + parts[|parts| - 1]
  {
    if |parts| > 2 {
      JoinLast(parts[1..]);
      assert parts[1..][..|parts| - 2] == parts[..|parts| - 1][1..];
    }
  }

  /** The first class a module exposes under `attr`: `getattr(module, class_name)`. */
  function FindMember(ms: seq<Member>, attr: string): (r: Option<ClassInfo>)
    ensures r.Some? ==> exists i :: 0 <= i < |ms| && ms[i].attr == attr && ms[i].cls == r.value
    ensures r.None? ==> forall i :: 0 <= i < |ms| ==> ms[i].attr != attr
  {
    if ms == [] then None
    else if ms[0].attr == attr then Some(ms[0].cls)
    else
      var r := FindMember(ms[1..], attr);
      assert r.Some? ==> exists i :: 0 <= i < |ms| && ms[i].attr == attr && ms[i].cls == r.value by {
        if r.Some? {
          var i :| 0 <= i < |ms[1..]| && ms[1..][i].attr == attr && ms[1..][i].cls == r.value;
          assert ms[i + 1] == ms[1..][i];
        }
      }
      r
  }

  /** What `import_module` raises for an empty name. */
  const EmptyModuleName: string := "Empty module name"

  /** What `import_module` raises for a relative name, given no `package` to resolve it against. */
  function RelativeImport(name: string): string {
    "the 'package' argument is required to perform a relative import for '" + name + "'"
  }

  /**
   * Running one module's own code once its parents are loaded: the exception that code
   * raises, ImportError (ModuleNotFoundError) when no such module exists, or nothing.
   */
  function LoadFailure(modules: Modules, raising: Raising, m: string): (r: Option<Exception>)
    ensures r.None? <==> m in modules && m !in raising
    ensures m in raising ==> r == Some(raising[m])
    ensures m !in raising && m !in modules ==> r == Some(ImportError(m))
  {
    if m in raising then Some(raising[m])
    else if m !in modules then Some(ImportError(m))
    else None
  }

  /**
   * The parent packages of `name` are imported before it, outermost first: of the
   * prefixes of `name` that end just before a `.` at or after `i`, the first that fails
   * to load decides the error; nothing when all of them load.
   */
  function ParentFailure(modules: Modules, raising: Raising, name: string, i: nat): Option<Exception>
    requires i <= |name|
    decreases |name| - i
  {
    if i == |name| then None
    else if name[i] == '.' && LoadFailure(modules, raising, name[..i]).Some? then LoadFailure(modules, raising, name[..i])
    else ParentFailure(modules, raising, name, i + 1)
  }

  /** Every parent loads exactly when `ParentFailure` reports nothing; otherwise it reports the outermost failing parent. */
  lemma {:induction false} ParentFailureFacts(modules: Modules, raising: Raising, name: string, i: nat)
    requires i <= |name|
    ensures ParentFailure(modules, raising, name, i).None? <==>
              forall j :: i <= j < |name| && name[j] == '.' ==> LoadFailure(modules, raising, name[..j]).None?
    ensures ParentFailure(modules, raising, name, i).Some? ==>
              exists j :: i <= j < |name| && name[j] == '.' && LoadFailure(modules, raising, name[..j]) == ParentFailure(modules, raising, name, i)
                && forall k :: i <= k < j && name[k] == '.' ==> LoadFailure(modules, raising, name[..k]).None?
    decreases |name| - i
  {
    if i < |name| && !(name[i] == '.' && LoadFailure(modules, raising, name[..i]).Some?) {
      ParentFailureFacts(modules, raising, name, i + 1);
    }
  }

  /** A parent that fails to load, with every parent outside it loading, is the error of the whole import. */
  lemma {:induction false} ParentFailureAt(modules: Modules, raising: Raising, name: string, i: nat, j: nat)
    requires i <= j < |name| && name[j] == '.' && LoadFailure(modules, raising, name[..j]).Some?
    requires forall k :: i <= k < j && name[k] == '.' ==> LoadFailure(modules, raising, name[..k]).None?
    ensures ParentFailure(modules, raising, name, i) == LoadFailure(modules, raising, name[..j])
    decreases j - i
  {
    if i < j {
      ParentFailureAt(modules, raising, name, i + 1, j);
    }
  }

  /**
   * `import_module(name)` with no `package`: a name starting with `.` raises TypeError,
   * an empty one ValueError; then the parent packages are imported outermost first and
   * the module itself last, and the first of them that fails to load decides the error.
   * A module that loads gives its members.
   */
  function Import(modules: Modules, raising: Raising, name: string): (r: Result<seq<Member>, Exception>)
    ensures r.Success? <==> name != "" && name[0] != '.' && ParentFailure(modules, raising, name, 0).None?
                            && name in modules && name !in raising
    ensures r.Success? ==> r.value == modules[name]
    ensures name != "" && name[0] == '.' ==> r == Failure(TypeError(RelativeImport(name)))
    ensures name == "" ==> r == Failure(ValueError(EmptyModuleName))
    ensures name != "" && name[0] != '.' && ParentFailure(modules, raising, name, 0).Some? ==>
              r == Failure(ParentFailure(modules, raising, name, 0).value)
    ensures name != "" && name[0] != '.' && ParentFailure(modules, raising, name, 0).None? && r.Failure? ==>
              r.error == (if name in raising then raising[name] else ImportError(name))
  {
    if name != "" && name[0] == '.' then Failure(TypeError(RelativeImport(name)))
    else if name == "" then Failure(ValueError(EmptyModuleName))
    else match ParentFailure(modules, raising, name, 0)
      case Some(e) => Failure(e)
      case None =>
        match LoadFailure(modules, raising, name)
        case Some(e) => Failure(e)
        case None => Success(modules[name])
  }

  /**
   * A module inside a package whose import fails cannot be imported either, whatever
   * the module itself holds: the package's error is raised first.
   */
  lemma ParentRaises(modules: Modules, raising: Raising, name: string, j: nat)
    requires 0 < j < |name| && name[0] != '.' && name[j] == '.' && LoadFailure(modules, raising, name[..j]).Some?
    requires forall k :: 0 <= k < j && name[k] == '.' ==> LoadFailure(modules, raising, name[..k]).None?
    ensures Import(modules, raising, name) == Failure(LoadFailure(modules, raising, name[..j]).value)
  {
    ParentFailureAt(modules, raising, name, 0, j);
  }

  /** The error of the first failed result in `rs`, or nothing when every one succeeds. */
  function FirstError<T>(rs: seq<Result<T, Exception>>): (r: Option<Exception>)
    ensures r.None? <==> forall i :: 0 <= i < |rs| ==> rs[i].Success?
    ensures r.Some? ==> exists k :: 0 <= k < |rs| && rs[k].Failure? && rs[k].error == r.value
                          && forall i :: 0 <= i < k ==> rs[i].Success?
  {
    if rs == [] then None
    else if rs[0].Failure? then Some(rs[0].error)
    else
      var r := FirstError(rs[1..]);
      assert forall i :: 1 <= i < |rs| ==> rs[1..][i - 1] == rs[i];
      assert r.Some? ==> exists k :: 0 <= k < |rs| && rs[k].Failure? && rs[k].error == r.value
                           && forall i :: 0 <= i < k ==> rs[i].Success? by {
        if r.Some? {
          var k :| 0 <= k < |rs[1..]| && rs[1..][k].Failure? && rs[1..][k].error == r.value
                   && forall i :: 0 <= i < k ==> rs[1..][i].Success?;
          assert rs[k + 1] == rs[1..][k];
        }
      }
      r
  }

  /** A failure with only successes before it is the first error, whatever follows it. */
  lemma {:induction false} FirstErrorAt<T>(rs: seq<Result<T, Exception>>, k: int)
    requires 0 <= k < |rs| && rs[k].Failure?
    requires forall i :: 0 <= i < k ==> rs[i].Success?
    ensures FirstError(rs) == Some(rs[k].error)
    decreases k
  {
    if k > 0 {
      assert forall i :: 0 <= i < k - 1 ==> rs[1..][i] == rs[i + 1];
      FirstErrorAt(rs[1..], k - 1);
    }
  }

  /** `map(import_module, names)`, each import in turn. */
  function Imports(modules: Modules, raising: Raising, names: seq<string>): (rs: seq<Result<seq<Member>, Exception>>)
    ensures |rs| == |names| && forall i :: 0 <= i < |names| ==> rs[i] == Import(modules, raising, names[i])
  {
    seq(|names|, i requires 0 <= i < |names| => Import(modules, raising, names[i]))
  }

  /**
   * What `map(import_module, names)` raises while the scan walks it: the error of the first
   * name whose import fails, or nothing when all import.
   */
  function FirstImportFailure(modules: Modules, raising: Raising, names: seq<string>): (r: Option<Exception>)
    ensures r.None? <==> forall i :: 0 <= i < |names| ==> Import(modules, raising, names[i]).Success?
    ensures r.Some? ==> exists k :: 0 <= k < |names| && Import(modules, raising, names[k]) == Failure(r.value)
                          && forall i :: 0 <= i < k ==> Import(modules, raising, names[i]).Success?
  {
    FirstError(Imports(modules, raising, names))
  }

  /** The first failure is the error of a module before which every import succeeds, whatever follows it. */
  lemma FirstImportFailureAt(modules: Modules, raising: Raising, names: seq<string>, k: int)
    requires 0 <= k < |names| && Import(modules, raising, names[k]).Failure?
    requires forall i :: 0 <= i < k ==> Import(modules, raising, names[i]).Success?
    ensures FirstImportFailure(modules, raising, names) == Some(Import(modules, raising, names[k]).error)
  {
    FirstErrorAt(Imports(modules, raising, names), k);
  }

  /**
   * `import_module(module_name)` then `getattr(module, class_name)`: whatever the import
   * raises (ValueError for an empty module name, TypeError for one starting with `.`, a
   * parent's or the module's own error), else the class, else AttributeError.
   */
  function Resolve(modules: Modules, raising: Raising, path: string): (r: Result<ClassInfo, Exception>)
    ensures r.Success? ==>
              && Import(modules, raising, ModulePart(path)).Success?
              && exists i :: 0 <= i < |modules[ModulePart(path)]| && modules[ModulePart(path)][i].attr == ClassPart(path)
                   && modules[ModulePart(path)][i].cls == r.value
    ensures Import(modules, raising, ModulePart(path)).Failure? ==>
              r == Failure(Import(modules, raising, ModulePart(path)).error)
    ensures ModulePart(path) == "" ==> r == Failure(ValueError(EmptyModuleName))
    ensures ModulePart(path) != "" && ModulePart(path)[0] == '.' ==> r == Failure(TypeError(RelativeImport(ModulePart(path))))
    ensures Import(modules, raising, ModulePart(path)).Success? &&
            (forall i :: 0 <= i < |modules[ModulePart(path)]| ==> modules[ModulePart(path)][i].attr != ClassPart(path))
            ==> r == Failure(AttributeError(ClassPart(path)))
  {
    var members :- Import(modules, raising, ModulePart(path));
    match FindMember(members, ClassPart(path))
    case Some(cls) => Success(cls)
    case None => Failure(AttributeError(ClassPart(path)))
  }

  /** A path without a dot names no module, so registering it always fails. */
  lemma UndottedPathFails(modules: Modules, raising: Raising, path: string)
    requires '.' !in path
    ensures Resolve(modules, raising, path) == Failure(ValueError(EmptyModuleName))
  {
    DottedPath(path);
  }

  /**
   * A path starting with `.` and holding another `.` is a relative module name, which
   * `import_module` refuses without a `package`: TypeError.
   */
  lemma RelativePathFails(modules: Modules, raising: Raising, path: string)
    requires |path| > 0 && path[0] == '.' && '.' in path[1..]
    ensures ModulePart(path) != "" && ModulePart(path)[0] == '.'
    ensures Resolve(modules, raising, path) == Failure(TypeError(RelativeImport(ModulePart(path))))
  {
    DottedPath(path);
    var m, c := ModulePart(path), ClassPart(path);
    assert path[0] == (m + "." + c)[0] == m[0];
  }

  // --------------------------------------------------------------- the class

  class Repository {
    /** `self._objects`. */
    var objects: map<string, ClassInfo>
    /** What `import_module` finds; reflection, not state of the source object. */
    const modules: Modules
    /** The modules whose import raises; reflection too. */
    const raising: Raising

    /**
     * `Repository()` when it returns: an empty dictionary, then discovery over the three
     * packages, all of which import. `Create` is the call that may raise.
     */
    constructor (modules: Modules, raising: Raising)
      requires FirstImportFailure(modules, raising, ScanModules).None?
      ensures this.modules == modules && this.raising == raising
      ensures objects == DiscoverModules(map[], modules, ScanModules)
    {
      this.modules := modules;
      this.raising := raising;
      objects := map[];
      new;
      RegisterInternal();
    }

    /**
     * `Repository()` with its failure: the scan imports each package in turn, and the
     * first import that raises ends construction with that error (the half-filled
     * dictionary is lost with the object). Otherwise the constructor's registry.
     */
    static method Create(modules: Modules, raising: Raising) returns (r: Result<Repository, Exception>)
      ensures r.Failure? <==> FirstImportFailure(modules, raising, ScanModules).Some?
      ensures r.Failure? ==> r.error == FirstImportFailure(modules, raising, ScanModules).value
      ensures r.Success? ==> fresh(r.value) && r.value.modules == modules && r.value.raising == raising
                             && r.value.objects == DiscoverModules(map[], modules, ScanModules)
    {
      var i := 0;
      while i < |ScanModules|
        invariant 0 <= i <= |ScanModules|
        invariant forall j :: 0 <= j < i ==> Import(modules, raising, ScanModules[j]).Success?
      {
        var imported := Import(modules, raising, ScanModules[i]);
        if imported.Failure? {
          FirstImportFailureAt(modules, raising, ScanModules, i);
          return Failure(imported.error);
        }
        i := i + 1;
      }
      var repository := new Repository(modules, raising);
      r := Success(repository);
    }

    /** `_register_internal`: the nested discovery loops, each class filtered and registered in order. */
    method RegisterInternal()
      requires FirstImportFailure(modules, raising, ScanModules).None?
      modifies this
      ensures objects == DiscoverModules(old(objects), modules, ScanModules)
    {
      var i := 0;
      while i < |ScanModules|
        invariant 0 <= i <= |ScanModules|
        invariant objects == DiscoverModules(old(objects), modules, ScanModules[..i])
      {
        assert Import(modules, raising, ScanModules[i]).Success?;
        var members := modules[ScanModules[i]];
        ghost var before := objects;
        var j := 0;
        while j < |members|
          invariant 0 <= j <= |members|
          invariant objects == DiscoverMembers(before, members[..j])
        {
          var m := members[j];
          assert members[..j + 1][..j] == members[..j];
          if !EndsWith(m.cls.moduleName, "base") && m.cls.moduleName != ThisModule {
            var flag := ObjectSuffixFlag(m.attr);
            if flag {
              var name := DiscoveryName(m.cls);
              var _ := Register(name, Class(m.cls));
            }
          }
          j := j + 1;
        }
        assert members[..j] == members;
        assert ScanModules[..i + 1][..i] == ScanModules[..i];
        i := i + 1;
      }
      assert ScanModules[..i] == ScanModules;
    }

    /**
     * `register(name, object_or_name)`: resolves a dotted path, derives the name when none
     * is given, and stores the class under it, replacing any earlier entry; the other
     * entries stay. A path that does not resolve raises and changes nothing.
     */
    method Register(name: Option<string>, target: Target) returns (r: Result<(), Exception>)
      modifies this
      ensures target.Class? ==> r.Success?
      ensures target.Dotted? ==> (r.Success? <==> Resolve(modules, raising, target.path).Success?)
      ensures r.Failure? ==> objects == old(objects) && r.error == Resolve(modules, raising, target.path).error
      ensures r.Success? ==>
                var cls := if target.Class? then target.cls else Resolve(modules, raising, target.path).value;
                objects == old(objects)[RegisteredName(name, cls) := cls]
    {
      var cls: ClassInfo;
      match target {
        case Class(c) =>
          cls := c;
        case Dotted(path) =>
          var resolved := Resolve(modules, raising, path);
          if resolved.Failure? {
            return Failure(resolved.error);
          }
          cls := resolved.value;
      }
      var key := RegisteredName(name, cls);
      objects := objects[key := cls];
      r := Success(());
    }

    /** `get_object(name)`: the class last stored under `name`, or KeyError. */
    method GetObject(name: string) returns (r: Result<ClassInfo, Exception>)
      ensures name in objects ==> r == Success(objects[name])
      ensures name !in objects ==> r == Failure(KeyError(name))
    {
      if name in objects {
        r := Success(objects[name]);
      } else {
        r := Failure(KeyError(name));
      }
    }
  }

  /** A registration made after construction overrides whatever discovery stored under that name. */
  method OverrideAfterDiscovery(modules: Modules, raising: Raising, name: string, cls: ClassInfo)
    requires FirstImportFailure(modules, raising, ScanModules).None?
  {
    var repository := new Repository(modules, raising);
    var _ := repository.Register(Some(name), Class(cls));
    var got := repository.GetObject(name);
    assert got == Success(cls);
  }
}
