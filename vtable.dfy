/** Macro-built virtual dispatch (VirtualMethod/macro_inheritance.h).

    Every class declared with BASE_CLASS_START or DERIVED_CLASS_START gets one global
    vtable, so a program's vtables form a registry built once, in declaration order, at
    static initialisation. Class i owns vtable i; a vtable pointer is an index into the
    registry. `__COUNTER__` is the registry's counter: BASE_CLASS_START takes three
    values from it (the vtable's type id, the hierarchy tag and the class tag) and
    DERIVED_CLASS_START two (the type id and the class tag). A method pointer is an
    opaque `MethodImpl`. Method names are compared by their text, which is what the
    source's `const char *` keys give when the compiler pools equal literals. An object
    is known by its vtable pointer; its static type is a class index. */
module VTables {
  import opened Wrappers

  type MethodImpl = nat

  /** MacroBasedVTable: `root` is most_derived_vtable_ptr, `base` base_vtable_ptr. */
  datatype VTable = VTable(typeId: nat, root: nat, base: Option<nat>, methods: map<string, MethodImpl>)

  /** A class's _HIERARCHY_TAG and _CLASS_TAG. */
  datatype Tags = Tags(hierarchy: nat, klass: nat)

  /** The METHOD_START / METHOD_END methods, keyed by their class and name as the
      function STATIC_METHOD_NAME(CLASS_NAME, METHOD_NAME) is. */
  type Statics = map<(nat, string), MethodImpl>

  datatype Registry = Registry(vtables: seq<VTable>, tags: seq<Tags>, statics: Statics, counter: nat)

  /** How CALL_METHOD was handed the object, which decides the failure message. */
  datatype Handle = ByReference | ByPointer

  const Empty: Registry := Registry([], [], map[], 0)

  /** Every base link points to an earlier vtable. */
  predicate Linked(r: Registry) {
    forall i :: 0 <= i < |r.vtables| && r.vtables[i].base.Some? ==> r.vtables[i].base.value < i
  }

  /** The shape the macros give every registry: a class per vtable; a vtable without a
      base is its own root; a derived vtable links to an earlier one with a smaller
      type id, shares its root and hierarchy tag and has a larger class tag; the
      counter is past every id and tag handed out; static methods belong to declared
      classes. */
  ghost predicate Valid(r: Registry) {
    |r.tags| == |r.vtables| && Linked(r) &&
    (forall i :: 0 <= i < |r.vtables| ==>
       r.vtables[i].typeId < r.counter && r.tags[i].klass < r.counter && r.tags[i].hierarchy < r.counter &&
       (r.vtables[i].base.None? ==> r.vtables[i].root == i) &&
       (r.vtables[i].base.Some? ==>
          var b := r.vtables[i].base.value;
          r.vtables[b].typeId < r.vtables[i].typeId && r.vtables[i].root == r.vtables[b].root &&
          r.tags[i].hierarchy == r.tags[b].hierarchy && r.tags[b].klass < r.tags[i].klass)) &&
    (forall key :: key in r.statics ==> key.0 < |r.vtables|)
  }

  // ---------------------------------------------------------------- building

  /** The MacroBasedVTable constructor for the vtable at index `self`: a null
      most-derived pointer makes the vtable its own root. */
  function Construct(id: nat, self: nat, mostDerived: Option<nat>, base: Option<nat>): (t: VTable)
    ensures t.typeId == id && t.base == base && t.methods == map[]
    ensures mostDerived.None? ==> t.root == self
    ensures mostDerived.Some? ==> t.root == mostDerived.value
  {
    VTable(id, if mostDerived.None? then self else mostDerived.value, base, map[])
  }

  /** BASE_CLASS_START. */
  function DeclareBase(r: Registry): Registry {
    var c := |r.vtables|;
    Registry(r.vtables + [Construct(r.counter, c, None, None)],
             r.tags + [Tags(r.counter + 1, r.counter + 2)],
             r.statics, r.counter + 3)
  }

  /** DERIVED_CLASS_START(_, base class b). The macro passes the base's root, or the
      base itself when that root is null; the constructor never leaves a root null, so
      the root is passed. */
  function DeclareDerived(r: Registry, b: nat): Registry
    requires b < |r.vtables| && b < |r.tags|
  {
    var c := |r.vtables|;
    Registry(r.vtables + [Construct(r.counter, c, Some(r.vtables[b].root), Some(b))],
             r.tags + [Tags(r.tags[b].hierarchy, r.counter + 1)],
             r.statics, r.counter + 2)
  }

  /** MethodVTableEmplacer: registering a name twice in one vtable fails the
      assertion on `inserted.second`. */
  function Emplace(r: Registry, c: nat, name: string, impl: MethodImpl): (r': Result<Registry>)
    requires c < |r.vtables|
    ensures r'.Ok? <==> name !in r.vtables[c].methods
    ensures r'.Err? ==> r'.error == "assertion failed: inserted.second"
    ensures r'.Ok? ==> |r'.value.vtables| == |r.vtables| && r'.value.tags == r.tags &&
                       r'.value.statics == r.statics && r'.value.counter == r.counter &&
                       r'.value.vtables[c].methods == r.vtables[c].methods[name := impl] &&
                       (forall i :: 0 <= i < |r.vtables| && i != c ==> r'.value.vtables[i] == r.vtables[i])
  {
    if name in r.vtables[c].methods then Err("assertion failed: inserted.second")
    else
      var t := r.vtables[c];
      Ok(r.(vtables := r.vtables[c := t.(methods := t.methods[name := impl])]))
  }

  /** METHOD_START / METHOD_END: the statically resolved method `name` of class c.
      Methods of the same name in other classes stay; the same class and name twice
      redefines STATIC_METHOD_NAME(CLASS_NAME, METHOD_NAME), which does not compile. */
  function DefineStatic(r: Registry, c: nat, name: string, impl: MethodImpl): (r': Result<Registry>)
    requires c < |r.vtables|
    ensures r'.Ok? <==> (c, name) !in r.statics
    ensures r'.Ok? ==> r'.value.vtables == r.vtables && r'.value.tags == r.tags &&
                       r'.value.counter == r.counter && r'.value.statics == r.statics[(c, name) := impl]
  {
    if (c, name) in r.statics then Err("compile error: redefinition of the static method")
    else Ok(r.(statics := r.statics[(c, name) := impl]))
  }

  // ---------------------------------------------------------------- the chain

  /** The vtables macro_call_method visits from vtable i: i, its base, that one's
      base, and so on to a vtable with no base. */
  function Chain(r: Registry, i: nat): (c: seq<nat>)
    requires Linked(r) && i < |r.vtables|
    ensures |c| > 0 && c[0] == i
    ensures forall n :: 0 <= n < |c| ==> c[n] <= i
    ensures forall k :: k in c ==> k <= i
    ensures r.vtables[c[|c| - 1]].base.None?
    decreases i
  {
    match r.vtables[i].base
    case None => [i]
    case Some(b) => [i] + Chain(r, b)
  }

  /** The first vtable on the chain from i that holds `name`. */
  function Lookup(r: Registry, i: nat, name: string): (j: Option<nat>)
    requires Linked(r) && i < |r.vtables|
    ensures j.Some? ==> j.value <= i && name in r.vtables[j.value].methods
    decreases i
  {
    if name in r.vtables[i].methods then Some(i)
    else match r.vtables[i].base
      case None => None
      case Some(b) => Lookup(r, b, name)
  }

  /** A call finds a vtable exactly when one on the chain holds the name, and it finds
      the nearest: the vtable it returns holds the name and every vtable visited
      before it (a later-declared one on the chain) does not. */
  lemma {:induction false} LookupIsNearest(r: Registry, i: nat, name: string)
    requires Linked(r) && i < |r.vtables|
    ensures Lookup(r, i, name).None? <==> forall k :: k in Chain(r, i) ==> name !in r.vtables[k].methods
    ensures Lookup(r, i, name).Some? ==>
              var j := Lookup(r, i, name).value;
              j in Chain(r, i) && name in r.vtables[j].methods &&
              forall k :: k in Chain(r, i) && k > j ==> name !in r.vtables[k].methods
    decreases i
  {
    if name !in r.vtables[i].methods && r.vtables[i].base.Some? {
      LookupIsNearest(r, r.vtables[i].base.value, name);
    }
  }

  /** The walk ends: along the chain type ids only go down, and the chain ends at the
      root every vtable of the hierarchy shares, a vtable with no base. */
  lemma {:induction false} ChainDescendsToRoot(r: Registry, i: nat)
    requires Valid(r) && i < |r.vtables|
    ensures forall k :: k in Chain(r, i) ==> r.vtables[k].typeId <= r.vtables[i].typeId
    ensures forall k :: k in Chain(r, i) ==> r.vtables[k].root == r.vtables[i].root
    ensures Chain(r, i)[|Chain(r, i)| - 1] == r.vtables[i].root
    ensures r.vtables[r.vtables[i].root].base.None?
    decreases i
  {
    if r.vtables[i].base.Some? {
      ChainDescendsToRoot(r, r.vtables[i].base.value);
    }
  }

  // ---------------------------------------------------------------- casts and calls

  /** macro_dynamic_cast's test, as written: same root and a type id at least the
      target's. */
  predicate CanCast(r: Registry, obj: nat, target: nat)
    requires obj < |r.vtables| && target < |r.vtables|
  {
    r.vtables[obj].root == r.vtables[target].root && r.vtables[obj].typeId >= r.vtables[target].typeId
  }

  /** DYNAMIC_CAST as written: the identity when the object's static type is the
      target, otherwise allowed exactly when CanCast holds. The object is unchanged. */
  function DynamicCast(r: Registry, staticType: nat, obj: nat, target: nat): (res: Result<nat>)
    requires obj < |r.vtables| && target < |r.vtables|
    ensures res.Ok? <==> staticType == target || CanCast(r, obj, target)
    ensures res.Ok? ==> res.value == obj
    ensures res.Err? ==> res.error == "assertion failed: can_cast"
  {
    if staticType == target then Ok(obj)
    else if CanCast(r, obj, target) then Ok(obj)
    else Err("assertion failed: can_cast")
  }

  /** The cast as intended: the target class is the object's class or one of its
      bases. */
  function DynamicCastChecked(r: Registry, staticType: nat, obj: nat, target: nat): (res: Result<nat>)
    requires Linked(r) && obj < |r.vtables| && target < |r.vtables|
    ensures res.Ok? <==> staticType == target || target in Chain(r, obj)
    ensures res.Ok? ==> res.value == obj
  {
    if staticType == target || target in Chain(r, obj) then Ok(obj)
    else Err("assertion failed: can_cast")
  }

  /** StaticMethodCallable<Owner, T> as written. */
  predicate StaticCallable(r: Registry, owner: nat, t: nat)
    requires owner < |r.tags| && t < |r.tags|
  {
    r.tags[owner].hierarchy == r.tags[t].hierarchy && r.tags[owner].klass <= r.tags[t].klass
  }

  /** StaticMethodCallable as intended: the owner is T or one of T's bases. */
  predicate StaticCallableChecked(r: Registry, owner: nat, t: nat)
    requires Linked(r) && owner < |r.vtables| && t < |r.vtables|
  {
    owner in Chain(r, t)
  }

  /** Everything the intended checks accept, the written ones accept too: a base of a
      class shares its root and hierarchy tag and has a smaller type id and tag. */
  lemma {:induction false} CheckedImpliesAsWritten(r: Registry, obj: nat, target: nat)
    requires Valid(r) && obj < |r.vtables| && target < |r.vtables|
    requires target in Chain(r, obj)
    ensures CanCast(r, obj, target)
    ensures StaticCallable(r, target, obj)
    decreases obj
  {
    if target != obj {
      var b := r.vtables[obj].base.value;
      CheckedImpliesAsWritten(r, b, target);
    }
  }

  /** The classes below n with a METHOD `name` whose MacroMethodCaller
      specialization accepts the static type, in declaration order. */
  function CallableOwners(r: Registry, staticType: nat, name: string, n: nat): (os: seq<nat>)
    requires Linked(r) && staticType < |r.vtables| && n <= |r.vtables|
    ensures forall o :: o in os <==> o < n && (o, name) in r.statics && StaticCallableChecked(r, o, staticType)
  {
    if n == 0 then []
    else
      var o := n - 1;
      CallableOwners(r, staticType, name, o) +
      (if (o, name) in r.statics && StaticCallableChecked(r, o, staticType) then [o] else [])
  }

  /** CALL_METHOD: when exactly one METHOD specialization accepts the static type it
      is called; two or more are an ambiguous partial specialization, which does not
      compile; with none the primary template walks the chain from the object's
      vtable, and a name found nowhere fails an assertion. */
  function Dispatch(r: Registry, handle: Handle, staticType: nat, obj: nat, name: string): Result<MethodImpl>
    requires Valid(r) && staticType < |r.vtables| && obj < |r.vtables|
  {
    var owners := CallableOwners(r, staticType, name, |r.vtables|);
    if |owners| == 1 then Ok(r.statics[(owners[0], name)])
    else if |owners| > 1 then Err(Ambiguous)
    else match Lookup(r, obj, name)
      case Some(j) => Ok(r.vtables[j].methods[name])
      case None => Err(NotFound(handle))
  }

  /** The compile error of two METHOD specializations that both accept the type. */
  const Ambiguous: string := "compile error: ambiguous partial specialization of MacroMethodCaller"

  /** The failing assertion of each macro_call_method. */
  function NotFound(handle: Handle): string {
    match handle
    case ByReference => "assertion failed: false"
    case ByPointer => "assertion failed: false && \"method not found\""
  }

  // ---------------------------------------------------------------- properties

  lemma EmptyValid()
    ensures Valid(Empty)
  {
  }

  /** A base class's vtable is its own root. */
  lemma DeclareBaseValid(r: Registry)
    requires Valid(r)
    ensures Valid(DeclareBase(r))
    ensures var c := |r.vtables|; DeclareBase(r).vtables[c].root == c && DeclareBase(r).vtables[c].base.None?
  {
    var r' := DeclareBase(r);
    assert forall i :: 0 <= i < |r.vtables| ==> r'.vtables[i] == r.vtables[i] && r'.tags[i] == r.tags[i];
  }

  /** A derived class's vtable links to its base and inherits the base's root and
      hierarchy tag. */
  lemma DeclareDerivedValid(r: Registry, b: nat)
    requires Valid(r) && b < |r.vtables|
    ensures Valid(DeclareDerived(r, b))
    ensures var c := |r.vtables|; var t := DeclareDerived(r, b).vtables[c];
            t.base == Some(b) && t.root == r.vtables[b].root &&
            DeclareDerived(r, b).tags[c].hierarchy == r.tags[b].hierarchy
  {
    var r' := DeclareDerived(r, b);
    assert forall i :: 0 <= i < |r.vtables| ==> r'.vtables[i] == r.vtables[i] && r'.tags[i] == r.tags[i];
  }

  lemma EmplaceValid(r: Registry, c: nat, name: string, impl: MethodImpl)
    requires Valid(r) && c < |r.vtables| && Emplace(r, c, name, impl).Ok?
    ensures Valid(Emplace(r, c, name, impl).value)
  {
    var r' := Emplace(r, c, name, impl).value;
    assert forall i :: 0 <= i < |r.vtables| ==>
      r'.vtables[i].typeId == r.vtables[i].typeId && r'.vtables[i].root == r.vtables[i].root &&
      r'.vtables[i].base == r.vtables[i].base;
  }

  lemma DefineStaticValid(r: Registry, c: nat, name: string, impl: MethodImpl)
    requires Valid(r) && c < |r.vtables| && DefineStatic(r, c, name, impl).Ok?
    ensures Valid(DefineStatic(r, c, name, impl).value)
  {
  }

  /** A METHOD resolves statically when its class is the only one on the static type's
      chain with a METHOD of that name: that body runs, whatever the object's vtable
      holds. */
  lemma StaticCallResolves(r: Registry, handle: Handle, staticType: nat, obj: nat, name: string, c: nat)
    requires Valid(r) && staticType < |r.vtables| && obj < |r.vtables|
    requires (c, name) in r.statics && c in Chain(r, staticType)
    requires forall o :: o in Chain(r, staticType) && o != c ==> (o, name) !in r.statics
    ensures Dispatch(r, handle, staticType, obj, name) == Ok(r.statics[(c, name)])
  {
    OwnersOfOne(r, staticType, name, c, |r.vtables|);
  }

  /** With class c the only one on the chain holding a METHOD `name`, c is the only
      callable owner. */
  lemma {:induction false} OwnersOfOne(r: Registry, staticType: nat, name: string, c: nat, n: nat)
    requires Valid(r) && staticType < |r.vtables| && n <= |r.vtables|
    requires (c, name) in r.statics && c in Chain(r, staticType)
    requires forall o :: o in Chain(r, staticType) && o != c ==> (o, name) !in r.statics
    ensures CallableOwners(r, staticType, name, n) == if c < n then [c] else []
  {
    if n > 0 {
      OwnersOfOne(r, staticType, name, c, n - 1);
    }
  }

  /** With no class on the chain holding a METHOD `name`, nothing is callable statically. */
  lemma {:induction false} OwnersOfNone(r: Registry, staticType: nat, name: string, n: nat)
    requires Valid(r) && staticType < |r.vtables| && n <= |r.vtables|
    requires forall o :: o in Chain(r, staticType) ==> (o, name) !in r.statics
    ensures CallableOwners(r, staticType, name, n) == []
  {
    if n > 0 {
      OwnersOfNone(r, staticType, name, n - 1);
    }
  }

  /** A second virtual method of the same name in one class fails, whatever the first. */
  lemma EmplaceTwiceFails(r: Registry, c: nat, name: string, impl1: MethodImpl, impl2: MethodImpl)
    requires c < |r.vtables| && Emplace(r, c, name, impl1).Ok?
    ensures Emplace(Emplace(r, c, name, impl1).value, c, name, impl2) == Err("assertion failed: inserted.second")
  {
  }

  /** What a virtual call resolves to when no static method intervenes: the body
      registered in the nearest vtable on the chain, or the failed assertion. */
  lemma VirtualCallResolves(r: Registry, handle: Handle, staticType: nat, obj: nat, name: string)
    requires Valid(r) && staticType < |r.vtables| && obj < |r.vtables|
    requires forall o :: o in Chain(r, staticType) ==> (o, name) !in r.statics
    ensures Dispatch(r, handle, staticType, obj, name).Err? <==>
              forall k :: k in Chain(r, obj) ==> name !in r.vtables[k].methods
    ensures Dispatch(r, handle, staticType, obj, name).Err? ==>
              Dispatch(r, handle, staticType, obj, name).error == NotFound(handle)
    ensures Dispatch(r, handle, staticType, obj, name).Ok? ==>
              exists j :: j in Chain(r, obj) && name in r.vtables[j].methods &&
                          Dispatch(r, handle, staticType, obj, name).value == r.vtables[j].methods[name] &&
                          forall k :: k in Chain(r, obj) && k > j ==> name !in r.vtables[k].methods
  {
    LookupIsNearest(r, obj, name);
    OwnersOfNone(r, staticType, name, |r.vtables|);
  }

  // ---------------------------------------------------------------- the demo program

  /** The classes of the demo: Base with METHOD simple and VIRTUAL print, Derived of
      Base with VIRTUAL print and METHOD only_derived; the bodies are 10 to 13. */
  function Demo(): Registry {
    var r1 := DefineStatic(DeclareBase(Empty), 0, "simple", 10).value;
    var r2 := Emplace(r1, 0, "print", 11).value;
    var r3 := DeclareDerived(r2, 0);
    var r4 := Emplace(r3, 1, "print", 12).value;
    DefineStatic(r4, 1, "only_derived", 13).value
  }

  /** The demo's registry as the macros leave it: Base has type id 0 and tags 1 and 2,
      Derived type id 3 and class tag 4, both with root 0. */
  const DemoRegistry: Registry :=
    Registry([VTable(0, 0, None, map["print" := 11]), VTable(3, 0, Some(0), map["print" := 12])],
             [Tags(1, 2), Tags(1, 4)],
             map[(0, "simple") := 10, (1, "only_derived") := 13], 5)

  lemma DemoValid()
    ensures Valid(DemoRegistry)
  {
    var r := DemoRegistry;
    assert Linked(r);
  }

  lemma DemoBuilt()
    ensures Demo() == DemoRegistry
  {
    var r1 := DefineStatic(DeclareBase(Empty), 0, "simple", 10).value;
    assert r1.vtables == [VTable(0, 0, None, map[])];
    var r2 := Emplace(r1, 0, "print", 11).value;
    assert r2.vtables == [VTable(0, 0, None, map["print" := 11])];
    var r3 := DeclareDerived(r2, 0);
    assert r3.vtables == [VTable(0, 0, None, map["print" := 11]), VTable(3, 0, Some(0), map[])];
    assert r3.tags == [Tags(1, 2), Tags(1, 4)];
    var r4 := Emplace(r3, 1, "print", 12).value;
    assert r4.vtables == DemoRegistry.vtables;
    assert r4.statics == map[(0, "simple") := 10];
  }

  /** The demo's static calls on the objects themselves: simple resolves to Base's
      body by the static type, only_derived to Derived's. */
  lemma DemoCalls()
    ensures Valid(DemoRegistry)
    ensures Dispatch(DemoRegistry, ByReference, 0, 0, "simple") == Ok(10)
    ensures Dispatch(DemoRegistry, ByReference, 1, 1, "simple") == Ok(10)
    ensures Dispatch(DemoRegistry, ByReference, 1, 1, "only_derived") == Ok(13)
  {
    DemoValid();
    var r := DemoRegistry;
    assert Chain(r, 0) == [0];
    assert Chain(r, 1) == [1, 0];
    StaticCallResolves(r, ByReference, 0, 0, "simple", 0);
    StaticCallResolves(r, ByReference, 1, 1, "simple", 0);
    StaticCallResolves(r, ByReference, 1, 1, "only_derived", 1);
  }

  /** The demo's virtual calls on the objects themselves: print runs the body in the
      object's own vtable. */
  lemma DemoVirtualCalls()
    ensures Valid(DemoRegistry)
    ensures Dispatch(DemoRegistry, ByReference, 0, 0, "print") == Ok(11)
    ensures Dispatch(DemoRegistry, ByReference, 1, 1, "print") == Ok(12)
  {
    DemoValid();
    var r := DemoRegistry;
    assert Chain(r, 0) == [0];
    assert Chain(r, 1) == [1, 0];
    OwnersOfNone(r, 0, "print", 2);
    OwnersOfNone(r, 1, "print", 2);
  }

  /** The demo's calls through a Base pointer to the Derived object: the cast passes,
      print still reaches Derived's body, and only_derived is the run-time failure. */
  lemma DemoCallsThroughBase()
    ensures Valid(DemoRegistry)
    ensures DynamicCast(DemoRegistry, 1, 1, 0) == Ok(1)
    ensures Dispatch(DemoRegistry, ByPointer, 0, 1, "simple") == Ok(10)
    ensures Dispatch(DemoRegistry, ByPointer, 0, 1, "print") == Ok(12)
    ensures Dispatch(DemoRegistry, ByPointer, 0, 1, "only_derived") == Err(NotFound(ByPointer))
  {
    DemoValid();
    var r := DemoRegistry;
    assert Chain(r, 0) == [0];
    assert Chain(r, 1) == [1, 0];
    StaticCallResolves(r, ByPointer, 0, 1, "simple", 0);
    OwnersOfNone(r, 0, "print", 2);
    OwnersOfNone(r, 0, "only_derived", 2);
  }

  /** Two unrelated base classes, each with its own METHOD f (bodies 20 and 21). */
  const TwoClasses: Registry :=
    Registry([VTable(0, 0, None, map[]), VTable(3, 1, None, map[])], [Tags(1, 2), Tags(4, 5)],
             map[(0, "f") := 20, (1, "f") := 21], 6)

  lemma TwoClassesBuilt()
    ensures DefineStatic(DeclareBase(DeclareBase(Empty)), 0, "f", 20).Ok?
    ensures DefineStatic(DefineStatic(DeclareBase(DeclareBase(Empty)), 0, "f", 20).value, 1, "f", 21) == Ok(TwoClasses)
  {
    var r0 := DeclareBase(DeclareBase(Empty));
    assert r0.vtables == TwoClasses.vtables && r0.tags == TwoClasses.tags;
  }

  lemma TwoClassesValid()
    ensures Valid(TwoClasses)
  {
    EmptyValid();
    DeclareBaseValid(Empty);
    DeclareBaseValid(DeclareBase(Empty));
    TwoClassesBuilt();
    var r0 := DeclareBase(DeclareBase(Empty));
    DefineStaticValid(r0, 0, "f", 20);
    DefineStaticValid(DefineStatic(r0, 0, "f", 20).value, 1, "f", 21);
  }

  /** Each static type calls its own class's METHOD f: a name used by two classes
      does not clash. */
  lemma SameNameInTwoClasses()
    ensures Valid(TwoClasses)
    ensures Dispatch(TwoClasses, ByReference, 0, 0, "f") == Ok(20)
    ensures Dispatch(TwoClasses, ByReference, 1, 1, "f") == Ok(21)
  {
    TwoClassesValid();
    var r := TwoClasses;
    assert Chain(r, 0) == [0];
    assert Chain(r, 1) == [1];
    StaticCallResolves(r, ByReference, 0, 0, "f", 0);
    StaticCallResolves(r, ByReference, 1, 1, "f", 1);
  }

  /** The demo with Derived also declaring a METHOD simple (body 14). */
  const Shadowed: Registry := DemoRegistry.(statics := DemoRegistry.statics[(1, "simple") := 14])

  lemma ShadowedBuilt()
    ensures DefineStatic(DemoRegistry, 1, "simple", 14) == Ok(Shadowed)
    ensures Valid(Shadowed)
  {
    DemoValid();
    DefineStaticValid(DemoRegistry, 1, "simple", 14);
  }

  /** Through Base the base body still runs. */
  lemma ShadowedThroughBase()
    ensures Valid(Shadowed)
    ensures Dispatch(Shadowed, ByPointer, 0, 1, "simple") == Ok(10)
  {
    ShadowedBuilt();
    assert Chain(Shadowed, 0) == [0];
    StaticCallResolves(Shadowed, ByPointer, 0, 1, "simple", 0);
  }

  /** On Derived both specializations accept the type and the call does not compile. */
  lemma SameNameOnChainIsAmbiguous()
    ensures Valid(Shadowed)
    ensures Dispatch(Shadowed, ByReference, 1, 1, "simple") == Err(Ambiguous)
  {
    ShadowedBuilt();
    var r := Shadowed;
    assert Chain(r, 1) == [1, 0];
    assert CallableOwners(r, 1, "simple", 0) == [];
    assert CallableOwners(r, 1, "simple", 1) == [0];
    assert CallableOwners(r, 1, "simple", 2) == [0, 1];
  }

  /** Base with two derived classes, D1 declared before D2. */
  function Siblings(): Registry {
    DeclareDerived(DeclareDerived(DeclareBase(Empty), 0), 0)
  }

  lemma SiblingsValid()
    ensures Valid(Siblings())
  {
    EmptyValid();
    DeclareBaseValid(Empty);
    DeclareDerivedValid(DeclareBase(Empty), 0);
    DeclareDerivedValid(DeclareDerived(DeclareBase(Empty), 0), 0);
  }

  /** Siblings spelled out: type ids 0, 3 and 5, one root, hierarchy tag 1, class tags
      2, 4 and 6. */
  lemma SiblingsSpelledOut()
    ensures Siblings() == Registry([VTable(0, 0, None, map[]), VTable(3, 0, Some(0), map[]), VTable(5, 0, Some(0), map[])],
                                   [Tags(1, 2), Tags(1, 4), Tags(1, 6)], map[], 7)
  {
    var r1 := DeclareBase(Empty);
    assert r1.vtables == [VTable(0, 0, None, map[])] && r1.tags == [Tags(1, 2)];
    var r2 := DeclareDerived(r1, 0);
    assert r2.vtables == [VTable(0, 0, None, map[]), VTable(3, 0, Some(0), map[])];
    assert r2.tags == [Tags(1, 2), Tags(1, 4)];
  }

  /** As written, a D2 object passes a cast to its sibling D1, and D1's static methods
      are callable on D2; neither class is a base of the other. */
  lemma SiblingsPassAsWritten()
    ensures Valid(Siblings()) && |Siblings().vtables| == 3
    ensures DynamicCast(Siblings(), 2, 2, 1) == Ok(2)
    ensures StaticCallable(Siblings(), 1, 2)
    ensures DynamicCastChecked(Siblings(), 2, 2, 1).Err?
    ensures !StaticCallableChecked(Siblings(), 1, 2)
  {
    SiblingsValid();
    SiblingsSpelledOut();
    assert Chain(Siblings(), 0) == [0];
    assert Chain(Siblings(), 2) == [2, 0];
  }

  // ---------------------------------------------------------------- the object

  /** The program's vtables and macro-generated tags as static initialisation builds
      them. */
  class Hierarchy {
    var vtables: seq<VTable>
    var tags: seq<Tags>
    var statics: Statics
    var counter: nat

    function Snapshot(): Registry
      reads this
    {
      Registry(vtables, tags, statics, counter)
    }

    constructor ()
      ensures Snapshot() == Empty
    {
      vtables, tags, statics, counter := [], [], map[], 0;
    }

    /** BASE_CLASS_START: returns the new class. */
    method BaseClassStart() returns (c: nat)
      modifies this
      ensures c == old(|vtables|) && Snapshot() == DeclareBase(old(Snapshot()))
    {
      c := |vtables|;
      var t := Construct(counter, c, None, None);
      vtables := vtables + [t];
      tags := tags + [Tags(counter + 1, counter + 2)];
      counter := counter + 3;
    }

    /** DERIVED_CLASS_START with base class b. */
    method DerivedClassStart(b: nat) returns (c: nat)
      requires b < |vtables| && |tags| == |vtables|
      modifies this
      ensures c == old(|vtables|) && Snapshot() == DeclareDerived(old(Snapshot()), b)
    {
      c := |vtables|;
      var t := Construct(counter, c, Some(vtables[b].root), Some(b));
      vtables := vtables + [t];
      tags := tags + [Tags(tags[b].hierarchy, counter + 1)];
      counter := counter + 2;
    }

    /** VIRTUAL_METHOD_END: the emplacer puts the body in class c's vtable. */
    method VirtualMethodEnd(c: nat, name: string, impl: MethodImpl) returns (r: Result<()>)
      requires c < |vtables|
      modifies this
      ensures var spec := Emplace(old(Snapshot()), c, name, impl);
              (r.Ok? <==> spec.Ok?) &&
              (spec.Ok? ==> Snapshot() == spec.value) &&
              (spec.Err? ==> Snapshot() == old(Snapshot()) && r.error == spec.error)
    {
      var t := vtables[c];
      if name in t.methods {
        return Err("assertion failed: inserted.second");
      }
      vtables := vtables[c := t.(methods := t.methods[name := impl])];
      r := Ok(());
    }

    /** METHOD_START / METHOD_END: the statically resolved method `name` of class c. */
    method MethodEnd(c: nat, name: string, impl: MethodImpl) returns (r: Result<()>)
      requires c < |vtables|
      modifies this
      ensures var spec := DefineStatic(old(Snapshot()), c, name, impl);
              (r.Ok? <==> spec.Ok?) &&
              (spec.Ok? ==> Snapshot() == spec.value) &&
              (spec.Err? ==> Snapshot() == old(Snapshot()) && r.error == spec.error)
    {
      if (c, name) in statics {
        return Err("compile error: redefinition of the static method");
      }
      statics := statics[(c, name) := impl];
      r := Ok(());
    }

    /** macro_call_method's walk: from vtable `obj` along the base links to the first
        vtable holding `name`. */
    method FindMethod(obj: nat, name: string) returns (r: Option<MethodImpl>)
      requires Valid(Snapshot()) && obj < |vtables|
      ensures r.None? <==> Lookup(Snapshot(), obj, name).None?
      ensures r.Some? ==> r.value == vtables[Lookup(Snapshot(), obj, name).value].methods[name]
    {
      var current: Option<nat> := Some(obj);
      while current.Some?
        invariant current.Some? ==> current.value < |vtables|
        invariant current.Some? ==> Lookup(Snapshot(), current.value, name) == Lookup(Snapshot(), obj, name)
        invariant current.None? ==> Lookup(Snapshot(), obj, name).None?
        decreases if current.Some? then current.value + 1 else 0
      {
        var t := vtables[current.value];
        if name in t.methods {
          return Some(t.methods[name]);
        }
        current := t.base;
      }
      r := None;
    }

    /** CALL_METHOD. */
    method CallMethod(handle: Handle, staticType: nat, obj: nat, name: string) returns (r: Result<MethodImpl>)
      requires Valid(Snapshot()) && staticType < |vtables| && obj < |vtables|
      ensures r == Dispatch(Snapshot(), handle, staticType, obj, name)
    {
      var owners := CallableOwners(Snapshot(), staticType, name, |vtables|);
      if |owners| == 1 {
        return Ok(statics[(owners[0], name)]);
      } else if |owners| > 1 {
        return Err(Ambiguous);
      }
      var found := FindMethod(obj, name);
      if found.None? {
        return Err(NotFound(handle));
      }
      r := Ok(found.value);
    }
  }
}
