/** Registering a wrapped class: its own and inherited members are flattened into the tables of one metatable. */
module ClassDetails {
  import opened Lua

  /** The identity of a C function. */
  type CFunction = nat

  datatype Method = Method(name: string, fn: CFunction)

  /** A read-only attribute has no setter. */
  datatype Attribute = Attribute(name: string, getter: CFunction, setter: Option<CFunction>)

  /** A base slot is empty while the base's type is not known to the runtime. */
  datatype Class = Class(name: string, construct: Option<CFunction>, methods: seq<Method>, attributes: seq<Attribute>,
    bases: seq<Slot>)

  datatype Slot = Empty | Base(value: Class)

  type Table = map<string, CFunction>

  datatype Part = Getters | Setters | Functions | Operators

  function Lookup(t: Table, name: string): Option<CFunction> {
    if name in t then Some(t[name]) else None
  }

  function Or(f: Option<CFunction>, g: Option<CFunction>): Option<CFunction> {
    if f.Some? then f else g
  }

  predicate IsOperator(name: string) {
    |name| >= 2 && name[0] == '_' && name[1] == '_'
  }

  // ----- how a name resolves -----

  function OwnMethod(methods: seq<Method>, name: string): Option<CFunction> {
    if methods == [] then None
    else Or(OwnMethod(methods[1..], name), if methods[0].name == name then Some(methods[0].fn) else None)
  }

  function OwnGetter(attributes: seq<Attribute>, name: string): Option<CFunction> {
    if attributes == [] then None
    else Or(OwnGetter(attributes[1..], name), if attributes[0].name == name then Some(attributes[0].getter) else None)
  }

  function OwnSetter(attributes: seq<Attribute>, name: string): Option<CFunction> {
    if attributes == [] then None
    else Or(OwnSetter(attributes[1..], name), if attributes[0].name == name then attributes[0].setter else None)
  }

  /** The class's own definition of a name, the last one if it has several. */
  function Own(c: Class, part: Part, name: string): Option<CFunction> {
    match part
    case Getters => OwnGetter(c.attributes, name)
    case Setters => OwnSetter(c.attributes, name)
    case Functions => OwnMethod(c.methods, name)
    case Operators => if IsOperator(name) then OwnMethod(c.methods, name) else None
  }

  /** The last attribute of that name counts, for the getter and, if it has one, for the setter. */
  lemma {:induction false} OwnAttributeIs(attributes: seq<Attribute>, name: string, i: nat)
    requires i < |attributes| && attributes[i].name == name
    requires forall j :: i < j < |attributes| ==> attributes[j].name != name
    ensures OwnGetter(attributes, name) == Some(attributes[i].getter)
    ensures attributes[i].setter.Some? ==> OwnSetter(attributes, name) == attributes[i].setter
  {
    if i > 0 {
      OwnAttributeIs(attributes[1..], name, i - 1);
    } else {
      NoAttribute(attributes[1..], name);
    }
  }

  lemma {:induction false} NoAttribute(attributes: seq<Attribute>, name: string)
    ensures OwnGetter(attributes, name).Some? <==> exists j :: 0 <= j < |attributes| && attributes[j].name == name
    ensures OwnSetter(attributes, name).Some?
       <==> exists j :: 0 <= j < |attributes| && attributes[j].name == name && attributes[j].setter.Some?
  {
    if attributes != [] {
      NoAttribute(attributes[1..], name);
      assert forall j :: 0 < j < |attributes| ==> attributes[j] == attributes[1..][j - 1];
    }
  }

  /** The last method of that name counts; it is an operator if its name starts with two underscores. */
  lemma {:induction false} OwnMethodIs(c: Class, name: string, i: nat)
    requires i < |c.methods| && c.methods[i].name == name
    requires forall j :: i < j < |c.methods| ==> c.methods[j].name != name
    ensures Own(c, Functions, name) == Some(c.methods[i].fn)
    ensures Own(c, Operators, name) == if "__" <= name then Some(c.methods[i].fn) else None
    decreases i
  {
    if i > 0 {
      var rest := c.(methods := c.methods[1..]);
      OwnMethodIs(rest, name, i - 1);
    } else {
      NoMethod(c.methods[1..], name);
    }
  }

  lemma {:induction false} NoMethod(methods: seq<Method>, name: string)
    ensures OwnMethod(methods, name).Some? <==> exists j :: 0 <= j < |methods| && methods[j].name == name
  {
    if methods != [] {
      NoMethod(methods[1..], name);
      assert forall j :: 0 < j < |methods| ==> methods[j] == methods[1..][j - 1];
    }
  }

  /** How many slots come before the first empty one. */
  function Listed(bases: seq<Slot>): (n: nat)
    ensures n <= |bases| && (n < |bases| ==> bases[n].Empty?)
    ensures forall k :: 0 <= k < n ==> bases[k].Base?
  {
    if bases == [] || bases[0].Empty? then 0 else 1 + Listed(bases[1..])
  }

  /** The class's own definition, or else that of the last listed base that provides one, itself or by inheritance. */
  function Resolve(c: Class, part: Part, name: string): Option<CFunction>
    decreases c, |c.bases| + 1
  {
    Or(Own(c, part, name), Inherited(c, Listed(c.bases), part, name))
  }

  /** From the first `n` bases, the last one first. */
  function Inherited(c: Class, n: nat, part: Part, name: string): Option<CFunction>
    requires n <= Listed(c.bases)
    decreases c, n
  {
    if n == 0 then None
    else Or(Resolve(c.bases[n - 1].value, part, name), Inherited(c, n - 1, part, name))
  }

  // ----- the metatable -----

  /** `now` is `was` with what the class provides written over it. */
  ghost predicate Overlaid(was: Table, now: Table, c: Class, part: Part) {
    forall name :: Lookup(now, name) == Or(Resolve(c, part, name), Lookup(was, name))
  }

  ghost predicate OverlaidBases(was: Table, now: Table, c: Class, n: nat, part: Part)
    requires n <= Listed(c.bases)
  {
    forall name :: Lookup(now, name) == Or(Inherited(c, n, part, name), Lookup(was, name))
  }

  class Metatable {
    const typeName: string
    var getters: Table
    var setters: Table
    var functions: Table
    var operators: Table

    constructor (typeName: string)
      ensures this.typeName == typeName
      ensures getters == map[] && setters == map[] && functions == map[]
      ensures operators == PRESET
    {
      this.typeName := typeName;
      getters, setters, functions := map[], map[], map[];
      operators := PRESET;
    }

    function Of(part: Part): Table
      reads this
    {
      match part case Getters => getters case Setters => setters case Functions => functions case Operators => operators
    }

    method AddClassVariables(attributes: seq<Attribute>)
      modifies this`getters, this`setters
      ensures forall name :: Lookup(getters, name) == Or(OwnGetter(attributes, name), Lookup(old(getters), name))
      ensures forall name :: Lookup(setters, name) == Or(OwnSetter(attributes, name), Lookup(old(setters), name))
    {
      var i := 0;
      while i < |attributes|
        invariant 0 <= i <= |attributes|
        invariant forall name :: Or(OwnGetter(attributes, name), Lookup(old(getters), name))
                              == Or(OwnGetter(attributes[i..], name), Lookup(getters, name))
        invariant forall name :: Or(OwnSetter(attributes, name), Lookup(old(setters), name))
                              == Or(OwnSetter(attributes[i..], name), Lookup(setters, name))
      {
        var a := attributes[i];
        assert attributes[i..][1..] == attributes[i + 1..];
        getters := getters[a.name := a.getter];
        if a.setter.Some? {
          setters := setters[a.name := a.setter.value];
        }
        i := i + 1;
      }
    }

    method AddFunctions(methods: seq<Method>)
      modifies this`functions
      ensures forall name :: Lookup(functions, name) == Or(OwnMethod(methods, name), Lookup(old(functions), name))
    {
      var i := 0;
      while i < |methods|
        invariant 0 <= i <= |methods|
        invariant forall name :: Or(OwnMethod(methods, name), Lookup(old(functions), name))
                              == Or(OwnMethod(methods[i..], name), Lookup(functions, name))
      {
        assert methods[i..][1..] == methods[i + 1..];
        functions := functions[methods[i].name := methods[i].fn];
        i := i + 1;
      }
    }

    method AddOperators(methods: seq<Method>)
      modifies this`operators
      ensures forall name :: Lookup(operators, name) ==
                             if IsOperator(name) then Or(OwnMethod(methods, name), Lookup(old(operators), name))
                             else Lookup(old(operators), name)
    {
      var i := 0;
      while i < |methods|
        invariant 0 <= i <= |methods|
        invariant forall name | IsOperator(name) :: Or(OwnMethod(methods, name), Lookup(old(operators), name))
                              == Or(OwnMethod(methods[i..], name), Lookup(operators, name))
        invariant forall name :: !IsOperator(name) ==> Lookup(operators, name) == Lookup(old(operators), name)
      {
        assert methods[i..][1..] == methods[i + 1..];
        if IsOperator(methods[i].name) {
          operators := operators[methods[i].name := methods[i].fn];
        }
        i := i + 1;
      }
    }

    /** `SWIG_Lua_add_class_details`: every table ends up with exactly what names resolve to, over what it held. */
    method AddClassDetails(c: Class)
      modifies this
      ensures forall part :: Overlaid(old(Of(part)), Of(part), c, part)
      decreases c
    {
      var i := 0;
      while i < |c.bases| && c.bases[i].Base?
        invariant 0 <= i <= Listed(c.bases)
        invariant forall part :: OverlaidBases(old(Of(part)), Of(part), c, i, part)
      {
        AddClassDetails(c.bases[i].value);
        i := i + 1;
      }
      AddClassVariables(c.attributes);
      AddFunctions(c.methods);
      AddOperators(c.methods);
    }
  }

  /** The handlers every metatable starts with: `SWIG_Lua_class_get`, `SWIG_Lua_class_set`,
      `SWIG_Lua_class_destruct`. */
  const PRESET: Table := map["__index" := 0, "__newindex" := 1, "__gc" := 2]

  /** The metatable holds exactly what the class's names resolve to, over the preset handlers. */
  ghost predicate Registered(m: Metatable, c: Class)
    reads m
  {
    forall part, name :: Lookup(m.Of(part), name) ==
                         Or(Resolve(c, part, name), if part == Operators then Lookup(PRESET, name) else None)
  }

  /** The module's table of functions, and the registry of class metatables. */
  class Bindings {
    var functions: Table
    var registry: map<string, Metatable>

    constructor ()
      ensures functions == map[] && registry == map[]
    {
      functions, registry := map[], map[];
    }

    /** `SWIG_Lua_class_register`: the class's constructor, if it has one, becomes a function of its name, and a fresh
        metatable with its names takes the place of any registered before. */
    method Register(c: Class)
      modifies this
      ensures functions == if c.construct.Some? then old(functions)[c.name := c.construct.value] else old(functions)
      ensures c.name in registry && registry == old(registry)[c.name := registry[c.name]]
      ensures fresh(registry[c.name]) && registry[c.name].typeName == c.name && Registered(registry[c.name], c)
    {
      if c.construct.Some? {
        functions := functions[c.name := c.construct.value];
      }
      var m := new Metatable(c.name);
      registry := registry[c.name := m];
      m.AddClassDetails(c);
      assert forall part :: Overlaid(if part == Operators then PRESET else map[], m.Of(part), c, part);
    }
  }

  // ----- the order behind it -----

  /** The classes in the order in which their members are written: bases first, each with its own bases before it. A
      class reached along two ways comes twice. */
  function Line(c: Class): seq<Class>
    decreases c, |c.bases| + 1
  {
    LineOfBases(c, Listed(c.bases)) + [c]
  }

  function LineOfBases(c: Class, n: nat): seq<Class>
    requires n <= Listed(c.bases)
    decreases c, n
  {
    if n == 0 then [] else LineOfBases(c, n - 1) + Line(c.bases[n - 1].value)
  }

  /** The own definition of the last class that has one. */
  function LastIn(line: seq<Class>, part: Part, name: string): Option<CFunction> {
    if line == [] then None
    else Or(Own(line[|line| - 1], part, name), LastIn(line[..|line| - 1], part, name))
  }

  lemma {:induction false} LastInSome(line: seq<Class>, part: Part, name: string)
    ensures LastIn(line, part, name).Some? <==> exists d :: d in line && Own(d, part, name).Some?
  {
    if line != [] {
      LastInSome(line[..|line| - 1], part, name);
      assert line == line[..|line| - 1] + [line[|line| - 1]];
    }
  }

  lemma {:induction false} LastInSplit(line: seq<Class>, line': seq<Class>, part: Part, name: string)
    ensures LastIn(line + line', part, name) == Or(LastIn(line', part, name), LastIn(line, part, name))
  {
    if line' == [] {
      assert line + line' == line;
    } else {
      var n := |line'| - 1;
      assert (line + line')[..|line| + n] == line + line'[..n];
      LastInSplit(line, line'[..n], part, name);
    }
  }

  /** A name resolves to its last definition along the line, so it resolves at all exactly when some class on it defines
      the name. */
  lemma {:induction false} ResolvesAlongLine(c: Class, part: Part, name: string)
    ensures Resolve(c, part, name) == LastIn(Line(c), part, name)
    decreases c, |c.bases| + 1
  {
    InheritedAlongLine(c, Listed(c.bases), part, name);
    var own := [c];
    assert LastIn(own, part, name) == Or(Own(c, part, name), LastIn(own[..0], part, name));
    LastInSplit(LineOfBases(c, Listed(c.bases)), own, part, name);
  }

  lemma {:induction false} InheritedAlongLine(c: Class, n: nat, part: Part, name: string)
    requires n <= Listed(c.bases)
    ensures Inherited(c, n, part, name) == LastIn(LineOfBases(c, n), part, name)
    decreases c, n
  {
    hide Own;
    if n > 0 {
      ResolvesAlongLine(c.bases[n - 1].value, part, name);
      InheritedAlongLine(c, n - 1, part, name);
      LastInSplit(LineOfBases(c, n - 1), Line(c.bases[n - 1].value), part, name);
    }
  }

  lemma {:induction false} LastInIs(line: seq<Class>, i: nat, part: Part, name: string)
    requires i < |line| && Own(line[i], part, name).Some?
    requires forall j :: i < j < |line| ==> Own(line[j], part, name).None?
    ensures LastIn(line, part, name) == Own(line[i], part, name)
  {
    if i < |line| - 1 { LastInIs(line[..|line| - 1], i, part, name); }
  }

  /** The last class of the line that defines the name, given that some class does. */
  lemma {:induction false} LastOwner(line: seq<Class>, i: nat, part: Part, name: string) returns (k: nat)
    requires i < |line| && Own(line[i], part, name).Some?
    ensures i <= k < |line| && Own(line[k], part, name).Some?
    ensures forall j :: k < j < |line| ==> Own(line[j], part, name).None?
    decreases |line| - i
  {
    if j :| i < j < |line| && Own(line[j], part, name).Some? {
      k := LastOwner(line, j, part, name);
    } else {
      k := i;
    }
  }

  /** A definition survives exactly when no class after it on the line defines the name, or the last one that does
      names the same function. */
  lemma DefinitionSurvivesIff(c: Class, i: nat, part: Part, name: string)
    requires i < |Line(c)| && Own(Line(c)[i], part, name).Some?
    ensures var line := Line(c);
      Resolve(c, part, name) == Own(line[i], part, name) <==>
        (forall j :: i < j < |line| ==> Own(line[j], part, name).None?)
        || exists k :: i < k < |line| && Own(line[k], part, name) == Own(line[i], part, name)
                       && forall j :: k < j < |line| ==> Own(line[j], part, name).None?
  {
    hide Own, Resolve, Line, LastIn;
    var line := Line(c);
    ResolvesAlongLine(c, part, name);
    var k := LastOwner(line, i, part, name);
    LastInIs(line, k, part, name);
  }

  // ----- reading a member -----

  datatype Access = Property(getter: CFunction) | Bound(fn: CFunction) | Item(getitem: CFunction) | Unknown

  /** `SWIG_Lua_class_get`: attributes first, then methods, then the class's own item access. */
  function ClassGet(m: Metatable, key: string): Access
    reads m
  {
    if key in m.getters then Property(m.getters[key])
    else if key in m.functions then Bound(m.functions[key])
    else if "__getitem" in m.operators then Item(m.operators["__getitem"])
    else Unknown
  }

  /** A method is reached exactly when no class on the line has an attribute of its name, however far up. */
  lemma AttributesShadowMethods(m: Metatable, c: Class, key: string)
    requires Registered(m, c)
    ensures ClassGet(m, key).Bound? <==>
            && (forall d :: d in Line(c) ==> Own(d, Getters, key).None?)
            && exists d :: d in Line(c) && Own(d, Functions, key).Some?
    ensures ClassGet(m, key).Bound? ==> Some(ClassGet(m, key).fn) == LastIn(Line(c), Functions, key)
  {
    hide Own, Resolve;
    ResolvesAlongLine(c, Getters, key);
    ResolvesAlongLine(c, Functions, key);
    LastInSome(Line(c), Getters, key);
    LastInSome(Line(c), Functions, key);
    assert Lookup(m.Of(Getters), key) == Resolve(c, Getters, key);
    assert Lookup(m.Of(Functions), key) == Resolve(c, Functions, key);
  }

  /** A class that redeclares an attribute without a setter makes it read-only exactly when no base on its line declares
      one with a setter. */
  lemma ReadOnlyIff(c: Class, name: string)
    requires Own(c, Setters, name).None?
    ensures Resolve(c, Setters, name).None? <==>
            forall d :: d in LineOfBases(c, Listed(c.bases)) ==> Own(d, Setters, name).None?
  {
    InheritedAlongLine(c, Listed(c.bases), Setters, name);
    LastInSome(LineOfBases(c, Listed(c.bases)), Setters, name);
  }

  /** So a base's setter outlives the read-only redeclaration. */
  lemma ReadOnlyOutlived()
    ensures var base := Class("base", None, [], [Attribute("x", 10, Some(11))], []);
      var derived := Class("derived", None, [], [Attribute("x", 20, None)], [Base(base)]);
      Resolve(derived, Getters, "x") == Some(20) && Resolve(derived, Setters, "x") == Some(11)
  {
    var base := Class("base", None, [], [Attribute("x", 10, Some(11))], []);
    var derived := Class("derived", None, [], [Attribute("x", 20, None)], [Base(base)]);
    assert Listed(derived.bases) == 1;
    assert Resolve(base, Setters, "x") == Some(11);
    assert Inherited(derived, 1, Setters, "x") == Some(11);
  }

  /** For one: an override in an earlier base is undone by a later base that merely inherits the original. */
  lemma DiamondUndoesOverride()
    ensures var root := Class("root", None, [Method("f", 10)], [], []);
      var left := Class("left", None, [Method("f", 20)], [], [Base(root)]);
      var right := Class("right", None, [], [], [Base(root)]);
      Resolve(left, Functions, "f") == Some(20) &&
      Resolve(Class("both", None, [], [], [Base(left), Base(right)]), Functions, "f") == Some(10)
  {
    var root := Class("root", None, [Method("f", 10)], [], []);
    var left := Class("left", None, [Method("f", 20)], [], [Base(root)]);
    var right := Class("right", None, [], [], [Base(root)]);
    var both := Class("both", None, [], [], [Base(left), Base(right)]);
    assert Resolve(root, Functions, "f") == Some(10);
    assert Inherited(right, 1, Functions, "f") == Some(10);
    assert Resolve(right, Functions, "f") == Some(10);
    assert Listed(both.bases[1..]) == 1 && Listed(both.bases) == 2;
    assert Inherited(both, 2, Functions, "f") == Some(10);
  }
}
