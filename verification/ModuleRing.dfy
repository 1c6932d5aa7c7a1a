/** The ring of loaded modules and the lookups around it: bisection by mangled name, then a scan by readable name. */
module ModuleRing {
  import opened Lua
  import opened TypeNames
  import opened CastList

  /** The generated types and cast rows of a module, the table filled in when it is loaded, and its place in the
      ring. */
  class ModuleInfo {
    const typeInitial: seq<TypeInfo>
    const castInitial: seq<seq<CastInfo>>
    var types: seq<TypeInfo>
    var next: ModuleInfo?

    constructor (typeInitial: seq<TypeInfo>, castInitial: seq<seq<CastInfo>>)
      ensures this.typeInitial == typeInitial && this.castInitial == castInitial && types == [] && next == null
    {
      this.typeInitial := typeInitial;
      this.castInitial := castInitial;
      types := [];
      next := null;
    }
  }

  /** A table in strict `strcmp` order of mangled names. */
  ghost predicate Sorted(types: seq<TypeInfo>) {
    forall i, j :: 0 <= i < j < |types| ==> Compare(types[i].name, types[j].name) < 0
  }

  // ----- the plain searches the lookups have to agree with -----

  /** The first entry of a table with this name. */
  function Named(types: seq<TypeInfo>, name: Name): Option<TypeInfo> {
    if types == [] then None
    else if types[0].name == name then Some(types[0])
    else Named(types[1..], name)
  }

  /** The first entry whose readable name lists an alternative equal to `name` but for spaces. */
  ghost function Described(types: seq<TypeInfo>, name: Name): Option<TypeInfo> {
    if types == [] then None
    else if types[0].str.Some? && Among(Alternatives(types[0].str.value), name) then Some(types[0])
    else Described(types[1..], name)
  }

  /** The first module on the way that has the name decides. */
  function NamedOn(tables: seq<seq<TypeInfo>>, name: Name): Option<TypeInfo> {
    if tables == [] then None
    else if Named(tables[0], name).Some? then Named(tables[0], name)
    else NamedOn(tables[1..], name)
  }

  ghost function DescribedOn(tables: seq<seq<TypeInfo>>, name: Name): Option<TypeInfo> {
    if tables == [] then None
    else if Described(tables[0], name).Some? then Described(tables[0], name)
    else DescribedOn(tables[1..], name)
  }

  /** Which entry is the answer: it has the name, and no entry of an earlier table and no earlier entry of its own table
      has it; without an answer nobody has it. */
  lemma {:induction false} NamedOnIs(tables: seq<seq<TypeInfo>>, name: Name) returns (i: nat, j: nat)
    ensures i <= |tables| && (NamedOn(tables, name).None? <==> i == |tables|)
    ensures i < |tables| ==>
              && j < |tables[i]| && NamedOn(tables, name) == Some(tables[i][j]) && tables[i][j].name == name
              && forall q :: 0 <= q < j ==> tables[i][q].name != name
    ensures forall p, q :: 0 <= p < i && 0 <= q < |tables[p]| ==> tables[p][q].name != name
  {
    i, j := 0, 0;
    if tables != [] {
      j := NamedIs(tables[0], name);
      if j == |tables[0]| {
        i, j := NamedOnIs(tables[1..], name);
        i := i + 1;
        assert forall p :: 1 <= p < |tables| ==> tables[p] == tables[1..][p - 1];
      }
    }
  }

  lemma {:induction false} NamedIs(types: seq<TypeInfo>, name: Name) returns (j: nat)
    ensures j <= |types| && (Named(types, name).None? <==> j == |types|)
    ensures j < |types| ==> Named(types, name) == Some(types[j]) && types[j].name == name
    ensures forall q :: 0 <= q < j ==> types[q].name != name
  {
    j := 0;
    if types != [] && types[0].name != name {
      j := NamedIs(types[1..], name);
      j := j + 1;
      assert forall q :: 1 <= q < |types| ==> types[q] == types[1..][q - 1];
    }
  }

  // ----- bisection -----

  lemma {:induction false} NamedAt(types: seq<TypeInfo>, name: Name, i: nat)
    requires Sorted(types) && i < |types| && types[i].name == name
    ensures Named(types, name) == Some(types[i])
  {
    if i > 0 {
      CompareZero(types[0].name, types[i].name);
      NamedAt(types[1..], name, i - 1);
    }
  }

  lemma {:induction false} NamedNowhere(types: seq<TypeInfo>, name: Name)
    requires forall i :: 0 <= i < |types| ==> types[i].name != name
    ensures Named(types, name) == None
  {
    if types != [] { NamedNowhere(types[1..], name); }
  }

  lemma BelowMiddle(types: seq<TypeInfo>, name: Name, i: nat, j: nat)
    requires Sorted(types) && i <= j < |types| && Compare(name, types[i].name) < 0
    ensures types[j].name != name
  {
    if i < j { CompareTransitive(name, types[i].name, types[j].name); }
    CompareZero(name, name);
  }

  lemma AboveMiddle(types: seq<TypeInfo>, name: Name, i: nat, j: nat)
    requires Sorted(types) && j <= i < |types| && Compare(name, types[i].name) > 0
    ensures types[j].name != name
  {
    CompareFlip(name, types[i].name);
    if j < i { CompareTransitive(types[j].name, types[i].name, name); }
    CompareZero(name, name);
  }

  /** The bisection inside `SWIG_MangledTypeQueryModule`; indices are unsigned, so `r` stops at 0 instead of going
      below. */
  method Bisect(types: seq<TypeInfo>, name: Name) returns (found: TypeInfo?)
    requires Sorted(types)
    ensures found == match Named(types, name) case None => null case Some(t) => t
  {
    if |types| == 0 { return null; }
    var l: nat, r: nat := 0, |types| - 1;
    while true
      invariant 0 <= l <= r < |types|
      invariant forall j :: 0 <= j < |types| && (j < l || j > r) ==> types[j].name != name
      decreases r - l
    {
      var i := (l + r) / 2;
      var compare := Compare(name, types[i].name);
      if compare == 0 {
        CompareZero(name, types[i].name);
        NamedAt(types, name, i);
        return types[i];
      } else if compare < 0 {
        forall j | i <= j < |types| ensures types[j].name != name { BelowMiddle(types, name, i, j); }
        if i == 0 { break; }
        r := i - 1;
      } else {
        forall j | 0 <= j <= i ensures types[j].name != name { AboveMiddle(types, name, i, j); }
        l := i + 1;
      }
      if l > r { break; }
    }
    NamedNowhere(types, name);
    return null;
  }

  // ----- around the ring -----

  /** From `start` along `next`, stopping before `end` is reached again. */
  ghost predicate Way(start: ModuleInfo, end: ModuleInfo, way: seq<ModuleInfo>)
    reads way
  {
    && way != [] && way[0] == start && way[|way| - 1].next == end
    && (forall i {:trigger way[i].next} :: 0 <= i < |way| - 1 ==> way[i].next == way[i + 1])
    && (forall i :: 1 <= i < |way| ==> way[i] != end)
  }

  ghost function Tables(way: seq<ModuleInfo>): seq<seq<TypeInfo>>
    reads way
  {
    seq(|way|, i requires 0 <= i < |way| reads way => way[i].types)
  }

  ghost function OrNull(t: Option<TypeInfo>): TypeInfo? {
    match t case None => null case Some(x) => x
  }

  /** `SWIG_MangledTypeQueryModule`. */
  method MangledTypeQuery(start: ModuleInfo, end: ModuleInfo, name: Name, ghost way: seq<ModuleInfo>)
    returns (found: TypeInfo?)
    requires Way(start, end, way) && forall m :: m in way ==> Sorted(m.types)
    ensures found == OrNull(NamedOn(Tables(way), name))
  {
    var iter := start;
    ghost var i := 0;
    while true
      invariant 0 <= i < |way| && iter == way[i]
      invariant NamedOn(Tables(way), name) == NamedOn(Tables(way)[i..], name)
      decreases |way| - i
    {
      found := Bisect(iter.types, name);
      assert Tables(way)[i..][1..] == Tables(way)[i + 1..];
      if found != null { return; }
      if iter.next == end { break; }
      iter := iter.next;
      i := i + 1;
    }
    EndOfWay(start, end, way, i);
    found := null;
  }

  lemma EndOfWay(start: ModuleInfo, end: ModuleInfo, way: seq<ModuleInfo>, i: nat)
    requires Way(start, end, way) && i < |way| && way[i].next == end
    ensures i == |way| - 1
  {
    assert forall k :: 0 <= k < |way| - 1 ==> way[k].next == way[k + 1];
  }

  /** Readable names the comparison is defined on. */
  ghost predicate Readable(types: seq<TypeInfo>) {
    forall t :: t in types && t.str.Some? ==> AllTrimmed(Alternatives(t.str.value))
  }

  /** `SWIG_TypeQueryModule`: by mangled name, and if no module has it, by readable name. */
  method TypeQuery(start: ModuleInfo, end: ModuleInfo, name: Name, ghost way: seq<ModuleInfo>)
    returns (found: TypeInfo?)
    requires Way(start, end, way) && forall m :: m in way ==> Sorted(m.types) && Readable(m.types)
    requires NoTrailingSpace(name)
    ensures found == OrNull(if NamedOn(Tables(way), name).Some? then NamedOn(Tables(way), name)
                            else DescribedOn(Tables(way), name))
  {
    found := MangledTypeQuery(start, end, name, way);
    if found != null { return; }
    var iter := start;
    ghost var i := 0;
    while true
      invariant 0 <= i < |way| && iter == way[i]
      invariant DescribedOn(Tables(way), name) == DescribedOn(Tables(way)[i..], name)
      decreases |way| - i
    {
      found := ScanDescriptions(iter.types, name);
      assert Tables(way)[i..][1..] == Tables(way)[i + 1..];
      if found != null { return; }
      if iter.next == end { break; }
      iter := iter.next;
      i := i + 1;
    }
    EndOfWay(start, end, way, i);
    found := null;
  }

  method ScanDescriptions(types: seq<TypeInfo>, name: Name) returns (found: TypeInfo?)
    requires Readable(types) && NoTrailingSpace(name)
    ensures found == OrNull(Described(types, name))
  {
    var i := 0;
    while i < |types|
      invariant 0 <= i <= |types| && Described(types, name) == Described(types[i..], name)
    {
      assert types[i] in types && types[i..][1..] == types[i + 1..];
      if types[i].str.Some? {
        var equiv := TypeEquiv(types[i].str.value, name);
        if equiv == 1 { return types[i]; }
      }
      i := i + 1;
    }
    found := null;
  }
}
