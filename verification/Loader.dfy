/** `SWIG_InitializeModule`: joining the ring, unifying types by name and merging cast rows into the lists of unified
    types. */
module Loader {
  import opened Lua
  import opened TypeNames
  import opened CastList
  import opened ModuleRing

  ghost function NodesOf(lists: CastLists, ty: TypeInfo): set<CastInfo>
    requires ty in lists
  {
    set n | n in lists[ty]
  }

  /** All lists are well linked and share no record. */
  ghost predicate Lists(lists: CastLists)
    reads lists.Keys`cast, Nodes(lists)
  {
    && (forall t, n :: t in lists && n in lists[t] ==> n in Nodes(lists))
    && (forall t :: t in lists ==> Linked(t.cast, lists[t]))
    && (forall t, t', n :: t in lists && t' in lists && t != t' && n in lists[t] ==> n !in lists[t'])
  }

  /** Every record is labelled with the name of the type it casts from, and that type has a list. */
  ghost predicate Typed(names: Labels, types: set<TypeInfo>)
    reads names.Keys`typ
  {
    Labelled(names) && forall n :: n in names ==> n.typ in types
  }

  /** The list of `ty` has a record for a type of this name. */
  ghost predicate HasCast(lists: CastLists, names: Labels, ty: TypeInfo, name: Name) {
    ty in lists && exists n :: n in lists[ty] && n in names && names[n] == name
  }

  lemma TouchedSame(nodes: seq<CastInfo>, names: seq<Name>, c: Name)
    requires |names| == |nodes|
    ensures forall n :: n in Touched(nodes, names, c) <==> n in nodes
  {
    var i := Seek(names, c);
    if i < |nodes| {
      assert nodes == nodes[..i] + [nodes[i]] + nodes[i + 1..];
    }
  }

  /** Is there a cast from this name already? The lookup moves the record it finds to the front. */
  method CheckOld(name: Name, ty: TypeInfo, ghost names: Labels, ghost lists: CastLists)
    returns (ocast: CastInfo?, ghost lists': CastLists)
    requires Lists(lists) && ty in lists && Typed(names, lists.Keys) && Nodes(lists) <= names.Keys
    modifies ty`cast, NodesOf(lists, ty)`next, NodesOf(lists, ty)`prev
    ensures Lists(lists') && lists'.Keys == lists.Keys
    ensures forall t :: t in lists && t != ty ==> lists'[t] == lists[t]
    ensures forall n :: n in lists'[ty] <==> n in lists[ty]
    ensures ocast != null <==> HasCast(lists, names, ty, name)
  {
    hide HasCast, Typed;
    ghost var nodes, held := lists[ty], NamesOf(lists[ty]);
    Apart(lists, ty);
    ocast := FindByName(name, ty, nodes);
    TouchedSame(nodes, held, name);
    lists' := lists[ty := Touched(nodes, held, name)];
    LabelsAreNames(lists, names, ty, held);
    assert HasCast(lists, names, ty, name) <==> name in held;
  }

  lemma LabelsAreNames(lists: CastLists, names: Labels, ty: TypeInfo, held: seq<Name>)
    requires ty in lists && Typed(names, lists.Keys) && Nodes(lists) <= names.Keys && held == NamesOf(lists[ty])
    ensures forall name :: HasCast(lists, names, ty, name) <==> name in held
  {
    var nodes := lists[ty];
    forall i | 0 <= i < |nodes| ensures nodes[i] in names && names[nodes[i]] == held[i] {
      assert nodes[i] in lists[ty] && nodes[i] in Nodes(lists);
    }
  }

  /** Other lists have none of this list's records. */
  lemma Apart(lists: CastLists, ty: TypeInfo)
    requires Lists(lists) && ty in lists
    ensures forall t, i :: t in lists && t != ty && 0 <= i < |lists[t]| ==> lists[t][i] !in lists[ty]
  {
    forall t, i | t in lists && t != ty && 0 <= i < |lists[t]| ensures lists[t][i] !in lists[ty] {
      assert lists[t][i] in lists[t];
    }
  }

  /** One of the records is for this very type. */
  ghost predicate HasStruct(nodes: set<CastInfo>, target: TypeInfo)
    reads nodes
  {
    exists n :: n in nodes && n.typ == target
  }

  /** Add a fresh record at the head of a list. */
  method AddCast(ty: TypeInfo, cast: CastInfo, ghost lists: CastLists) returns (ghost lists': CastLists)
    requires Lists(lists) && ty in lists && cast !in Nodes(lists) && cast.next == null && cast.prev == null
    modifies ty`cast, NodesOf(lists, ty)`prev, cast`next
    ensures Lists(lists') && lists' == lists[ty := [cast] + lists[ty]]
  {
    Apart(lists, ty);
    FreshCast(lists, cast);
    PushCast(ty, cast, lists[ty]);
    lists' := lists[ty := [cast] + lists[ty]];
  }

  lemma FreshCast(lists: CastLists, cast: CastInfo)
    requires cast !in Nodes(lists)
    ensures forall t, i :: t in lists && 0 <= i < |lists[t]| ==> lists[t][i] != cast
  {
    forall t, i | t in lists && 0 <= i < |lists[t]| ensures lists[t][i] != cast {
      assert lists[t][i] in lists[t] && lists[t][i] in Nodes(lists);
    }
  }

  /** `cast->type = ret` */
  method Redirect(cast: CastInfo, ret: TypeInfo, ghost names: Labels, ghost types: set<TypeInfo>)
    requires Typed(names, types) && cast in names && ret.name == names[cast] && ret in types
    modifies cast`typ
    ensures Typed(names, types) && cast.typ == ret
  {
    cast.typ := ret;
  }

  /** One cast of a row. `ret` is the type of that name another module has loaded, if any; `own` says that `ty` is this
      module's own structure. The cast is found by name afterwards; the loaded type itself is found only if `own`, or if
      it was found before: two loaded types get a record that still points to this module's copy. */
  method InsertCast(ty: TypeInfo, own: bool, cast: CastInfo, ret: TypeInfo?, ghost names: Labels,
                    ghost lists: CastLists)
    returns (ghost lists': CastLists)
    requires Lists(lists) && ty in lists && cast !in Nodes(lists) && cast.next == null && cast.prev == null
    requires Typed(names, lists.Keys) && Nodes(lists) + {cast} <= names.Keys
    requires ret != null ==> ret.name == names[cast] && ret != cast.typ && ret in lists
    modifies ty`cast, NodesOf(lists, ty)`next, NodesOf(lists, ty)`prev, cast`typ, cast`next
    ensures Lists(lists') && lists'.Keys == lists.Keys && Typed(names, lists.Keys)
    ensures forall t :: t in lists && t != ty ==> lists'[t] == lists[t]
    ensures NodesOf(lists, ty) <= NodesOf(lists', ty) <= NodesOf(lists, ty) + {cast}
    ensures HasCast(lists', names, ty, names[cast])
    ensures ret != null ==> (HasStruct(NodesOf(lists', ty), ret) <==> own || old(HasStruct(NodesOf(lists, ty), ret)))
    ensures cast.typ == if own && ret != null then ret else old(cast.typ)
    ensures cast in NodesOf(lists', ty) <==> own || ret == null || !HasCast(lists, names, ty, names[cast])
  {
    hide Lists, HasCast, Typed, Nodes;
    FreshCast(lists, cast);
    if ret != null && !own {
      lists' := MergeCast(ty, cast, ret, names, lists);
    } else {
      if ret != null {
        Redirect(cast, ret, names, lists.Keys);
      }
      lists' := AddCast(ty, cast, lists);
      Added(lists, lists', names, ty, cast);
    }
  }

  /** Both types are loaded already: the record is added only if there is none of that name. */
  method MergeCast(ty: TypeInfo, cast: CastInfo, ret: TypeInfo, ghost names: Labels, ghost lists: CastLists)
    returns (ghost lists': CastLists)
    requires Lists(lists) && ty in lists && cast !in Nodes(lists) && cast.next == null && cast.prev == null
    requires Typed(names, lists.Keys) && Nodes(lists) + {cast} <= names.Keys && ret.name == names[cast]
    requires ret != cast.typ
    modifies ty`cast, NodesOf(lists, ty)`next, NodesOf(lists, ty)`prev, cast`next
    ensures Lists(lists') && lists'.Keys == lists.Keys
    ensures forall t :: t in lists && t != ty ==> lists'[t] == lists[t]
    ensures NodesOf(lists', ty) == NodesOf(lists, ty) + if HasCast(lists, names, ty, names[cast]) then {} else {cast}
    ensures HasCast(lists', names, ty, names[cast])
  {
    hide Lists, HasCast, Typed, Nodes;
    var ocast;
    ocast, lists' := CheckOld(ret.name, ty, names, lists);
    SameNodes(lists, lists', names, ty);
    if ocast == null {
      ghost var before := lists';
      FreshCast(lists, cast);
      lists' := AddCast(ty, cast, lists');
      Added(before, lists', names, ty, cast);
    }
  }

  lemma Added(lists: CastLists, lists': CastLists, names: Labels, ty: TypeInfo, cast: CastInfo)
    requires ty in lists && lists' == lists[ty := [cast] + lists[ty]] && cast in names
    ensures NodesOf(lists', ty) == NodesOf(lists, ty) + {cast}
    ensures HasCast(lists', names, ty, names[cast])
  {
    assert lists'[ty][0] == cast;
  }

  lemma SameNodes(lists: CastLists, lists': CastLists, names: Labels, ty: TypeInfo)
    requires ty in lists && lists'.Keys == lists.Keys && forall t :: t in lists && t != ty ==> lists'[t] == lists[t]
    requires forall n :: n in lists'[ty] <==> n in lists[ty]
    ensures Nodes(lists') == Nodes(lists) && NodesOf(lists', ty) == NodesOf(lists, ty)
    ensures forall name :: HasCast(lists', names, ty, name) <==> HasCast(lists, names, ty, name)
  {}

  // ----- one row of casts -----

  /** The records of the row from `j` on are in no list. */
  ghost predicate Outside(row: seq<CastInfo>, j: nat, lists: CastLists) {
    forall k :: j <= k < |row| ==> row[k] !in Nodes(lists)
  }

  ghost predicate Unlinked(row: seq<CastInfo>, j: nat)
    reads row
  {
    forall k :: j <= k < |row| ==> row[k].next == null && row[k].prev == null
  }

  ghost function RowSet(row: seq<CastInfo>): set<CastInfo> {
    set n | n in row
  }

  /** A type named `name` in one of the tables has that name. */
  lemma {:induction false} NamedOnName(tables: seq<seq<TypeInfo>>, name: Name)
    ensures NamedOn(tables, name).Some? ==>
              && NamedOn(tables, name).value.name == name
              && exists i :: 0 <= i < |tables| && NamedOn(tables, name).value in tables[i]
  {
    if tables != [] {
      NamedName(tables[0], name);
      if Named(tables[0], name).None? {
        NamedOnName(tables[1..], name);
        if NamedOn(tables, name).Some? {
          var i :| 0 <= i < |tables[1..]| && NamedOn(tables, name).value in tables[1..][i];
          assert NamedOn(tables, name).value in tables[i + 1];
        }
      }
    }
  }

  lemma {:induction false} NamedName(types: seq<TypeInfo>, name: Name)
    ensures Named(types, name).Some? ==> Named(types, name).value.name == name && Named(types, name).value in types
  {
    if types != [] { NamedName(types[1..], name); }
  }

  /** The other modules, asked from `m.next` up to `m`. */
  ghost predicate Others(m: ModuleInfo, way: seq<ModuleInfo>)
    reads m`next, way
  {
    && m.next != null && m !in way
    && (if m.next == m then way == [] else Way(m.next, m, way))
    && forall o :: o in way ==> Sorted(o.types)
  }

  /** Look a name up among the other modules, if there are any. */
  method QueryOthers(m: ModuleInfo, name: Name, ghost way: seq<ModuleInfo>) returns (ret: TypeInfo?)
    requires Others(m, way)
    ensures ret == OrNull(NamedOn(Tables(way), name))
    ensures ret != null ==> ret.name == name && exists i :: 0 <= i < |way| && ret in way[i].types
  {
    ret := null;
    if m.next != m {
      ret := MangledTypeQuery(m.next, m, name, way);
      NamedOnName(Tables(way), name);
    }
  }

  /** No other module's table holds this structure. */
  ghost predicate Private(way: seq<ModuleInfo>, t: TypeInfo)
    reads way`types
  {
    forall i :: 0 <= i < |way| ==> t !in way[i].types
  }

  /** The records of the row from `j` on still cast from this module's own structures. */
  ghost predicate OwnFrom(way: seq<ModuleInfo>, row: seq<CastInfo>, j: nat)
    reads way`types, row
  {
    forall k :: j <= k < |row| ==> Private(way, row[k].typ)
  }

  /** The structure that stands for a generated type: the loaded one of its name, if there is one. */
  function Unified(tables: seq<seq<TypeInfo>>, initial: TypeInfo): TypeInfo {
    match NamedOn(tables, initial.name) case None => initial case Some(t) => t
  }

  /** The structures that the records were generated with. */
  type Targets = map<CastInfo, TypeInfo>

  /** These records still cast from the structures they were generated with. */
  ghost predicate Genuine(records: set<CastInfo>, gen: Targets)
    reads records
  {
    forall c :: c in records ==> c in gen && c.typ == gen[c]
  }

  ghost predicate GenuineFrom(row: seq<CastInfo>, j: nat, gen: Targets)
    reads row
  {
    forall k :: j <= k < |row| ==> row[k] in gen && row[k].typ == gen[row[k]]
  }

  /** In the row of a type that is this module's own, the record has come to cast from the structure that stands for its
      target; in the row of an adopted type it still casts from this module's copy. */
  ghost predicate Aimed(tables: seq<seq<TypeInfo>>, own: bool, gen: Targets, cast: CastInfo)
    reads cast`typ
  {
    cast in gen && cast.typ == if own then Unified(tables, gen[cast]) else gen[cast]
  }

  /** The `j`-th record of a row has been entered unless both types were loaded before and the list had a record of that
      name, from before or from the row itself. */
  ghost predicate EnteredIff(tables: seq<seq<TypeInfo>>, own: bool, row: seq<CastInfo>, j: nat, names: Labels,
                             ty: TypeInfo, lists: CastLists, lists': CastLists)
    requires j < |row|
  {
    && ty in lists' && RowSet(row) <= names.Keys
    && (row[j] in lists'[ty] <==>
         || own || NamedOn(tables, names[row[j]]).None?
         || (!HasCast(lists, names, ty, names[row[j]]) && !NamedBefore(row, j, names)))
  }

  ghost predicate NamedBefore(row: seq<CastInfo>, j: nat, names: Labels)
    requires j < |row| && RowSet(row) <= names.Keys
  {
    exists k :: 0 <= k < j && row[k] in names && names[row[k]] == names[row[j]]
  }

  /** All this for the first `n` records of a row. */
  ghost predicate RowDone(tables: seq<seq<TypeInfo>>, own: bool, row: seq<CastInfo>, n: nat, names: Labels,
                          gen: Targets, ty: TypeInfo, lists: CastLists, lists': CastLists)
    requires n <= |row|
    reads RowSet(row[..n])`typ
  {
    forall j :: 0 <= j < n ==>
      (assert row[..n][j] == row[j];
       Aimed(tables, own, gen, row[j]) && EnteredIff(tables, own, row, j, names, ty, lists, lists'))
  }

  /** The body of the loop over a row. */
  method InsertAt(m: ModuleInfo, ty: TypeInfo, own: bool, row: seq<CastInfo>, j: nat, ghost way: seq<ModuleInfo>,
                  ghost names: Labels, ghost gen: Targets, ghost lists: CastLists)
    returns (ghost lists': CastLists)
    requires Lists(lists) && ty in lists && j < |row| && Distinct(row) && Others(m, way) && TablesListed(way, lists)
    requires Outside(row, j, lists) && Unlinked(row, j) && OwnFrom(way, row, j)
    requires Typed(names, lists.Keys) && Nodes(lists) + {row[j]} <= names.Keys && GenuineFrom(row, j, gen)
    modifies ty`cast, NodesOf(lists, ty)`next, NodesOf(lists, ty)`prev, {row[j]}`typ, {row[j]}`next
    ensures Lists(lists') && lists'.Keys == lists.Keys && Typed(names, lists.Keys)
    ensures forall t :: t in lists && t != ty ==> lists'[t] == lists[t]
    ensures NodesOf(lists, ty) <= NodesOf(lists', ty) <= NodesOf(lists, ty) + {row[j]}
    ensures HasCast(lists', names, ty, names[row[j]])
    ensures Outside(row, j + 1, lists') && Unlinked(row, j + 1) && OwnFrom(way, row, j + 1)
    ensures GenuineFrom(row, j + 1, gen) && Aimed(Tables(way), own, gen, row[j])
    ensures row[j] in NodesOf(lists', ty)
       <==> own || NamedOn(Tables(way), names[row[j]]).None? || !HasCast(lists, names, ty, names[row[j]])
  {
    hide Lists, HasCast, Typed, Others, Private, Outside, Nodes;
    var ret := QueryOthers(m, row[j].typ.name, way);
    NameOfCast(row[j], names, lists.Keys);
    NotOwn(way, row[j].typ, ret);
    LoadedListed(way, lists, ret);
    RestApart(row, j, lists, ty);
    lists' := InsertCast(ty, own, row[j], ret, names, lists);
    OutsideMore(row, j, lists, lists', ty);
  }

  /** How far the loop over a row has come: what its invariant says. */
  ghost predicate Inserted(tables: seq<seq<TypeInfo>>, way: seq<ModuleInfo>, own: bool, row: seq<CastInfo>, j: nat,
                           names: Labels, gen: Targets, ty: TypeInfo, lists: CastLists, now: CastLists)
    requires j <= |row| && ty in lists
    reads row, way`types
  {
    && now.Keys == lists.Keys && (forall t :: t in lists && t != ty ==> now[t] == lists[t])
    && NodesOf(lists, ty) <= NodesOf(now, ty) <= NodesOf(lists, ty) + RowSet(row[..j])
    && Outside(row, j, now) && Unlinked(row, j) && OwnFrom(way, row, j) && GenuineFrom(row, j, gen)
    && AllFound(row[..j], names, ty, now) && RowDone(tables, own, row, j, names, gen, ty, lists, now)
  }

  /** One round of that loop. */
  method InsertNext(m: ModuleInfo, ty: TypeInfo, own: bool, row: seq<CastInfo>, j: nat, ghost way: seq<ModuleInfo>,
                    ghost names: Labels, ghost gen: Targets, ghost lists: CastLists, ghost now: CastLists)
    returns (ghost lists': CastLists)
    requires ty in lists && j < |row| && Distinct(row)
    requires Inserted(Tables(way), way, own, row, j, names, gen, ty, lists, now)
    requires Lists(now) && Others(m, way) && TablesListed(way, lists) && Typed(names, lists.Keys)
    requires Nodes(lists) + RowSet(row) <= names.Keys
    modifies ty`cast, NodesOf(now, ty)`next, NodesOf(now, ty)`prev, {row[j]}`typ, {row[j]}`next
    ensures Lists(lists') && lists'.Keys == lists.Keys && Typed(names, lists.Keys)
    ensures Inserted(Tables(way), way, own, row, j + 1, names, gen, ty, lists, lists')
  {
    hide Lists, HasCast, Typed, Others, OwnFrom, Outside, Unlinked, Nodes, Unified, NamedBefore, EnteredIff, Aimed,
         RowDone, GenuineFrom, Distinct, RowSet, AllFound, NodesOf, Tables, TablesListed;
    RowGrows(row, j, lists, now, ty);
    NamedSoFar(row, j, names, ty, lists, now);
    ghost var done := RowSet(row[..j]);
    RowApart(row, j);
    SameKeys(way, lists, now);
    lists' := InsertAt(m, ty, own, row, j, way, names, gen, now);
    CastsKept(now, lists', names, ty, row, j);
    RowDoneMore(Tables(way), own, row, j, names, gen, ty, lists, now, lists');
  }

  lemma SameKeys(way: seq<ModuleInfo>, lists: CastLists, now: CastLists)
    requires now.Keys == lists.Keys && TablesListed(way, lists)
    ensures TablesListed(way, now)
  {}

  /** The loop over a row: afterwards every cast of the row is found by name in the list of `ty`. */
  method InsertRow(m: ModuleInfo, ty: TypeInfo, own: bool, row: seq<CastInfo>, ghost way: seq<ModuleInfo>,
                   ghost names: Labels, ghost gen: Targets, ghost lists: CastLists)
    returns (ghost lists': CastLists)
    requires Lists(lists) && ty in lists && Distinct(row) && Others(m, way) && TablesListed(way, lists)
    requires Outside(row, 0, lists) && Unlinked(row, 0) && OwnFrom(way, row, 0)
    requires Typed(names, lists.Keys) && Nodes(lists) + RowSet(row) <= names.Keys && Genuine(RowSet(row), gen)
    modifies ty`cast, NodesOf(lists, ty)`next, NodesOf(lists, ty)`prev, RowSet(row)`typ, RowSet(row)`next
    modifies RowSet(row)`prev
    ensures Lists(lists') && lists'.Keys == lists.Keys && Typed(names, lists.Keys)
    ensures forall t :: t in lists && t != ty ==> lists'[t] == lists[t]
    ensures NodesOf(lists, ty) <= NodesOf(lists', ty) <= NodesOf(lists, ty) + RowSet(row)
    ensures forall c :: c in row ==> HasCast(lists', names, ty, names[c])
    ensures RowDone(Tables(way), own, row, |row|, names, gen, ty, lists, lists')
  {
    hide Lists, Typed, Others, OwnFrom, Outside, Unlinked, Nodes, RowDone, GenuineFrom, Distinct, AllFound, Tables,
         RowSet, NodesOf, TablesListed, HasCast, Genuine;
    NoneDone(Tables(way), own, row, names, gen, ty, lists);
    lists' := lists;
    var j := 0;
    while j < |row|
      invariant 0 <= j <= |row| && Lists(lists') && lists'.Keys == lists.Keys && Typed(names, lists.Keys)
      invariant Inserted(Tables(way), way, own, row, j, names, gen, ty, lists, lists')
    {
      RowApart(row, j);
      lists' := InsertNext(m, ty, own, row, j, way, names, gen, lists, lists');
      j := j + 1;
    }
    assert row[..j] == row;
    Found(row, names, ty, lists');
  }

  lemma Found(casts: seq<CastInfo>, names: Labels, ty: TypeInfo, lists: CastLists)
    requires AllFound(casts, names, ty, lists)
    ensures forall c :: c in casts ==> c in names && HasCast(lists, names, ty, names[c])
  {}

  /** A name is in the list by now if it was before or comes earlier in the row. */
  lemma NamedSoFar(row: seq<CastInfo>, j: nat, names: Labels, ty: TypeInfo, lists: CastLists, now: CastLists)
    requires j < |row| && RowSet(row) <= names.Keys && ty in lists && ty in now
    requires NodesOf(lists, ty) <= NodesOf(now, ty) <= NodesOf(lists, ty) + RowSet(row[..j])
    requires AllFound(row[..j], names, ty, now)
    ensures HasCast(now, names, ty, names[row[j]])
       <==> HasCast(lists, names, ty, names[row[j]]) || NamedBefore(row, j, names)
  {
    var name := names[row[j]];
    if HasCast(lists, names, ty, name) {
      var n :| n in lists[ty] && n in names && names[n] == name;
      assert n in NodesOf(lists, ty) && n in NodesOf(now, ty);
    }
    if NamedBefore(row, j, names) {
      var k :| 0 <= k < j && row[k] in names && names[row[k]] == name;
      assert row[..j][k] in row[..j];
    }
    if HasCast(now, names, ty, name) {
      var n :| n in now[ty] && n in names && names[n] == name;
      assert n in NodesOf(now, ty);
      if n in NodesOf(lists, ty) {
        assert n in lists[ty];
      } else {
        var k :| 0 <= k < j && row[..j][k] == n;
        assert row[k] == n;
      }
    }
  }

  lemma NoneDone(tables: seq<seq<TypeInfo>>, own: bool, row: seq<CastInfo>, names: Labels, gen: Targets,
                 ty: TypeInfo, lists: CastLists)
    requires Genuine(RowSet(row), gen)
    ensures RowDone(tables, own, row, 0, names, gen, ty, lists, lists) && GenuineFrom(row, 0, gen)
    ensures RowSet(row[..0]) == {} && AllFound(row[..0], names, ty, lists)
  {
    assert forall k :: 0 <= k < |row| ==> row[k] in RowSet(row);
  }

  lemma RowApart(row: seq<CastInfo>, j: nat)
    requires Distinct(row) && j < |row|
    ensures row[j] in RowSet(row) && row[j] !in RowSet(row[..j]) && RowSet(row[..j]) <= RowSet(row)
    ensures forall c :: c in RowSet(row[..j]) ==> allocated(c)
  {}

  /** The list has a record of each one's name. */
  ghost predicate AllFound(casts: seq<CastInfo>, names: Labels, ty: TypeInfo, lists: CastLists) {
    forall c :: c in casts ==> c in names && HasCast(lists, names, ty, names[c])
  }

  lemma RowDoneMore(tables: seq<seq<TypeInfo>>, own: bool, row: seq<CastInfo>, j: nat, names: Labels, gen: Targets,
                    ty: TypeInfo, lists: CastLists, before: CastLists, now: CastLists)
    requires j < |row| && Distinct(row) && RowSet(row) <= names.Keys && ty in before && ty in now
    requires RowDone(tables, own, row, j, names, gen, ty, lists, before)
    requires Aimed(tables, own, gen, row[j])
    requires NodesOf(before, ty) <= NodesOf(now, ty) <= NodesOf(before, ty) + {row[j]}
    requires row[j] in NodesOf(now, ty) <==>
      own || NamedOn(tables, names[row[j]]).None? || !HasCast(before, names, ty, names[row[j]])
    requires HasCast(before, names, ty, names[row[j]])
        <==> HasCast(lists, names, ty, names[row[j]]) || NamedBefore(row, j, names)
    ensures RowDone(tables, own, row, j + 1, names, gen, ty, lists, now)
  {
    hide HasCast, NamedBefore, Unified;
    forall k | 0 <= k < j ensures row[k] in now[ty] <==> row[k] in before[ty] {
      assert row[k] in NodesOf(now, ty) <==> row[k] in NodesOf(before, ty);
    }
  }

  lemma NameOfCast(cast: CastInfo, names: Labels, types: set<TypeInfo>)
    requires Typed(names, types) && cast in names
    ensures cast.typ.name == names[cast]
  {}

  lemma LoadedListed(way: seq<ModuleInfo>, lists: CastLists, ret: TypeInfo?)
    requires TablesListed(way, lists) && (ret != null ==> exists i :: 0 <= i < |way| && ret in way[i].types)
    ensures ret != null ==> ret in lists
  {
    if ret != null {
      var i :| 0 <= i < |way| && ret in way[i].types;
      assert way[i] in way;
    }
  }

  lemma NotOwn(way: seq<ModuleInfo>, t: TypeInfo, ret: TypeInfo?)
    requires Private(way, t) && (ret != null ==> exists i :: 0 <= i < |way| && ret in way[i].types)
    ensures ret != t
  {}

  lemma RowGrows(row: seq<CastInfo>, j: nat, lists: CastLists, now: CastLists, ty: TypeInfo)
    requires j < |row| && ty in lists && now.Keys == lists.Keys
    requires NodesOf(now, ty) <= NodesOf(lists, ty) + RowSet(row[..j])
    requires forall t :: t in lists && t != ty ==> now[t] == lists[t]
    ensures Nodes(now) <= Nodes(lists) + RowSet(row) && row[j] in RowSet(row)
    ensures RowSet(row[..j + 1]) == RowSet(row[..j]) + {row[j]}
  {
    forall n | n in Nodes(now) ensures n in Nodes(lists) + RowSet(row) {
      var t :| t in now && n in now[t];
      if t == ty {
        assert n in NodesOf(now, ty);
        if n in NodesOf(lists, ty) { assert n in lists[ty]; }
      }
    }
    assert row[..j + 1] == row[..j] + [row[j]];
  }

  lemma CastsKept(lists: CastLists, lists': CastLists, names: Labels, ty: TypeInfo, row: seq<CastInfo>, j: nat)
    requires j < |row| && ty in lists && ty in lists' && NodesOf(lists, ty) <= NodesOf(lists', ty)
    requires RowSet(row) <= names.Keys
    requires AllFound(row[..j], names, ty, lists) && HasCast(lists', names, ty, names[row[j]])
    ensures AllFound(row[..j + 1], names, ty, lists')
  {
    assert row[..j + 1] == row[..j] + [row[j]];
    forall c | c in row[..j] ensures c in names && HasCast(lists', names, ty, names[c]) {
      assert c in RowSet(row);
      var n :| n in lists[ty] && n in names && names[n] == names[c];
      assert n in NodesOf(lists', ty);
    }
  }

  lemma RestApart(row: seq<CastInfo>, j: nat, lists: CastLists, ty: TypeInfo)
    requires j < |row| && ty in lists && Outside(row, j, lists) && Distinct(row)
    ensures forall k :: j <= k < |row| ==> row[k] !in NodesOf(lists, ty)
    ensures row[j] !in Nodes(lists)
    ensures forall k :: j < k < |row| ==> row[k] != row[j]
  {
    OfNodes(lists, ty);
  }

  lemma OfNodes(lists: CastLists, ty: TypeInfo)
    requires ty in lists
    ensures NodesOf(lists, ty) <= Nodes(lists)
  {
    forall n | n in NodesOf(lists, ty) ensures n in Nodes(lists) { assert n in lists[ty]; }
  }

  lemma OutsideMore(row: seq<CastInfo>, j: nat, before: CastLists, now: CastLists, ty: TypeInfo)
    requires j < |row| && ty in before && now.Keys == before.Keys && Outside(row, j, before) && Distinct(row)
    requires NodesOf(now, ty) <= NodesOf(before, ty) + {row[j]}
    requires forall t :: t in before && t != ty ==> now[t] == before[t]
    ensures Outside(row, j + 1, now)
  {
    OfNodes(before, ty);
    forall n | n in Nodes(now) ensures n in Nodes(before) + {row[j]} {
      var t :| t in now && n in now[t];
      if t == ty {
        assert n in NodesOf(now, ty);
      } else {
        assert n in before[t];
      }
    }
  }

  // ----- one type -----

  ghost function RowsFrom(rows: seq<seq<CastInfo>>, i: nat): set<CastInfo> {
    set k, n | i <= k < |rows| && n in rows[k] :: n
  }

  /** No record occurs twice in the generated rows. */
  ghost predicate RowsDistinct(rows: seq<seq<CastInfo>>) {
    && (forall k :: 0 <= k < |rows| ==> Distinct(rows[k]))
    && (forall k, k', n :: 0 <= k < k' < |rows| && n in rows[k] ==> n !in rows[k'])
  }

  /** Records as generated: unlinked, and casting from this module's own structures. */
  ghost predicate Pristine(records: set<CastInfo>, way: seq<ModuleInfo>)
    reads records, way`types
  {
    forall n :: n in records ==> n.next == null && n.prev == null && Private(way, n.typ)
  }

  lemma RowGenuine(rows: seq<seq<CastInfo>>, i: nat, gen: Targets)
    requires i < |rows| && Genuine(RowsFrom(rows, i), gen)
    ensures Genuine(RowSet(rows[i]), gen) && Genuine(RowsFrom(rows, i + 1), gen)
    ensures var rest := RowsFrom(rows, i + 1); forall c :: c in rest ==> allocated(c)
  {
    forall c | c in RowSet(rows[i]) ensures c in RowsFrom(rows, i) {}
  }

  lemma RowReady(rows: seq<seq<CastInfo>>, i: nat, way: seq<ModuleInfo>, lists: CastLists)
    requires i < |rows| && RowsDistinct(rows) && RowsFrom(rows, i) !! Nodes(lists) && Pristine(RowsFrom(rows, i), way)
    ensures Distinct(rows[i]) && Outside(rows[i], 0, lists) && Unlinked(rows[i], 0) && OwnFrom(way, rows[i], 0)
    ensures RowSet(rows[i]) !! RowsFrom(rows, i + 1) && RowSet(rows[i]) + RowsFrom(rows, i + 1) == RowsFrom(rows, i)
    ensures Pristine(RowsFrom(rows, i + 1), way)
  {
    forall k | 0 <= k < |rows[i]| ensures rows[i][k] in RowsFrom(rows, i) { assert rows[i][k] in rows[i]; }
  }

  /** The records of one list have changed by at most those of one row. */
  lemma NodesAfterRow(rows: seq<seq<CastInfo>>, i: nat, lists: CastLists, lists': CastLists, ty: TypeInfo)
    requires i < |rows| && ty in lists && lists'.Keys == lists.Keys
    requires forall t :: t in lists && t != ty ==> lists'[t] == lists[t]
    requires NodesOf(lists', ty) <= NodesOf(lists, ty) + RowSet(rows[i])
    ensures Nodes(lists') <= Nodes(lists) + RowSet(rows[i])
  {
    OfNodes(lists, ty);
    forall n | n in Nodes(lists') ensures n in Nodes(lists) + RowSet(rows[i]) {
      var t :| t in lists' && n in lists'[t];
      if t == ty {
        assert n in NodesOf(lists', ty);
      } else {
        assert n in lists[t];
      }
    }
  }

  function UnifiedAll(tables: seq<seq<TypeInfo>>, initial: seq<TypeInfo>): seq<TypeInfo> {
    seq(|initial|, i requires 0 <= i < |initial| => Unified(tables, initial[i]))
  }

  /** Every type in the tables has a list. */
  ghost predicate TablesListed(way: seq<ModuleInfo>, lists: CastLists)
    reads way`types
  {
    forall o, t :: o in way && t in o.types ==> t in lists
  }

  /** The loaded structure of this name, given the generated one's client data if that has any; else the generated
      one. */
  method Adopt(m: ModuleInfo, initial: TypeInfo, ghost way: seq<ModuleInfo>, ghost lists: CastLists)
    returns (ty: TypeInfo)
    requires Lists(lists) && Others(m, way) && initial in lists && TablesListed(way, lists)
    modifies lists.Keys`clientdata
    ensures Lists(lists) && ty in lists && ty.name == initial.name
    ensures ty == Unified(Tables(way), initial)
    ensures ty.clientdata == if initial.clientdata.Some? then initial.clientdata else old(ty.clientdata)
    ensures forall t :: t in lists && t != ty ==> t.clientdata == old(t.clientdata)
  {
    var found := QueryOthers(m, initial.name, way);
    if found != null {
      ty := found;
      if initial.clientdata.Some? {
        ty.clientdata := initial.clientdata;
      }
    } else {
      ty := initial;
    }
  }

  /** Find or adopt the structure for the `i`-th type, hand over its client data, and merge its row of casts. */
  method LoadType(m: ModuleInfo, i: nat, ghost way: seq<ModuleInfo>, ghost names: Labels, ghost gen: Targets,
                  ghost lists: CastLists)
    returns (ty: TypeInfo, ghost lists': CastLists)
    requires Lists(lists) && Others(m, way) && i < |m.typeInitial| == |m.castInitial|
    requires m.typeInitial[i] in lists && TablesListed(way, lists)
    requires RowsDistinct(m.castInitial) && RowsFrom(m.castInitial, i) !! Nodes(lists)
    requires Pristine(RowsFrom(m.castInitial, i), way)
    requires Typed(names, lists.Keys) && Nodes(lists) + RowsFrom(m.castInitial, i) <= names.Keys
    requires Genuine(RowsFrom(m.castInitial, i), gen)
    modifies lists.Keys`cast, lists.Keys`clientdata, Nodes(lists)`next, Nodes(lists)`prev
    modifies RowSet(m.castInitial[i])`typ, RowSet(m.castInitial[i])`next, RowSet(m.castInitial[i])`prev
    ensures Lists(lists') && lists'.Keys == lists.Keys && Typed(names, lists.Keys) && ty in lists
    ensures ty == Unified(Tables(way), m.typeInitial[i])
    ensures ty.name == m.typeInitial[i].name
    ensures ty.clientdata
         == if m.typeInitial[i].clientdata.Some? then m.typeInitial[i].clientdata else old(ty.clientdata)
    ensures forall t :: t in lists && t != ty ==> t.clientdata == old(t.clientdata) && lists'[t] == lists[t]
    ensures NodesOf(lists, ty) <= NodesOf(lists', ty)
    ensures Nodes(lists') <= Nodes(lists) + RowSet(m.castInitial[i])
    ensures forall c :: c in m.castInitial[i] ==> HasCast(lists', names, ty, names[c])
    ensures Pristine(RowsFrom(m.castInitial, i + 1), way) && Genuine(RowsFrom(m.castInitial, i + 1), gen)
    ensures RowDone(Tables(way), ty == m.typeInitial[i], m.castInitial[i], |m.castInitial[i]|, names, gen, ty, lists,
                    lists')
  {
    hide Lists, HasCast, Typed, Others, OwnFrom, Outside, Unlinked, Private, RowsFrom, RowSet, Nodes, Unified,
         TablesListed, RowsDistinct, RowDone, Pristine, Genuine, NodesOf, Tables;
    ghost var rest := RowsFrom(m.castInitial, i + 1);
    ty := Adopt(m, m.typeInitial[i], way, lists);
    RowReady(m.castInitial, i, way, lists);
    RowGenuine(m.castInitial, i, gen);
    OfNodes(lists, ty);
    lists' := InsertRow(m, ty, ty == m.typeInitial[i], m.castInitial[i], way, names, gen, lists);
    NodesAfterRow(m.castInitial, i, lists, lists', ty);
  }

  // ----- one module -----

  /** Every cast of the first `n` rows is found by name in the list of the structure that stands for its row's type. */
  ghost predicate Declared(rows: seq<seq<CastInfo>>, types: seq<TypeInfo>, n: nat, lists: CastLists, names: Labels) {
    n <= |rows| && n <= |types| &&
    forall i, c :: 0 <= i < n && c in rows[i] ==> c in names && HasCast(lists, names, types[i], names[c])
  }

  /** No list has lost a record. */
  ghost predicate Fuller(lists: CastLists, lists': CastLists) {
    lists'.Keys == lists.Keys && forall t :: t in lists ==> NodesOf(lists, t) <= NodesOf(lists', t)
  }

  lemma DeclaredKept(rows: seq<seq<CastInfo>>, types: seq<TypeInfo>, n: nat, lists: CastLists, lists': CastLists,
                     names: Labels)
    requires Declared(rows, types, n, lists, names) && Fuller(lists, lists')
    ensures Declared(rows, types, n, lists', names)
  {
    forall i, c | 0 <= i < n && c in rows[i] ensures HasCast(lists', names, types[i], names[c]) {
      assert HasCast(lists, names, types[i], names[c]);
      var k :| k in lists[types[i]] && k in names && names[k] == names[c];
      assert k in NodesOf(lists, types[i]) && k in NodesOf(lists', types[i]);
    }
  }

  lemma DeclaredMore(rows: seq<seq<CastInfo>>, types: seq<TypeInfo>, ty: TypeInfo, lists: CastLists, names: Labels)
    requires Declared(rows, types, |types|, lists, names) && |types| < |rows|
    requires forall c :: c in rows[|types|] ==> c in names && HasCast(lists, names, ty, names[c])
    ensures Declared(rows, types + [ty], |types| + 1, lists, names)
  {}

  lemma FullerAfter(lists: CastLists, before: CastLists, now: CastLists, ty: TypeInfo)
    requires Fuller(lists, before) && ty in before && now.Keys == before.Keys
    requires forall t :: t in before && t != ty ==> now[t] == before[t]
    requires NodesOf(before, ty) <= NodesOf(now, ty)
    ensures Fuller(before, now) && Fuller(lists, now)
  {}

  lemma RowsSplit(rows: seq<seq<CastInfo>>, i: nat)
    requires i < |rows| && RowsDistinct(rows)
    ensures RowsFrom(rows, i) == RowSet(rows[i]) + RowsFrom(rows, i + 1) && RowSet(rows[i]) !! RowsFrom(rows, i + 1)
    ensures RowsFrom(rows, i) <= RowsFrom(rows, 0)
    ensures forall c :: c in rows[i] ==> c in RowSet(rows[i])
    ensures RowSet(rows[i]) !! RowsUpTo(rows, i) && forall c :: c in RowsUpTo(rows, i) ==> allocated(c)
  {}

  ghost predicate HaveData(types: set<TypeInfo>)
    reads types`clientdata
  {
    forall t :: t in types ==> t.clientdata.Some?
  }

  /** The body of the loop over a module's types. */
  method EnterType(m: ModuleInfo, i: nat, ghost way: seq<ModuleInfo>, ghost names: Labels, ghost gen: Targets,
                   ghost owed: set<TypeInfo>, ghost lists: CastLists)
    returns (ty: TypeInfo, ghost lists': CastLists)
    requires Lists(lists) && Others(m, way) && m !in way && i < |m.typeInitial| == |m.castInitial|
    requires m.typeInitial[i] in lists && TablesListed(way, lists)
    requires RowsDistinct(m.castInitial) && RowsFrom(m.castInitial, i) !! Nodes(lists)
    requires Pristine(RowsFrom(m.castInitial, i), way)
    requires Typed(names, lists.Keys) && Nodes(lists) + RowsFrom(m.castInitial, i) <= names.Keys
    requires Genuine(RowsFrom(m.castInitial, i), gen) && owed <= lists.Keys && HaveData(owed)
    modifies m`types, lists.Keys`cast, lists.Keys`clientdata, Nodes(lists)`next, Nodes(lists)`prev
    modifies RowSet(m.castInitial[i])`typ, RowSet(m.castInitial[i])`next, RowSet(m.castInitial[i])`prev
    ensures Lists(lists') && lists'.Keys == lists.Keys && Typed(names, lists.Keys) && ty in lists
    ensures m.types == old(m.types) + [ty] && ty == Unified(Tables(way), m.typeInitial[i])
    ensures HaveData(owed + if old(m.typeInitial[i].clientdata).Some? then {ty} else {})
    ensures forall t :: t in lists && t != ty ==> lists'[t] == lists[t]
    ensures NodesOf(lists, ty) <= NodesOf(lists', ty)
    ensures Nodes(lists') <= Nodes(lists) + RowSet(m.castInitial[i])
    ensures forall c :: c in m.castInitial[i] ==> HasCast(lists', names, ty, names[c])
    ensures Pristine(RowsFrom(m.castInitial, i + 1), way) && Genuine(RowsFrom(m.castInitial, i + 1), gen)
    ensures RowDone(Tables(way), ty == m.typeInitial[i], m.castInitial[i], |m.castInitial[i]|, names, gen, ty, lists,
                    lists')
    ensures Others(m, way) && TablesListed(way, lists') && Tables(way) == old(Tables(way))
  {
    hide Lists, HasCast, Typed, Others, Private, RowsFrom, RowSet, Nodes, Unified, RowsDistinct, Pristine,
         Genuine, RowDone;
    ty, lists' := LoadType(m, i, way, names, gen, lists);
    m.types := m.types + [ty];
  }

  /** The loop that fills in the module's table. */
  method FillTypes(m: ModuleInfo, ghost way: seq<ModuleInfo>, ghost names: Labels, ghost gen: Targets,
                   ghost lists: CastLists)
    returns (ghost lists': CastLists)
    requires Lists(lists) && Others(m, way) && m !in way && m.types == [] && |m.typeInitial| == |m.castInitial|
    requires (forall t :: t in m.typeInitial ==> t in lists) && TablesListed(way, lists)
    requires RowsDistinct(m.castInitial) && RowsFrom(m.castInitial, 0) !! Nodes(lists)
    requires Pristine(RowsFrom(m.castInitial, 0), way)
    requires Typed(names, lists.Keys) && Nodes(lists) + RowsFrom(m.castInitial, 0) <= names.Keys
    requires Sorted(m.typeInitial) && Genuine(RowsFrom(m.castInitial, 0), gen)
    modifies m`types, lists.Keys`cast, lists.Keys`clientdata, Nodes(lists)`next, Nodes(lists)`prev
    modifies RowsFrom(m.castInitial, 0)`typ, RowsFrom(m.castInitial, 0)`next, RowsFrom(m.castInitial, 0)`prev
    ensures Lists(lists') && Fuller(lists, lists') && Typed(names, lists.Keys)
    ensures Nodes(lists') <= Nodes(lists) + RowsFrom(m.castInitial, 0)
    ensures m.types == UnifiedAll(old(Tables(way)), m.typeInitial)
    ensures forall t :: t in lists && old(t.clientdata).Some? ==> t.clientdata.Some?
    ensures forall k :: 0 <= k < |m.types| && old(m.typeInitial[k].clientdata).Some? ==> m.types[k].clientdata.Some?
    ensures Declared(m.castInitial, m.types, |m.types|, lists', names)
    ensures RowsDone(old(Tables(way)), m.castInitial, m.types, m.typeInitial, |m.types|, names, gen, lists, lists')
  {
    hide Lists, HasCast, Typed, Others, Pristine, Private, RowsFrom, RowSet, Nodes, Declared, Fuller, Unified,
         TablesListed, Genuine, RowsDone, RowDone, Sorted, RowsUpTo, UnifiedAll, Tables, NodesOf, Untouched,
         HaveData, AllOwed;
    ghost var rows := m.castInitial;
    lists' := lists;
    NothingDeclared(rows, lists, names);
    NothingDone(Tables(way), rows, m.typeInitial, names, gen, lists);
    UnifiedNone(Tables(way), m.typeInitial);
    ghost var had := WithData(lists);
    ghost var owed := had;
    DataHad(lists, m.typeInitial);
    var i := 0;
    while i < |m.typeInitial|
      invariant 0 <= i <= |m.typeInitial| && |m.types| == i
      invariant Lists(lists') && Fuller(lists, lists') && Typed(names, lists.Keys) && Others(m, way)
      invariant lists'.Keys == lists.Keys
      invariant Nodes(lists') !! RowsFrom(rows, i)
      invariant Nodes(lists') + RowsFrom(rows, i) <= Nodes(lists) + RowsFrom(rows, 0)
      invariant Pristine(RowsFrom(rows, i), way)
      invariant TablesListed(way, lists') && Tables(way) == old(Tables(way))
      invariant m.types == UnifiedAll(Tables(way), m.typeInitial)[..i]
      invariant HaveData(owed) && had <= owed <= lists.Keys
      invariant AllOwed(m.types, m.typeInitial, had, owed)
      invariant Declared(rows, m.types, i, lists', names)
      invariant Genuine(RowsFrom(rows, i), gen) && Untouched(m.types, lists, lists')
      invariant RowsDone(Tables(way), rows, m.types, m.typeInitial, i, names, gen, lists, lists')
    {
      ghost var before, table, done := lists', m.types, RowsUpTo(rows, i);
      RowsSplit(rows, i);
      NewStructure(Tables(way), m.typeInitial, i);
      FullerKeys(lists, before);
      var ty;
      Owed(owed, had, m.typeInitial[i]);
      ghost var has := m.typeInitial[i].clientdata.Some?;
      ty, lists' := EnterType(m, i, way, names, gen, owed, before);
      FullerAfter(lists, before, lists', ty);
      FullerKeys(lists, lists');
      DeclaredKept(rows, table, i, before, lists', names);
      DeclaredMore(rows, table, ty, lists', names);
      AllOwedMore(table, m.typeInitial, ty, has, had, owed);
      owed := owed + if has then {ty} else {};
      UntouchedMore(table, ty, lists, before, lists');
      RowsDoneMore(Tables(way), rows, table, m.typeInitial, ty, names, gen, lists, before, lists');
      i := i + 1;
    }
    OwedHave(m.types, m.typeInitial, had, owed);
  }

  lemma UnifiedNone(tables: seq<seq<TypeInfo>>, initial: seq<TypeInfo>)
    ensures |UnifiedAll(tables, initial)| == |initial| && UnifiedAll(tables, initial)[..0] == []
    ensures UnifiedAll(tables, initial)[..|initial|] == UnifiedAll(tables, initial)
  {}

  /** The lists of other structures are as they were. */
  ghost predicate Untouched(types: seq<TypeInfo>, lists: CastLists, lists': CastLists) {
    forall t :: t in lists && t !in types ==> t in lists' && lists'[t] == lists[t]
  }

  lemma UntouchedMore(types: seq<TypeInfo>, ty: TypeInfo, lists: CastLists, before: CastLists, now: CastLists)
    requires Untouched(types, lists, before) && ty in lists && ty !in types && now.Keys == before.Keys == lists.Keys
    requires forall t :: t in before && t != ty ==> now[t] == before[t]
    ensures Untouched(types + [ty], lists, now) && before[ty] == lists[ty]
  {}

  ghost function WithData(lists: CastLists): set<TypeInfo>
    reads lists.Keys`clientdata
  {
    set t | t in lists && t.clientdata.Some?
  }

  lemma DataHad(lists: CastLists, initial: seq<TypeInfo>)
    ensures HaveData(WithData(lists)) && WithData(lists) <= lists.Keys
    ensures AllOwed([], initial, WithData(lists), WithData(lists))
  {}

  lemma Owed(owed: set<TypeInfo>, had: set<TypeInfo>, t: TypeInfo)
    requires HaveData(owed) && had <= owed
    ensures t in had ==> t.clientdata.Some?
  {}

  /** Those that stand for a type that had data are among the ones that must have some. */
  ghost predicate AllOwed(types: seq<TypeInfo>, initial: seq<TypeInfo>, had: set<TypeInfo>, owed: set<TypeInfo>) {
    forall k :: 0 <= k < |types| && k < |initial| && initial[k] in had ==> types[k] in owed
  }

  lemma AllOwedMore(types: seq<TypeInfo>, initial: seq<TypeInfo>, ty: TypeInfo, has: bool, had: set<TypeInfo>,
                    owed: set<TypeInfo>)
    requires AllOwed(types, initial, had, owed) && |types| < |initial| && (initial[|types|] in had ==> has)
    ensures AllOwed(types + [ty], initial, had, owed + if has then {ty} else {})
  {}

  lemma OwedHave(types: seq<TypeInfo>, initial: seq<TypeInfo>, had: set<TypeInfo>,
                 owed: set<TypeInfo>)
    requires HaveData(owed) && had <= owed && AllOwed(types, initial, had, owed) && |types| <= |initial|
    ensures forall t :: t in had ==> t.clientdata.Some?
    ensures forall k :: 0 <= k < |types| && initial[k] in had ==> types[k].clientdata.Some?
  {}

  /** The records of the first `n` rows. */
  ghost function RowsUpTo(rows: seq<seq<CastInfo>>, n: nat): set<CastInfo> {
    set k, c | 0 <= k < n && k < |rows| && c in rows[k] :: c
  }

  /** What has become of the first `n` rows. */
  ghost predicate RowsDone(tables: seq<seq<TypeInfo>>, rows: seq<seq<CastInfo>>, types: seq<TypeInfo>,
                           initial: seq<TypeInfo>, n: nat, names: Labels, gen: Targets, lists: CastLists,
                           lists': CastLists)
    reads RowsUpTo(rows, n)`typ
  {
    && n <= |rows| && n <= |types| && n <= |initial|
    && forall k :: 0 <= k < n ==>
         assert forall c :: c in rows[k] ==> c in RowsUpTo(rows, n);
         RowDone(tables, types[k] == initial[k], rows[k], |rows[k]|, names, gen, types[k], lists, lists')
  }

  lemma NothingDone(tables: seq<seq<TypeInfo>>, rows: seq<seq<CastInfo>>, initial: seq<TypeInfo>, names: Labels,
                    gen: Targets, lists: CastLists)
    ensures RowsDone(tables, rows, [], initial, 0, names, gen, lists, lists) && Untouched([], lists, lists)
  {}

  lemma RowsDoneMore(tables: seq<seq<TypeInfo>>, rows: seq<seq<CastInfo>>, types: seq<TypeInfo>,
                     initial: seq<TypeInfo>, ty: TypeInfo, names: Labels, gen: Targets, lists: CastLists,
                     before: CastLists, now: CastLists)
    requires |types| < |rows| && |types| < |initial|
    requires RowsDone(tables, rows, types, initial, |types|, names, gen, lists, before)
    requires RowDone(tables, ty == initial[|types|], rows[|types|], |rows[|types|]|, names, gen, ty, before, now)
    requires now.Keys == before.Keys == lists.Keys && ty in lists && ty !in types
    requires before[ty] == lists[ty] && forall t :: t in before && t != ty ==> now[t] == before[t]
    ensures RowsDone(tables, rows, types + [ty], initial, |types| + 1, names, gen, lists, now)
  {
    hide NamedBefore, Unified;
    var n := |types|;
    forall k | 0 <= k < n
      ensures RowDone(tables, types[k] == initial[k], rows[k], |rows[k]|, names, gen, types[k], lists, now)
    {
      assert RowDone(tables, types[k] == initial[k], rows[k], |rows[k]|, names, gen, types[k], lists, before);
      assert types[k] in types;
    }
    assert RowDone(tables, ty == initial[n], rows[n], |rows[n]|, names, gen, ty, lists, now);
  }

  /** Different types of one module stand for different structures. */
  lemma NewStructure(tables: seq<seq<TypeInfo>>, initial: seq<TypeInfo>, i: nat)
    requires Sorted(initial) && i < |initial|
    ensures i < |UnifiedAll(tables, initial)| == |initial|
    ensures Unified(tables, initial[i]) !in UnifiedAll(tables, initial)[..i]
    ensures UnifiedAll(tables, initial)[..i + 1] == UnifiedAll(tables, initial)[..i] + [Unified(tables, initial[i])]
  {
    var all := UnifiedAll(tables, initial);
    NamedOnName(tables, initial[i].name);
    forall k | 0 <= k < i ensures all[k] != all[i] {
      NamedOnName(tables, initial[k].name);
      if all[k] == all[i] { SortedNames(initial, k, i); }
    }
  }

  lemma FullerKeys(lists: CastLists, lists': CastLists)
    requires Fuller(lists, lists')
    ensures lists'.Keys == lists.Keys
  {}

  lemma NothingDeclared(rows: seq<seq<CastInfo>>, lists: CastLists, names: Labels)
    ensures Declared(rows, [], 0, lists, names) && Fuller(lists, lists)
  {}

  // ----- the ring -----

  /** The modules form one cycle, each once, starting at `head`. */
  ghost predicate Ring(head: ModuleInfo?, ring: seq<ModuleInfo>)
    reads ring`next
  {
    && (forall i, j :: 0 <= i < j < |ring| ==> ring[i] != ring[j])
    && head == (if ring == [] then null else ring[0])
    && forall i {:trigger ring[i].next} ::
      0 <= i < |ring| ==> ring[i].next == if i + 1 < |ring| then ring[i + 1] else ring[0]
  }

  ghost function ModuleSet(modules: seq<ModuleInfo>): set<ModuleInfo> {
    set m | m in modules
  }

  /** The modules after the second place, then the head: the way round from the newcomer back to it. */
  ghost function WayRound(ring: seq<ModuleInfo>): seq<ModuleInfo> {
    if |ring| < 2 then [] else ring[2..] + [ring[0]]
  }

  /** Set up or join the circular list; `found` if the module is in it already. */
  method JoinRing(head: ModuleInfo?, m: ModuleInfo, ghost ring: seq<ModuleInfo>)
    returns (head': ModuleInfo, found: bool, ghost ring': seq<ModuleInfo>)
    requires Ring(head, ring) && (m.next == null <==> m !in ring)
    modifies m`next, ModuleSet(ring)`next
    ensures Ring(head', ring') && found == (m in ring)
    ensures head == null ==> head' == m
    ensures head != null ==> head' == head
    ensures ring' == if m in ring then ring else if ring == [] then [m] else [ring[0], m] + ring[1..]
  {
    var init := m.next == null;
    if init { m.next := m; }
    if head == null {
      return m, false, [m];
    }
    head', found, ring' := head, false, ring;
    var iter := head;
    ghost var i := 0;
    while true
      invariant 0 <= i < |ring| && iter == ring[i] && m !in ring[..i] && !found
      invariant m in ring ==> Ring(head, ring)
      invariant forall k {:trigger ring[k].next} ::
        0 <= k < |ring| ==> ring[k].next == if k + 1 < |ring| then ring[k + 1] else ring[0]
      decreases |ring| - i
    {
      if iter == m { found := true; break; }
      iter := iter.next;
      i := i + 1;
      if iter == head { break; }
    }
    if found { return; }
    assert m !in ring;
    m.next := head.next;
    head.next := m;
    ring' := [ring[0], m] + ring[1..];
  }

  // ----- the runtime as a whole -----

  /** A loaded module: its table is sorted, names what was generated, and every generated cast is found by name. */
  ghost predicate Filled(m: ModuleInfo, lists: CastLists, names: Labels)
    reads m`types
  {
    && |m.types| == |m.typeInitial| == |m.castInitial| && Sorted(m.types)
    && (forall i :: 0 <= i < |m.types| ==> m.types[i].name == m.typeInitial[i].name && m.types[i] in lists)
    && Declared(m.castInitial, m.types, |m.types|, lists, names)
  }

  /** Equal mangled names in any two loaded modules denote the same structure. */
  ghost predicate Identity(ring: seq<ModuleInfo>)
    reads ring`types
  {
    forall m, m', t, t' :: m in ring && m' in ring && t in m.types && t' in m'.types && t.name == t'.name ==> t == t'
  }

  ghost predicate AllFilled(ring: seq<ModuleInfo>, lists: CastLists, names: Labels)
    reads ring`types
  {
    forall o :: o in ring ==> Filled(o, lists, names)
  }

  ghost function RowsOf(m: ModuleInfo): set<CastInfo> {
    RowsFrom(m.castInitial, 0)
  }

  ghost function AllRows(modules: seq<ModuleInfo>): set<CastInfo> {
    set m, n | m in modules && n in RowsOf(m) :: n
  }

  /** The `k`-th type of the module stands for itself: no other module had loaded its name. */
  ghost predicate Own(m: ModuleInfo, k: int)
    reads m`types
  {
    0 <= k < |m.types| && k < |m.typeInitial| && m.types[k] == m.typeInitial[k]
  }

  /** The record was generated to cast from the module's `i`-th type. */
  ghost predicate From(m: ModuleInfo, names: Labels, c: CastInfo, i: int) {
    0 <= i < |m.typeInitial| && c in names && m.typeInitial[i].name == names[c]
  }

  /** A record in the row of a type that is the module's own casts from the structure that stands for its type, one in
      the row of an adopted type from the module's own copy. It is in the list of its row's type unless both were
      adopted. */
  ghost predicate DirectedCast(m: ModuleInfo, lists: CastLists, k: int, i: int, c: CastInfo)
    requires 0 <= k < |m.types| && 0 <= i < |m.types| == |m.typeInitial|
    reads m`types, c`typ
  {
    && c.typ == (if Own(m, k) then m.types[i] else m.typeInitial[i])
    && (Own(m, k) || Own(m, i) ==> m.types[k] in lists && c in lists[m.types[k]])
  }

  ghost predicate Directed(m: ModuleInfo, records: set<CastInfo>, lists: CastLists, names: Labels)
    reads m`types, records`typ
  {
    && |m.types| == |m.typeInitial| == |m.castInitial| && RowsOf(m) <= records
    && forall k, c :: 0 <= k < |m.castInitial| && c in m.castInitial[k] ==>
         exists i :: From(m, names, c, i) && DirectedCast(m, lists, k, i, c)
  }

  /** `records` are those of all the modules. */
  ghost predicate AllDirected(ring: seq<ModuleInfo>, records: set<CastInfo>, lists: CastLists, names: Labels)
    reads ring`types, records`typ
  {
    forall o :: o in ring ==> Directed(o, records, lists, names)
  }

  ghost predicate Runtime(head: ModuleInfo?, ring: seq<ModuleInfo>, lists: CastLists, names: Labels)
    reads ring, lists.Keys`cast, Nodes(lists), names.Keys`typ, AllRows(ring)`typ
  {
    && Ring(head, ring) && Lists(lists) && Typed(names, lists.Keys) && Nodes(lists) <= names.Keys
    && AllFilled(ring, lists, names) && Identity(ring) && AllDirected(ring, AllRows(ring), lists, names)
  }

  /** A module as generated, not loaded yet: its structures and records are its own and untouched. */
  ghost predicate Generated(m: ModuleInfo, ring: seq<ModuleInfo>, lists: CastLists, names: Labels)
    reads m`types, m`next, ring`types, RowsOf(m)
  {
    && m !in ring && m.types == [] && m.next == null
    && |m.typeInitial| == |m.castInitial| && Sorted(m.typeInitial) && RowsDistinct(m.castInitial)
    && (forall t :: t in m.typeInitial ==> t in lists)
    && RowsOf(m) !! Nodes(lists) && RowsOf(m) <= names.Keys && Pristine(RowsOf(m), ring)
    && (forall n :: n in RowsOf(m) ==> n.typ in m.typeInitial)
    && (forall o, t :: o in ring && t in m.typeInitial ==> t !in o.types)
    && RowsOf(m) !! AllRows(ring)
  }

  lemma {:induction false} NamedOnFinds(tables: seq<seq<TypeInfo>>, i: nat, t: TypeInfo)
    requires i < |tables| && t in tables[i]
    ensures NamedOn(tables, t.name).Some?
  {
    if Named(tables[0], t.name).None? {
      if i == 0 {
        NamedFinds(tables[0], t);
      } else {
        NamedOnFinds(tables[1..], i - 1, t);
      }
    }
  }

  lemma {:induction false} NamedFinds(types: seq<TypeInfo>, t: TypeInfo)
    requires t in types
    ensures Named(types, t.name).Some?
  {
    if types[0].name != t.name { NamedFinds(types[1..], t); }
  }

  /** A generated type takes the place of a loaded one exactly when its name is new. */
  lemma UnifiedIs(way: seq<ModuleInfo>, initial: TypeInfo)
    ensures var u := Unified(Tables(way), initial);
      && u.name == initial.name
      && (u == initial || exists o :: o in way && u in o.types)
      && forall o, t :: o in way && t in o.types && t.name == initial.name ==> exists o' :: o' in way && u in o'.types
  {
    var tables := Tables(way);
    NamedOnName(tables, initial.name);
    if NamedOn(tables, initial.name).Some? {
      var i :| 0 <= i < |tables| && NamedOn(tables, initial.name).value in tables[i];
      assert way[i] in way;
    }
    forall o, t | o in way && t in o.types && t.name == initial.name ensures NamedOn(tables, initial.name).Some? {
      var i :| 0 <= i < |way| && way[i] == o;
      assert tables[i] == o.types;
      NamedOnFinds(tables, i, t);
    }
  }

  lemma IdentityExtended(m: ModuleInfo, way: seq<ModuleInfo>, t: TypeInfo, o: ModuleInfo, t': TypeInfo)
    requires Identity(way) && Sorted(m.typeInitial) && m.types == UnifiedAll(Tables(way), m.typeInitial)
    requires t in m.types && (t' in m.types || (o in way && t' in o.types)) && t.name == t'.name
    ensures t == t'
  {
    hide Identity, Sorted;
    var i :| 0 <= i < |m.types| && m.types[i] == t;
    if o in way && t' in o.types {
      UnifiedIsLoaded(way, m.typeInitial[i], o, t');
    } else {
      var j :| 0 <= j < |m.types| && m.types[j] == t';
      UnifiedIs(way, m.typeInitial[i]);
      UnifiedIs(way, m.typeInitial[j]);
      SortedNames(m.typeInitial, i, j);
    }
  }

  lemma UnifiedIsLoaded(way: seq<ModuleInfo>, initial: TypeInfo, o: ModuleInfo, t: TypeInfo)
    requires Identity(way) && o in way && t in o.types && Unified(Tables(way), initial).name == t.name
    ensures Unified(Tables(way), initial) == t
  {
    UnifiedIs(way, initial);
    var o' :| o' in way && Unified(Tables(way), initial) in o'.types;
  }

  /** No name occurs twice in a sorted table. */
  lemma SortedNames(types: seq<TypeInfo>, i: nat, j: nat)
    requires Sorted(types) && i < |types| && j < |types| && types[i].name == types[j].name
    ensures i == j
  {
    CompareZero(types[i].name, types[j].name);
    CompareZero(types[j].name, types[i].name);
  }

  lemma RingWay(head: ModuleInfo, ring: seq<ModuleInfo>, m: ModuleInfo)
    requires Ring(head, ring) && (ring == [m] || (|ring| >= 2 && ring[1] == m))
    requires forall o :: o in ring && o != m ==> Sorted(o.types)
    ensures Others(m, WayRound(ring)) && m !in WayRound(ring)
    ensures forall o :: o in WayRound(ring) <==> o in ring && o != m
  {
    var way := WayRound(ring);
    if |ring| >= 2 {
      assert forall i {:trigger way[i]} :: 0 <= i < |way| - 1 ==> way[i] == ring[i + 2];
      assert ring[0] in ring && ring[1] in ring;
      assert forall o :: o in way <==> o in ring[2..] || o == ring[0];
      assert ring == [ring[0], ring[1]] + ring[2..];
      assert forall i {:trigger way[i]} :: 0 <= i < |way| ==> way[i] != m;
      forall i | 0 <= i < |way| - 1 ensures way[i].next == way[i + 1] { assert way[i] == ring[i + 2]; }
    }
  }

  lemma FilledKept(ring: seq<ModuleInfo>, lists: CastLists, lists': CastLists, names: Labels)
    requires AllFilled(ring, lists, names) && Fuller(lists, lists')
    ensures AllFilled(ring, lists', names)
  {
    forall o | o in ring ensures Filled(o, lists', names) {
      DeclaredKept(o.castInitial, o.types, |o.types|, lists, lists', names);
    }
  }

  lemma NewFilled(m: ModuleInfo, way: seq<ModuleInfo>, lists: CastLists, names: Labels)
    requires |m.typeInitial| == |m.castInitial| && Sorted(m.typeInitial) && TablesListed(way, lists)
    requires m.types == UnifiedAll(Tables(way), m.typeInitial) && forall t :: t in m.typeInitial ==> t in lists
    requires Declared(m.castInitial, m.types, |m.types|, lists, names)
    ensures Filled(m, lists, names)
  {
    forall i | 0 <= i < |m.types| ensures m.types[i].name == m.typeInitial[i].name && m.types[i] in lists {
      UnifiedIs(way, m.typeInitial[i]);
    }
  }

  lemma NewIdentity(m: ModuleInfo, way: seq<ModuleInfo>, ring: seq<ModuleInfo>)
    requires Identity(way) && Sorted(m.typeInitial) && m.types == UnifiedAll(Tables(way), m.typeInitial)
    requires forall o :: o in ring ==> o in way || o == m
    ensures Identity(ring)
  {
    forall o, o', t, t' | o in ring && o' in ring && t in o.types && t' in o'.types && t.name == t'.name
      ensures t == t'
    {
      if o == m {
        IdentityExtended(m, way, t, o', t');
      } else if o' == m {
        IdentityExtended(m, way, t', o, t);
      }
    }
  }

  lemma TablesOf(ring: seq<ModuleInfo>, lists: CastLists, names: Labels)
    requires AllFilled(ring, lists, names)
    ensures TablesListed(ring, lists) && forall o :: o in ring ==> Sorted(o.types)
  {}

  /** The same modules in another order. */
  lemma SameModules(ring: seq<ModuleInfo>, way: seq<ModuleInfo>, lists: CastLists, records: set<CastInfo>)
    requires forall o :: o in way <==> o in ring
    requires TablesListed(ring, lists) && Pristine(records, ring) && Identity(ring)
    ensures TablesListed(way, lists) && Pristine(records, way) && Identity(way)
  {
    forall n, i | n in records && 0 <= i < |way| ensures n.typ !in way[i].types {
      assert way[i] in way;
      var k :| 0 <= k < |ring| && ring[k] == way[i];
      assert Private(ring, n.typ);
    }
  }

  /** What follows once the module is in the ring: fill in its table, with the other modules on the way round. */
  method LoadJoined(m: ModuleInfo, ghost way: seq<ModuleInfo>, ghost ring: seq<ModuleInfo>, ghost lists: CastLists,
                    ghost names: Labels, ghost gen: Targets)
    returns (ghost lists': CastLists)
    requires Lists(lists) && Typed(names, lists.Keys) && Nodes(lists) + RowsOf(m) <= names.Keys
    requires RowsOf(m) !! Nodes(lists)
    requires AllFilled(ring, lists, names) && Identity(ring)
    requires Others(m, way) && m !in way && forall o :: o in way <==> o in ring
    requires m.types == [] && |m.typeInitial| == |m.castInitial| && Sorted(m.typeInitial) && RowsDistinct(m.castInitial)
    requires (forall t :: t in m.typeInitial ==> t in lists) && Pristine(RowsOf(m), ring)
    requires Genuine(RowsOf(m), gen)
    modifies m`types, lists.Keys`cast, lists.Keys`clientdata, Nodes(lists)`next, Nodes(lists)`prev
    modifies RowsOf(m)`typ, RowsOf(m)`next, RowsOf(m)`prev
    ensures Lists(lists') && Typed(names, lists.Keys) && Nodes(lists') <= Nodes(lists) + RowsOf(m)
    ensures Fuller(lists, lists')
    ensures AllFilled(ring, lists', names) && Filled(m, lists', names) && Identity(way + [m])
    ensures forall t :: t in lists && old(t.clientdata).Some? ==> t.clientdata.Some?
    ensures |m.types| == |m.typeInitial|
    ensures forall k :: 0 <= k < |m.types| && old(m.typeInitial[k].clientdata).Some? ==> m.types[k].clientdata.Some?
    ensures forall t :: t in m.types ==> t in m.typeInitial || exists o :: o in ring && t in o.types
    ensures m.types == UnifiedAll(old(Tables(way)), m.typeInitial)
    ensures RowsDone(old(Tables(way)), m.castInitial, m.types, m.typeInitial, |m.types|, names, gen, lists, lists')
  {
    hide Lists, Typed, Others, Filled, Identity, Pristine, Private, Sorted, Nodes, RowsFrom, Declared, Fuller,
         TablesListed, RowsDistinct, Genuine, RowsDone;
    TablesOf(ring, lists, names);
    SameModules(ring, way, lists, RowsOf(m));
    lists' := FillTypes(m, way, names, gen, lists);
    FullerKeys(lists, lists');
    FilledKept(ring, lists, lists', names);
    NewFilled(m, way, lists', names);
    NewIdentity(m, way, way + [m]);
    OldOrOwn(m, way);
  }

  lemma OldOrOwn(m: ModuleInfo, way: seq<ModuleInfo>)
    requires m.types == UnifiedAll(Tables(way), m.typeInitial)
    ensures forall t :: t in m.types ==> t in m.typeInitial || exists o :: o in way && t in o.types
  {
    forall t | t in m.types ensures t in m.typeInitial || exists o :: o in way && t in o.types {
      var i :| 0 <= i < |m.types| && m.types[i] == t;
      UnifiedIs(way, m.typeInitial[i]);
    }
  }

  /** What follows for a module that has just joined the ring. */
  method LoadNewcomer(head: ModuleInfo, m: ModuleInfo, ghost ring: seq<ModuleInfo>, ghost ring': seq<ModuleInfo>,
                      ghost lists: CastLists, ghost names: Labels)
    returns (ghost lists': CastLists)
    requires Lists(lists) && Typed(names, lists.Keys) && Nodes(lists) <= names.Keys && AllFilled(ring, lists, names)
    requires Identity(ring)
    requires m !in ring && ring' == (if ring == [] then [m] else [ring[0], m] + ring[1..]) && Ring(head, ring')
    requires m.types == [] && |m.typeInitial| == |m.castInitial| && Sorted(m.typeInitial) && RowsDistinct(m.castInitial)
    requires (forall t :: t in m.typeInitial ==> t in lists) && Pristine(RowsOf(m), ring)
    requires RowsOf(m) !! Nodes(lists) && RowsOf(m) <= names.Keys
    requires (forall n :: n in RowsOf(m) ==> n.typ in m.typeInitial) && RowsOf(m) !! AllRows(ring)
    requires (forall o, t :: o in ring && t in m.typeInitial ==> t !in o.types)
    requires AllDirected(ring, AllRows(ring), lists, names)
    modifies m`types, lists.Keys`cast, lists.Keys`clientdata, Nodes(lists)`next, Nodes(lists)`prev
    modifies RowsOf(m)`typ, RowsOf(m)`next, RowsOf(m)`prev
    ensures Runtime(head, ring', lists', names) && Fuller(lists, lists') && Nodes(lists') <= Nodes(lists) + RowsOf(m)
    ensures forall t :: t in lists && old(t.clientdata).Some? ==> t.clientdata.Some?
    ensures |m.types| == |m.typeInitial|
    ensures forall k :: 0 <= k < |m.types| && old(m.typeInitial[k].clientdata).Some? ==> m.types[k].clientdata.Some?
    ensures forall t :: t in m.types ==> t in m.typeInitial || exists o :: o in ring && t in o.types
    ensures EnteredExactly(m, lists, lists', names)
  {
    hide Lists, Typed, Others, Filled, Identity, Pristine, Private, Sorted;
    hide Nodes, RowsOf, Declared, Fuller, TablesListed, RowsDistinct, AllFilled, Ring, AllDirected, Directed,
         RowsDone, EnteredExactly, AllRows;
    ghost var others := AllRows(ring);
    RowsAllocated(ring);
    TablesOf(ring, lists, names);
    ghost var way := WayRound(ring');
    RingWay(head, ring', m);
    ghost var tables, gen := Tables(way), map c | c in RowsOf(m) :: c.typ;
    GeneratedTargets(m, way, names, gen, lists.Keys);
    lists' := LoadJoined(m, way, ring, lists, names, gen);
    FullerKeys(lists, lists');
    NewDirected(m, tables, names, gen, lists, lists');
    DirectedKept(ring, others, lists, lists', names);
    AllDirectedOf(ring, m, ring', lists', names);
    IdentityOf(way + [m], ring');
    AllFilledOf(ring, m, ring', lists', names);
  }

  /** `SWIG_InitializeModule` for one interpreter. */
  method InitializeModule(head: ModuleInfo?, m: ModuleInfo, ghost ring: seq<ModuleInfo>, ghost lists: CastLists,
                          ghost names: Labels)
    returns (head': ModuleInfo, ghost ring': seq<ModuleInfo>, ghost lists': CastLists)
    requires Runtime(head, ring, lists, names) && (m in ring || Generated(m, ring, lists, names))
    modifies m`types, m`next, ModuleSet(ring)`next, lists.Keys`cast, lists.Keys`clientdata, Nodes(lists)`next
    modifies Nodes(lists)`prev
    modifies RowsOf(m)`typ, RowsOf(m)`next, RowsOf(m)`prev
    ensures Runtime(head', ring', lists', names)
    ensures ring' == if m in ring then ring else if ring == [] then [m] else [ring[0], m] + ring[1..]
    ensures m in ring ==> lists' == lists && m.types == old(m.types)
    ensures m !in ring ==> Fuller(lists, lists') && Nodes(lists') <= Nodes(lists) + RowsOf(m)
    ensures m !in ring ==> forall t :: t in m.types ==> t in m.typeInitial || exists o :: o in ring && t in o.types
    ensures forall t :: t in lists && old(t.clientdata).Some? ==> t.clientdata.Some?
    ensures m !in ring ==> |m.types| == |m.typeInitial|
    ensures m !in ring ==> forall k ::
      0 <= k < |m.types| && old(m.typeInitial[k].clientdata).Some? ==> m.types[k].clientdata.Some?
    ensures forall o :: o in ring && o != m ==> o.types == old(o.types)
    ensures m !in ring ==> EnteredExactly(m, lists, lists', names)
  {
    hide Lists, Typed, Others, Filled, Identity, Pristine, Private, Sorted;
    hide Nodes, RowsOf, Declared, Fuller, TablesListed, RowsDistinct, AllFilled, Ring, AllDirected,
         EnteredExactly, AllRows;
    ghost var others := AllRows(ring);
    RowsAllocated(ring);
    if m in ring { InRing(head, ring, m); }
    TablesOf(ring, lists, names);
    var found;
    head', found, ring' := JoinRing(head, m, ring);
    lists' := lists;
    if !found {
      lists' := LoadNewcomer(head', m, ring, ring', lists, names);
    }
  }

  lemma AllDirectedOf(ring: seq<ModuleInfo>, m: ModuleInfo, ring': seq<ModuleInfo>, lists: CastLists, names: Labels)
    requires AllDirected(ring, AllRows(ring), lists, names) && Directed(m, RowsOf(m), lists, names)
    requires forall o :: o in ring' <==> o in ring || o == m
    ensures AllDirected(ring', AllRows(ring'), lists, names)
  {
    hide From, DirectedCast, RowsFrom;
    forall o | o in ring' ensures Directed(o, AllRows(ring'), lists, names) {
      assert o in ring ==> Directed(o, AllRows(ring), lists, names);
    }
  }

  lemma DirectedKept(ring: seq<ModuleInfo>, records: set<CastInfo>, lists: CastLists, lists': CastLists, names: Labels)
    requires AllDirected(ring, records, lists, names) && Fuller(lists, lists')
    ensures AllDirected(ring, records, lists', names)
  {
    forall o | o in ring ensures Directed(o, records, lists', names) {
      assert Directed(o, records, lists, names);
      forall k, c | 0 <= k < |o.castInitial| && c in o.castInitial[k]
        ensures exists i :: From(o, names, c, i) && DirectedCast(o, lists', k, i, c)
      {
        var i :| From(o, names, c, i) && DirectedCast(o, lists, k, i, c);
        if Own(o, k) || Own(o, i) {
          assert c in NodesOf(lists, o.types[k]) && c in NodesOf(lists', o.types[k]);
        }
        assert DirectedCast(o, lists', k, i, c);
      }
    }
  }

  /** What the generated records say of their types. */
  ghost predicate Proper(m: ModuleInfo, tables: seq<seq<TypeInfo>>, names: Labels, gen: Targets) {
    && (forall c :: c in RowsOf(m) ==> c in gen && c in names && gen[c] in m.typeInitial && gen[c].name == names[c])
    && (forall i :: 0 <= i < |m.typeInitial| ==> NamedOn(tables, m.typeInitial[i].name) != Some(m.typeInitial[i]))
  }

  lemma GeneratedTargets(m: ModuleInfo, way: seq<ModuleInfo>, names: Labels, gen: Targets, types: set<TypeInfo>)
    requires gen == (map c | c in RowsOf(m) :: c.typ) && Typed(names, types) && RowsOf(m) <= names.Keys
    requires forall c :: c in RowsOf(m) ==> c.typ in m.typeInitial
    requires forall o, t :: o in way && t in m.typeInitial ==> t !in o.types
    ensures Genuine(RowsOf(m), gen) && Proper(m, Tables(way), names, gen)
  {
    var tables := Tables(way);
    forall i | 0 <= i < |m.typeInitial| ensures NamedOn(tables, m.typeInitial[i].name) != Some(m.typeInitial[i]) {
      NamedOnName(tables, m.typeInitial[i].name);
      forall k | 0 <= k < |tables| ensures m.typeInitial[i] !in tables[k] {
        assert way[k] in way && tables[k] == way[k].types && m.typeInitial[i] in m.typeInitial;
      }
    }
  }

  /** In a new module's rows, between two adopted types: a record is entered exactly if the list had none of its name
      and none of that name comes earlier in the row. */
  ghost predicate EnteredExactly(m: ModuleInfo, lists: CastLists, lists': CastLists, names: Labels)
    reads m`types
  {
    forall k, j, i ::
      (0 <= k < |m.castInitial| && k < |m.types| && 0 <= j < |m.castInitial[k]| && !Own(m, k) && !Own(m, i)
       && From(m, names, m.castInitial[k][j], i)) ==>
        && m.types[k] in lists' && RowSet(m.castInitial[k]) <= names.Keys
        && (m.castInitial[k][j] in lists'[m.types[k]] <==>
              !HasCast(lists, names, m.types[k], names[m.castInitial[k][j]])
              && !NamedBefore(m.castInitial[k], j, names))
  }

  /** The target of a record in a new module, and whether the name was known. */
  lemma TargetOf(m: ModuleInfo, tables: seq<seq<TypeInfo>>, names: Labels, gen: Targets, c: CastInfo) returns (i: nat)
    requires Proper(m, tables, names, gen) && c in RowsOf(m)
    requires m.types == UnifiedAll(tables, m.typeInitial)
    ensures i < |m.typeInitial| == |m.types| && m.typeInitial[i] == gen[c] && From(m, names, c, i)
    ensures m.types[i] == Unified(tables, gen[c]) && (Own(m, i) <==> NamedOn(tables, names[c]).None?)
  {
    i :| 0 <= i < |m.typeInitial| && m.typeInitial[i] == gen[c];
  }

  lemma NewDirected(m: ModuleInfo, tables: seq<seq<TypeInfo>>, names: Labels, gen: Targets, lists: CastLists,
                    lists': CastLists)
    requires Proper(m, tables, names, gen) && m.types == UnifiedAll(tables, m.typeInitial)
    requires |m.typeInitial| == |m.castInitial| && Sorted(m.typeInitial)
    requires RowsDone(tables, m.castInitial, m.types, m.typeInitial, |m.types|, names, gen, lists, lists')
    ensures Directed(m, RowsOf(m), lists', names) && EnteredExactly(m, lists, lists', names)
  {
    hide Proper, HasCast, NamedBefore, Unified, Sorted;
    forall k, j | 0 <= k < |m.castInitial| && 0 <= j < |m.castInitial[k]|
      ensures exists i :: From(m, names, m.castInitial[k][j], i) && DirectedCast(m, lists', k, i, m.castInitial[k][j])
      ensures forall i :: From(m, names, m.castInitial[k][j], i) && !Own(m, k) && !Own(m, i) ==>
        && m.types[k] in lists' && RowSet(m.castInitial[k]) <= names.Keys
        && (m.castInitial[k][j] in lists'[m.types[k]] <==>
              !HasCast(lists, names, m.types[k], names[m.castInitial[k][j]])
              && !NamedBefore(m.castInitial[k], j, names))
    {
      NewCast(m, tables, names, gen, lists, lists', k, j);
    }
  }

  lemma NewCast(m: ModuleInfo, tables: seq<seq<TypeInfo>>, names: Labels, gen: Targets, lists: CastLists,
                lists': CastLists, k: nat, j: nat)
    requires Proper(m, tables, names, gen) && m.types == UnifiedAll(tables, m.typeInitial)
    requires |m.typeInitial| == |m.castInitial| && Sorted(m.typeInitial)
    requires k < |m.castInitial| && j < |m.castInitial[k]|
    requires RowsDone(tables, m.castInitial, m.types, m.typeInitial, |m.types|, names, gen, lists, lists')
    ensures exists i :: From(m, names, m.castInitial[k][j], i) && DirectedCast(m, lists', k, i, m.castInitial[k][j])
    ensures forall i :: From(m, names, m.castInitial[k][j], i) && !Own(m, k) && !Own(m, i) ==>
      && m.types[k] in lists' && RowSet(m.castInitial[k]) <= names.Keys
      && (m.castInitial[k][j] in lists'[m.types[k]] <==>
            !HasCast(lists, names, m.types[k], names[m.castInitial[k][j]])
            && !NamedBefore(m.castInitial[k], j, names))
  {
    var row, c := m.castInitial[k], m.castInitial[k][j];
    assert c in row && c in RowsOf(m);
    var i := TargetOf(m, tables, names, gen, c);
    assert RowDone(tables, m.types[k] == m.typeInitial[k], row, |row|, names, gen, m.types[k], lists, lists');
    hide HasCast, NamedBefore, Unified, Proper, RowsDone;
    assert Aimed(tables, Own(m, k), gen, c);
    assert EnteredIff(tables, Own(m, k), row, j, names, m.types[k], lists, lists');
    assert DirectedCast(m, lists', k, i, c);
    forall i' | From(m, names, c, i') ensures i' == i { SortedNames(m.typeInitial, i, i'); }
  }

  lemma RowsAllocated(ring: seq<ModuleInfo>)
    ensures forall c :: c in AllRows(ring) ==> allocated(c)
  {}

  lemma AllFilledOf(ring: seq<ModuleInfo>, m: ModuleInfo, ring': seq<ModuleInfo>, lists: CastLists, names: Labels)
    requires AllFilled(ring, lists, names) && Filled(m, lists, names) && forall o :: o in ring' ==> o in ring || o == m
    ensures AllFilled(ring', lists, names)
  {}

  lemma IdentityOf(ring: seq<ModuleInfo>, ring': seq<ModuleInfo>)
    requires Identity(ring) && forall o :: o in ring' ==> o in ring
    ensures Identity(ring')
  {}

  lemma InRing(head: ModuleInfo?, ring: seq<ModuleInfo>, m: ModuleInfo)
    requires Ring(head, ring) && m in ring
    ensures m.next != null
  {}

  // ----- queries in the loaded runtime -----

  /** The modules from the `i`-th round to before the `j`-th; all of them if the two are the same. */
  ghost function Arc(ring: seq<ModuleInfo>, i: nat, j: nat): seq<ModuleInfo>
    requires i < |ring| && j < |ring|
  {
    if i < j then ring[i..j] else ring[i..] + ring[..j]
  }

  /** From any module of the ring to any other, or once around, there is a way: every query ends. */
  lemma RingHasWay(head: ModuleInfo?, ring: seq<ModuleInfo>, i: nat, j: nat)
    requires Ring(head, ring) && i < |ring| && j < |ring|
    ensures Way(ring[i], ring[j], Arc(ring, i, j))
  {
    var way := Arc(ring, i, j);
    forall k {:trigger way[k].next} | 0 <= k < |way| - 1 ensures way[k].next == way[k + 1] {
      assert way[k] == if i + k < |ring| then ring[i + k] else ring[i + k - |ring|];
      assert way[k + 1] == if i + k + 1 < |ring| then ring[i + k + 1] else ring[i + k + 1 - |ring|];
    }
    forall k {:trigger way[k]} | 1 <= k < |way| ensures way[k] != ring[j] {
      assert way[k] == if i + k < |ring| then ring[i + k] else ring[i + k - |ring|];
    }
    var n := |way| - 1;
    assert way[n] == if j > 0 then ring[j - 1] else ring[|ring| - 1];
  }

  /** Asked once around from any module, the name of a loaded type is answered with that very type. */
  lemma LoadedIsFound(head: ModuleInfo?, ring: seq<ModuleInfo>, lists: CastLists, names: Labels, i: nat, m: ModuleInfo,
                      t: TypeInfo)
    requires Runtime(head, ring, lists, names) && i < |ring| && m in ring && t in m.types
    ensures var way := Arc(ring, i, i);
      Way(ring[i], ring[i], way) && (forall o :: o in way ==> Sorted(o.types))
        && NamedOn(Tables(way), t.name) == Some(t)
  {
    hide Lists, Typed, Nodes, Way;
    var way := Arc(ring, i, i);
    RingHasWay(head, ring, i, i);
    TablesOf(ring, lists, names);
    assert ring == ring[..i] + ring[i..];
    assert forall o :: o in way <==> o in ring;
    var tables := Tables(way);
    var k :| 0 <= k < |way| && way[k] == m;
    assert tables[k] == m.types;
    NamedOnFinds(tables, k, t);
    NamedOnName(tables, t.name);
    var found := NamedOn(tables, t.name).value;
    var k' :| 0 <= k' < |tables| && found in tables[k'];
    assert way[k'] in ring && found in way[k'].types;
  }

  // ----- casts in the loaded runtime -----

  /** Which structure a generated cast leads to: it is the one that stands for its type, and some module's table has it,
      exactly unless both types of the cast were adopted; then it is this module's own copy, which no table has. */
  lemma CastLeadsTo(head: ModuleInfo?, ring: seq<ModuleInfo>, lists: CastLists, names: Labels, m: ModuleInfo, k: nat,
                    i: nat, c: CastInfo)
    requires Runtime(head, ring, lists, names) && m in ring
    requires k < |m.castInitial| && c in m.castInitial[k] && From(m, names, c, i)
    ensures i < |m.types| && k < |m.types| == |m.typeInitial|
    ensures c.typ == m.types[i] <==> Own(m, k) || Own(m, i)
    ensures c.typ == m.types[i] ==> m.types[k] in lists && c in lists[m.types[k]]
    ensures c.typ == m.types[i] || c.typ == m.typeInitial[i]
    ensures (exists o :: o in ring && c.typ in o.types) <==> c.typ == m.types[i]
  {
    DirectedTo(m, AllRows(ring), lists, names, k, i, c);
    hide Lists, Typed, Ring, AllDirected, Declared, Sorted, Nodes, RowsFrom;
    assert Filled(m, lists, names) && m.types[i] in m.types;
    if o :| o in ring && c.typ in o.types {
      assert c.typ.name == m.typeInitial[i].name == m.types[i].name;
    }
  }

  lemma DirectedTo(m: ModuleInfo, records: set<CastInfo>, lists: CastLists, names: Labels, k: nat, i: nat, c: CastInfo)
    requires Directed(m, records, lists, names) && Sorted(m.types)
    requires forall j :: 0 <= j < |m.types| ==> m.types[j].name == m.typeInitial[j].name
    requires k < |m.castInitial| && c in m.castInitial[k] && From(m, names, c, i)
    ensures DirectedCast(m, lists, k, i, c)
  {
    var i' :| From(m, names, c, i') && DirectedCast(m, lists, k, i', c);
    SortedNames(m.types, i, i');
  }

  /** Casts in the rows of a module's own types lead to structures of its table, and their records are in those types'
      lists. */
  ghost predicate OwnCastsFound(m: ModuleInfo, lists: CastLists)
    reads m`types, RowsOf(m)`typ
  {
    forall k, c :: Own(m, k) && k < |m.castInitial| && c in m.castInitial[k] ==>
      c.typ in m.types && m.types[k] in lists && c in lists[m.types[k]]
  }

  lemma OwnCasts(head: ModuleInfo?, ring: seq<ModuleInfo>, lists: CastLists, names: Labels, m: ModuleInfo)
    requires Runtime(head, ring, lists, names) && m in ring
    ensures OwnCastsFound(m, lists)
  {
    hide Lists, Typed, Ring, AllFilled, Identity, Nodes, RowsFrom;
    assert Directed(m, AllRows(ring), lists, names);
    forall k, c | Own(m, k) && k < |m.castInitial| && c in m.castInitial[k]
      ensures c.typ in m.types && m.types[k] in lists && c in lists[m.types[k]]
    {
      var i :| From(m, names, c, i) && DirectedCast(m, lists, k, i, c);
      assert m.types[i] in m.types;
    }
  }

  /** Asking the list of a module's own type for the structure that stands for the type of one of its casts, by
      identity: a record of that structure is found. */
  method FindTarget(head: ModuleInfo?, m: ModuleInfo, k: nat, i: nat, ghost c: CastInfo, ghost ring: seq<ModuleInfo>,
                    ghost lists: CastLists, ghost names: Labels)
    returns (r: CastInfo?)
    requires Runtime(head, ring, lists, names) && m in ring && Own(m, k)
    requires k < |m.castInitial| && c in m.castInitial[k] && From(m, names, c, i)
    requires i < |m.types| && m.types[k] in lists
    modifies {m.types[k]}, NodesOf(lists, m.types[k])`next, NodesOf(lists, m.types[k])`prev
    ensures r != null && r in lists[m.types[k]] && r.typ == m.types[i]
  {
    hide Runtime, Lists, Linked, Own, From, Touched, Seek, TypesOf;
    CastLeadsTo(head, ring, lists, names, m, k, i, c);
    ListLinked(head, ring, lists, names, m.types[k]);
    ghost var nodes := lists[m.types[k]];
    Sought(nodes, c);
    r := TypeCheckStruct(m.types[i], m.types[k], nodes);
  }

  lemma ListLinked(head: ModuleInfo?, ring: seq<ModuleInfo>, lists: CastLists, names: Labels, ty: TypeInfo)
    requires Runtime(head, ring, lists, names) && ty in lists
    ensures Linked(ty.cast, lists[ty])
  {
    hide Typed, AllFilled, AllDirected, Identity, Ring, Linked;
  }

  lemma Sought(nodes: seq<CastInfo>, c: CastInfo)
    requires c in nodes
    ensures var at := Seek(TypesOf(nodes), c.typ); at < |nodes| && nodes[at].typ == c.typ
  {
    var j :| 0 <= j < |nodes| && nodes[j] == c;
    assert TypesOf(nodes)[j] == c.typ;
  }

  // ----- any sequence of modules -----

  /** Generated code shares no structure and no record between two modules. */
  ghost predicate Separate(m: ModuleInfo, o: ModuleInfo) {
    RowsOf(m) !! RowsOf(o) && forall t :: t in m.typeInitial ==> t !in o.typeInitial
  }

  /** A module still to come stays as generated: nothing the load touches is its own. */
  lemma StaysGenerated(o: ModuleInfo, m: ModuleInfo, ring: seq<ModuleInfo>, ring': seq<ModuleInfo>,
                       lists: CastLists, lists': CastLists, names: Labels)
    requires Generated(o, ring, lists, names) && o != m && Separate(m, o)
    requires forall x :: x in ring' ==> x in ring || x == m
    requires lists'.Keys == lists.Keys && Nodes(lists') <= Nodes(lists) + RowsOf(m)
    requires forall t :: t in m.types ==> t in m.typeInitial || exists x :: x in ring && t in x.types
    ensures Generated(o, ring', lists', names)
  {
    hide Nodes, RowsFrom, Sorted, RowsDistinct;
    assert forall t, x :: x in ring' && t in o.typeInitial ==> t !in x.types;
    forall n | n in RowsOf(o) ensures Private(ring', n.typ) {
      assert n.typ in o.typeInitial;
      forall i | 0 <= i < |ring'| ensures n.typ !in ring'[i].types { assert ring'[i] in ring'; }
    }
  }

  /** Every module still to come is loaded already or as generated. */
  ghost predicate Ready(o: ModuleInfo, ring: seq<ModuleInfo>, lists: CastLists, names: Labels)
    reads o`types, o`next, ring`types, RowsOf(o)
  {
    o in ring || Generated(o, ring, lists, names)
  }

  lemma GeneratedApart(o: ModuleInfo, m: ModuleInfo, ring: seq<ModuleInfo>, lists: CastLists, names: Labels)
    requires Generated(o, ring, lists, names) && Separate(m, o)
    ensures RowsOf(o) !! Nodes(lists) && RowsOf(o) !! RowsOf(m) && forall c :: c in RowsOf(o) ==> allocated(c)
  {
    hide Nodes, Sorted, RowsDistinct, Pristine, AllRows;
  }

  /** Load one module with others still to come. */
  method LoadNext(head: ModuleInfo?, m: ModuleInfo, ghost rest: set<ModuleInfo>, ghost ring: seq<ModuleInfo>,
                  ghost lists: CastLists, ghost names: Labels)
    returns (head': ModuleInfo, ghost ring': seq<ModuleInfo>, ghost lists': CastLists)
    requires Runtime(head, ring, lists, names) && Ready(m, ring, lists, names)
    requires forall o :: o in rest ==> Ready(o, ring, lists, names) && (o != m ==> Separate(m, o))
    modifies m`types, m`next, ModuleSet(ring)`next, lists.Keys`cast, lists.Keys`clientdata, Nodes(lists)`next
    modifies Nodes(lists)`prev
    modifies RowsOf(m)`typ, RowsOf(m)`next, RowsOf(m)`prev
    ensures Runtime(head', ring', lists', names) && lists'.Keys == lists.Keys
    ensures forall o :: o in ring' <==> o in ring || o == m
    ensures Nodes(lists') <= Nodes(lists) + RowsOf(m)
    ensures forall o :: o in rest ==> Ready(o, ring', lists', names)
  {
    hide Runtime, Nodes, RowsOf, Fuller, Generated, EnteredExactly, AllRows, Separate;
    forall o | o in rest && o !in ring && o != m
      ensures RowsOf(o) !! Nodes(lists) && RowsOf(o) !! RowsOf(m) && forall c :: c in RowsOf(o) ==> allocated(c)
    {
      GeneratedApart(o, m, ring, lists, names);
    }
    head', ring', lists' := InitializeModule(head, m, ring, lists, names);
    RingHas(ring, m, ring');
    FullerOrSame(lists, lists');
    forall o | o in rest ensures Ready(o, ring', lists', names) {
      if o !in ring && o != m {
        assert Generated(o, ring, lists, names);
        if m !in ring {
          StaysGenerated(o, m, ring, ring', lists, lists', names);
        }
      }
    }
  }

  lemma RingHas(ring: seq<ModuleInfo>, m: ModuleInfo, ring': seq<ModuleInfo>)
    requires ring' == if m in ring then ring else if ring == [] then [m] else [ring[0], m] + ring[1..]
    ensures forall o :: o in ring' <==> o in ring || o == m
  {
    if ring != [] { assert ring == [ring[0]] + ring[1..]; }
  }

  lemma FullerOrSame(lists: CastLists, lists': CastLists)
    requires lists' == lists || Fuller(lists, lists')
    ensures lists'.Keys == lists.Keys
  {}

  /** Loading any sequence of generated modules, repetitions included, ends with all of them in the ring, each once,
      with type identity, and with every declared cast found by name in the list of its unified type. */
  method LoadAll(modules: seq<ModuleInfo>, ghost lists: CastLists, ghost names: Labels)
    returns (head: ModuleInfo?, ghost ring: seq<ModuleInfo>, ghost lists': CastLists)
    requires Runtime(null, [], lists, names)
    requires forall m :: m in modules ==> Generated(m, [], lists, names)
    requires forall m, o :: m in modules && o in modules && m != o ==> Separate(m, o)
    modifies ModuleSet(modules)`types, ModuleSet(modules)`next, lists.Keys`cast, lists.Keys`clientdata
    modifies Nodes(lists)`next, Nodes(lists)`prev
    modifies AllRows(modules)`typ, AllRows(modules)`next, AllRows(modules)`prev
    ensures Runtime(head, ring, lists', names)
    ensures forall m :: m in ring <==> m in modules
    ensures forall m :: m in modules ==> OwnCastsFound(m, lists')
  {
    hide Runtime, Nodes, RowsOf, Generated, Separate, OwnCastsFound;
    head, ring, lists' := null, [], lists;
    var i := 0;
    while i < |modules|
      invariant 0 <= i <= |modules| && Runtime(head, ring, lists', names) && lists'.Keys == lists.Keys
      invariant forall m :: m in ring <==> m in modules[..i]
      invariant forall m :: m in modules ==> Ready(m, ring, lists', names)
      invariant Nodes(lists') <= Nodes(lists) + AllRows(modules)
    {
      assert modules[i] in modules && modules[..i + 1] == modules[..i] + [modules[i]];
      RowsAmong(modules, modules[i]);
      assert ModuleSet(ring) <= ModuleSet(modules);
      head, ring, lists' := LoadNext(head, modules[i], ModuleSet(modules), ring, lists', names);
      i := i + 1;
    }
    assert modules[..i] == modules;
    forall m | m in modules ensures OwnCastsFound(m, lists') { OwnCasts(head, ring, lists', names, m); }
  }

  lemma RowsAmong(modules: seq<ModuleInfo>, m: ModuleInfo)
    requires m in modules
    ensures RowsOf(m) <= AllRows(modules)
  {}
}
