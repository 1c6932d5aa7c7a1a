/** `SWIG_init`: load the module, then spread client data over the graph the load has built. */
module ModuleInit {
  import opened CastList
  import opened ModuleRing
  import opened Loader
  import Data = ClientData

  /** The graph of the records without a converter. */
  ghost function GraphOf(lists: CastLists): Data.Graph
    reads Nodes(lists)
  {
    assert forall t, n :: t in lists && n in lists[t] ==> n in Nodes(lists);
    map t | t in lists :: Data.FreeTargets(lists[t])
  }

  /** Whatever has been loaded, its lists are a graph that client data can be spread over. */
  lemma RuntimeRepresents(head: ModuleInfo?, ring: seq<ModuleInfo>, lists: CastLists, names: Labels)
    requires Runtime(head, ring, lists, names)
    ensures Data.Represents(lists, GraphOf(lists))
  {
    hide Linked;
    forall t, n | t in lists && n in lists[t] ensures n.typ in lists {
      assert n in Nodes(lists);
    }
  }

  lemma TablesInGraph(head: ModuleInfo?, ring: seq<ModuleInfo>, lists: CastLists, names: Labels, m: ModuleInfo)
    requires Runtime(head, ring, lists, names) && m in ring
    ensures forall t :: t in m.types ==> t in lists
  {
    assert Filled(m, lists, names);
    hide Declared;
  }

  lemma TargetsMarked(lists: CastLists, g: Data.Graph, m: Data.Marking, t: TypeInfo)
    requires Data.Represents(lists, g) && Data.NeighboursMarked(g, m, t)
    ensures t in lists && forall n :: n in lists[t] && !n.converter ==> n.typ in m && m[n.typ].Some?
  {
    forall n | n in lists[t] && !n.converter ensures n.typ in m && m[n.typ].Some? {
      assert n.typ in Data.FreeTargets(lists[t]);
    }
  }

  /** Loading a new module and then spreading data: the runtime is as it should be, no type has lost its data, each
      of the module's types has the data it was generated with or that of the type it stands for, and every record
      without a converter in the list of a type that has data leads to a type that has data. */
  method Init(head: ModuleInfo?, m: ModuleInfo, ghost ring: seq<ModuleInfo>, ghost lists: CastLists,
              ghost names: Labels)
    returns (head': ModuleInfo, ghost ring': seq<ModuleInfo>, ghost lists': CastLists)
    requires Runtime(head, ring, lists, names) && Generated(m, ring, lists, names)
    modifies m`types, m`next, ModuleSet(ring)`next, lists.Keys`cast, lists.Keys`clientdata, Nodes(lists)`next
    modifies Nodes(lists)`prev
    modifies RowsOf(m)`typ, RowsOf(m)`next, RowsOf(m)`prev
    ensures Runtime(head', ring', lists', names) && m in ring' && Fuller(lists, lists')
    ensures forall t :: t in lists && old(t.clientdata).Some? ==> t.clientdata.Some?
    ensures |m.types| == |m.typeInitial|
    ensures forall k :: 0 <= k < |m.types| && old(m.typeInitial[k].clientdata).Some? ==> m.types[k].clientdata.Some?
    ensures forall t :: t in m.types ==> t in lists'
    ensures forall t, n ::
      t in m.types && t.clientdata.Some? && n in lists'[t] && !n.converter ==> n.typ.clientdata.Some?
  {
    hide Lists, Typed, Ring, AllFilled, AllDirected, EnteredExactly, Identity, Generated, RowsOf, Nodes, Fuller, Linked,
         AllRows, Data.Represents,
         Data.NeighboursMarked;
    assert m !in ring by { NotLoadedYet(m, ring, lists, names); }
    head', ring', lists' := InitializeModule(head, m, ring, lists, names);
    FullerKeys(lists, lists');
    ghost var g := GraphOf(lists');
    RuntimeRepresents(head', ring', lists', names);
    assert m in ring';
    TablesInGraph(head', ring', lists', names, m);
    assert lists.Keys == g.Keys;
    RowsAllocated(ring');
    ghost var records := AllRows(ring');
    Spread(m, lists', g);
  }

  lemma NotLoadedYet(m: ModuleInfo, ring: seq<ModuleInfo>, lists: CastLists, names: Labels)
    requires Generated(m, ring, lists, names)
    ensures m !in ring
  {}

  /** The propagation, over the graph of the lists. */
  method Spread(m: ModuleInfo, ghost lists: CastLists, ghost g: Data.Graph)
    requires Data.Represents(lists, g) && g.Keys == lists.Keys && forall t :: t in m.types ==> t in lists
    modifies g.Keys`clientdata
    ensures Data.Represents(lists, g)
    ensures forall t :: t in lists && old(t.clientdata).Some? ==> t.clientdata == old(t.clientdata)
    ensures forall t, n ::
      t in m.types && t.clientdata.Some? && n in lists[t] && !n.converter ==> n.typ.clientdata.Some?
  {
    hide Data.Represents, Data.NeighboursMarked;
    ghost var m0 := Data.DataOf(g);
    var done := Data.PropagateClientData(m.types, false, lists, g);
    ghost var now := Data.DataOf(g);
    assert forall t :: t in lists ==> m0[t] == old(t.clientdata);
    forall t, n | t in m.types && t.clientdata.Some? && n in lists[t] && !n.converter ensures n.typ.clientdata.Some? {
      TargetsMarked(lists, g, now, t);
    }
  }
}
