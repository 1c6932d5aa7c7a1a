/** Spreading client data along converter-free casts: `SWIG_TypeClientData` and `SWIG_PropagateClientData`. */
module ClientData {
  import opened Lua
  import opened CastList

  /** The types that can stand in for each type without a converter. */
  type Graph = map<TypeInfo, set<TypeInfo>>

  /** The types of the records without a converter. */
  ghost function FreeTargets(nodes: seq<CastInfo>): set<TypeInfo>
    reads nodes
  {
    set n | n in nodes && !n.converter :: n.typ
  }

  /** The cast lists are well linked, and `g` is the graph of their converter-free records. */
  ghost predicate Represents(lists: CastLists, g: Graph)
    reads lists.Keys`cast, Nodes(lists)
  {
    && lists.Keys == g.Keys
    && (forall t, n :: t in lists && n in lists[t] ==> n in Nodes(lists))
    && (forall t :: t in lists ==> Linked(t.cast, lists[t]))
    && (forall t, n :: t in lists && n in lists[t] ==> n.typ in g)
    && (forall t :: t in g ==> g[t] == FreeTargets(lists[t]))
  }

  /** A type can pass data on to another exactly if its list has a record of the other that needs no converter. */
  lemma GraphIs(lists: CastLists, g: Graph, t: TypeInfo, c: TypeInfo)
    requires Represents(lists, g) && t in g
    ensures t in lists && (c in g[t] <==> exists n :: n in lists[t] && n.typ == c && !n.converter)
  {}

  type Marking = map<TypeInfo, Option<Data>>

  /** The client data of all types, as a value. */
  ghost function DataOf(g: Graph): Marking
    reads g.Keys`clientdata
  {
    map t | t in g :: t.clientdata
  }

  ghost function Unmarked(m: Marking): set<TypeInfo> {
    set t | t in m && m[t] == None
  }

  /** Closed under steps from a member to a neighbour among `free`. */
  ghost predicate Closed(g: Graph, free: set<TypeInfo>, within: set<TypeInfo>) {
    forall t, c :: t in within && t in g && c in g[t] && c in free ==> c in within
  }

  ghost predicate NeighboursMarked(g: Graph, m: Marking, t: TypeInfo) {
    t in g && forall c :: c in g[t] ==> c in m && m[c].Some?
  }

  /** Types that had no data in `m0` and have some in `m`. */
  ghost function Newly(m0: Marking, m: Marking): set<TypeInfo> {
    set t | t in m0 && t in m && m0[t] == None && m[t].Some?
  }

  /** From `m0` to `m`, `ti` was given `data`, types without data were given `data` or nothing, others were left alone;
      of the types given data, `ti` aside, all lie in `within` and have only neighbours with data. */
  ghost predicate Spreading(g: Graph, ti: TypeInfo, data: Data, m0: Marking, m: Marking, within: set<TypeInfo>) {
    && m0.Keys == m.Keys == g.Keys && ti in g && m[ti] == Some(data)
    && (forall t :: t in g && t != ti ==> m[t] == if t in Newly(m0, m) then Some(data) else m0[t])
    && (forall t :: t in Newly(m0, m) && t != ti ==> t in within && NeighboursMarked(g, m, t))
  }

  /** The same for `ti` too. */
  ghost predicate Spread(g: Graph, ti: TypeInfo, data: Data, m0: Marking, m: Marking, within: set<TypeInfo>) {
    Spreading(g, ti, data, m0, m, within) && ti in within && NeighboursMarked(g, m, ti)
  }

  /** No type loses its data. */
  ghost predicate Grows(m: Marking, m': Marking) {
    forall t :: t in m && m[t].Some? ==> t in m' && m'[t].Some?
  }

  /** The targets of the first `i` records without a converter have data. */
  ghost predicate Visited(nodes: seq<CastInfo>, i: nat, m: Marking)
    reads nodes
  {
    forall j :: 0 <= j < i && j < |nodes| && !nodes[j].converter ==> nodes[j].typ in m && m[nodes[j].typ].Some?
  }

  lemma NoneVisited(nodes: seq<CastInfo>, m: Marking)
    ensures Visited(nodes, 0, m)
  {}

  lemma VisitedMore(nodes: seq<CastInfo>, i: nat, m: Marking, m': Marking)
    requires Visited(nodes, i, m) && Grows(m, m') && i < |nodes|
    requires !nodes[i].converter ==> nodes[i].typ in m' && m'[nodes[i].typ].Some?
    ensures Visited(nodes, i + 1, m')
  {}

  lemma SpreadOn(g: Graph, ti: TypeInfo, tc: TypeInfo, data: Data, m0: Marking, m: Marking, m': Marking,
                 within: set<TypeInfo>)
    requires Spreading(g, ti, data, m0, m, within) && Spread(g, tc, data, m, m', within) && m[tc] == None
    ensures Spreading(g, ti, data, m0, m', within)
    ensures Grows(m, m')
    ensures m'[tc].Some?
  {
    forall t | t in Newly(m0, m') && t != ti ensures t in within && NeighboursMarked(g, m', t) {
      if t in Newly(m0, m) {
        assert NeighboursMarked(g, m, t);
      } else {
        assert t in Newly(m, m');
      }
    }
  }

  lemma ClosedForFewer(g: Graph, ti: TypeInfo, tc: TypeInfo, data: Data, m0: Marking, m: Marking, within: set<TypeInfo>)
    requires Spreading(g, ti, data, m0, m, within) && Closed(g, Unmarked(m0), within)
    requires ti in within && tc in g[ti] && tc in m && m[tc] == None
    ensures Closed(g, Unmarked(m), within) && tc in Unmarked(m) && Unmarked(m) <= Unmarked(m0) - {ti} && tc in within
  {}

  /** `SWIG_TypeClientData` with non-null data, on any cast graph, cyclic and self-cast ones included.
      `within` may be any set that contains `ti` and is closed under steps to types without data. */
  method TypeClientData(ti: TypeInfo, data: Data, ghost lists: CastLists, ghost g: Graph, ghost within: set<TypeInfo>)
    requires Represents(lists, g) && ti in g
    requires ti in within && Closed(g, Unmarked(DataOf(g)), within)
    modifies g.Keys`clientdata
    ensures Represents(lists, g)
    ensures Spread(g, ti, data, old(DataOf(g)), DataOf(g), within)
    decreases Unmarked(DataOf(g)) - {ti}, 1
  {
    hide Represents, Spreading, Closed, NeighboursMarked, Unmarked, Linked, Visited, Grows;
    ListOf(lists, g, ti);
    var cast := ti.cast;
    ghost var m0, nodes, i := DataOf(g), lists[ti], 0;
    Assign(ti, data, lists, g);
    ArgumentMarked(g, ti, data, m0, DataOf(g), within);
    HeadOf(nodes, cast);
    NoneVisited(nodes, DataOf(g));
    while cast != null
      invariant 0 <= i <= |nodes| && cast == (if i < |nodes| then nodes[i] else null)
      invariant Represents(lists, g) && Spreading(g, ti, data, m0, DataOf(g), within)
      invariant Visited(nodes, i, DataOf(g))
      decreases |nodes| - i
    {
      ghost var m := DataOf(g);
      SpreadingShrinks(g, ti, data, m0, m, within);
      VisitCast(cast, ti, data, lists, g, within, m0);
      VisitedMore(nodes, i, m, DataOf(g));
      ListOf(lists, g, ti);
      NextOf(nodes, ti.cast, i);
      cast := cast.next;
      i := i + 1;
    }
    AllVisited(lists, g, ti);
  }

  /** `ti->clientdata = clientdata`; client data has no part in the cast lists. */
  method Assign(ti: TypeInfo, data: Data, ghost lists: CastLists, ghost g: Graph)
    requires Represents(lists, g)
    modifies ti`clientdata
    ensures Represents(lists, g) && ti.clientdata == Some(data)
  {
    ti.clientdata := Some(data);
  }

  /** The body of the loop: follow a converter-free record to a type without data. */
  method VisitCast(cast: CastInfo, ghost ti: TypeInfo, data: Data, ghost lists: CastLists, ghost g: Graph,
                   ghost within: set<TypeInfo>, ghost m0: Marking)
    requires Represents(lists, g) && ti in lists && cast in lists[ti]
    requires Spreading(g, ti, data, m0, DataOf(g), within)
    requires ti in within && Closed(g, Unmarked(m0), within)
    modifies g.Keys`clientdata
    ensures Represents(lists, g)
    ensures Spreading(g, ti, data, m0, DataOf(g), within)
    ensures !cast.converter ==> cast.typ in g && cast.typ.clientdata.Some?
    ensures Grows(old(DataOf(g)), DataOf(g))
    decreases Unmarked(DataOf(g)), 0
  {
    SpreadingIn(g, ti, data, m0, DataOf(g), within);
    hide Represents, Spreading, Closed, NeighboursMarked, Unmarked;
    ListOf(lists, g, ti);
    if !cast.converter {
      var tc := cast.typ;
      if tc.clientdata == None {
        ghost var m := DataOf(g);
        ClosedForFewer(g, ti, tc, data, m0, m, within);
        TypeClientData(tc, data, lists, g, within);
        SpreadOn(g, ti, tc, data, m0, m, DataOf(g), within);
        assert DataOf(g)[tc].Some?;
      }
    }
  }

  lemma SpreadingShrinks(g: Graph, ti: TypeInfo, data: Data, m0: Marking, m: Marking, within: set<TypeInfo>)
    requires Spreading(g, ti, data, m0, m, within)
    ensures Unmarked(m) <= Unmarked(m0) - {ti}
  {}

  lemma SpreadingIn(g: Graph, ti: TypeInfo, data: Data, m0: Marking, m: Marking, within: set<TypeInfo>)
    requires Spreading(g, ti, data, m0, m, within)
    ensures ti in g && m.Keys == g.Keys
  {}

  lemma ListOf(lists: CastLists, g: Graph, t: TypeInfo)
    requires Represents(lists, g) && t in g
    ensures t in lists && Linked(t.cast, lists[t])
    ensures forall n :: n in lists[t] ==> n.typ in g && (!n.converter ==> n.typ in g[t])
  {}

  lemma HeadOf(nodes: seq<CastInfo>, head: CastInfo?)
    requires Linked(head, nodes)
    ensures head == if nodes == [] then null else nodes[0]
  {}

  lemma NextOf(nodes: seq<CastInfo>, head: CastInfo?, i: nat)
    requires Linked(head, nodes) && i < |nodes|
    ensures nodes[i].next == if i + 1 < |nodes| then nodes[i + 1] else null
  {}

  lemma ArgumentMarked(g: Graph, ti: TypeInfo, data: Data, m0: Marking, m: Marking, within: set<TypeInfo>)
    requires m0.Keys == g.Keys && ti in g && m == m0[ti := Some(data)]
    ensures Spreading(g, ti, data, m0, m, within)
  {}

  lemma AllVisited(lists: CastLists, g: Graph, t: TypeInfo)
    requires Represents(lists, g) && t in g
    requires t in lists && Visited(lists[t], |lists[t]|, DataOf(g))
    ensures NeighboursMarked(g, DataOf(g), t)
  {
    forall c | c in g[t] ensures c in g && c.clientdata.Some? {
      var n :| n in lists[t] && !n.converter && n.typ == c;
    }
  }

  /** The types given data are the least set around `ti` closed under steps to types that had none. */
  lemma MarkedIsLeast(g: Graph, ti: TypeInfo, data: Data, m0: Marking, m: Marking, within: set<TypeInfo>)
    requires Spread(g, ti, data, m0, m, within)
    ensures var marked := Newly(m0, m) + {ti};
      && Closed(g, Unmarked(m0), marked) && marked <= within
      && (forall t :: t in marked ==> m[t] == Some(data))
      && (forall t :: t in g && t !in marked ==> m[t] == m0[t])
  {
    var marked := Newly(m0, m) + {ti};
    forall t, c | t in marked && t in g && c in g[t] && c in Unmarked(m0) ensures c in marked {
      assert NeighboursMarked(g, m, t);
    }
  }

  // ----- with null data -----

  /** `SWIG_TypeClientData(t, 0)` returns with its calls nested at most this deep; `free` are the types without data,
      `t` among them, and stays what it is since null data marks nothing. */
  ghost predicate ReturnsWithin(g: Graph, free: set<TypeInfo>, t: TypeInfo, calls: nat)
    decreases calls
  {
    calls > 0 && t in g && forall c :: c in g[t] && c in free ==> ReturnsWithin(g, free, c, calls - 1)
  }

  /** Every cast leads to a type of the graph. */
  ghost predicate Complete(g: Graph) {
    forall t, c :: t in g && c in g[t] ==> c in g
  }

  ghost predicate Walk(g: Graph, free: set<TypeInfo>, p: seq<TypeInfo>) {
    p != [] && forall i {:trigger p[i]} :: 0 <= i < |p| - 1 ==> p[i] in g && p[i + 1] in g[p[i]] && p[i + 1] in free
  }

  /** A walk from `t` over types without data that comes back to where it has been. */
  ghost predicate Loop(g: Graph, free: set<TypeInfo>, t: TypeInfo, p: seq<TypeInfo>) {
    Walk(g, free, p) && p[0] == t && exists i :: 0 <= i < |p| - 1 && p[i] == p[|p| - 1]
  }

  lemma {:induction false} WalkBounded(g: Graph, free: set<TypeInfo>, p: seq<TypeInfo>, calls: nat)
    requires Walk(g, free, p) && ReturnsWithin(g, free, p[0], calls)
    ensures |p| <= calls
    decreases |p|
  {
    hide Walk;
    if |p| > 1 {
      WalkOn(g, free, p);
      WalkBounded(g, free, p[1..], calls - 1);
    }
  }

  lemma WalkOn(g: Graph, free: set<TypeInfo>, p: seq<TypeInfo>)
    requires Walk(g, free, p) && |p| > 1
    ensures p[0] in g && p[1] in g[p[0]] && p[1] in free && Walk(g, free, p[1..])
  {
    var q := p[1..];
    assert p[0] in g && p[0 + 1] in free;
    forall i {:trigger q[i]} | 0 <= i < |q| - 1 ensures q[i] in g && q[i + 1] in g[q[i]] && q[i + 1] in free {
      assert q[i] == p[i + 1] && q[i + 1] == p[i + 1 + 1];
    }
  }

  /** A loop can be walked once more. */
  lemma OnceMore(g: Graph, free: set<TypeInfo>, p: seq<TypeInfo>, i: nat)
    requires Walk(g, free, p) && i < |p| - 1 && p[i] == p[|p| - 1]
    ensures var q := p + p[i + 1..];
      Walk(g, free, q) && q[0] == p[0] && |q| > |p| && q[i] == q[|q| - 1]
  {
    var q := p + p[i + 1..];
    forall k {:trigger q[k]} | 0 <= k < |q| - 1 ensures q[k] in g && q[k + 1] in g[q[k]] && q[k + 1] in free {
      var m := if k < |p| - 1 then k else k - |p| + i + 1;
      assert q[k] == p[m] && q[k + 1] == p[m + 1];
    }
  }

  lemma {:induction false} LoopDiverges(g: Graph, free: set<TypeInfo>, p: seq<TypeInfo>, i: nat, calls: nat)
    requires Walk(g, free, p) && i < |p| - 1 && p[i] == p[|p| - 1] && |p| <= calls + 1
    ensures !ReturnsWithin(g, free, p[0], calls)
    decreases calls + 1 - |p|
  {
    if ReturnsWithin(g, free, p[0], calls) {
      WalkBounded(g, free, p, calls);
      OnceMore(g, free, p, i);
      var q := p + p[i + 1..];
      WalkBounded(g, free, q, calls);
      LoopDiverges(g, free, q, i, calls);
    }
  }

  lemma {:induction false} DistinctTypes(p: seq<TypeInfo>, all: set<TypeInfo>)
    requires (forall i, j :: 0 <= i < j < |p| ==> p[i] != p[j]) && forall i :: 0 <= i < |p| ==> p[i] in all
    ensures |p| <= |all|
    decreases |p|
  {
    if p != [] {
      var n := |p| - 1;
      DistinctTypes(p[..n], all - {p[n]});
    }
  }

  /** Without loops a walk never meets a type twice, so it is no longer than there are types. */
  lemma {:induction false} NoLoopReturns(g: Graph, free: set<TypeInfo>, p: seq<TypeInfo>)
    requires Complete(g) && Walk(g, free, p) && p[0] in g && forall q: seq<TypeInfo> :: !Loop(g, free, p[0], q)
    requires forall i, j :: 0 <= i < j < |p| ==> p[i] != p[j]
    ensures |p| <= |g| && ReturnsWithin(g, free, p[|p| - 1], |g| + 1 - |p|)
    decreases |g| - |p|
  {
    var last := p[|p| - 1];
    WalkInside(g, free, p);
    DistinctTypes(p, g.Keys);
    assert |g| == |g.Keys|;
    forall c | c in g[last] && c in free ensures ReturnsWithin(g, free, c, |g| - |p|) {
      var q := p + [c];
      assert c !in p by {
        if c in p { BackIsLoop(g, free, p, c); }
      }
      WalkExtended(g, free, p, c);
      NoLoopReturns(g, free, q);
    }
  }

  lemma BackIsLoop(g: Graph, free: set<TypeInfo>, p: seq<TypeInfo>, c: TypeInfo)
    requires Walk(g, free, p) && p[|p| - 1] in g && c in g[p[|p| - 1]] && c in free && c in p
    ensures Loop(g, free, p[0], p + [c])
  {
    WalkExtended(g, free, p, c);
    var q := p + [c];
    var i :| 0 <= i < |p| && p[i] == c;
    assert q[i] == q[|q| - 1];
  }

  lemma WalkExtended(g: Graph, free: set<TypeInfo>, p: seq<TypeInfo>, c: TypeInfo)
    requires Walk(g, free, p) && p[|p| - 1] in g && c in g[p[|p| - 1]] && c in free
    ensures Walk(g, free, p + [c])
  {
    var q := p + [c];
    forall k {:trigger q[k]} | 0 <= k < |q| - 1 ensures q[k] in g && q[k + 1] in g[q[k]] && q[k + 1] in free {
      assert q[k] == p[k] && q[k + 1] == if k + 1 < |p| then p[k + 1] else c;
    }
  }

  lemma {:induction false} WalkInside(g: Graph, free: set<TypeInfo>, p: seq<TypeInfo>)
    requires Complete(g) && Walk(g, free, p) && p[0] in g
    ensures forall i :: 0 <= i < |p| ==> p[i] in g
  {
    forall i | 0 <= i < |p| ensures p[i] in g {
      if i > 0 { assert p[i - 1] in g && p[i - 1 + 1] in g[p[i - 1]]; }
    }
  }

  /** With null data the recursion ends exactly when no loop of types without data can be reached, self casts
      included. */
  lemma NullDataReturnsIff(g: Graph, free: set<TypeInfo>, t: TypeInfo)
    requires Complete(g) && t in g
    ensures (exists calls: nat :: ReturnsWithin(g, free, t, calls)) <==> forall p: seq<TypeInfo> :: !Loop(g, free, t, p)
  {
    if calls: nat :| ReturnsWithin(g, free, t, calls) {
      forall p: seq<TypeInfo> ensures !Loop(g, free, t, p) {
        if Loop(g, free, t, p) {
          var i :| 0 <= i < |p| - 1 && p[i] == p[|p| - 1];
          WalkBounded(g, free, p, calls);
          LoopDiverges(g, free, p, i, calls);
        }
      }
    }
    if forall p: seq<TypeInfo> :: !Loop(g, free, t, p) {
      assert [t][0] == t && Walk(g, free, [t]);
      NoLoopReturns(g, free, [t]);
      assert ReturnsWithin(g, free, t, |g|);
    }
  }

  /** The same loop with null data, cut off when its calls are nested deeper than `calls`; no data is added, and the
      argument loses its own. */
  method TypeClientDataNull(ti: TypeInfo, calls: nat, ghost lists: CastLists, ghost g: Graph, ghost m: Marking)
    returns (returned: bool)
    requires Represents(lists, g) && ti in g && m == DataOf(g)[ti := None]
    modifies g.Keys`clientdata
    ensures Represents(lists, g) && DataOf(g) == if calls > 0 then m else old(DataOf(g))
    ensures returned <==> ReturnsWithin(g, Unmarked(m), ti, calls)
    decreases calls, 0
  {
    hide Represents, Linked, ReturnsWithin, Unmarked, FreeTargets;
    if calls == 0 {
      NoCallsNoReturn(g, Unmarked(m), ti);
      return false;
    }
    ListOf(lists, g, ti);
    var cast := ti.cast;
    ghost var nodes, i := lists[ti], 0;
    Clear(ti, lists, g);
    HeadOf(nodes, cast);
    while cast != null
      invariant 0 <= i <= |nodes| && cast == (if i < |nodes| then nodes[i] else null)
      invariant Represents(lists, g) && DataOf(g) == m
      invariant Returned(g, Unmarked(m), nodes, i, calls - 1)
      decreases |nodes| - i
    {
      ListOf(lists, g, ti);
      var inner := NullVisit(cast, ti, calls - 1, lists, g, m);
      if !inner {
        OneDoesNot(lists, g, Unmarked(m), ti, cast, calls);
        return false;
      }
      ListOf(lists, g, ti);
      NextOf(nodes, ti.cast, i);
      cast := cast.next;
      i := i + 1;
    }
    ListOf(lists, g, ti);
    AllReturn(lists, g, Unmarked(m), ti, calls);
    returned := true;
  }

  /** The body of that loop. */
  method NullVisit(cast: CastInfo, ghost ti: TypeInfo, calls: nat, ghost lists: CastLists, ghost g: Graph,
                   ghost m: Marking)
    returns (returned: bool)
    requires Represents(lists, g) && ti in lists && cast in lists[ti] && DataOf(g) == m
    modifies g.Keys`clientdata
    ensures Represents(lists, g) && DataOf(g) == m
    ensures returned <==> !cast.converter && cast.typ in Unmarked(m) ==> ReturnsWithin(g, Unmarked(m), cast.typ, calls)
    decreases calls, 1
  {
    hide Linked, ReturnsWithin, FreeTargets;
    returned := true;
    if !cast.converter && cast.typ.clientdata == None {
      assert m[cast.typ] == None && m[cast.typ := None] == m;
      returned := TypeClientDataNull(cast.typ, calls, lists, g, m);
    }
  }

  /** The first `i` records without a converter lead to types on which the call returns. */
  ghost predicate Returned(g: Graph, free: set<TypeInfo>, nodes: seq<CastInfo>, i: nat, calls: nat)
    reads nodes
  {
    i <= |nodes| &&
    forall k :: 0 <= k < i && !nodes[k].converter && nodes[k].typ in free
      ==> ReturnsWithin(g, free, nodes[k].typ, calls)
  }

  lemma NoCallsNoReturn(g: Graph, free: set<TypeInfo>, t: TypeInfo)
    ensures !ReturnsWithin(g, free, t, 0)
  {}

  lemma OneDoesNot(lists: CastLists, g: Graph, free: set<TypeInfo>, t: TypeInfo, cast: CastInfo, calls: nat)
    requires Represents(lists, g) && t in g && t in lists && cast in lists[t] && calls > 0
    requires !cast.converter && cast.typ in free && !ReturnsWithin(g, free, cast.typ, calls - 1)
    ensures !ReturnsWithin(g, free, t, calls)
  {
    assert cast.typ in g[t];
  }

  method Clear(ti: TypeInfo, ghost lists: CastLists, ghost g: Graph)
    requires Represents(lists, g) && ti in g
    modifies ti`clientdata
    ensures Represents(lists, g) && DataOf(g) == old(DataOf(g))[ti := None]
  {
    ti.clientdata := None;
  }

  lemma AllReturn(lists: CastLists, g: Graph, free: set<TypeInfo>, t: TypeInfo, calls: nat)
    requires Represents(lists, g) && t in g && t in lists && calls > 0
    requires Returned(g, free, lists[t], |lists[t]|, calls - 1)
    ensures ReturnsWithin(g, free, t, calls)
  {
    forall c | c in g[t] && c in free ensures ReturnsWithin(g, free, c, calls - 1) {
      var n :| n in lists[t] && !n.converter && n.typ == c;
      var k :| 0 <= k < |lists[t]| && lists[t][k] == n;
    }
  }

  // ----- SWIG_PropagateClientData -----

  /** Data is only added, and every type that received some has only neighbours with data. */
  ghost predicate Filled(g: Graph, m0: Marking, m: Marking) {
    && m0.Keys == m.Keys == g.Keys
    && (forall t :: t in g && m0[t].Some? ==> m[t] == m0[t])
    && (forall t :: t in Newly(m0, m) ==> NeighboursMarked(g, m, t))
  }

  lemma FilledMore(g: Graph, tc: TypeInfo, data: Data, m0: Marking, m: Marking, m': Marking, within: set<TypeInfo>)
    requires Filled(g, m0, m) && Spread(g, tc, data, m, m', within) && m[tc] == None
    ensures Filled(g, m0, m') && Grows(m, m') && m'[tc].Some?
  {
    forall t | t in Newly(m0, m') ensures NeighboursMarked(g, m', t) {
      if t in Newly(m0, m) {
        assert NeighboursMarked(g, m, t);
      } else {
        assert t in Newly(m, m');
      }
    }
  }

  lemma AllIsClosed(g: Graph, m: Marking)
    requires m.Keys == g.Keys
    ensures Closed(g, Unmarked(m), g.Keys)
  {}

  /** The inner loop: spread the data of one type over its converter-free neighbours without data. */
  method PropagateType(ty: TypeInfo, ghost lists: CastLists, ghost g: Graph, ghost m0: Marking)
    requires Represents(lists, g) && ty in g && Filled(g, m0, DataOf(g)) && ty.clientdata.Some?
    modifies g.Keys`clientdata
    ensures Represents(lists, g) && Filled(g, m0, DataOf(g)) && Grows(old(DataOf(g)), DataOf(g))
    ensures NeighboursMarked(g, DataOf(g), ty)
  {
    hide Represents, Spread, NeighboursMarked, Unmarked, Closed, Linked, Visited, Filled;
    ListOf(lists, g, ty);
    var equiv := ty.cast;
    ghost var nodes, i, start := lists[ty], 0, DataOf(g);
    HeadOf(nodes, equiv);
    NoneVisited(nodes, DataOf(g));
    while equiv != null
      invariant 0 <= i <= |nodes| && equiv == (if i < |nodes| then nodes[i] else null)
      invariant Represents(lists, g) && Filled(g, m0, DataOf(g)) && Grows(start, DataOf(g)) && ty.clientdata.Some?
      invariant Visited(nodes, i, DataOf(g))
      decreases |nodes| - i
    {
      ghost var m := DataOf(g);
      ListOf(lists, g, ty);
      if !equiv.converter && equiv.typ.clientdata == None {
        var tc := equiv.typ;
        ghost var data := ty.clientdata.value;
        AllIsClosed(g, m);
        TypeClientData(tc, ty.clientdata.value, lists, g, g.Keys);
        FilledMore(g, tc, data, m0, m, DataOf(g), g.Keys);
      }
      VisitedMore(nodes, i, m, DataOf(g));
      ListOf(lists, g, ty);
      NextOf(nodes, ty.cast, i);
      equiv := equiv.next;
      i := i + 1;
    }
    AllVisited(lists, g, ty);
  }

  /** `SWIG_PropagateClientData`, run once: every type of the module with data passes it on; none loses or changes
      it. */
  method PropagateClientData(types: seq<TypeInfo>, initRun: bool, ghost lists: CastLists, ghost g: Graph)
    returns (initRun': bool)
    requires Represents(lists, g) && forall t :: t in types ==> t in g
    modifies g.Keys`clientdata
    ensures initRun' && Represents(lists, g)
    ensures initRun ==> DataOf(g) == old(DataOf(g))
    ensures !initRun ==> Filled(g, old(DataOf(g)), DataOf(g))
    ensures !initRun ==> forall t :: t in types && t.clientdata.Some? ==> NeighboursMarked(g, DataOf(g), t)
  {
    hide Represents, NeighboursMarked;
    initRun' := true;
    if initRun { return; }
    ghost var m0 := DataOf(g);
    var i := 0;
    while i < |types|
      invariant 0 <= i <= |types| && Represents(lists, g) && Filled(g, m0, DataOf(g))
      invariant forall j :: 0 <= j < i && types[j].clientdata.Some? ==> NeighboursMarked(g, DataOf(g), types[j])
    {
      ghost var m := DataOf(g);
      assert types[i] in types;
      if types[i].clientdata.Some? {
        PropagateType(types[i], lists, g, m0);
        StillMarked(g, m0, m, DataOf(g), types[..i]);
      }
      i := i + 1;
    }
  }

  /** Types that had passed their data on still have, and so have types that received data since. */
  lemma StillMarked(g: Graph, m0: Marking, m: Marking, m': Marking, done: seq<TypeInfo>)
    requires Filled(g, m0, m) && Filled(g, m0, m') && Grows(m, m')
    requires forall t :: t in done ==> t in g && (m[t].Some? ==> NeighboursMarked(g, m, t))
    ensures forall t :: t in done && m'[t].Some? ==> NeighboursMarked(g, m', t)
  {
    forall t | t in done && m'[t].Some? ensures NeighboursMarked(g, m', t) {
      if m[t].Some? {
        assert NeighboursMarked(g, m, t);
      } else {
        assert t in Newly(m0, m');
      }
    }
  }
}
