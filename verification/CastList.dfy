/** Types and their cast lists: linked records the runtime relinks in place, each found cast moving to the front. */
module CastList {
  import opened Lua
  import opened TypeNames

  /** Language-specific data attached to a type. */
  type Data = nat

  class CastInfo {
    var typ: TypeInfo
    const converter: bool
    var next: CastInfo?
    var prev: CastInfo?

    constructor (typ: TypeInfo, converter: bool)
      ensures this.typ == typ && this.converter == converter && next == null && prev == null
    {
      this.typ := typ;
      this.converter := converter;
      next, prev := null, null;
    }
  }

  class TypeInfo {
    const name: Name
    const str: Option<Name>
    var cast: CastInfo?
    var clientdata: Option<Data>

    constructor (name: Name, str: Option<Name>, clientdata: Option<Data>)
      ensures this.name == name && this.str == str && this.clientdata == clientdata && cast == null
    {
      this.name := name;
      this.str := str;
      this.clientdata := clientdata;
      cast := null;
    }
  }

  /** Each type's cast records, in list order. */
  type CastLists = map<TypeInfo, seq<CastInfo>>

  ghost function Nodes(lists: CastLists): set<CastInfo> {
    set t, n | t in lists && n in lists[t] :: n
  }

  ghost predicate Distinct(nodes: seq<CastInfo>) {
    forall i, j :: 0 <= i < j < |nodes| ==> nodes[i] != nodes[j]
  }

  /** `nodes` are the records of a proper doubly linked list starting at `head`, in order. */
  ghost predicate Linked(head: CastInfo?, nodes: seq<CastInfo>)
    reads nodes
  {
    && Distinct(nodes)
    && head == (if nodes == [] then null else nodes[0])
    && (forall i {:trigger nodes[i].next} ::
      0 <= i < |nodes| ==> nodes[i].next == if i + 1 < |nodes| then nodes[i + 1] else null)
    && (forall i {:trigger nodes[i].prev} :: 0 <= i < |nodes| ==> nodes[i].prev == if i > 0 then nodes[i - 1] else null)
  }

  function MoveToFront<T>(s: seq<T>, i: nat): seq<T>
    requires i < |s|
  {
    [s[i]] + s[..i] + s[i + 1..]
  }

  lemma MoveToFrontAt<T>(s: seq<T>, i: nat)
    requires i < |s|
    ensures |MoveToFront(s, i)| == |s|
    ensures forall k ::
      0 <= k < |s| ==> MoveToFront(s, i)[k] == if k == 0 then s[i] else if k <= i then s[k - 1] else s[k]
  {}

  /** The relinking both lookups share: record `i` becomes the head, the others keep their order. */
  method Relink(ty: TypeInfo, iter: CastInfo, ghost nodes: seq<CastInfo>, ghost i: nat)
    requires Linked(ty.cast, nodes) && 0 < i < |nodes| && nodes[i] == iter
    modifies ty`cast, nodes`next, nodes`prev
    ensures Linked(ty.cast, MoveToFront(nodes, i))
  {
    MoveToFrontAt(nodes, i);
    hide MoveToFront;
    iter.prev.next := iter.next;
    if iter.next != null {
      iter.next.prev := iter.prev;
    }
    iter.next := ty.cast;
    iter.prev := null;
    if ty.cast != null {
      ty.cast.prev := iter;
    }
    ty.cast := iter;
  }

  /** The names of the types the records cast from. */
  ghost function NamesOf(nodes: seq<CastInfo>): seq<Name>
    reads nodes
  {
    seq(|nodes|, i requires 0 <= i < |nodes| reads nodes => nodes[i].typ.name)
  }

  ghost function TypesOf(nodes: seq<CastInfo>): seq<TypeInfo>
    reads nodes
  {
    seq(|nodes|, i requires 0 <= i < |nodes| reads nodes => nodes[i].typ)
  }

  /** Position of the first `k`, or the length. */
  ghost function Seek<K>(keys: seq<K>, k: K): (r: nat)
    ensures r <= |keys| && (r < |keys| ==> keys[r] == k) && forall j :: 0 <= j < r ==> keys[j] != k
    ensures r == |keys| <==> k !in keys
  {
    if keys == [] || keys[0] == k then 0 else 1 + Seek(keys[1..], k)
  }

  /** The list after a lookup of `k`. */
  ghost function Touched<T, K>(list: seq<T>, keys: seq<K>, k: K): seq<T>
    requires |keys| == |list|
  {
    if k in keys then MoveToFront(list, Seek(keys, k)) else list
  }

  lemma {:induction false} SeekIs<K>(keys: seq<K>, k: K, r: nat)
    requires r < |keys| && keys[r] == k && forall j :: 0 <= j < r ==> keys[j] != k
    ensures Seek(keys, k) == r
  {
    if r > 0 { SeekIs(keys[1..], k, r - 1); }
  }

  /** The loop of `SWIG_TypeCheck`: the first record whose type has this name, moved to the front; null if there is
      none. */
  method FindByName(c: Name, ty: TypeInfo, ghost nodes: seq<CastInfo>) returns (r: CastInfo?)
    requires Linked(ty.cast, nodes)
    modifies ty`cast, nodes`next, nodes`prev
    ensures Linked(ty.cast, Touched(nodes, old(NamesOf(nodes)), c))
    ensures r == var i := Seek(old(NamesOf(nodes)), c); if i < |nodes| then nodes[i] else null
  {
    var iter := ty.cast;
    ghost var i := 0;
    while iter != null
      invariant 0 <= i <= |nodes| && iter == (if i < |nodes| then nodes[i] else null)
      invariant forall j :: 0 <= j < i ==> NamesOf(nodes)[j] != c
      invariant Linked(ty.cast, nodes) && NamesOf(nodes) == old(NamesOf(nodes))
      decreases |nodes| - i
    {
      CompareZero(iter.typ.name, c);
      if Compare(iter.typ.name, c) == 0 {
        SeekIs(NamesOf(nodes), c, i);
        if iter != ty.cast {
          Relink(ty, iter, nodes, i);
        } else {
          assert MoveToFront(nodes, 0) == nodes;
        }
        return iter;
      }
      iter := iter.next;
      i := i + 1;
    }
    r := null;
  }

  /** The loop of `SWIG_TypeCheckStruct`: the same with the type record itself compared. */
  method FindByType(from: TypeInfo, ty: TypeInfo, ghost nodes: seq<CastInfo>) returns (r: CastInfo?)
    requires Linked(ty.cast, nodes)
    modifies ty`cast, nodes`next, nodes`prev
    ensures Linked(ty.cast, Touched(nodes, old(TypesOf(nodes)), from))
    ensures r == var i := Seek(old(TypesOf(nodes)), from); if i < |nodes| then nodes[i] else null
  {
    var iter := ty.cast;
    ghost var i := 0;
    while iter != null
      invariant 0 <= i <= |nodes| && iter == (if i < |nodes| then nodes[i] else null)
      invariant forall j :: 0 <= j < i ==> TypesOf(nodes)[j] != from
      invariant Linked(ty.cast, nodes) && TypesOf(nodes) == old(TypesOf(nodes))
      decreases |nodes| - i
    {
      if iter.typ == from {
        SeekIs(TypesOf(nodes), from, i);
        if iter != ty.cast {
          Relink(ty, iter, nodes, i);
        } else {
          assert MoveToFront(nodes, 0) == nodes;
        }
        return iter;
      }
      iter := iter.next;
      i := i + 1;
    }
    r := null;
  }

  /** `SWIG_TypeCheck`. */
  method TypeCheck(c: Name, ty: TypeInfo?, ghost nodes: seq<CastInfo>) returns (r: CastInfo?)
    requires ty != null ==> Linked(ty.cast, nodes)
    modifies if ty == null then {} else {ty}, nodes`next, nodes`prev
    ensures ty == null ==> r == null
    ensures ty != null
         ==> ty.clientdata == old(ty.clientdata) && Linked(ty.cast, Touched(nodes, old(NamesOf(nodes)), c))
    ensures ty != null ==> r == var i := Seek(old(NamesOf(nodes)), c); if i < |nodes| then nodes[i] else null
  {
    if ty == null { return null; }
    r := FindByName(c, ty, nodes);
  }

  /** `SWIG_TypeCheckStruct`. */
  method TypeCheckStruct(from: TypeInfo, ty: TypeInfo?, ghost nodes: seq<CastInfo>) returns (r: CastInfo?)
    requires ty != null ==> Linked(ty.cast, nodes)
    modifies if ty == null then {} else {ty}, nodes`next, nodes`prev
    ensures ty == null ==> r == null
    ensures ty != null
         ==> ty.clientdata == old(ty.clientdata) && Linked(ty.cast, Touched(nodes, old(TypesOf(nodes)), from))
    ensures ty != null ==> r == var i := Seek(old(TypesOf(nodes)), from); if i < |nodes| then nodes[i] else null
  {
    if ty == null { return null; }
    r := FindByType(from, ty, nodes);
  }

  /** `SWIG_InitializeModule`'s insertion of a fresh record at the head. */
  method PushCast(ty: TypeInfo, cast: CastInfo, ghost nodes: seq<CastInfo>)
    requires Linked(ty.cast, nodes) && cast !in nodes && cast.next == null && cast.prev == null
    modifies ty`cast, cast`next, nodes`prev
    ensures Linked(ty.cast, [cast] + nodes)
  {
    if ty.cast != null {
      ty.cast.prev := cast;
      cast.next := ty.cast;
    }
    ty.cast := cast;
  }

  // ----- any sequence of lookups -----

  function Keys<T, K>(list: seq<T>, key: T -> K): seq<K> {
    seq(|list|, i requires 0 <= i < |list| => key(list[i]))
  }

  /** The list after looking up the queries in turn. */
  ghost function LookUpAll<T, K>(list: seq<T>, key: T -> K, queries: seq<K>): seq<T> {
    if queries == [] then list
    else
      var before := LookUpAll(list, key, queries[..|queries| - 1]);
      Touched(before, Keys(before, key), queries[|queries| - 1])
  }

  /** The records whose key was never asked for, in order. */
  ghost function Unasked<T, K>(list: seq<T>, key: T -> K, asked: seq<K>): seq<T> {
    if list == [] then []
    else (if key(list[0]) in asked then [] else [list[0]]) + Unasked(list[1..], key, asked)
  }

  lemma {:induction false} UnaskedConcat<T, K>(a: seq<T>, b: seq<T>, key: T -> K, asked: seq<K>)
    ensures Unasked(a + b, key, asked) == Unasked(a, key, asked) + Unasked(b, key, asked)
  {
    if a == [] {
      assert a + b == b;
    } else {
      assert (a + b)[1..] == a[1..] + b;
      UnaskedConcat(a[1..], b, key, asked);
    }
  }

  lemma FrontSplit<T>(list: seq<T>, i: nat)
    requires i < |list|
    ensures list == list[..i] + ([list[i]] + list[i + 1..])
    ensures MoveToFront(list, i) == [list[i]] + (list[..i] + list[i + 1..])
  {}

  lemma TouchedUnasked<T, K>(list: seq<T>, key: T -> K, k: K, asked: seq<K>)
    requires k in asked
    ensures Unasked(Touched(list, Keys(list, key), k), key, asked) == Unasked(list, key, asked)
  {
    var i := Seek(Keys(list, key), k);
    if i < |list| {
      var a, x, b := list[..i], [list[i]], list[i + 1..];
      assert Unasked(x, key, asked) == [];
      hide Unasked, MoveToFront, Seek, Keys;
      FrontSplit(list, i);
      UnaskedConcat(a, x + b, key, asked);
      UnaskedConcat(x, b, key, asked);
      UnaskedConcat(x, a + b, key, asked);
      UnaskedConcat(a, b, key, asked);
    }
  }

  lemma {:induction false} UnaskedPrefix<T, K>(list: seq<T>, key: T -> K, queries: seq<K>, asked: seq<K>)
    requires forall q :: q in queries ==> q in asked
    ensures Unasked(LookUpAll(list, key, queries), key, asked) == Unasked(list, key, asked)
    decreases |queries|
  {
    if queries != [] {
      var n := |queries| - 1;
      UnaskedPrefix(list, key, queries[..n], asked);
      TouchedUnasked(LookUpAll(list, key, queries[..n]), key, queries[n], asked);
    }
  }

  lemma TouchedPermutes<T, K>(list: seq<T>, key: T -> K, k: K)
    ensures multiset(Touched(list, Keys(list, key), k)) == multiset(list)
  {
    var i := Seek(Keys(list, key), k);
    if i < |list| {
      assert list == list[..i] + [list[i]] + list[i + 1..];
    }
  }

  /** The record a lookup of `q` would return now. */
  ghost function Answer<T, K>(list: seq<T>, key: T -> K, q: K): Option<T> {
    var i := Seek(Keys(list, key), q);
    if i < |list| then Some(list[i]) else None
  }

  lemma {:induction false} AnswerConcat<T, K>(a: seq<T>, b: seq<T>, key: T -> K, q: K)
    ensures Answer(a + b, key, q) == if Answer(a, key, q).Some? then Answer(a, key, q) else Answer(b, key, q)
  {
    if a == [] {
      assert a + b == b;
    } else {
      AnswerCons(a[0], a[1..], key, q);
      assert a == [a[0]] + a[1..] && a + b == [a[0]] + (a[1..] + b);
      AnswerCons(a[0], a[1..] + b, key, q);
      AnswerConcat(a[1..], b, key, q);
    }
  }

  lemma AnswerCons<T, K>(x: T, rest: seq<T>, key: T -> K, q: K)
    ensures Answer([x] + rest, key, q) == if key(x) == q then Some(x) else Answer(rest, key, q)
  {
    assert Keys([x] + rest, key)[1..] == Keys(rest, key);
  }

  /** Moving a found record to the front changes no answer. */
  lemma TouchedAnswers<T, K>(list: seq<T>, key: T -> K, k: K, q: K)
    ensures Answer(Touched(list, Keys(list, key), k), key, q) == Answer(list, key, q)
  {
    var i := Seek(Keys(list, key), k);
    if i < |list| {
      var a, x, b := list[..i], list[i], list[i + 1..];
      FrontSplit(list, i);
      AnswerConcat(a, [x] + b, key, q);
      AnswerCons(x, b, key, q);
      AnswerCons(x, a + b, key, q);
      AnswerConcat(a, b, key, q);
      assert k !in Keys(a, key) by {
        forall j | 0 <= j < i ensures Keys(a, key)[j] != k { assert Keys(a, key)[j] == Keys(list, key)[j]; }
      }
    }
  }

  /** After any lookups: the same records, those never asked for in their old order, the last one found in front,
      and every lookup still answers as it did at the start. */
  lemma {:induction false} LookUpsAreTransparent<T, K>(list: seq<T>, key: T -> K, queries: seq<K>, q: K)
    ensures var after := LookUpAll(list, key, queries);
      && multiset(after) == multiset(list)
      && Unasked(after, key, queries) == Unasked(list, key, queries)
      && Answer(after, key, q) == Answer(list, key, q)
      && (queries != [] && queries[|queries| - 1] in Keys(list, key) ==>
            after != [] && key(after[0]) == queries[|queries| - 1])
    decreases |queries|
  {
    UnaskedPrefix(list, key, queries, queries);
    if queries != [] {
      var n := |queries| - 1;
      var before := LookUpAll(list, key, queries[..n]);
      LookUpsAreTransparent(list, key, queries[..n], q);
      LookUpsAreTransparent(list, key, queries[..n], queries[n]);
      TouchedPermutes(before, key, queries[n]);
      TouchedAnswers(before, key, queries[n], q);
    }
  }

  // ----- any sequence of lookups on a linked list -----

  /** The name of the type each cast record casts from; loading may redirect a record, but only to a type of that
      name. */
  type Labels = map<CastInfo, Name>

  ghost predicate Labelled(names: Labels)
    reads names.Keys`typ
  {
    forall n :: n in names ==> n.typ.name == names[n]
  }

  function NameKey(names: Labels): CastInfo -> Name {
    n => if n in names then names[n] else []
  }

  lemma KeysAreNames(nodes: seq<CastInfo>, names: Labels)
    requires Labelled(names) && forall n :: n in nodes ==> n in names
    ensures NamesOf(nodes) == Keys(nodes, NameKey(names))
  {}

  ghost function Records(nodes: seq<CastInfo>): set<CastInfo> {
    set n | n in nodes
  }

  lemma SameRecords(now: seq<CastInfo>, nodes: seq<CastInfo>)
    requires multiset(now) == multiset(nodes)
    ensures Records(now) == Records(nodes)
  {
    forall n ensures n in now <==> n in nodes {
      assert n in now <==> n in multiset(now);
      assert n in nodes <==> n in multiset(nodes);
    }
  }

  /** One lookup, with the names as labels. */
  method CheckName(c: Name, ty: TypeInfo, ghost nodes: seq<CastInfo>, ghost names: Labels, ghost records: set<CastInfo>)
    returns (r: CastInfo?)
    requires Linked(ty.cast, nodes) && Labelled(names) && Records(nodes) == records <= names.Keys
    modifies ty, records`next, records`prev
    ensures Labelled(names) && ty.clientdata == old(ty.clientdata)
    ensures Linked(ty.cast, Touched(nodes, Keys(nodes, NameKey(names)), c))
    ensures r == var j := Seek(Keys(nodes, NameKey(names)), c); if j < |nodes| then nodes[j] else null
  {
    hide Linked;
    forall n | n in nodes ensures n in names { assert n in Records(nodes); }
    KeysAreNames(nodes, names);
    r := TypeCheck(c, ty, nodes);
  }

  /** `SWIG_TypeCheck` for one name after another: the list stays proper, the records move as looked up, and every
      answer is the one the list would have given at the start. */
  method CheckNames(ty: TypeInfo, queries: seq<Name>, ghost nodes: seq<CastInfo>, ghost names: Labels)
    returns (found: seq<CastInfo?>)
    requires Linked(ty.cast, nodes) && Labelled(names) && Records(nodes) <= names.Keys
    modifies ty, Records(nodes)`next, Records(nodes)`prev
    ensures Linked(ty.cast, LookUpAll(nodes, NameKey(names), queries)) && ty.clientdata == old(ty.clientdata)
    ensures |found| == |queries|
    ensures forall i :: 0 <= i < |queries| ==>
      found[i] == match Answer(nodes, NameKey(names), queries[i]) case None => null case Some(n) => n
  {
    hide Linked, LookUpAll, Answer, Labelled, NameKey;
    found := [];
    NoQueries(nodes, NameKey(names), queries[..0]);
    var i := 0;
    while i < |queries|
      invariant 0 <= i <= |queries| && |found| == i && ty.clientdata == old(ty.clientdata) && Labelled(names)
      invariant Linked(ty.cast, LookUpAll(nodes, NameKey(names), queries[..i]))
      invariant forall j :: 0 <= j < i ==>
        found[j] == match Answer(nodes, NameKey(names), queries[j]) case None => null case Some(n) => n
    {
      ghost var now := LookUpAll(nodes, NameKey(names), queries[..i]);
      NextQuery(nodes, NameKey(names), queries, i);
      SameRecords(now, nodes);
      var r := CheckName(queries[i], ty, now, names, Records(nodes));
      found := found + [r];
      i := i + 1;
    }
    assert queries[..i] == queries;
  }

  lemma NoQueries<T, K>(list: seq<T>, key: T -> K, queries: seq<K>)
    requires queries == []
    ensures LookUpAll(list, key, queries) == list
  {}

  lemma NextQuery<T, K>(list: seq<T>, key: T -> K, queries: seq<K>, i: nat)
    requires i < |queries|
    ensures var now := LookUpAll(list, key, queries[..i]);
      && multiset(now) == multiset(list)
      && LookUpAll(list, key, queries[..i + 1]) == Touched(now, Keys(now, key), queries[i])
      && Answer(list, key, queries[i]) ==
           var j := Seek(Keys(now, key), queries[i]); if j < |now| then Some(now[j]) else None
  {
    var now := LookUpAll(list, key, queries[..i]);
    assert queries[..i + 1][..i] == queries[..i];
    LookUpsAreTransparent(list, key, queries[..i], queries[i]);
  }
}
