/** Type names as the binding runtime compares them: `strcmp` on mangled names, space-blind comparison on readable
    ones. */
module TypeNames {

  type Byte = b: int | 0 <= b < 256

  /** The bytes of a C string before its terminator. */
  type Name = seq<Byte>

  const SPACE: Byte := 32
  const BAR: Byte := 124

  /** `*(s + i)`: the terminator is readable too. */
  function CharAt(s: Name, i: nat): Byte
    requires i <= |s|
  {
    if i < |s| then s[i] else 0
  }

  /** A byte as the (signed) C `char` it is stored in. */
  function Signed(b: Byte): int {
    if b < 128 then b else b - 256
  }

  function SignedAll(s: Name): seq<int> {
    if s == [] then [] else [Signed(s[0])] + SignedAll(s[1..])
  }

  // ----- lexicographic order -----

  /** -1, 0 or 1; a proper prefix comes first. */
  function Compare(a: seq<int>, b: seq<int>): int {
    if a == [] && b == [] then 0
    else if a == [] then -1
    else if b == [] then 1
    else if a[0] < b[0] then -1
    else if a[0] > b[0] then 1
    else Compare(a[1..], b[1..])
  }

  /** The first difference decides; of two names of which one begins the other, the shorter comes first. */
  lemma {:induction false} CompareIs(a: seq<int>, b: seq<int>)
    ensures Compare(a, b) < 0 <==>
            exists i :: 0 <= i <= |a| && i < |b| && a[..i] == b[..i] && (i == |a| || a[i] < b[i])
  {
    if a != [] && b != [] {
      if a[0] == b[0] {
        CompareIs(a[1..], b[1..]);
        if i :| 0 <= i <= |a| && i < |b| && a[..i] == b[..i] && (i == |a| || a[i] < b[i]) {
          assert i > 0 && a[1..][..i - 1] == a[..i][1..] && b[1..][..i - 1] == b[..i][1..];
        }
        if i :| 0 <= i <= |a[1..]| && i < |b[1..]| && a[1..][..i] == b[1..][..i]
                && (i == |a[1..]| || a[1..][i] < b[1..][i]) {
          assert a[..i + 1] == [a[0]] + a[1..][..i] && b[..i + 1] == [b[0]] + b[1..][..i];
        }
      } else {
        assert a[..0] == b[..0];
        assert forall i :: 0 < i <= |a| && i < |b| ==> a[..i][0] == a[0] && b[..i][0] == b[0];
      }
    } else {
      assert a[..0] == b[..0];
    }
  }

  lemma {:induction false} CompareZero(a: seq<int>, b: seq<int>)
    ensures Compare(a, b) == 0 <==> a == b
  {
    if a != [] && b != [] && a[0] == b[0] {
      CompareZero(a[1..], b[1..]);
      assert a == [a[0]] + a[1..] && b == [b[0]] + b[1..];
    }
  }

  lemma {:induction false} CompareFlip(a: seq<int>, b: seq<int>)
    ensures Compare(b, a) == -Compare(a, b)
  {
    if a != [] && b != [] && a[0] == b[0] { CompareFlip(a[1..], b[1..]); }
  }

  lemma {:induction false} CompareTransitive(a: seq<int>, b: seq<int>, c: seq<int>)
    requires Compare(a, b) < 0 && Compare(b, c) < 0
    ensures Compare(a, c) < 0
  {
    if a != [] && b != [] && c != [] && a[0] == b[0] == c[0] { CompareTransitive(a[1..], b[1..], c[1..]); }
  }

  // ----- SWIG_TypeNameComp -----

  /** The name without its spaces. */
  function Stripped(s: Name): Name {
    if s == [] then [] else (if s[0] == SPACE then [] else [s[0]]) + Stripped(s[1..])
  }

  lemma StrippedCons(x: Byte, t: Name)
    ensures Stripped([x] + t) == (if x == 32 then [] else [x]) + Stripped(t)
  {
    assert ([x] + t)[1..] == t;
  }

  lemma {:induction false} StrippedConcat(s: Name, t: Name)
    ensures Stripped(s + t) == Stripped(s) + Stripped(t)
  {
    assert Stripped([]) == [];
    hide Stripped;
    if s == [] {
      assert s + t == t;
    } else {
      assert s == [s[0]] + s[1..] && s + t == [s[0]] + (s[1..] + t);
      StrippedCons(s[0], s[1..]);
      StrippedCons(s[0], s[1..] + t);
      StrippedConcat(s[1..], t);
    }
  }

  /** Only the byte 32 is left out, wherever it stands. */
  lemma StrippedParts(s: Name, x: Byte, t: Name)
    ensures Stripped(s + [x] + t) == Stripped(s) + (if x == 32 then [] else [x]) + Stripped(t)
  {
    hide Stripped;
    StrippedCons(x, t);
    StrippedConcat(s, [x] + t);
    assert s + [x] + t == s + ([x] + t);
  }

  /** Bytes from 128 on count as negative, so they come before the others. */
  lemma {:induction false} SignedAt(s: Name, i: nat)
    requires i < |s|
    ensures |SignedAll(s)| == |s|
    ensures var x: int := s[i]; SignedAll(s)[i] == if x >= 128 then x - 256 else x
  {
    if |s| > 1 { SignedAt(s[1..], if i == 0 then 0 else i - 1); }
  }

  predicate NoTrailingSpace(s: Name) {
    s == [] || s[|s| - 1] != SPACE
  }

  function CompareNames(a: Name, b: Name): int {
    Compare(SignedAll(Stripped(a)), SignedAll(Stripped(b)))
  }

  function Sign(n: int): int {
    if n < 0 then -1 else if n > 0 then 1 else 0
  }

  lemma {:induction false} StrippedNonEmpty(s: Name)
    requires s != [] && NoTrailingSpace(s)
    ensures Stripped(s) != []
  {
    if s[0] == SPACE { StrippedNonEmpty(s[1..]); }
  }

  lemma {:induction false} SignedAllInjective(a: Name, b: Name)
    ensures SignedAll(a) == SignedAll(b) <==> a == b
  {
    if a != [] && b != [] {
      assert SignedAll(a)[1..] == SignedAll(a[1..]) && SignedAll(b)[1..] == SignedAll(b[1..]);
      SignedAllInjective(a[1..], b[1..]);
      assert a == [a[0]] + a[1..] && b == [b[0]] + b[1..];
      if SignedAll(a) == SignedAll(b) { assert SignedAll(a)[0] == SignedAll(b)[0]; }
    }
  }

  /** The comparison is zero exactly on names that are equal but for spaces. */
  lemma EqualButForSpaces(a: Name, b: Name)
    ensures CompareNames(a, b) == 0 <==> Stripped(a) == Stripped(b)
  {
    CompareZero(SignedAll(Stripped(a)), SignedAll(Stripped(b)));
    SignedAllInjective(Stripped(a), Stripped(b));
  }

  /** Skipping a space at the front. */
  lemma SkipSpace(s: Name, f: nat, l: nat)
    requires f < l <= |s| && s[f] == SPACE
    ensures Stripped(s[f..l]) == Stripped(s[f + 1..l])
  {
    assert s[f..l][1..] == s[f + 1..l];
  }

  lemma TakeChar(s: Name, f: nat, l: nat)
    requires f < l <= |s| && s[f] != SPACE
    ensures Stripped(s[f..l]) == [s[f]] + Stripped(s[f + 1..l])
    ensures SignedAll(Stripped(s[f..l])) == [Signed(s[f])] + SignedAll(Stripped(s[f + 1..l]))
  {
    assert s[f..l][1..] == s[f + 1..l];
    assert Stripped(s[f..l])[1..] == Stripped(s[f + 1..l]);
  }

  /** `while ((*f == ' ') && (f != l)) ++f;` */
  method SkipSpaces(s: Name, f: nat, l: nat) returns (f': nat)
    requires f < l <= |s| && NoTrailingSpace(s[f..l])
    ensures f <= f' < l && s[f'] != SPACE
    ensures Stripped(s[f'..l]) == Stripped(s[f..l])
  {
    hide Stripped;
    f' := f;
    assert s[l - 1] == s[f..l][l - f - 1];
    while CharAt(s, f') == SPACE && f' != l
      invariant f <= f' < l && Stripped(s[f'..l]) == Stripped(s[f..l])
      decreases l - f'
    {
      SkipSpace(s, f', l);
      f' := f' + 1;
    }
  }

  /** `SWIG_TypeNameComp`: its sign is the lexicographic order of the names without spaces. */
  method TypeNameComp(s1: Name, f1: nat, l1: nat, s2: Name, f2: nat, l2: nat) returns (r: int)
    requires f1 <= l1 <= |s1| && f2 <= l2 <= |s2|
    requires NoTrailingSpace(s1[f1..l1]) && NoTrailingSpace(s2[f2..l2])
    ensures Sign(r) == CompareNames(s1[f1..l1], s2[f2..l2])
  {
    hide Stripped, SignedAll;
    var i, j := f1, f2;
    while i != l1 && j != l2
      invariant f1 <= i <= l1 && f2 <= j <= l2
      invariant NoTrailingSpace(s1[i..l1]) && NoTrailingSpace(s2[j..l2])
      invariant CompareNames(s1[i..l1], s2[j..l2]) == CompareNames(s1[f1..l1], s2[f2..l2])
      decreases l1 - i
    {
      i := SkipSpaces(s1, i, l1);
      j := SkipSpaces(s2, j, l2);
      TakeChar(s1, i, l1);
      TakeChar(s2, j, l2);
      if CharAt(s1, i) != CharAt(s2, j) {
        SignedInjective(s1[i], s2[j]);
        return if Signed(CharAt(s1, i)) > Signed(CharAt(s2, j)) then 1 else -1;
      }
      StepBoth(s1, i, l1, s2, j, l2);
      i, j := i + 1, j + 1;
    }
    Exhausted(s1[i..l1], s2[j..l2]);
    r := (l1 - i) - (l2 - j);
  }

  lemma SignedInjective(a: Byte, b: Byte)
    ensures Signed(a) == Signed(b) ==> a == b
  {}

  /** When one name is used up, the longer remainder decides. */
  lemma Exhausted(a: Name, b: Name)
    requires NoTrailingSpace(a) && NoTrailingSpace(b) && (a == [] || b == [])
    ensures CompareNames(a, b) == Sign(|a| - |b|)
  {
    if a != [] { StrippedNonEmpty(a); }
    if b != [] { StrippedNonEmpty(b); }
  }

  lemma StepBoth(s1: Name, i: nat, l1: nat, s2: Name, j: nat, l2: nat)
    requires i < l1 <= |s1| && j < l2 <= |s2| && s1[i] == s2[j] && s1[i] != SPACE
    ensures CompareNames(s1[i..l1], s2[j..l2]) == CompareNames(s1[i + 1..l1], s2[j + 1..l2])
  {
    TakeChar(s1, i, l1);
    TakeChar(s2, j, l2);
    var a, b := SignedAll(Stripped(s1[i..l1])), SignedAll(Stripped(s2[j..l2]));
    assert a[1..] == SignedAll(Stripped(s1[i + 1..l1])) && b[1..] == SignedAll(Stripped(s2[j + 1..l2]));
  }

  // ----- SWIG_TypeEquiv -----

  /** Length of the part before the first bar. */
  function BarAt(s: Name): (n: nat)
    ensures n <= |s| && (n < |s| ==> s[n] == BAR) && BAR !in s[..n]
  {
    if s == [] || s[0] == BAR then 0 else
      assert s[..1 + BarAt(s[1..])] == [s[0]] + s[1..][..BarAt(s[1..])];
      1 + BarAt(s[1..])
  }

  /** What follows the first bar. */
  function AfterBar(s: Name): (r: Name)
    ensures |r| <= |s| && (s != [] ==> |r| < |s|)
  {
    if BarAt(s) < |s| then s[BarAt(s) + 1..] else []
  }

  /** The alternatives the loop visits: an empty one after the last bar is not among them. */
  function Alternatives(s: Name): seq<Name>
    decreases |s|
  {
    if s == [] then [] else [s[..BarAt(s)]] + Alternatives(AfterBar(s))
  }

  /** The parts between bars, an empty name having one empty part. */
  function Parts(s: Name): seq<Name>
    decreases |s|
  {
    [s[..BarAt(s)]] + if BarAt(s) < |s| then Parts(AfterBar(s)) else []
  }

  function JoinedByBars(parts: seq<Name>): Name {
    if parts == [] then [] else if |parts| == 1 then parts[0] else parts[0] + [124] + JoinedByBars(parts[1..])
  }

  ghost predicate Unbarred(parts: seq<Name>) {
    forall i :: 0 <= i < |parts| ==> 124 !in parts[i]
  }

  /** The parts contain no byte 124, and joined with that byte they give the name. */
  lemma {:induction false} PartsJoin(s: Name)
    ensures Unbarred(Parts(s)) && JoinedByBars(Parts(s)) == s
    decreases |s|
  {
    var n := BarAt(s);
    PartsUnfold(s);
    hide BarAt, Parts, JoinedByBars, Unbarred;
    if n < |s| {
      PartsJoin(AfterBar(s));
      JoinedMore(s[..n], Parts(AfterBar(s)));
      assert s == s[..n] + [s[n]] + s[n + 1..];
    } else {
      assert s[..n] == s;
      JoinedOne(s);
    }
  }

  lemma PartsUnfold(s: Name)
    ensures BarAt(s) < |s| ==> AfterBar(s) == s[BarAt(s) + 1..] && Parts(AfterBar(s)) != []
    ensures Parts(s) == if BarAt(s) < |s| then [s[..BarAt(s)]] + Parts(AfterBar(s)) else [s[..BarAt(s)]]
  {
    hide BarAt;
  }

  lemma JoinedOne(x: Name)
    requires 124 !in x
    ensures JoinedByBars([x]) == x && Unbarred([x])
  {}

  lemma JoinedMore(x: Name, parts: seq<Name>)
    requires parts != [] && 124 !in x && Unbarred(parts)
    ensures JoinedByBars([x] + parts) == x + [124] + JoinedByBars(parts) && Unbarred([x] + parts)
  {
    assert ([x] + parts)[1..] == parts;
  }

  ghost predicate Among(names: seq<Name>, t: Name) {
    exists i :: 0 <= i < |names| && Stripped(names[i]) == Stripped(t)
  }

  ghost predicate AllTrimmed(names: seq<Name>) {
    forall i :: 0 <= i < |names| ==> NoTrailingSpace(names[i])
  }

  lemma AmongCons(x: Name, names: seq<Name>, t: Name)
    ensures Among([x] + names, t) <==> Stripped(x) == Stripped(t) || Among(names, t)
  {
    if i :| 0 <= i < |names| && Stripped(names[i]) == Stripped(t) {
      assert ([x] + names)[i + 1] == names[i];
    }
    assert ([x] + names)[0] == x;
  }

  /** `SWIG_TypeEquiv`: 1 exactly when one of the visited alternatives equals `tb` but for spaces. */
  method TypeEquiv(nb: Name, tb: Name) returns (equiv: int)
    requires AllTrimmed(Alternatives(nb)) && NoTrailingSpace(tb)
    ensures equiv == if Among(Alternatives(nb), tb) then 1 else 0
  {
    hide Alternatives, Stripped, Among, AllTrimmed;
    equiv := 0;
    var ne := 0;
    assert nb[0..] == nb;
    AmongNone(tb);
    while equiv == 0 && ne < |nb|
      invariant 0 <= ne <= |nb| && AllTrimmed(Alternatives(nb[ne..]))
      invariant equiv == 0 ==> Among(Alternatives(nb), tb) == Among(Alternatives(nb[ne..]), tb)
      invariant equiv == 0 || (equiv == 1 && Among(Alternatives(nb), tb))
      decreases |nb| - ne
    {
      var start := ne;
      ne := SkipToBar(nb, start);
      assert nb[start..ne] == nb[start..][..ne - start];
      AlternativesUnfold(nb[start..], tb);
      var c := TypeNameComp(nb, start, ne, tb, 0, |tb|);
      assert tb[0..|tb|] == tb;
      EqualButForSpaces(nb[start..ne], tb);
      equiv := if c == 0 then 1 else 0;
      if ne < |nb| {
        ne := ne + 1;
      }
    }
    assert equiv == 0 ==> nb[ne..] == [];
  }

  lemma AmongNone(t: Name)
    ensures !Among(Alternatives([]), t)
  {}

  /** `for (; *ne; ++ne) if (*ne == '|') break;` */
  method SkipToBar(nb: Name, start: nat) returns (ne: nat)
    requires start < |nb|
    ensures start <= ne <= |nb| && ne - start == BarAt(nb[start..])
    ensures AfterBar(nb[start..]) == nb[if ne < |nb| then ne + 1 else ne..]
  {
    ne := start;
    while ne < |nb| && nb[ne] != BAR
      invariant start <= ne <= |nb| && ne - start <= BarAt(nb[start..])
    {
      BarBeyond(nb[start..], ne - start);
      ne := ne + 1;
    }
    assert ne < |nb| ==> nb[start..][ne - start + 1..] == nb[ne + 1..];
  }

  lemma BarBeyond(s: Name, n: nat)
    requires n < |s| && n <= BarAt(s) && s[n] != BAR
    ensures n < BarAt(s)
  {}

  lemma AlternativesUnfold(s: Name, t: Name)
    requires s != [] && AllTrimmed(Alternatives(s))
    ensures NoTrailingSpace(s[..BarAt(s)]) && AllTrimmed(Alternatives(AfterBar(s)))
    ensures Among(Alternatives(s), t) <==> Stripped(s[..BarAt(s)]) == Stripped(t) || Among(Alternatives(AfterBar(s)), t)
  {
    var first, rest := s[..BarAt(s)], Alternatives(AfterBar(s));
    assert Alternatives(s) == [first] + rest;
    hide Alternatives, Stripped, BarAt;
    assert ([first] + rest)[0] == first;
    forall i | 0 <= i < |rest| ensures NoTrailingSpace(rest[i]) {
      assert ([first] + rest)[i + 1] == rest[i];
    }
    AmongCons(first, rest, t);
  }

  /** The last part is empty: the name is empty or ends in a bar. */
  predicate EndsOpen(s: Name) {
    s == [] || s[|s| - 1] == BAR
  }

  lemma OpenAfterBar(s: Name)
    requires BarAt(s) < |s|
    ensures EndsOpen(s) <==> EndsOpen(AfterBar(s))
  {
    hide BarAt;
    var rest := s[BarAt(s) + 1..];
    assert AfterBar(s) == rest;
    hide AfterBar;
    if rest != [] {
      assert rest[|rest| - 1] == s[|s| - 1];
    }
  }

  lemma ClosedWithoutBar(s: Name)
    requires BarAt(s) == |s| && s != []
    ensures !EndsOpen(s)
  {
    assert s[|s| - 1] in s[..BarAt(s)];
  }

  lemma {:induction false} PartsAreAlternatives(s: Name)
    ensures Parts(s) == Alternatives(s) + if EndsOpen(s) then [[]] else []
    decreases |s|
  {
    hide BarAt, EndsOpen;
    if BarAt(s) < |s| {
      PartsAreAlternatives(AfterBar(s));
      OpenAfterBar(s);
    } else if s != [] {
      ClosedWithoutBar(s);
    } else {
      assert EndsOpen(s) by { NothingEndsOpen(); }
    }
  }

  lemma NothingEndsOpen()
    ensures EndsOpen([])
  {}

  /** What the loop misses: it finds an equal part exactly unless the only equal part is an empty one at the very
      end. */
  lemma EquivMissesOpenEnd(nb: Name, tb: Name)
    ensures Among(Parts(nb), tb) <==> Among(Alternatives(nb), tb) || (EndsOpen(nb) && Stripped(tb) == [])
  {
    PartsAreAlternatives(nb);
    var parts, alts := Parts(nb), Alternatives(nb);
    if i :| 0 <= i < |alts| && Stripped(alts[i]) == Stripped(tb) { assert parts[i] == alts[i]; }
    if EndsOpen(nb) { assert parts[|alts|] == []; }
    if i :| 0 <= i < |parts| && Stripped(parts[i]) == Stripped(tb) {
      if i < |alts| { assert alts[i] == parts[i]; }
    }
  }
}
