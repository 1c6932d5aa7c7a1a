/** Splitting at a delimiter of any length, as the arbitrator does with the dotted name of the function to call. */
module Helpers {
  import opened Lua

  predicate Occurs(s: string, delim: string, i: nat) {
    i + |delim| <= |s| && s[i..i + |delim|] == delim
  }

  ghost predicate FirstAt(s: string, delim: string, i: nat) {
    Occurs(s, delim, i) && forall j: nat :: j < i ==> !Occurs(s, delim, j)
  }

  ghost predicate Free(s: string, delim: string) {
    forall j: nat :: !Occurs(s, delim, j)
  }

  /** `string.find(s, delim, start, true)`, its first result. */
  method FindPlain(s: string, delim: string, start: nat) returns (pos: Option<nat>)
    requires 1 <= start <= |s| + 1
    ensures pos.Some? ==> start <= pos.value && FirstAt(s[start - 1..], delim, pos.value - start)
    ensures pos.None? ==> Free(s[start - 1..], delim)
  {
    ghost var rest := s[start - 1..];
    var at := start;
    while at - 1 + |delim| <= |s|
      invariant start <= at <= |s| + 2
      invariant forall j: nat :: j < at - start ==> !Occurs(rest, delim, j)
    {
      assert s[at - 1..at - 1 + |delim|] == rest[at - start..at - start + |delim|];
      if s[at - 1..at - 1 + |delim|] == delim {
        return Some(at);
      }
      at := at + 1;
    }
    pos := None;
  }

  function Join(parts: seq<string>, delim: string): string
    requires parts != []
  {
    if |parts| == 1 then parts[0] else parts[0] + delim + Join(parts[1..], delim)
  }

  /** Each part but the last ends at the first delimiter that meets it, and the last has none. */
  ghost predicate Parted(parts: seq<string>, delim: string) {
    && parts != []
    && (forall k :: 0 <= k < |parts| - 1 ==> FirstAt(parts[k] + delim, delim, |parts[k]|))
    && Free(parts[|parts| - 1], delim)
  }

  lemma {:induction false} JoinMore(parts: seq<string>, part: string, rest: string, delim: string)
    ensures Join(parts + [part, rest], delim) == Join(parts + [part + delim + rest], delim)
  {
    if parts == [] {
      assert Join([part, rest], delim) == part + delim + Join([part, rest][1..], delim);
    } else {
      assert (parts + [part, rest])[1..] == parts[1..] + [part, rest];
      assert (parts + [part + delim + rest])[1..] == parts[1..] + [part + delim + rest];
      JoinMore(parts[1..], part, rest, delim);
    }
  }

  /** What is first in a text is first in what precedes its end. */
  lemma FirstInPrefix(s: string, delim: string, i: nat)
    requires FirstAt(s, delim, i)
    ensures FirstAt(s[..i] + delim, delim, i)
  {
    var front := s[..i] + delim;
    assert front == s[..i + |delim|];
    forall j: nat | j < i ensures !Occurs(front, delim, j) {
      assert !Occurs(s, delim, j);
      assert front[j..j + |delim|] == s[j..j + |delim|];
    }
  }

  /** `split_mcd`: the parts join to the input, and they are cut at the leftmost delimiters. */
  method SplitMcd(s: string, delim: string) returns (t: seq<string>)
    requires |delim| > 0
    ensures t != [] && Join(t, delim) == s
    ensures Parted(t, delim)
  {
    var start := 1;
    t := [];
    while true
      invariant 1 <= start <= |s| + 1
      invariant Join(t + [s[start - 1..]], delim) == s
      invariant forall k :: 0 <= k < |t| ==> FirstAt(t[k] + delim, delim, |t[k]|)
      decreases |s| + 1 - start
    {
      var pos := FindPlain(s, delim, start);
      ghost var rest := s[start - 1..];
      if pos.None? { break; }
      ghost var i := pos.value - start;
      FirstInPrefix(rest, delim, i);
      var part := s[start - 1..pos.value - 1];
      assert part == rest[..i];
      JoinMore(t, part, s[pos.value + |delim| - 1..], delim);
      assert rest == part + delim + s[pos.value + |delim| - 1..];
      ghost var before := t;
      t := t + [part];
      start := pos.value + |delim|;
      assert t + [s[start - 1..]] == before + [part, s[start - 1..]];
    }
    t := t + [s[start - 1..]];
  }

  /** No part contains the delimiter. */
  lemma PartsAreFree(parts: seq<string>, delim: string, k: nat)
    requires Parted(parts, delim) && k < |parts| && |delim| > 0
    ensures Free(parts[k], delim)
  {
    if k < |parts| - 1 {
      forall j: nat ensures !Occurs(parts[k], delim, j) {
        if Occurs(parts[k], delim, j) {
          assert (parts[k] + delim)[j..j + |delim|] == parts[k][j..j + |delim|];
          assert Occurs(parts[k] + delim, delim, j);
        }
      }
    }
  }

  /** The first delimiter of a joined text ends the first part. */
  lemma FirstOfJoin(parts: seq<string>, delim: string)
    requires Parted(parts, delim) && |parts| > 1
    ensures FirstAt(Join(parts, delim), delim, |parts[0]|)
  {
    var s, n := Join(parts, delim), |parts[0]|;
    assert s[..n + |delim|] == parts[0] + delim;
    assert s[n..n + |delim|] == delim;
    forall j: nat | j < n ensures !Occurs(s, delim, j) {
      assert !Occurs(parts[0] + delim, delim, j);
      assert s[j..j + |delim|] == (parts[0] + delim)[j..j + |delim|];
    }
  }

  /** Splitting is determined by its contract: no other list of parts joins to the same text and is cut leftmost. */
  lemma {:induction false} SplitUnique(parts: seq<string>, parts': seq<string>, delim: string)
    requires |delim| > 0 && Parted(parts, delim) && Parted(parts', delim) && Join(parts, delim) == Join(parts', delim)
    ensures parts == parts'
  {
    var s := Join(parts, delim);
    if |parts| > 1 { FirstOfJoin(parts, delim); }
    if |parts'| > 1 { FirstOfJoin(parts', delim); }
    if |parts| == 1 {
      assert Free(s, delim);
      assert |parts'| == 1;
    } else {
      assert |parts'| > 1;
      assert |parts[0]| == |parts'[0]|;
      var n := |parts[0]|;
      assert s[..n] == parts[0] && s[..n] == parts'[0];
      assert s[n + |delim|..] == Join(parts[1..], delim) && s[n + |delim|..] == Join(parts'[1..], delim);
      SplitUnique(parts[1..], parts'[1..], delim);
      assert parts == [parts[0]] + parts[1..] && parts' == [parts'[0]] + parts'[1..];
    }
  }
}
