/** The hex codec of the bindings: raw bytes packed as lowercase digits, with an optional name after them. */
module Hex {
  import opened Lua

  type Byte = b: int | 0 <= b < 256

  const DIGITS := "0123456789abcdef"

  function Digit(v: int): char
    requires 0 <= v < 16
  {
    DIGITS[v]
  }

  predicate LowerHex(d: char) {
    '0' <= d <= '9' || 'a' <= d <= 'f'
  }

  /** The value of a digit; upper-case letters are no digits. */
  function DigitValue(d: char): (v: Option<int>)
    ensures v.Some? <==> LowerHex(d)
    ensures v.Some? ==> 0 <= v.value < 16 && Digit(v.value) == d
  {
    if '0' <= d <= '9' then
      Some(d as int - '0' as int)
    else if 'a' <= d <= 'f' then
      Some(d as int - ('a' as int - 10))
    else
      None
  }

  lemma DigitOfValue(v: int)
    requires 0 <= v < 16
    ensures DigitValue(Digit(v)) == Some(v) && Digit(v) != '\0'
  {}

  /** The character a C reader meets at `i`: the terminator once the text is over. */
  function CharAt(c: string, i: nat): char {
    if i < |c| then c[i] else '\0'
  }

  /** Two digits a byte, the high half first. */
  function Packed(data: seq<Byte>): (s: string)
    ensures |s| == 2 * |data| && '\0' !in s
  {
    if data == [] then "" else [Digit(data[0] / 16), Digit(data[0] % 16)] + Packed(data[1..])
  }

  /** Each byte is written as its high and then its low half. */
  lemma {:induction false} PackedAt(data: seq<Byte>, i: nat)
    requires i < |data|
    ensures Packed(data)[2 * i] == "0123456789abcdef"[data[i] / 16]
    ensures Packed(data)[2 * i + 1] == "0123456789abcdef"[data[i] % 16]
  {
    if i > 0 { PackedAt(data[1..], i - 1); }
  }

  lemma {:induction false} PackedMore(data: seq<Byte>, b: Byte)
    ensures Packed(data + [b]) == Packed(data) + [Digit(b / 16), Digit(b % 16)]
  {
    if data != [] {
      assert (data + [b])[1..] == data[1..] + [b];
      PackedMore(data[1..], b);
    }
  }

  // ----- writing into memory -----

  /** The memory after writing these values at `c`. */
  function Written<T>(memory: seq<T>, c: nat, values: seq<T>): (m: seq<T>)
    requires c + |values| <= |memory|
    ensures |m| == |memory|
  {
    memory[..c] + values + memory[c + |values|..]
  }

  lemma WrittenOne<T>(memory: seq<T>, c: nat, values: seq<T>, x: T)
    requires c + |values| < |memory|
    ensures Written(memory, c, values)[c + |values| := x] == Written(memory, c, values + [x])
  {}

  lemma WrittenNothing<T>(memory: seq<T>, c: nat)
    requires c <= |memory|
    ensures Written(memory, c, []) == memory
  {}

  lemma WrittenAfter<T>(memory: seq<T>, c: nat, values: seq<T>, more: seq<T>)
    requires c + |values| + |more| <= |memory|
    ensures Written(Written(memory, c, values), c + |values|, more) == Written(memory, c, values + more)
  {
    var m := Written(memory, c, values);
    assert m[..c + |values|] == memory[..c] + values;
    assert m[c + |values| + |more|..] == memory[c + |values| + |more|..];
  }

  lemma WrittenAtStart<T>(memory: seq<T>, values: seq<T>)
    requires |values| <= |memory|
    ensures Written(memory, 0, values) == values + memory[|values|..]
  {}

  /** Store one value right after those written. */
  method Put<T>(a: array<T>, ghost memory: seq<T>, ghost c: nat, ghost values: seq<T>, at: nat, x: T)
    requires at == c + |values| < a.Length && |memory| == a.Length && a[..] == Written(memory, c, values)
    modifies a
    ensures a[..] == Written(memory, c, values + [x])
  {
    hide Written;
    ghost var before := a[..];
    a[at] := x;
    assert a[..] == before[at := x];
    WrittenOne(memory, c, values, x);
  }

  // ----- packing and unpacking -----

  /** `SWIG_PackData`: writes at `c` and returns the position after the last digit. */
  method PackData(buff: array<char>, c: nat, u: array<Byte>) returns (c': nat)
    requires c + 2 * u.Length <= buff.Length
    modifies buff
    ensures c' == c + 2 * u.Length
    ensures buff[..] == Written(old(buff[..]), c, Packed(u[..]))
  {
    hide Written, Packed, Digit;
    ghost var was, data := buff[..], u[..];
    WrittenNothing(was, c);
    NothingPacked();
    c' := c;
    var i := 0;
    while i < u.Length
      invariant 0 <= i <= u.Length && c' == c + 2 * i
      invariant buff[..] == Written(was, c, Packed(data[..i]))
    {
      ghost var done := Packed(data[..i]);
      PackedNext(data, i);
      Put(buff, was, c, done, c', Digit(u[i] / 16));
      Put(buff, was, c, done + [Digit(data[i] / 16)], c' + 1, Digit(u[i] % 16));
      c' := c' + 2;
      i := i + 1;
    }
    assert data[..i] == data;
  }

  lemma NothingPacked()
    ensures Packed([]) == ""
  {}

  lemma PackedNext(data: seq<Byte>, i: nat)
    requires i < |data|
    ensures Packed(data[..i + 1]) == Packed(data[..i]) + [Digit(data[i] / 16)] + [Digit(data[i] % 16)]
  {
    assert data[..i + 1] == data[..i] + [data[i]];
    PackedMore(data[..i], data[i]);
  }

  /** The byte that the characters at `at` and after spell. */
  function ByteAt(c: string, at: nat): (b: Option<Byte>) {
    match (DigitValue(CharAt(c, at)), DigitValue(CharAt(c, at + 1)))
    case (Some(hi), Some(lo)) => Some(16 * hi + lo)
    case _ => None
  }

  /** The bytes read before `n` of them are there or something else than a lowercase digit is met. */
  function Read(c: string, n: nat): (data: seq<Byte>)
    ensures |data| <= n && 2 * |data| <= |c|
  {
    if n == 0 || ByteAt(c, 0).None? then [] else [ByteAt(c, 0).value] + Read(c[2..], n - 1)
  }

  lemma {:induction false} ReadMore(c: string, i: nat, n: nat)
    requires i < n && |Read(c, i)| == i
    ensures 2 * i <= |c|
    ensures ByteAt(c, 2 * i).None? ==> Read(c, n) == Read(c, i)
    ensures ByteAt(c, 2 * i).Some? ==> 2 * i + 2 <= |c| && Read(c, i + 1) == Read(c, i) + [ByteAt(c, 2 * i).value]
  {
    hide ByteAt;
    if i == 0 {
      if ByteAt(c, 0).Some? { ByteIsThere(c, 0); }
    } else {
      ReadMore(c[2..], i - 1, n - 1);
      ByteShifted(c, 2 * i);
    }
  }

  lemma ByteIsThere(c: string, at: nat)
    requires ByteAt(c, at).Some?
    ensures at + 2 <= |c|
  {}

  lemma ByteShifted(c: string, at: nat)
    requires 2 <= at && 2 <= |c|
    ensures ByteAt(c, at) == ByteAt(c[2..], at - 2)
  {}

  /** `SWIG_UnpackData`: the text left over, or nothing at the first pair that is not two digits; the bytes before that
      pair are overwritten all the same. */
  method UnpackData(c: string, ptr: array<Byte>) returns (rest: Option<string>)
    modifies ptr
    ensures ptr[..] == Written(old(ptr[..]), 0, Read(c, ptr.Length))
    ensures rest == if |Read(c, ptr.Length)| == ptr.Length then Some(c[2 * ptr.Length..]) else None
  {
    hide Written, Read, DigitValue;
    ghost var was := ptr[..];
    WrittenNothing(was, 0);
    NothingRead(c);
    var i := 0;
    while i < ptr.Length
      invariant 0 <= i <= ptr.Length && 2 * i <= |c|
      invariant |Read(c, i)| == i && ptr[..] == Written(was, 0, Read(c, i))
    {
      ReadMore(c, i, ptr.Length);
      var d := CharAt(c, 2 * i);
      if DigitValue(d).None? {
        return None;
      }
      var uu := DigitValue(d).value * 16;
      d := CharAt(c, 2 * i + 1);
      if DigitValue(d).None? {
        return None;
      }
      Put(ptr, was, 0, Read(c, i), i, uu + DigitValue(d).value);
      i := i + 1;
    }
    rest := Some(c[2 * i..]);
  }

  lemma NothingRead(c: string)
    ensures Read(c, 0) == []
  {}

  // ----- round trips -----

  lemma BytePacked(c: string)
    requires ByteAt(c, 0).Some?
    ensures 2 <= |c| && Digit(ByteAt(c, 0).value / 16) == c[0] && Digit(ByteAt(c, 0).value % 16) == c[1]
  {
    hide Digit, DigitValue;
  }

  lemma PackedFirst(data: seq<Byte>, tail: string)
    requires data != []
    ensures ByteAt(Packed(data) + tail, 0) == Some(data[0])
  {
    hide Digit, DigitValue;
    DigitOfValue(data[0] / 16);
    DigitOfValue(data[0] % 16);
  }

  /** Unpacking what was packed gives the bytes back, whatever follows them. */
  lemma {:induction false} PackThenUnpack(data: seq<Byte>, tail: string)
    ensures Read(Packed(data) + tail, |data|) == data
  {
    hide ByteAt;
    if data != [] {
      var text := Packed(data) + tail;
      PackedFirst(data, tail);
      assert text[2..] == Packed(data[1..]) + tail;
      PackThenUnpack(data[1..], tail);
    }
  }

  /** Packing what was read, wherever the reading stopped, gives back the digits that were read. */
  lemma {:induction false} UnpackThenPack(c: string, n: nat)
    ensures var data := Read(c, n); Packed(data) == c[..2 * |data|]
  {
    hide Digit, DigitValue;
    if n > 0 && ByteAt(c, 0).Some? {
      UnpackThenPack(c[2..], n - 1);
      var data := Read(c, n);
      assert data[1..] == Read(c[2..], n - 1);
      BytePacked(c);
      assert c[..2 * |data|] == [c[0], c[1]] + c[2..][..2 * (|data| - 1)];
    }
  }

  /** Unpacking succeeds on exactly the texts that begin with `2 * n` lowercase digits. */
  lemma {:induction false} UnpackSucceedsIff(c: string, n: nat)
    ensures |Read(c, n)| == n <==> 2 * n <= |c| && forall i :: 0 <= i < 2 * n ==> LowerHex(c[i])
  {
    if n > 0 {
      assert ByteAt(c, 0).Some? <==> 2 <= |c| && LowerHex(c[0]) && LowerHex(c[1]);
      if ByteAt(c, 0).Some? {
        UnpackSucceedsIff(c[2..], n - 1);
        assert forall i :: 2 <= i < |c| ==> c[i] == c[2..][i - 2];
        assert forall i :: 0 <= i < |c| - 2 ==> c[2..][i] == c[i + 2];
      }
    }
  }

  // ----- named data -----

  /** The C string in a buffer. */
  function TextIn(memory: seq<char>): (s: string)
    ensures '\0' !in s
  {
    if memory == [] || memory[0] == '\0' then "" else [memory[0]] + TextIn(memory[1..])
  }

  lemma {:induction false} TextWritten(s: string, rest: seq<char>)
    requires '\0' !in s
    ensures TextIn(s + "\0" + rest) == s
  {
    var memory := s + "\0" + rest;
    if s != "" {
      assert memory[1..] == s[1..] + "\0" + rest;
      TextWritten(s[1..], rest);
    }
  }

  /** `strcpy`: the text and its terminator. */
  method CopyText(buff: array<char>, r: nat, name: string)
    requires r + |name| + 1 <= buff.Length
    modifies buff
    ensures buff[..] == Written(old(buff[..]), r, name + "\0")
  {
    hide Written;
    ghost var was := buff[..];
    WrittenNothing(was, r);
    var i := 0;
    while i < |name|
      invariant 0 <= i <= |name|
      invariant buff[..] == Written(was, r, name[..i])
    {
      assert name[..i + 1] == name[..i] + [name[i]];
      Put(buff, was, r, name[..i], r + i, name[i]);
      i := i + 1;
    }
    assert name[..i] == name && name + "\0" == name + ['\0'];
    Put(buff, was, r, name, r + i, '\0');
  }

  function NameLength(name: Option<string>): nat {
    match name case None => 0 case Some(n) => |n|
  }

  function NameOf(name: Option<string>): string {
    match name case None => "" case Some(n) => n
  }

  /** The text `SWIG_PackDataName` makes. */
  function NamedText(data: seq<Byte>, name: string): (s: string)
    ensures |s| == 1 + 2 * |data| + |name|
  {
    "_" + Packed(data) + name
  }

  /** An underscore, the digits, the name. Text that begins otherwise gives no data: `NULL` stands for zeros. */
  lemma NamedTextIs(data: seq<Byte>, name: string, c: string, other: string, was: seq<Byte>)
    ensures var s, n := NamedText(data, name), 2 * |data|;
      s[0] == '_' && s[1..1 + n] == Packed(data) && s[1 + n..] == name
    ensures c == "NULL" ==>
      var u := Unpacked(c, other, was);
      u.rest == Some(other) && |u.data| == |was| && forall i :: 0 <= i < |was| ==> u.data[i] == 0
    ensures c != "NULL" && !("_" <= c) ==> Unpacked(c, other, was) == Named(None, was)
  {
    if c != "" && c[0] == '_' { assert c[..1] == "_"; }
  }

  /** The underscore and the digits, at the start of the buffer. */
  method PackHead(buff: array<char>, ptr: array<Byte>) returns (r: nat)
    requires 2 * ptr.Length + 1 <= buff.Length
    modifies buff
    ensures r == 2 * ptr.Length + 1 && buff[..] == Written(old(buff[..]), 0, "_" + Packed(ptr[..]))
  {
    hide Written, Packed;
    ghost var was := buff[..];
    WrittenNothing(was, 0);
    Put(buff, was, 0, "", 0, '_');
    assert "" + ['_'] == "_";
    r := PackData(buff, 1, ptr);
    WrittenAfter(was, 0, "_", Packed(ptr[..]));
  }

  /** The name after the head makes the whole text. */
  lemma NameAfterHead(was: seq<char>, data: seq<Byte>, name: string)
    requires 2 * |data| + |name| + 2 <= |was| && '\0' !in name
    ensures var m := Written(Written(was, 0, "_" + Packed(data)), 2 * |data| + 1, name + "\0");
      && m == Written(was, 0, NamedText(data, name) + "\0")
      && TextIn(m) == NamedText(data, name)
  {
    hide Written, TextIn, Packed;
    var head := "_" + Packed(data);
    WrittenAfter(was, 0, head, name + "\0");
    assert head + (name + "\0") == head + name + "\0";
    TextWritten(head + name, was[|head + name| + 1..]);
    WrittenAtStart(was, head + name + "\0");
  }

  /** `SWIG_PackDataName`: succeeds exactly when the stated bound fits the buffer, writes no further than the bound, and
      touches nothing when it does not fit. */
  method PackDataName(buff: array<char>, ptr: array<Byte>, name: Option<string>, bsz: nat) returns (ok: bool)
    requires bsz <= buff.Length && '\0' !in NameOf(name)
    modifies buff
    ensures ok <==> 2 * ptr.Length + 2 + NameLength(name) <= bsz
    ensures ok ==> buff[..] == Written(old(buff[..]), 0, NamedText(ptr[..], NameOf(name)) + "\0")
    ensures ok ==> TextIn(buff[..]) == NamedText(ptr[..], NameOf(name))
    ensures !ok ==> buff[..] == old(buff[..])
  {
    hide Written, Packed, TextIn, NamedText;
    if 2 * ptr.Length + 2 + NameLength(name) > bsz { return false; }
    NameAfterHead(buff[..], ptr[..], NameOf(name));
    var r := PackHead(buff, ptr);
    if NameLength(name) != 0 {
      CopyText(buff, r, name.value);
    } else {
      CopyText(buff, r, "");
      assert NameOf(name) == "";
    }
    ok := true;
  }

  /** `SWIG_PackVoidPtr`: the same bound, but checked in two steps, so that a name that does not fit leaves the digits
      behind without a terminator. `ptr` is the pointer's own bytes. */
  method PackVoidPtr(buff: array<char>, ptr: array<Byte>, name: string, bsz: nat) returns (ok: bool)
    requires bsz <= buff.Length && '\0' !in name
    modifies buff
    ensures ok <==> 2 * ptr.Length + 2 + |name| <= bsz
    ensures ok ==> buff[..] == Written(old(buff[..]), 0, NamedText(ptr[..], name) + "\0")
    ensures ok ==> TextIn(buff[..]) == NamedText(ptr[..], name)
    ensures bsz < 2 * ptr.Length + 2 ==> buff[..] == old(buff[..])
    ensures !ok && 2 * ptr.Length + 2 <= bsz ==> buff[..] == Written(old(buff[..]), 0, "_" + Packed(ptr[..]))
  {
    hide Written, Packed, TextIn, NamedText;
    if 2 * ptr.Length + 2 > bsz { return false; }
    ghost var was := buff[..];
    var r := PackHead(buff, ptr);
    if |name| + 1 > bsz - r { return false; }
    NameAfterHead(was, ptr[..], name);
    CopyText(buff, r, name);
    ok := true;
  }

  /** What reading a named text gives back: the rest after the data, and the new contents of the destination. */
  datatype Named = Named(rest: Option<string>, data: seq<Byte>)

  function Unpacked(c: string, name: string, was: seq<Byte>): Named {
    var n := |was|;
    if CharAt(c, 0) == '_' then
      var data := Read(c[1..], n);
      Named(if |data| == n then Some(c[1..][2 * n..]) else None, Written(was, 0, data))
    else if c == "NULL" then
      Named(Some(name), seq(n, _ => 0))
    else
      Named(None, was)
  }

  /** `SWIG_UnpackDataName`, and `SWIG_UnpackVoidPtr` when `ptr` is the bytes of a pointer. */
  method UnpackDataName(c: string, ptr: array<Byte>, name: string) returns (rest: Option<string>)
    modifies ptr
    ensures Named(rest, ptr[..]) == Unpacked(c, name, old(ptr[..]))
  {
    hide Written, Read;
    if CharAt(c, 0) != '_' {
      if c == "NULL" {
        forall i | 0 <= i < ptr.Length { ptr[i] := 0; }
        return Some(name);
      }
      return None;
    }
    rest := UnpackData(c[1..], ptr);
  }

  /** The named form round-trips: both the bytes and the name come back, whatever was in the destination. */
  lemma NamedRoundTrip(data: seq<Byte>, name: string, other: string, was: seq<Byte>)
    requires |was| == |data|
    ensures Unpacked(NamedText(data, name), other, was) == Named(Some(name), data)
  {
    hide Read, Packed;
    var c := NamedText(data, name);
    assert c[1..] == Packed(data) + name;
    PackThenUnpack(data, name);
    assert c[1..][2 * |data|..] == name;
    assert Written(was, 0, data) == data;
  }

  /** Pack into a buffer, unpack from its text. */
  method PackAndUnpack(buff: array<char>, ptr: array<Byte>, name: string, target: array<Byte>)
    returns (rest: Option<string>)
    requires ptr != target && ptr.Length == target.Length && 2 * ptr.Length + 2 + |name| <= buff.Length && '\0' !in name
    modifies buff, target
    ensures target[..] == ptr[..] && rest == Some(name)
  {
    hide Written, TextIn, NamedText, Unpacked;
    var ok := PackDataName(buff, ptr, Some(name), buff.Length);
    NamedRoundTrip(ptr[..], name, "", target[..]);
    var text := TextIn(buff[..]);
    rest := UnpackDataName(text, target, "");
  }
}
