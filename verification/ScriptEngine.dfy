/** The bridge between the server and the Lua state: every call goes through `pass_to_lua`. */
module ScriptEngine {
  import opened Lua
  import opened LuaStack

  /** One argument: a string, or a pointer with the name of its C++ class. */
  datatype Arg = StringArg(s: string) | PointerArg(address: nat, kind: string)

  /** What the type query answers: the mangled name, and the class its client data describes. */
  datatype TypeDescriptor = TypeDescriptor(name: string, class_: Option<string>)

  /** Who cleans up the results: `pass_to_lua` itself, `on_grind_start`, or any other callback, known by what it
      pops. */
  datatype Extractor = Absent | OnGrindStart | Callback(pops: nat)

  /** A call returns, or throws; an error handler may have popped more than the stack held. */
  datatype Outcome = Completed | Thrown(underflow: bool)

  const STACK_TRACE_PRINTER := Function(0)

  /** The directives of Lua 5.1's `lua_pushfstring` that ask for an argument. */
  const DIRECTIVES := "scdfp"

  /** `lua_pushfstring(L, s.c_str())`: the text is taken for a format. It ends at a terminator; `%%` stands for `%`;
      a directive asks for an argument that is not there, and a `%` at the very end is read past; any other character
      after `%` is copied together with it. */
  function Formatted(s: string): Option<string> {
    if AtEnd(s) then Some("")
    else if s[0] != '%' then Prefixed([s[0]], Formatted(s[1..]))
    else if AtEnd(s[1..]) || s[1] in DIRECTIVES then None
    else Prefixed(if s[1] == '%' then "%" else s[..2], Formatted(s[2..]))
  }

  predicate AtEnd(s: string) {
    s == "" || s[0] == '\0'
  }

  function Prefixed(front: string, rest: Option<string>): Option<string> {
    match rest case None => None case Some(r) => Some(front + r)
  }

  /** No terminator, and every percent sign is followed by a character that makes it neither a directive nor a pair. */
  ghost predicate Plain(s: string) {
    '\0' !in s && forall i :: 0 <= i < |s| && s[i] == '%' ==> i + 1 < |s| && s[i + 1] !in "scdfp%"
  }

  lemma PlainTail(s: string, n: nat)
    requires Plain(s) && n <= |s|
    ensures Plain(s[n..])
  {}

  /** Text never gets longer. */
  lemma {:induction false} FormattedLength(s: string)
    ensures Formatted(s).Some? ==> |Formatted(s).value| <= |s|
  {
    if !AtEnd(s) {
      if s[0] != '%' {
        FormattedLength(s[1..]);
      } else if !AtEnd(s[1..]) {
        FormattedLength(s[2..]);
      }
    }
  }

  lemma {:induction false} PlainIsKept(s: string)
    requires Plain(s)
    ensures Formatted(s) == Some(s)
  {
    if s != "" {
      assert s[0] in s;
      if s[0] != '%' {
        PlainTail(s, 1);
        PlainIsKept(s[1..]);
        assert s == [s[0]] + s[1..];
      } else {
        assert s[1] in s && s[1..][0] == s[1];
        PlainTail(s, 2);
        PlainIsKept(s[2..]);
        assert s == s[..2] + s[2..];
      }
    }
  }

  lemma {:induction false} KeptIsPlain(s: string)
    requires Formatted(s) == Some(s)
    ensures Plain(s)
  {
    hide Plain;
    if AtEnd(s) {
      PlainCons(s, 0);
    } else if s[0] != '%' {
      assert s == [s[0]] + Formatted(s[1..]).value;
      assert Formatted(s[1..]).value == s[1..];
      KeptIsPlain(s[1..]);
      PlainCons(s, 1);
    } else {
      FormattedLength(s[2..]);
      assert s == s[..2] + Formatted(s[2..]).value;
      assert Formatted(s[2..]).value == s[2..];
      KeptIsPlain(s[2..]);
      PlainCons(s, 2);
    }
  }

  lemma PlainCons(s: string, n: nat)
    requires n <= |s| && Plain(s[n..])
    requires match n
      case 0 => s == ""
      case 1 => s[0] != '%' && s[0] != '\0'
      case _ => n == 2 && s[0] == '%' && s[1] != '%' && s[1] != '\0' && s[1] !in DIRECTIVES
    ensures Plain(s)
  {
    assert forall i :: n <= i < |s| ==> s[i] == s[n..][i - n];
  }

  /** Text crosses into Lua unchanged exactly when it is plain, as URL-encoded text with capital digits is. */
  lemma FormattedUnchangedIff(s: string)
    ensures Formatted(s) == Some(s) <==> Plain(s)
  {
    if Plain(s) { PlainIsKept(s); }
    if Formatted(s) == Some(s) { KeptIsPlain(s); }
  }

  class ScriptEngine {
    var lua: LuaState?
    var running: bool
    var stopping: bool
    /** `SWIG_TypeQueryModule` around the ring of loaded modules. */
    const types: string -> Option<TypeDescriptor>

    constructor (types: string -> Option<TypeDescriptor>)
      ensures lua == null && !running && !stopping && this.types == types
    {
      lua, running, stopping := null, false, false;
      this.types := types;
    }

    /** What the bridge demands of an argument: no directive and no open end in a string; for a pointer, a loaded
        module, and a known type unless the pointer is null. */
    predicate Acceptable(arg: Arg, l: LuaState)
      reads l`registry
    {
      match arg
      case StringArg(s) => Formatted(s).Some?
      case PointerArg(a, kind) => Entry(l.registry, MODULE_KEY).Light? && (a == 0 || types(kind + " *").Some?)
    }

    /** The value an argument arrives as. */
    function Arrived(arg: Arg, l: LuaState): Item
      requires Acceptable(arg, l) && l.Valid()
      reads l`registry, l`tables
    {
      match arg
      case StringArg(s) => Str(Formatted(s).value)
      case PointerArg(a, kind) =>
        if a == 0 then Nil else
        var t := types(kind + " *").value;
        Object(a, t.name, false, if t.class_.Some? then l.ClassTable(t.class_.value) else None)
    }

    /** The arguments from the `i`-th on, in order. */
    function ArrivedFrom(args: seq<Arg>, i: nat, l: LuaState): (items: seq<Item>)
      requires l.Valid() && i <= |args| && forall a :: a in args ==> Acceptable(a, l)
      reads l`registry, l`tables
      ensures |items| == |args| - i
      decreases |args| - i
    {
      if i == |args| then [] else [Arrived(args[i], l)] + ArrivedFrom(args, i + 1, l)
    }

    method PushUserdata(l: LuaState, address: nat, kind: string)
      requires l.Valid() && Acceptable(PointerArg(address, kind), l)
      modifies l`stack, l`registry, l`tables
      ensures l.Valid() && l.Grown() && (forall c :: l.ClassTable(c) == old(l.ClassTable(c)))
      ensures l.stack == old(l.stack) + [old(Arrived(PointerArg(address, kind), l))]
    {
      var start := l.GetModule();
      var end := l.GetModule();
      var t := types(kind + " *");
      l.NewPointerObj(address, if t.Some? then t.value.name else "", if t.Some? then t.value.class_ else None, false);
    }

    method PushArg(l: LuaState, arg: Arg)
      requires l.Valid() && Acceptable(arg, l)
      modifies l`stack, l`registry, l`tables
      ensures l.Valid() && (forall c :: l.ClassTable(c) == old(l.ClassTable(c)))
      ensures Entry(l.registry, MODULE_KEY) == old(Entry(l.registry, MODULE_KEY))
      ensures l.stack == old(l.stack) + [old(Arrived(arg, l))]
    {
      match arg
      case StringArg(s) => l.Push(Str(Formatted(s).value));
      case PointerArg(a, kind) =>
        PushUserdata(l, a, kind);
    }

    method PushArgs(l: LuaState, args: seq<Arg>)
      requires l.Valid() && forall a :: a in args ==> Acceptable(a, l)
      modifies l`stack, l`registry, l`tables
      ensures l.Valid() && (forall c :: l.ClassTable(c) == old(l.ClassTable(c)))
      ensures l.stack == old(l.stack) + old(ArrivedFrom(args, 0, l))
    {
      var i := 0;
      while i < |args|
        invariant 0 <= i <= |args| && l.Valid()
        invariant forall c :: l.ClassTable(c) == old(l.ClassTable(c))
        invariant Entry(l.registry, MODULE_KEY) == old(Entry(l.registry, MODULE_KEY))
        invariant l.stack + old(ArrivedFrom(args, i, l)) == old(l.stack + ArrivedFrom(args, 0, l))
      {
        assert args[i] in args;
        PushArg(l, args[i]);
        i := i + 1;
      }
    }

    /** `lua_toboolean` */
    function Truthy(v: Item): bool {
      v != Nil && v != Boolean(false)
    }

    /** What is left when results and extractor are done: the caller cleans up one slot, which is its own only if the
        extractor popped exactly the results. */
    function Popped(extractor: Extractor, retc: nat): nat {
      match extractor case Absent => retc case OnGrindStart => 1 case Callback(n) => n
    }

    method Extract(l: LuaState, extractor: Extractor, retc: nat)
      requires lua == l && Popped(extractor, retc) <= |l.stack| && (extractor.OnGrindStart? ==> |l.stack| > 0)
      modifies this`running, l`stack
      ensures l.stack == old(l.stack)[..|old(l.stack)| - Popped(extractor, retc)]
      ensures running == if extractor.OnGrindStart? then Truthy(old(l.Top())) else old(running)
    {
      match extractor
      case Absent =>
        for i := 0 to retc
          invariant running == old(running)
          invariant l.stack == old(l.stack)[..|old(l.stack)| - i]
        {
          l.Pop(1);
        }
      case OnGrindStart =>
        running := Truthy(l.Top());
        l.Pop(1);
      case Callback(n) =>
        l.Pop(n);
    }

    /** Whether the call goes through: the arbitrator is there and raises no error. */
    predicate GoesThrough(l: LuaState, reply: Reply)
      reads l`globals
    {
      Entry(l.globals, "arbitrator").Function? && reply.Returned?
    }

    /** `pass_to_lua`. If the call goes through, the arbitrator has been called with the function's name and the
        arguments in order, and the stack is as before exactly when the extractor pops just the results. If not, the
        call throws, and the state is closed unless the engine is stopping already. */
    method PassToLua(func: string, extractor: Extractor, retc: nat, args: seq<Arg>, reply: Reply) returns (r: Outcome)
      requires lua != null && lua.Valid() && forall a :: a in args ==> Acceptable(a, lua)
      requires Popped(extractor, retc) <= |lua.stack| + retc
      modifies this`lua, this`running, this`stopping, lua`stack, lua`registry, lua`tables, lua`calls
      ensures r.Completed? <==> old(GoesThrough(lua, reply))
      ensures r.Completed? ==> lua == old(lua) && stopping == old(stopping)
      ensures r.Completed? ==>
        old(lua).calls
          == old(lua.calls + [Call(Entry(lua.globals, "arbitrator"), [Str(func)] + ArrivedFrom(args, 0, lua))])
      ensures r.Completed? && Popped(extractor, retc) == retc ==> old(lua).stack == old(lua.stack)
      ensures r.Completed? ==> |old(lua).stack| == |old(lua.stack)| + retc - Popped(extractor, retc)
      ensures r.Completed? ==> running == if !extractor.OnGrindStart? then old(running)
                                          else if retc == 0 then true
                                          else Truthy(Adjusted(reply.values, retc)[retc - 1])
      ensures r.Thrown? ==> !running && !r.underflow
      ensures r.Thrown? && !old(stopping) ==> lua == null && !stopping
      ensures old(stopping) ==> stopping && lua == old(lua)
      decreases 1, 1
    {
      hide Formatted, Acceptable, ArrivedFrom;
      var l: LuaState := lua;
      ghost var before := l.stack;
      l.Push(STACK_TRACE_PRINTER);
      l.Push(Entry(l.globals, "arbitrator"));
      if !l.Top().Function? {
        var underflow := HandleError();
        return Thrown(underflow);
      }
      Invoke(l, func, args, retc, reply);
      assert before + [STACK_TRACE_PRINTER] == l.stack[..|before| + 1];
      if reply.Raised? {
        var underflow := HandleError();
        return Thrown(underflow);
      }
      Extract(l, extractor, retc);
      l.Pop(1);
      r := Completed;
    }

    /** The name, the arguments, and the protected call. */
    method Invoke(l: LuaState, func: string, args: seq<Arg>, retc: nat, reply: Reply)
      requires l.Valid() && (forall a :: a in args ==> Acceptable(a, l)) && |l.stack| > 0
      modifies l`stack, l`registry, l`tables, l`calls
      ensures l.stack == old(l.stack)[..|old(l.stack)| - 1] +
                         (if reply.Returned? then Adjusted(reply.values, retc) else [reply.error])
      ensures l.calls == old(l.calls + [Call(l.Top(), [Str(func)] + ArrivedFrom(args, 0, l))])
    {
      ghost var before, all := l.stack, ArrivedFrom(args, 0, l);
      l.Push(Str(func));
      PushArgs(l, args);
      assert l.stack == before + ([Str(func)] + all);
      l.PCall(|args| + 1, retc, reply);
    }

    /** `handle_error`, which throws in the end: pops the message if it is text, and one value more, the message
        handler that `pass_to_lua` pushed first. It pops more than there is exactly when there is nothing but a text,
        or nothing at all; an error that is no text leaves one slot behind. */
    method HandleError() returns (underflow: bool)
      requires lua != null
      modifies this`lua, this`running, this`stopping, lua`stack, lua`registry, lua`tables, lua`calls
      ensures !running && stopping == old(stopping)
      ensures lua == if old(stopping) then old(lua) else null
      ensures underflow <==> |old(lua.stack)| == 0 || (|old(lua.stack)| == 1 && old(lua.Top()).Str?)
      ensures !underflow ==> old(lua).stack == old(lua.stack)[..|old(lua.stack)| - if old(lua.Top()).Str? then 2 else 1]
      decreases 1, 0
    {
      var l: LuaState := lua;
      if |l.stack| > 0 && l.Top().Str? {
        l.Pop(1);
      }
      var there := l.PopIfThere(1);
      running := false;
      var r := Stop(false, Returned([]));
      underflow := !there;
    }

    ghost function Open(): set<LuaState>
      reads this`lua
    {
      if lua == null then {} else {lua}
    }

    /** `stop`: closes the state, unless `grind.stop` itself fails; then the engine is left stopping with the state
        open, and no later call gets it out of there. */
    method Stop(validState: bool, reply: Reply) returns (r: Outcome)
      requires lua != null && !stopping && validState ==> lua.Valid()
      modifies this`lua, this`running, this`stopping, Open()`stack, Open()`registry, Open()`tables, Open()`calls
      ensures old(lua) == null || old(stopping)
           ==> r.Completed? && lua == old(lua) && stopping == old(stopping) && running == old(running)
      ensures old(lua) != null && !old(stopping) && (validState ==> old(GoesThrough(lua, reply))) ==>
        r.Completed? && lua == null && !stopping && running == old(running)
      ensures old(lua) != null && !old(stopping) && validState && old(GoesThrough(lua, reply)) ==>
        old(lua).calls == old(lua.calls + [Call(Entry(lua.globals, "arbitrator"), [Str("grind.stop")])])
      ensures old(lua) != null && !old(stopping) && validState && !old(GoesThrough(lua, reply)) ==>
        r.Thrown? && lua == old(lua) && stopping && !running
      ensures old(lua) != null && (!validState || old(stopping)) ==> old(lua).stack == old(lua.stack)
      decreases if validState then 2 else 0, 0
    {
      if lua == null || stopping { return Completed; }
      stopping := true;
      if validState {
        assert [Str("grind.stop")] + ArrivedFrom([], 0, lua) == [Str("grind.stop")];
        r := PassToLua("grind.stop", Absent, 0, [], reply);
        if r.Thrown? { return; }
      }
      lua := null;
      stopping := false;
      r := Completed;
    }

    /** The kernel as `grind.start` is given it: its pointer with the type and metatable of its class, or nil. */
    function KernelItem(kernel: nat, l: LuaState): Item
      requires l.Valid() && Acceptable(PointerArg(kernel, "grind::kernel"), l)
      reads l`registry, l`tables
    {
      if kernel == 0 then Nil
      else
        assert "grind::kernel" + " *" == "grind::kernel *";
        var TypeDescriptor(name, class_) := types("grind::kernel *").value;
        Object(kernel, name, false, if class_.Some? then l.ClassTable(class_.value) else None)
    }

    lemma KernelArrives(kernel: nat, l: LuaState)
      requires l.Valid() && Acceptable(PointerArg(kernel, "grind::kernel"), l)
      ensures [Str("grind.start")] + ArrivedFrom([PointerArg(kernel, "grind::kernel")], 0, l)
           == [Str("grind.start"), KernelItem(kernel, l)]
    {
      var args := [PointerArg(kernel, "grind::kernel")];
      assert "grind::kernel" + " *" == "grind::kernel *";
      assert ArrivedFrom(args, 1, l) == [] && Arrived(args[0], l) == KernelItem(kernel, l);
    }

    /** `start`, with the new state in which the configuration has been run; if that failed, only the error is on the
        stack. A failure that is reported as text pops more than there is. */
    method Start(configured: LuaState, failed: bool, kernel: nat, reply: Reply) returns (r: Outcome)
      requires lua == null ==> !stopping && (failed ==> |configured.stack| == 1)
      requires lua == null && !failed
           ==> configured.Valid() && Acceptable(PointerArg(kernel, "grind::kernel"), configured)
      modifies this`lua, this`running, this`stopping, configured`stack, configured`registry, configured`tables
      modifies configured`calls
      ensures old(lua) != null
           ==> r.Completed? && lua == old(lua) && running == old(running) && stopping == old(stopping)
      ensures old(lua) == null && failed ==> r == Thrown(old(configured.Top()).Str?) && lua == null && !running
      ensures old(lua) == null && !failed && old(GoesThrough(configured, reply)) ==>
        && r.Completed? && lua == configured && configured.stack == old(configured.stack)
        && (running <==> reply.values != [] && reply.values[0] != Nil && reply.values[0] != Boolean(false))
      ensures old(lua) == null && !failed && old(GoesThrough(configured, reply)) ==>
        configured.calls == old(configured.calls +
          [Call(Entry(configured.globals, "arbitrator"), [Str("grind.start"), KernelItem(kernel, configured)])])
      ensures old(lua) == null && !failed && !old(GoesThrough(configured, reply)) ==>
        r == Thrown(false) && lua == null && !running
    {
      hide Formatted, Acceptable, Arrived, ArrivedFrom, KernelItem;
      if lua != null { return Completed; }
      lua := configured;
      if failed {
        var underflow := HandleError();
        return Thrown(underflow);
      }
      running := true;
      KernelArrives(kernel, configured);
      r := PassToLua("grind.start", OnGrindStart, 1, [PointerArg(kernel, "grind::kernel")], reply);
    }

    /** `relay`: on success the stack is as before and `grind.handle` has had the buffer, as formatted, and the
        label. */
    method Relay(buf: string, label_: string, reply: Reply) returns (r: Outcome)
      requires lua != null && lua.Valid() && Formatted(buf).Some? && Formatted(label_).Some?
      modifies this`lua, this`running, this`stopping, lua`stack, lua`registry, lua`tables, lua`calls
      ensures r.Completed? <==> old(GoesThrough(lua, reply))
      ensures r.Completed? ==> lua == old(lua) && old(lua).stack == old(lua.stack) && running == old(running)
      ensures r.Completed? ==>
        old(lua).calls == old(lua.calls + [Call(Entry(lua.globals, "arbitrator"),
                                                [Str("grind.handle"), Str(Formatted(buf).value),
                                                  Str(Formatted(label_).value)])])
      ensures r.Thrown? && !old(stopping) ==> lua == null && !stopping && !running
      ensures old(stopping) ==> stopping && lua == old(lua)
    {
      ghost var args := [StringArg(buf), StringArg(label_)];
      assert ArrivedFrom(args, 1, lua) == [Str(Formatted(label_).value)];
      assert [Str("grind.handle")] + ArrivedFrom(args, 0, lua) ==
             [Str("grind.handle"), Str(Formatted(buf).value), Str(Formatted(label_).value)];
      r := PassToLua("grind.handle", Absent, 0, [StringArg(buf), StringArg(label_)], reply);
    }
  }
}
