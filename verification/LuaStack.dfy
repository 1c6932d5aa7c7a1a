/** The Lua stack as C code sees it, and the binding runtime's helpers that push through it. */
module LuaStack {
  import opened Lua

  /** Values on the stack; tables and functions by identity, wrapped pointers with their type and metatable. */
  datatype Item =
    | Nil
    | Boolean(b: bool)
    | Str(s: string)
    | Light(address: nat)
    | Function(id: nat)
    | Table(id: nat)
    | Object(address: nat, kind: string, own: bool, metatable: Option<nat>)

  /** A call made through `lua_pcall`. */
  datatype Call = Call(func: Item, args: seq<Item>)

  /** What the called function does: return values, or raise, with what the message handler makes of the error. */
  datatype Reply = Returned(values: seq<Item>) | Raised(error: Item)

  const MODULE_KEY := "swig_runtime_data_type_pointer"
  const REGISTRY_KEY := "SWIG"

  function Entry(t: map<string, Item>, key: string): Item {
    if key in t then t[key] else Nil
  }

  /** Cut or padded with `nil` to the number of results asked for. */
  function Adjusted(values: seq<Item>, n: nat): (r: seq<Item>)
    ensures |r| == n
  {
    if n <= |values| then values[..n] else values + seq(n - |values|, _ => Nil)
  }

  class LuaState {
    var stack: seq<Item>
    var registry: map<string, Item>
    var globals: map<string, Item>
    var tables: seq<map<string, Item>>
    /** The calls made so far. */
    var calls: seq<Call>

    /** The class registry, once there, is one of the tables. */
    predicate Valid()
      reads this`registry, this`tables
    {
      Entry(registry, REGISTRY_KEY).Table? ==> Entry(registry, REGISTRY_KEY).id < |tables|
    }

    /** The metatable registered for a class. */
    function ClassTable(cname: string): Option<nat>
      requires Valid()
      reads this`registry, this`tables
    {
      match Entry(registry, REGISTRY_KEY)
      case Table(k) => (match Entry(tables[k], cname) case Table(m) => Some(m) case _ => None)
      case _ => None
    }

    // ----- the primitives -----

    method Push(v: Item)
      modifies this`stack
      ensures stack == old(stack) + [v]
    {
      stack := stack + [v];
    }

    method Pop(n: nat)
      requires n <= |stack|
      modifies this`stack
      ensures stack == old(stack)[..|old(stack)| - n]
    {
      stack := stack[..|stack| - n];
    }

    /** `lua_pop` where fewer values may be there than are popped: whether they were. */
    method PopIfThere(n: nat) returns (there: bool)
      modifies this`stack
      ensures there <==> n <= |old(stack)|
      ensures stack == if there then old(stack)[..|old(stack)| - n] else []
    {
      there := n <= |stack|;
      stack := if there then stack[..|stack| - n] else [];
    }

    /** `lua_remove(L, -2)` */
    method RemoveSecond()
      requires |stack| >= 2
      modifies this`stack
      ensures stack == old(stack)[..|old(stack)| - 2] + [old(stack)[|old(stack)| - 1]]
    {
      stack := stack[..|stack| - 2] + [stack[|stack| - 1]];
    }

    function Top(): Item
      requires |stack| > 0
      reads this`stack
    {
      stack[|stack| - 1]
    }

    /** `lua_rawget(L, LUA_REGISTRYINDEX)`: the key on top gives way to the value. */
    method RawGetRegistry()
      requires |stack| > 0 && Top().Str?
      modifies this`stack
      ensures stack == old(stack)[..|old(stack)| - 1] + [Entry(registry, old(Top()).s)]
    {
      stack := stack[..|stack| - 1] + [Entry(registry, Top().s)];
    }

    /** `lua_rawset(L, LUA_REGISTRYINDEX)`: key and value are popped. */
    method RawSetRegistry()
      requires |stack| > 1 && stack[|stack| - 2].Str?
      modifies this`stack, this`registry
      ensures stack == old(stack)[..|old(stack)| - 2]
      ensures registry == old(registry)[old(stack[|stack| - 2].s) := old(Top())]
    {
      registry := registry[stack[|stack| - 2].s := Top()];
      stack := stack[..|stack| - 2];
    }

    /** `lua_rawget(L, -2)`: the table is right below the key. */
    method RawGet()
      requires |stack| > 1 && Top().Str? && stack[|stack| - 2].Table? && stack[|stack| - 2].id < |tables|
      modifies this`stack
      ensures stack == old(stack)[..|old(stack)| - 1] + [Entry(tables[old(stack[|stack| - 2].id)], old(Top()).s)]
    {
      stack := stack[..|stack| - 1] + [Entry(tables[stack[|stack| - 2].id], Top().s)];
    }

    method NewTable()
      modifies this`stack, this`tables
      ensures tables == old(tables) + [map[]] && stack == old(stack) + [Table(|old(tables)|)]
    {
      stack := stack + [Table(|tables|)];
      tables := tables + [map[]];
    }

    /** `lua_setmetatable(L, -2)` on a wrapped pointer. */
    method SetMetatable()
      requires |stack| > 1 && Top().Table? && stack[|stack| - 2].Object?
      modifies this`stack
      ensures var n := |old(stack)|;
        stack == old(stack)[..n - 2] + [old(stack)[n - 2].(metatable := Some(old(stack)[n - 1].id))]
    {
      var n := |stack|;
      stack := stack[..n - 2] + [stack[n - 2].(metatable := Some(stack[n - 1].id))];
    }

    /** `lua_pcall`: function and arguments give way to the results, or to the one error value. */
    method PCall(nargs: nat, nresults: nat, reply: Reply)
      requires nargs < |stack|
      modifies this`stack, this`calls
      ensures var base := |old(stack)| - nargs - 1;
        && calls == old(calls) + [Call(old(stack)[base], old(stack)[base + 1..])]
        && stack == old(stack)[..base] + (if reply.Returned? then Adjusted(reply.values, nresults) else [reply.error])
    {
      var base := |stack| - nargs - 1;
      calls := calls + [Call(stack[base], stack[base + 1..])];
      stack := stack[..base] + (if reply.Returned? then Adjusted(reply.values, nresults) else [reply.error]);
    }

    // ----- the binding runtime's helpers -----

    /** `SWIG_Lua_GetModule` */
    method GetModule() returns (ret: Option<nat>)
      modifies this`stack
      ensures stack == old(stack)
      ensures ret == match Entry(registry, MODULE_KEY) case Light(a) => Some(a) case _ => None
    {
      Push(Str(MODULE_KEY));
      RawGetRegistry();
      ret := if Top().Light? then Some(Top().address) else None;
      Pop(1);
    }

    /** `SWIG_Lua_get_class_registry`: the table that is there, or a new empty one from now on. */
    method GetClassRegistry()
      requires Valid()
      modifies this`stack, this`registry, this`tables
      ensures Valid() && Entry(registry, REGISTRY_KEY).Table?
      ensures stack == old(stack) + [Entry(registry, REGISTRY_KEY)]
      ensures old(Entry(registry, REGISTRY_KEY)).Table? ==> registry == old(registry) && tables == old(tables)
      ensures !old(Entry(registry, REGISTRY_KEY)).Table? ==>
        registry == old(registry)[REGISTRY_KEY := Table(|old(tables)|)] && tables == old(tables) + [map[]]
    {
      Push(Str(REGISTRY_KEY));
      RawGetRegistry();
      if !Top().Table? {
        Pop(1);
        Push(Str(REGISTRY_KEY));
        NewTable();
        RawSetRegistry();
        Push(Str(REGISTRY_KEY));
        RawGetRegistry();
      }
    }

    /** Nothing but an empty class registry may have come into being. */
    twostate predicate Grown()
      reads this`registry, this`tables
    {
      || (registry == old(registry) && tables == old(tables))
      || (!old(Entry(registry, REGISTRY_KEY)).Table? && tables == old(tables) + [map[]]
          && registry == old(registry)[REGISTRY_KEY := Table(|old(tables)|)])
    }

    /** `SWIG_Lua_get_class_metatable`: pushes one value, the class's metatable if there is one. */
    method GetClassMetatable(cname: string)
      requires Valid()
      modifies this`stack, this`registry, this`tables
      ensures Valid() && Grown() && (forall c :: ClassTable(c) == old(ClassTable(c)))
      ensures |stack| == |old(stack)| + 1 && stack[..|old(stack)|] == old(stack)
      ensures if ClassTable(cname).Some? then Top() == Table(ClassTable(cname).value) else !Top().Table?
    {
      GetClassRegistry();
      Push(Str(cname));
      RawGet();
      RemoveSecond();
    }

    /** `_SWIG_Lua_AddMetatable`: gives the pointer on top its class's metatable; a type without class data, or of a
        class not registered, leaves it without. */
    method AddMetatable(class_: Option<string>)
      requires Valid() && |stack| > 0 && Top().Object? && Top().metatable.None?
      modifies this`stack, this`registry, this`tables
      ensures Valid() && Grown() && (forall c :: ClassTable(c) == old(ClassTable(c)))
      ensures stack == old(stack)[..|old(stack)| - 1] +
                       [old(Top()).(metatable := if class_.Some? then old(ClassTable(class_.value)) else None)]
    {
      if class_.Some? {
        GetClassMetatable(class_.value);
        if Top().Table? {
          SetMetatable();
        } else {
          Pop(1);
        }
      }
    }

    /** `SWIG_Lua_NewPointerObj`: pushes exactly one value on every path. */
    method NewPointerObj(address: nat, kind: string, class_: Option<string>, own: bool)
      requires Valid()
      modifies this`stack, this`registry, this`tables
      ensures Valid() && Grown() && (forall c :: ClassTable(c) == old(ClassTable(c)))
      ensures stack == old(stack) + [if address == 0 then Nil
                                     else Object(address, kind, own,
                                                 if class_.Some? then old(ClassTable(class_.value)) else None)]
    {
      if address == 0 {
        Push(Nil);
        return;
      }
      Push(Object(address, kind, own, None));
      AddMetatable(class_);
    }
  }
}
