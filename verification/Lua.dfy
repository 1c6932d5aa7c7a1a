/** Lua 5.1 values and the string operation the log engine relies on. */
module Lua {

  datatype Option<+T> = None | Some(value: T)

  /** A captured substring, or `false` for a group that took no part in the match. */
  datatype Value = Text(s: string) | False

  /** A table keyed by strings: entries, contexts, formatted rows. */
  type Fields = map<string, Value>

  /** `s:sub(i, j)`: 1-based, inclusive, negative indices count from the end, out-of-range ends are clamped. */
  function Sub(s: string, i: int, j: int): string {
    var lo := if i < 0 then (if |s| + i + 1 < 1 then 1 else |s| + i + 1) else if i == 0 then 1 else i;
    var hi := if j < 0 then |s| + j + 1 else if j > |s| then |s| else j;
    if lo > hi then "" else s[lo - 1..hi]
  }

  /** `s:sub(i)`. */
  function SubFrom(s: string, i: int): string {
    Sub(s, i, -1)
  }
}
