/** The template's varargs emptiness guard. */
module Guards {
  import opened Java

  /** isEmpty(args...): true when no argument was passed or any argument is
      null or has no characters. */
  predicate AnyEmpty(args: seq<JString>) {
    |args| == 0 || exists i :: 0 <= i < |args| && StrIsEmpty(args[i])
  }
}
