/** Byte strings, as `std::string` holds them, and the options and errors shared by the other modules. */
module Bytes {
  type Byte = x: int | 0 <= x < 256

  type Text = seq<Byte>

  datatype Option<+T> = None | Some(value: T) {
    predicate IsFailure() { None? }

    function PropagateFailure<U>(): Option<U>
      requires None?
    {
      None
    }

    function Extract(): T
      requires Some?
    {
      value
    }
  }

  const NUL: Byte := 0
  const NEWLINE: Byte := 10

  /** The two bytes that end things: a C string, and a line. */
  lemma Terminators()
    ensures NUL == '\0' as int && NEWLINE == '\n' as int
  {
  }

  ghost predicate NulFree(s: Text) {
    NUL !in s
  }

  /** What `s.data()` denotes when it is read as a C string: everything before the first NUL. */
  function CStr(s: Text): (r: Text)
    ensures NulFree(r) && r <= s
    ensures |r| < |s| ==> s[|r|] == NUL
    ensures NulFree(s) <==> r == s
  {
    if s == [] || s[0] == NUL then [] else [s[0]] + CStr(s[1..])
  }
}
