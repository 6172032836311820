/** Values shared by every part of the model: optional values, the Python
    exceptions the script lets escape, and Python-style sequence indexing. */
module Common {

  datatype Option<+T> = None | Some(value: T)

  /** The exceptions the script raises on unexpected input and never catches:
      an index out of range (or `answer[0]` on an empty answer), an `int()`
      that cannot parse, the end of the console input, a local variable
      read before any assignment, and a file that cannot be opened for
      writing. */
  datatype PyError = IndexError | ValueError | EndOfInput | UnboundLocal | OSError

  datatype Result<+T> = Ok(value: T) | Err(error: PyError)

  /** `s[i]` is defined in Python for `-len(s) <= i < len(s)`. */
  predicate InRange(n: nat, i: int)
  {
    -(n as int) <= i < n
  }

  /** Python indexing: a negative index counts from the end. */
  function PyAt<T>(s: seq<T>, i: int): T
    requires InRange(|s|, i)
  {
    if i < 0 then s[|s| + i] else s[i]
  }

  /** Python's `s[i:]`, including negative and oversized starts. */
  function SliceFrom<T>(s: seq<T>, i: int): (r: seq<T>)
    ensures |r| <= |s|
    ensures r == s[|s| - |r|..]
    ensures 0 <= i <= |s| ==> r == s[i..]
    ensures i > |s| ==> r == []
    ensures -|s| <= i < 0 ==> |r| == 0 - i
    ensures i < -|s| ==> r == s
  {
    if i >= |s| then []
    else if i >= 0 then s[i..]
    else if |s| + i >= 0 then s[|s| + i..]
    else s
  }

  lemma AppendAssoc<T>(a: seq<T>, b: seq<T>, c: seq<T>)
    ensures a + (b + c) == (a + b) + c
  {
  }

  /** A non-empty sequence is its front followed by its last element. */
  lemma SplitLast<T>(s: seq<T>)
    requires s != []
    ensures s == s[..|s| - 1] + [s[|s| - 1]]
  {
  }
}
