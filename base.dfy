/** Shared helper types: optional values, results and the diagnostic log
    entries that the interpreter's singleton `Proto` would print. */
module Base {

  datatype Option<+T> = None | Some(value: T)

  datatype Result<+T, +E> = Ok(value: T) | Err(error: E) {
    predicate IsFailure() { Err? }
    function PropagateFailure<U>(): Result<U, E>
      requires Err?
    {
      Err(error)
    }
    function Extract(): T
      requires Ok?
    {
      value
    }
  }

  /** One line written to the diagnostic stream: `Proto::error` reports an
      error, the resolver's `warn` a warning, `Proto::runtimeError` a
      runtime error. The model keeps the line and the message text. */
  datatype Diagnostic =
    | CompileError(line: nat, message: string)
    | Warning(line: nat, message: string)
    | RuntimeFault(line: nat, message: string)

  /** The double-quote character that delimits string literals. */
  const Quote: char := '\U{22}'

  /** Number of newline characters in `s`. */
  function CountNewlines(s: string): (n: nat)
    ensures n <= |s|
  {
    if s == [] then 0 else (if s[0] == '\n' then 1 else 0) + CountNewlines(s[1..])
  }

  /** Number of newline characters in `src` from index `lo` up to, not including, `hi`. */
  function NewlinesIn(src: string, lo: nat, hi: nat): (n: nat)
    requires lo <= hi <= |src|
    ensures n <= hi - lo
  {
    CountNewlines(src[lo..hi])
  }

  lemma {:induction false} NoNewlines(s: string)
    requires forall k :: 0 <= k < |s| ==> s[k] != '\n'
    ensures CountNewlines(s) == 0
  {
    if s != [] {
      NoNewlines(s[1..]);
    }
  }

  lemma {:induction false} CountNewlinesAppend(a: string, b: string)
    ensures CountNewlines(a + b) == CountNewlines(a) + CountNewlines(b)
  {
    if a == [] {
      assert a + b == b;
    } else {
      assert (a + b)[1..] == a[1..] + b;
      CountNewlinesAppend(a[1..], b);
    }
  }
}
