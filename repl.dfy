/** `requireNewLine` of src/src.cpp: the REPL's test of whether the code
    read so far needs another line. It counts the round and curly brackets
    outside string literals and tracks whether a literal is open. */
module Repl {

  /** The two variables of the loop: the bracket count and `withinQuotes`. */
  datatype ScanState = ScanState(count: nat, quoted: bool)

  predicate Opener(c: char) {
    c == '(' || c == '{'
  }

  predicate Closer(c: char) {
    c == ')' || c == '}'
  }

  /** One turn of the loop, at `code[i]`. In an open literal a quote closes
      it unless the character before it is a backslash; that character
      exists, since a literal can only be open after at least one turn. */
  function Step(s: ScanState, code: string, i: nat): ScanState
    requires i < |code| && (s.quoted ==> i > 0)
  {
    var c := code[i];
    var q := if c != '"' then s.quoted else if s.quoted then code[i - 1] == '\\' else true;
    var n := if !q && Opener(c) then s.count + 1 else s.count;
    var m := if !q && Closer(c) && n != 0 then n - 1 else n;
    ScanState(m, q)
  }

  /** The loop's variables after the first `i` characters. */
  function ScanTo(code: string, i: nat): (s: ScanState)
    requires i <= |code|
    ensures s.quoted ==> i > 0
  {
    if i == 0 then ScanState(0, false) else Step(ScanTo(code, i - 1), code, i - 1)
  }

  function Scan(code: string): ScanState {
    ScanTo(code, |code|)
  }

  /** What the function returns, as written. */
  function RequireNewLineAsWritten(code: string): bool {
    Scan(code).count == 0 && Scan(code).quoted
  }

  /** What the REPL evidently needs: another line while a bracket or a
      literal is still open. */
  function NeedsNewLine(code: string): bool {
    Scan(code).count != 0 || Scan(code).quoted
  }

  /** `requireNewLine`. */
  method RequireNewLine(code: string) returns (b: bool)
    ensures b == RequireNewLineAsWritten(code)
  {
    var count: nat := 0;
    var withinQuotes := false;
    for i := 0 to |code|
      invariant ScanState(count, withinQuotes) == ScanTo(code, i)
    {
      if code[i] == '"' {
        if withinQuotes {
          if code[i - 1] != '\\' {
            withinQuotes := !withinQuotes;
          }
        } else {
          withinQuotes := !withinQuotes;
        }
      }
      if !withinQuotes {
        if code[i] == '(' || code[i] == '{' {
          count := count + 1;
        }
        if (code[i] == ')' || code[i] == '}') && count != 0 {
          count := count - 1;
        }
      }
    }
    b := count == 0 && withinQuotes;
  }

  // One turn of the loop.

  /** A bracket read inside a literal does not count, a quote opens a
      literal, an escaped quote leaves it open and any other quote closes
      it; a closer at count 0 leaves the count at 0. */
  lemma StepCases(s: ScanState, code: string, i: nat)
    requires i < |code| && (s.quoted ==> i > 0)
    ensures Step(s, code, i).quoted ==> Step(s, code, i).count == s.count
    ensures code[i] != '"' ==> Step(s, code, i).quoted == s.quoted
    ensures code[i] == '"' && !s.quoted ==> Step(s, code, i).quoted
    ensures code[i] == '"' && s.quoted ==> (Step(s, code, i).quoted <==> code[i - 1] == '\\')
    ensures Closer(code[i]) && s.count == 0 ==> Step(s, code, i).count == 0
    ensures !Step(s, code, i).quoted && Opener(code[i]) ==> Step(s, code, i).count == s.count + 1
    ensures !Step(s, code, i).quoted && Closer(code[i]) && s.count != 0 ==> Step(s, code, i).count == s.count - 1
  {
  }

  // The whole scan.

  function Opens(s: string): nat {
    if s == [] then 0 else Opens(s[..|s| - 1]) + if Opener(s[|s| - 1]) then 1 else 0
  }

  function Closes(s: string): nat {
    if s == [] then 0 else Closes(s[..|s| - 1]) + if Closer(s[|s| - 1]) then 1 else 0
  }

  /** The count never exceeds the openers read; without any quote no
      literal is open and the count is at least the openers less the
      closers, since a closer only takes one off a nonzero count. */
  lemma {:induction false} ScanBounds(code: string, i: nat)
    requires i <= |code|
    ensures ScanTo(code, i).count <= Opens(code[..i])
    ensures '"' !in code[..i] ==> !ScanTo(code, i).quoted
    ensures '"' !in code[..i] ==> ScanTo(code, i).count as int >= Opens(code[..i]) - Closes(code[..i])
    decreases i
  {
    if i > 0 {
      var p := code[..i];
      assert p[..i - 1] == code[..i - 1];
      assert p[i - 1] == code[i - 1];
      assert '"' !in p ==> '"' !in code[..i - 1];
      ScanBounds(code, i - 1);
    }
  }

  /** Code without quotes and with more openers than closers leaves a
      bracket open. */
  lemma OpenBracketCounted(code: string)
    requires '"' !in code && Opens(code) > Closes(code)
    ensures Scan(code).count > 0 && !Scan(code).quoted
  {
    ScanBounds(code, |code|);
    assert code[..|code|] == code;
  }

  // The return value.

  /** As written the function never asks for another line for code
      without quotes, whatever brackets are open... */
  lemma AsWrittenIgnoresOpenBlock(code: string)
    requires '"' !in code && Opens(code) > Closes(code)
    ensures !RequireNewLineAsWritten(code)
    ensures NeedsNewLine(code)
  {
    OpenBracketCounted(code);
  }

  /** ... so `{` alone, the first line of a block, is run at once. */
  lemma AsWrittenRunsOpenBrace()
    ensures Scan("{") == ScanState(1, false)
    ensures !RequireNewLineAsWritten("{") && NeedsNewLine("{")
  {
    var code := "{";
    assert ScanTo(code, 0) == ScanState(0, false);
    assert code[0] == '{';
    assert ScanTo(code, 1) == Step(ScanState(0, false), code, 0);
  }

  /** The corrected test asks for another line exactly when a bracket or
      a literal is open, so in particular whenever the as-written test
      does, and never for closed code without quotes. */
  lemma NeedsNewLineCases(code: string)
    ensures NeedsNewLine(code) <==> Scan(code) != ScanState(0, false)
    ensures RequireNewLineAsWritten(code) ==> NeedsNewLine(code)
    ensures '"' !in code && Opens(code) > Closes(code) ==> NeedsNewLine(code)
    ensures '"' !in code && Opens(code) == 0 ==> !NeedsNewLine(code)
  {
    ScanBounds(code, |code|);
    assert code[..|code|] == code;
  }
}
