/** Shared vocabulary of the `validate_routes!` pipeline: optional values,
    fail-fast results carrying a located error, and Rust visibilities. */
module Common {

  datatype Option<+T> = None | Some(value: T)

  /** Where an error is reported. `syn::Error` carries a span; the model
      keeps only what identifies it: the macro call site, the end of the
      token input, or the source text of the offending token. */
  datatype Span = CallSite | EndOfInput | At(text: string)

  datatype Error = Error(msg: string, span: Span)

  /** `syn::Result<T>`, usable with `:-`. */
  datatype Result<+T> = Ok(value: T) | Err(error: Error) {

    predicate IsFailure() {
      Err?
    }

    function PropagateFailure<U>(): Result<U>
      requires Err?
    {
      Err(error)
    }

    function Extract(): T
      requires Ok?
    {
      value
    }
  }

  /** `syn::Visibility`, restricted to the two forms the macro uses. */
  datatype Vis = Pub | Inherited

  predicate NoChar(s: string, c: char)
  {
    forall i :: 0 <= i < |s| ==> s[i] != c
  }

  /** The index of the last `c` in `s`, or -1 when there is none. */
  function LastIndex(s: string, c: char): (k: int)
    ensures -1 <= k < |s|
    ensures k >= 0 ==> s[k] == c
    ensures forall i :: k < i < |s| ==> s[i] != c
    decreases |s|
  {
    if |s| == 0 then -1
    else if s[|s| - 1] == c then |s| - 1
    else LastIndex(s[..|s| - 1], c)
  }

  /** The index of the first `c` in `s`, or `|s|` when there is none. */
  function FirstIndex(s: string, c: char): (k: nat)
    ensures k <= |s|
    ensures k < |s| ==> s[k] == c
    ensures forall i :: 0 <= i < k ==> s[i] != c
    decreases |s|
  {
    if |s| == 0 then 0
    else if s[0] == c then 0
    else 1 + FirstIndex(s[1..], c)
  }

  /** Rust's `s.split(c).last().unwrap()` for a one-character separator:
      the text after the last `c`, or all of `s` when there is none. */
  function AfterLast(s: string, c: char): (r: string)
    ensures |r| <= |s| && r == s[|s| - |r|..]
    ensures NoChar(r, c)
    ensures |r| == |s| || s[|s| - |r| - 1] == c
  {
    s[LastIndex(s, c) + 1..]
  }

  /** Rust's `s.split(c).next().unwrap()`: the text before the first `c`,
      or all of `s` when there is none. */
  function BeforeFirst(s: string, c: char): (r: string)
    ensures |r| <= |s| && r == s[..|r|]
    ensures NoChar(r, c)
    ensures |r| == |s| || s[|r|] == c
  {
    s[..FirstIndex(s, c)]
  }

  /** The text after a final separator is what `AfterLast` returns. */
  lemma AfterLastSep(p: string, c: char, n: string)
    requires NoChar(n, c)
    ensures AfterLast(p + [c] + n, c) == n
  {
    var s := p + [c] + n;
    assert s[|p|] == c;
    assert forall i :: |p| < i < |s| ==> s[i] == n[i - |p| - 1];
    assert s[|p| + 1..] == n;
  }

  /** The text before a first separator is what `BeforeFirst` returns. */
  lemma BeforeFirstSep(n: string, c: char, p: string)
    requires NoChar(n, c)
    ensures BeforeFirst(n + [c] + p, c) == n
  {
    var s := n + [c] + p;
    assert s[|n|] == c;
    assert forall i :: 0 <= i < |n| ==> s[i] == n[i];
    assert s[..|n|] == n;
  }
}
