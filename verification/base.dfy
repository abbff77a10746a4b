/** Shared vocabulary of the model: an option type, the unchecked Java
    exceptions that can escape the runner, and the string helpers its Java
    code relies on (concatenation of an argument array, `String.trim`). */
module Base {

  datatype Option<+T> = None | Some(value: T)

  /** Unchecked exceptions that leave `OpxmlRunner.run`: it only catches
      SAX and I/O exceptions, so these propagate to its caller. */
  datatype Thrown =
    | IndexOutOfBounds              // ArrayIndexOutOfBoundsException from `args[k]`
    | NullPointer                   // a DOM lookup found no element and yielded null
    | Unrecognized(message: string) // the RuntimeException thrown for an unknown kind

  /** In-order concatenation of all parts, with no delimiter. */
  function Concat(parts: seq<string>): string
  {
    if |parts| == 0 then "" else parts[0] + Concat(parts[1..])
  }

  /** Appending one part to the array appends its text to the concatenation. */
  lemma {:induction false} ConcatSnoc(parts: seq<string>, last: string)
    ensures Concat(parts + [last]) == Concat(parts) + last
  {
    if |parts| == 0 {
      assert parts + [last] == [last];
    } else {
      assert (parts + [last])[1..] == parts[1..] + [last];
      ConcatSnoc(parts[1..], last);
    }
  }

  /** Every character is one that Java's `String.trim` strips (code point <= U+0020). */
  predicate Blank(s: string)
  {
    forall i :: 0 <= i < |s| ==> s[i] <= ' '
  }

  lemma BlankConcat(a: string, b: string)
    ensures Blank(a + b) <==> Blank(a) && Blank(b)
  {
    if Blank(a) && Blank(b) {
      forall i | 0 <= i < |a + b|
        ensures (a + b)[i] <= ' '
      {
        if i < |a| { assert (a + b)[i] == a[i]; } else { assert (a + b)[i] == b[i - |a|]; }
      }
    }
    if Blank(a + b) {
      forall i | 0 <= i < |a|
        ensures a[i] <= ' '
      {
        assert (a + b)[i] == a[i];
      }
      forall i | 0 <= i < |b|
        ensures b[i] <= ' '
      {
        assert (a + b)[|a| + i] == b[i];
      }
    }
  }

  /** Leading blanks removed: the result is a suffix, only blanks were
      dropped, and it starts with a non-blank character unless empty. */
  function TrimStart(s: string): (r: string)
    ensures |r| <= |s| && r == s[|s| - |r|..]
    ensures Blank(s[..|s| - |r|])
    ensures r == [] || r[0] > ' '
  {
    if |s| > 0 && s[0] <= ' ' then
      var r := TrimStart(s[1..]);
      assert s[..|s| - |r|] == [s[0]] + s[1..][..|s| - 1 - |r|];
      BlankConcat([s[0]], s[1..][..|s| - 1 - |r|]);
      r
    else
      s
  }

  /** Trailing blanks removed: the result is a prefix, only blanks were
      dropped, and it ends with a non-blank character unless empty. */
  function TrimEnd(s: string): (r: string)
    ensures |r| <= |s| && r == s[..|r|]
    ensures Blank(s[|r|..])
    ensures r == [] || r[|r| - 1] > ' '
  {
    if |s| > 0 && s[|s| - 1] <= ' ' then
      var r := TrimEnd(s[..|s| - 1]);
      assert s[|r|..] == s[..|s| - 1][|r|..] + [s[|s| - 1]];
      BlankConcat(s[..|s| - 1][|r|..], [s[|s| - 1]]);
      r
    else
      s
  }

  /** Java's `String.trim`. */
  function Trim(s: string): string
  {
    TrimEnd(TrimStart(s))
  }

  /** `s.trim().equals("")` holds exactly when every character of `s` is blank. */
  lemma TrimEmptyIffBlank(s: string)
    ensures Trim(s) == "" <==> Blank(s)
  {
  }
}
