/** The cache file name: the opxml prefix followed by every request
    argument, concatenated in order. `constructFile` (the file the runner
    reads) builds it with an indexed loop, `saveOpxmlToFile` (the file the
    model-data branch writes) with a for-each loop. */
module CacheFile {

  import opened Base

  /** The name both builders are meant to produce. */
  function CacheFileName(prefix: string, args: seq<string>): string
  {
    prefix + Concat(args)
  }

  /** `constructFile`: `fileName += args[i]` for i from 0 up. */
  method ConstructFile(prefix: string, args: seq<string>) returns (path: string)
    ensures path == CacheFileName(prefix, args)
    ensures |path| >= |prefix| && path[..|prefix|] == prefix
  {
    var fileName := "";
    var i := 0;
    while i < |args|
      invariant 0 <= i <= |args|
      invariant fileName == Concat(args[..i])
    {
      ConcatSnoc(args[..i], args[i]);
      assert args[..i + 1] == args[..i] + [args[i]];
      fileName := fileName + args[i];
      i := i + 1;
    }
    assert args[..i] == args;
    path := prefix + fileName;
  }

  /** The for-each accumulation `for (String arg : args) fileName += arg`. */
  function Accumulate(acc: string, args: seq<string>): string
    decreases |args|
  {
    if |args| == 0 then acc else Accumulate(acc + args[0], args[1..])
  }

  /** The name `saveOpxmlToFile` writes to. */
  function SavedFileName(prefix: string, args: seq<string>): string
  {
    prefix + Accumulate("", args)
  }

  lemma {:induction false} AccumulateIsConcat(acc: string, args: seq<string>)
    ensures Accumulate(acc, args) == acc + Concat(args)
    decreases |args|
  {
    if |args| > 0 {
      AccumulateIsConcat(acc + args[0], args[1..]);
    }
  }

  /** The file `saveOpxmlToFile` writes is the file `constructFile` names,
      for every argument array. */
  lemma SavedFileIsConstructedFile(prefix: string, args: seq<string>)
    ensures SavedFileName(prefix, args) == CacheFileName(prefix, args)
  {
    AccumulateIsConcat("", args);
  }

  /** The name depends on the arguments only through their concatenation. */
  lemma SameConcatenationSameFile(prefix: string, a: seq<string>, b: seq<string>)
    requires Concat(a) == Concat(b)
    ensures CacheFileName(prefix, a) == CacheFileName(prefix, b)
    ensures SavedFileName(prefix, a) == SavedFileName(prefix, b)
  {
    SavedFileIsConstructedFile(prefix, a);
    SavedFileIsConstructedFile(prefix, b);
  }

  /** With no delimiter between arguments, different requests can share a
      cache file: ["ab", "c"] and ["a", "bc"] both name prefix + "abc". */
  lemma DistinctRequestsCanCollide(prefix: string)
    ensures ["ab", "c"] != ["a", "bc"]
    ensures CacheFileName(prefix, ["ab", "c"]) == CacheFileName(prefix, ["a", "bc"])
  {
  }
}
