/**
 * The archive-relative name of a file: FileSearchApp.getRelativeFilename.
 * Both paths are the absolute paths Java's File.getAbsolutePath returns.
 */
module RelativeNames {

  /** True when the name cannot be read as an absolute or a Windows-style path. */
  predicate IsEntryName(s: string)
  {
    '\\' !in s && (s == [] || s[0] != '/')
  }

  /** String.replace('\\', '/'): every backslash becomes a forward slash, nothing else changes. */
  function ReplaceBackslashes(s: string): (r: string)
    ensures |r| == |s| && '\\' !in r
    ensures forall i :: 0 <= i < |s| && s[i] != '\\' ==> r[i] == s[i]
    ensures forall i :: 0 <= i < |s| && s[i] == '\\' ==> r[i] == '/'
  {
    seq(|s|, i requires 0 <= i < |s| => if s[i] == '\\' then '/' else s[i])
  }

  /**
   * What the loop that removes one leading '/' at a time leaves: the longest
   * suffix of s that does not start with '/'.
   */
  function StripLeadingSlashes(s: string): (r: string)
    ensures |r| <= |s| && r == s[|s| - |r|..]
    ensures forall i :: 0 <= i < |s| - |r| ==> s[i] == '/'
    ensures r == [] || r[0] != '/'
    decreases |s|
  {
    if |s| > 0 && s[0] == '/' then StripLeadingSlashes(s[1..]) else s
  }

  /**
   * The entry name of the file at `path` relative to the directory at `base`.
   * Only the LENGTH of base is used: the characters of path that stand where
   * base would be are dropped without comparing them with base.
   */
  function RelativeName(path: string, base: string): (r: string)
    requires |base| <= |path|
    ensures IsEntryName(r)
    ensures |r| <= |path| - |base|
  {
    StripLeadingSlashes(ReplaceBackslashes(path[|base|..]))
  }

  /** getRelativeFilename, with its `while` loop that removes one leading '/' at a time. */
  method GetRelativeFilename(path: string, base: string) returns (fileName: string)
    requires |base| <= |path|
    ensures fileName == RelativeName(path, base)
  {
    fileName := path[|base|..];
    fileName := ReplaceBackslashes(fileName);
    ghost var replaced := fileName;
    while |fileName| > 0 && fileName[0] == '/'
      invariant StripLeadingSlashes(fileName) == StripLeadingSlashes(replaced)
      decreases |fileName|
    {
      fileName := fileName[1..];
    }
  }

  /** A string without backslashes is left as it is by the replacement. */
  lemma ReplaceKeepsClean(s: string)
    requires '\\' !in s
    ensures ReplaceBackslashes(s) == s
  {
  }

  /**
   * A file directly below the base directory, `base + "/" + rest`, whose rest is
   * already a clean entry name, gets exactly `rest` as its name.
   */
  lemma {:induction false} RelativeNameOfChild(base: string, rest: string)
    requires IsEntryName(rest)
    ensures |base| <= |base + "/" + rest|
    ensures RelativeName(base + "/" + rest, base) == rest
  {
    var tail := (base + "/" + rest)[|base|..];
    assert tail == "/" + rest;
    ReplaceKeepsClean(tail);
    assert StripLeadingSlashes(tail) == StripLeadingSlashes(rest) by {
      assert tail[1..] == rest;
    }
  }

  /** Normalising a name that is already an entry name changes nothing. */
  lemma EntryNameIsFixedPoint(name: string)
    requires IsEntryName(name)
    ensures RelativeName(name, "") == name
  {
  }

  /** Normalising twice gives the same name as normalising once. */
  lemma RelativeNameIdempotent(path: string, base: string)
    requires |base| <= |path|
    ensures RelativeName(RelativeName(path, base), "") == RelativeName(path, base)
  {
  }

  /** No prefix check: two bases of the same length give the same name. */
  lemma OnlyBaseLengthMatters(path: string, base1: string, base2: string)
    requires |base1| == |base2| <= |path|
    ensures RelativeName(path, base1) == RelativeName(path, base2)
  {
  }
}
