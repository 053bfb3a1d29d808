/**
 * The directory tree that searchDirectory6 walks, and the files that the walk
 * hands to processFile and that processFile keeps.
 */
module Traversal {
  import opened Wrappers
  import opened LineMatching

  /**
   * A regular file as the program sees it: its absolute path, its last-modified
   * time, and its text split into lines, or None when reading it as UTF-8 fails.
   */
  datatype File = File(absolutePath: string, lastModified: int, lines: Option<seq<string>>)

  /** A directory listing entry: a regular file, or a directory with its listing in order. */
  datatype Node = Regular(file: File) | Directory(listing: seq<Node>)

  /** The regular files of a tree, depth-first, each directory in listing order. */
  function Files(n: Node): seq<File>
    decreases n, 1
  {
    match n
    case Regular(f) => [f]
    case Directory(listing) => FilesIn(listing)
  }

  /** The regular files under a listing, entry after entry. */
  function FilesIn(listing: seq<Node>): seq<File>
    decreases listing, 0
  {
    if listing == [] then [] else Files(listing[0]) + FilesIn(listing[1..])
  }

  /** f is a regular-file node of the tree: a reference definition of "under". */
  predicate Contains(n: Node, f: File)
    decreases n
  {
    match n
    case Regular(g) => g == f
    case Directory(listing) => exists i :: 0 <= i < |listing| && Contains(listing[i], f)
  }

  /** Concatenation regrouped; the solver otherwise rebuilds this element by element. */
  lemma AppendAssoc<T>(a: seq<T>, b: seq<T>, c: seq<T>)
    ensures a + b + c == a + (b + c)
  {
  }

  /** FilesIn distributes over concatenated listings. */
  lemma {:induction false} FilesInAppend(a: seq<Node>, b: seq<Node>)
    ensures FilesIn(a + b) == FilesIn(a) + FilesIn(b)
    decreases |a|
  {
    if a == [] {
      assert a + b == b;
    } else {
      assert (a + b)[0] == a[0];
      assert (a + b)[1..] == a[1..] + b;
      FilesInAppend(a[1..], b);
    }
  }

  /** The walk yields exactly the regular files of the tree, and no directory. */
  lemma {:induction false} FilesAreTheRegularNodes(n: Node, f: File)
    ensures f in Files(n) <==> Contains(n, f)
    decreases n, 1
  {
    match n
    case Regular(g) =>
    case Directory(listing) =>
      FilesInAreTheRegularNodes(listing, f);
  }

  /** Listing form of FilesAreTheRegularNodes. */
  lemma {:induction false} FilesInAreTheRegularNodes(listing: seq<Node>, f: File)
    ensures f in FilesIn(listing) <==> exists i :: 0 <= i < |listing| && Contains(listing[i], f)
    decreases listing, 0
  {
    if listing != [] {
      FilesAreTheRegularNodes(listing[0], f);
      FilesInAreTheRegularNodes(listing[1..], f);
      if exists i :: 0 <= i < |listing| && Contains(listing[i], f) {
        var i :| 0 <= i < |listing| && Contains(listing[i], f);
        if i > 0 {
          assert listing[1..][i - 1] == listing[i];
        }
      }
      if exists i :: 0 <= i < |listing[1..]| && Contains(listing[1..][i], f) {
        var i :| 0 <= i < |listing[1..]| && Contains(listing[1..][i], f);
        assert listing[i + 1] == listing[1..][i];
      }
    }
  }

  /**
   * processFile keeps a file when searchFile (searchFile8) finds an accepted
   * line in it and a zip file name is set. A file that cannot be read is never kept.
   */
  predicate Wanted(fullMatch: FullMatch, regex: Option<string>, zipFileName: Option<string>, f: File)
  {
    zipFileName.Some? && f.lines.Some? && AnyMatch(fullMatch, regex, f.lines.value)
  }

  /** The files processFile keeps out of `files`, in the order they were processed. */
  function Selection(fullMatch: FullMatch, regex: Option<string>, zipFileName: Option<string>, files: seq<File>): seq<File>
  {
    if files == [] then []
    else
      var rest := Selection(fullMatch, regex, zipFileName, files[1..]);
      if Wanted(fullMatch, regex, zipFileName, files[0]) then [files[0]] + rest else rest
  }

  /** Only wanted files that were processed are kept, and never more of them than were processed. */
  lemma {:induction false} SelectionSound(fullMatch: FullMatch, regex: Option<string>, zipFileName: Option<string>, files: seq<File>)
    ensures |Selection(fullMatch, regex, zipFileName, files)| <= |files|
    ensures forall f :: f in Selection(fullMatch, regex, zipFileName, files) ==>
              f in files && Wanted(fullMatch, regex, zipFileName, f)
  {
    if files != [] {
      SelectionSound(fullMatch, regex, zipFileName, files[1..]);
    }
  }

  /** Selecting from a concatenation selects from each part, in order. */
  lemma {:induction false} SelectionAppend(fullMatch: FullMatch, regex: Option<string>, zipFileName: Option<string>, a: seq<File>, b: seq<File>)
    ensures Selection(fullMatch, regex, zipFileName, a + b)
         == Selection(fullMatch, regex, zipFileName, a) + Selection(fullMatch, regex, zipFileName, b)
    decreases |a|
  {
    if a == [] {
      assert a + b == b;
    } else {
      assert (a + b)[0] == a[0];
      assert (a + b)[1..] == a[1..] + b;
      SelectionAppend(fullMatch, regex, zipFileName, a[1..], b);
    }
  }

  /** One more listing entry walked: its files, and the files kept from them, come last. */
  lemma WalkStep(fullMatch: FullMatch, regex: Option<string>, zipFileName: Option<string>, listing: seq<Node>, i: nat)
    requires i < |listing|
    ensures FilesIn(listing[..i + 1]) == FilesIn(listing[..i]) + Files(listing[i])
    ensures Selection(fullMatch, regex, zipFileName, FilesIn(listing[..i + 1]))
         == Selection(fullMatch, regex, zipFileName, FilesIn(listing[..i]))
          + Selection(fullMatch, regex, zipFileName, Files(listing[i]))
  {
    assert listing[..i + 1] == listing[..i] + [listing[i]];
    FilesInAppend(listing[..i], [listing[i]]);
    assert FilesIn([listing[i]]) == Files(listing[i]);
    SelectionAppend(fullMatch, regex, zipFileName, FilesIn(listing[..i]), Files(listing[i]));
  }

  /** Every wanted file that is processed is kept: selection loses nothing. */
  lemma {:induction false} SelectionComplete(fullMatch: FullMatch, regex: Option<string>, zipFileName: Option<string>, files: seq<File>, f: File)
    requires f in files && Wanted(fullMatch, regex, zipFileName, f)
    ensures f in Selection(fullMatch, regex, zipFileName, files)
  {
    if files[0] != f {
      assert f in files[1..];
      SelectionComplete(fullMatch, regex, zipFileName, files[1..], f);
    }
  }

  /** Without a zip file name nothing is ever kept. */
  lemma {:induction false} NoTargetSelectsNothing(fullMatch: FullMatch, regex: Option<string>, files: seq<File>)
    ensures Selection(fullMatch, regex, None, files) == []
  {
    if files != [] {
      NoTargetSelectsNothing(fullMatch, regex, files[1..]);
    }
  }

  /**
   * The files kept from a walk of a tree are exactly its readable regular files
   * with an accepted line (all its non-empty readable files when no regex is set).
   */
  lemma SelectedFromTree(fullMatch: FullMatch, regex: Option<string>, zipFileName: Option<string>, root: Node, f: File)
    ensures f in Selection(fullMatch, regex, zipFileName, Files(root))
        <==> Contains(root, f) && Wanted(fullMatch, regex, zipFileName, f)
  {
    FilesAreTheRegularNodes(root, f);
    SelectionSound(fullMatch, regex, zipFileName, Files(root));
    if Contains(root, f) && Wanted(fullMatch, regex, zipFileName, f) {
      SelectionComplete(fullMatch, regex, zipFileName, Files(root), f);
    }
  }
}
