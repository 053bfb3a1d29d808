/**
 * FileSearchApp: the object main builds from the command line, with its
 * configuration fields, the zipFiles list that processFile grows, the
 * recursive walk of searchDirectory6, the line searches of searchFile6/7/8
 * and the entry naming of zipFilesJava7.
 */
module FileSearch {
  import opened Wrappers
  import opened LineMatching
  import opened RelativeNames
  import opened Traversal

  /** The header of one archive entry: its name and its modification time. */
  datatype ZipEntry = ZipEntry(name: string, time: int)

  /** The archive zipFilesJava7 writes: its destination and its entries in order. */
  datatype Archive = Archive(target: string, entries: seq<ZipEntry>)

  /** What makes zipFilesJava7 throw before or while naming entries. */
  datatype ArchiveError =
    | NoArchiveTarget                 // new FileOutputStream(null)
    | NoBaseDirectory                 // new File(null)
    | PathShorterThanBase(file: File) // substring past the end of the file's path

  /** The value main switches on: Math.min(args.length, 3). */
  function ArgCount(args: seq<string>): (n: nat)
    ensures n <= 3 && n <= |args|
    ensures n < 3 ==> n == |args|
  {
    if |args| < 3 then |args| else 3
  }

  /** Every path is at least as long as the base, so getRelativeFilename can cut the base off. */
  predicate AllUnder(files: seq<File>, base: string)
  {
    forall i :: 0 <= i < |files| ==> |base| <= |files[i].absolutePath|
  }

  /** files[k] is the first file whose path is shorter than the base. */
  predicate FirstOutside(files: seq<File>, base: string, k: int)
  {
    0 <= k < |files| && |files[k].absolutePath| < |base| &&
    forall j :: 0 <= j < k ==> |base| <= |files[j].absolutePath|
  }

  /** The entry header zipFilesJava7 writes for one file. */
  function EntryFor(f: File, base: string): ZipEntry
    requires |base| <= |f.absolutePath|
  {
    ZipEntry(RelativeName(f.absolutePath, base), f.lastModified)
  }

  /**
   * The entries for a list of files, entry after entry, or the exception of
   * the first file whose path is shorter than the base.
   */
  function NamedEntries(files: seq<File>, base: string): Result<seq<ZipEntry>, ArchiveError>
  {
    if files == [] then Success([])
    else if |files[0].absolutePath| < |base| then Failure(PathShorterThanBase(files[0]))
    else Prepend([EntryFor(files[0], base)], NamedEntries(files[1..], base))
  }

  /** Entries already written, followed by the outcome of naming the rest. */
  function Prepend(done: seq<ZipEntry>, rest: Result<seq<ZipEntry>, ArchiveError>): Result<seq<ZipEntry>, ArchiveError>
  {
    match rest
    case Success(es) => Success(done + es)
    case Failure(e) => Failure(e)
  }

  /** When every path is long enough, there is one entry per file, in order, entry i being file i's. */
  lemma {:induction false} NamedEntriesWhenAllUnder(files: seq<File>, base: string)
    requires AllUnder(files, base)
    ensures NamedEntries(files, base).Success? && |NamedEntries(files, base).value| == |files|
    ensures forall i :: 0 <= i < |files| ==> NamedEntries(files, base).value[i] == EntryFor(files[i], base)
  {
    if files != [] {
      assert |base| <= |files[0].absolutePath|;
      assert AllUnder(files[1..], base) by {
        forall j | 0 <= j < |files| - 1 ensures |base| <= |files[1..][j].absolutePath| {
          assert files[1..][j] == files[j + 1];
        }
      }
      NamedEntriesWhenAllUnder(files[1..], base);
      var rest := NamedEntries(files[1..], base).value;
      assert NamedEntries(files, base) == Success([EntryFor(files[0], base)] + rest);
      forall i | 0 <= i < |files| ensures NamedEntries(files, base).value[i] == EntryFor(files[i], base) {
        if i > 0 { assert files[1..][i - 1] == files[i]; }
      }
    }
  }

  /** A single path shorter than the base makes the whole naming fail. */
  lemma {:induction false} NamedEntriesWhenOneOutside(files: seq<File>, base: string, k: nat)
    requires k < |files| && |files[k].absolutePath| < |base|
    ensures NamedEntries(files, base).Failure?
  {
    if |base| <= |files[0].absolutePath| {
      assert files[1..][k - 1] == files[k];
      NamedEntriesWhenOneOutside(files[1..], base, k - 1);
    }
  }

  /**
   * Naming succeeds exactly when every path is at least as long as the base;
   * then there is one entry per file, in order, entry i being file i's.
   */
  lemma {:induction false} NamedEntriesSucceed(files: seq<File>, base: string)
    ensures NamedEntries(files, base).Success? <==> AllUnder(files, base)
    ensures NamedEntries(files, base).Success? ==>
      |NamedEntries(files, base).value| == |files| &&
      forall i :: 0 <= i < |files| ==> NamedEntries(files, base).value[i] == EntryFor(files[i], base)
  {
    if AllUnder(files, base) {
      NamedEntriesWhenAllUnder(files, base);
    } else {
      var k :| 0 <= k < |files| && |files[k].absolutePath| < |base|;
      NamedEntriesWhenOneOutside(files, base, k);
    }
  }

  /** Naming fails on the first file whose path is shorter than the base. */
  lemma {:induction false} NamedEntriesFail(files: seq<File>, base: string, k: nat)
    requires FirstOutside(files, base, k)
    ensures NamedEntries(files, base) == Failure(PathShorterThanBase(files[k]))
  {
    if k > 0 {
      assert FirstOutside(files[1..], base, k - 1) by {
        forall j | 0 <= j < k - 1 ensures |base| <= |files[1..][j].absolutePath| {
          assert files[1..][j] == files[j + 1];
        }
      }
      NamedEntriesFail(files[1..], base, k - 1);
    }
  }

  /** Every entry name is relative: it has no backslash and does not start with '/'. */
  lemma EntryNamesAreRelative(files: seq<File>, base: string)
    requires AllUnder(files, base)
    ensures NamedEntries(files, base).Success?
    ensures forall e :: e in NamedEntries(files, base).value ==> IsEntryName(e.name)
  {
  }

  /**
   * Files that all lie below the base, `base + "/" + rest` with a clean rest,
   * are archived under exactly their rest.
   */
  lemma {:induction false} EntriesBelowBase(files: seq<File>, base: string, rests: seq<string>)
    requires |rests| == |files|
    requires forall i :: 0 <= i < |files| ==>
      files[i].absolutePath == base + "/" + rests[i] && IsEntryName(rests[i])
    ensures NamedEntries(files, base).Success? && |NamedEntries(files, base).value| == |files|
    ensures forall i :: 0 <= i < |files| ==> NamedEntries(files, base).value[i].name == rests[i]
  {
    forall i | 0 <= i < |files| ensures |base| <= |files[i].absolutePath| && RelativeName(files[i].absolutePath, base) == rests[i] {
      RelativeNameOfChild(base, rests[i]);
    }
    NamedEntriesSucceed(files, base);
  }

  /**
   * The loop of zipFilesJava7: one entry per file, in order, each named by
   * getRelativeFilename against the base directory and stamped with the file's
   * modification time. The first file whose path is shorter than the base
   * makes substring throw and ends the loop.
   */
  method NameEntries(files: seq<File>, baseDir: string) returns (r: Result<seq<ZipEntry>, ArchiveError>)
    ensures r == NamedEntries(files, baseDir)
  {
    var entries: seq<ZipEntry> := [];
    assert files[0..] == files;
    ghost var whole := NamedEntries(files, baseDir);
    if whole.Success? {
      assert [] + whole.value == whole.value;
    }
    for i := 0 to |files|
      invariant NamedEntries(files, baseDir) == Prepend(entries, NamedEntries(files[i..], baseDir))
    {
      var file := files[i];
      assert files[i..][0] == file && files[i..][1..] == files[i + 1..];
      if |file.absolutePath| < |baseDir| {
        return Failure(PathShorterThanBase(file));
      }
      var fileName := GetRelativeFilename(file.absolutePath, baseDir);
      ghost var rest := NamedEntries(files[i + 1..], baseDir);
      var entry := ZipEntry(fileName, file.lastModified);
      if rest.Success? {
        AppendAssoc(entries, [entry], rest.value);
      }
      entries := entries + [entry];
    }
    assert files[|files|..] == [];
    assert entries + [] == entries;
    return Success(entries);
  }

  class FileSearchApp {
    var filePath: Option<string>
    var regex: Option<string>
    var zipFileName: Option<string>
    var zipFiles: seq<File>

    /** Every file processFile has been called on, in call order. */
    ghost var processed: seq<File>

    /** The regex engine: does the pattern compiled from the first string match all of the second? */
    const fullMatch: FullMatch
    /** File.getAbsolutePath on a path string; it depends on the working directory. */
    const resolve: string -> string

    /** `new FileSearchApp()`: all three settings null, zipFiles an empty list. */
    constructor (fullMatch: FullMatch, resolve: string -> string)
      ensures filePath.None? && regex.None? && zipFileName.None?
      ensures zipFiles == [] && processed == []
      ensures this.fullMatch == fullMatch && this.resolve == resolve
      ensures Accounted()
    {
      this.fullMatch := fullMatch;
      this.resolve := resolve;
      filePath, regex, zipFileName := None, None, None;
      zipFiles, processed := [], [];
    }

    /** zipFiles holds exactly the wanted files among those processed, in processing order. */
    ghost predicate Accounted()
      reads this
    {
      zipFiles == Selection(fullMatch, regex, zipFileName, processed)
    }

    method SetFilePath(path: string)
      modifies this`filePath
      ensures filePath == Some(path)
    {
      filePath := Some(path);
    }

    method SetRegex(pattern: string)
      modifies this`regex
      ensures regex == Some(pattern)
    {
      regex := Some(pattern);
    }

    method SetZipFileName(name: string)
      modifies this`zipFileName
      ensures zipFileName == Some(name)
    {
      zipFileName := Some(name);
    }

    /**
     * main's fall-through switch on Math.min(args.length, 3): case 3 sets the
     * zip file name, case 2 the regex, case 1 the path; case 0 prints the usage
     * and returns, so no search follows. Arguments past the third are ignored.
     */
    method Dispatch(args: seq<string>) returns (search: bool)
      modifies this`filePath, this`regex, this`zipFileName
      ensures search <==> ArgCount(args) > 0
      ensures filePath == if ArgCount(args) >= 1 then Some(args[0]) else old(filePath)
      ensures regex == if ArgCount(args) >= 2 then Some(args[1]) else old(regex)
      ensures zipFileName == if ArgCount(args) == 3 then Some(args[2]) else old(zipFileName)
    {
      var n := ArgCount(args);
      if n == 0 {
        return false;
      }
      if n == 3 {
        SetZipFileName(args[2]);
      }
      if n >= 2 {
        SetRegex(args[1]);
      }
      SetFilePath(args[0]);
      search := true;
    }

    /** addFileToZip: the file is appended only when a zip file name is set. */
    method AddFileToZip(file: File)
      modifies this`zipFiles
      ensures zipFiles == if zipFileName.Some? then old(zipFiles) + [file] else old(zipFiles)
    {
      if zipFileName.Some? {
        zipFiles := zipFiles + [file];
      }
    }

    /**
     * processFile: search the file with searchFile8 and add it when it matches.
     * A file that cannot be read raises an IOException, which is caught and
     * reported, and the file is skipped.
     */
    method ProcessFile(file: File)
      modifies this`zipFiles, this`processed
      ensures processed == old(processed) + [file]
      ensures zipFiles == if Wanted(fullMatch, regex, zipFileName, file)
                          then old(zipFiles) + [file] else old(zipFiles)
      ensures zipFiles == old(zipFiles) + Selection(fullMatch, regex, zipFileName, [file])
      ensures old(Accounted()) ==> Accounted()
    {
      processed := processed + [file];
      SelectionAppend(fullMatch, regex, zipFileName, old(processed), [file]);
      match file.lines
      case None =>
      case Some(lines) =>
        if AnyMatch(fullMatch, regex, lines) {
          AddFileToZip(file);
        }
    }

    /**
     * searchDirectory6: for each entry of the directory's listing, in order,
     * recurse into a directory and call processFile on anything else.
     */
    method SearchDirectory6(dir: Node)
      requires dir.Directory?
      modifies this`zipFiles, this`processed
      ensures processed == old(processed) + Files(dir)
      ensures zipFiles == old(zipFiles) + Selection(fullMatch, regex, zipFileName, Files(dir))
      ensures old(Accounted()) ==> Accounted()
      decreases dir
    {
      var listing := dir.listing;
      ghost var processed0, kept0 := processed, zipFiles;
      for i := 0 to |listing|
        invariant processed == processed0 + FilesIn(listing[..i])
        invariant zipFiles == kept0 + Selection(fullMatch, regex, zipFileName, FilesIn(listing[..i]))
      {
        var entry := listing[i];
        WalkStep(fullMatch, regex, zipFileName, listing, i);
        ghost var done := FilesIn(listing[..i]);
        AppendAssoc(processed0, done, Files(entry));
        AppendAssoc(kept0, Selection(fullMatch, regex, zipFileName, done),
                    Selection(fullMatch, regex, zipFileName, Files(entry)));
        match entry
        case Directory(_) =>
          SearchDirectory6(entry);
        case Regular(file) =>
          ProcessFile(file);
      }
      assert listing[..|listing|] == listing;
      SelectionAppend(fullMatch, regex, zipFileName, processed0, Files(dir));
    }

    /**
     * searchFile6: read line after line, remember whether the last one was
     * accepted, and stop at the first accepted line. `read` counts the lines read.
     */
    method SearchFile6(lines: seq<string>) returns (found: bool, ghost read: nat)
      ensures found == AnyMatch(fullMatch, regex, lines)
      ensures read <= |lines|
      ensures found ==> IsFirstMatch(fullMatch, regex, lines, read - 1)
      ensures !found ==> read == |lines|
    {
      found := false;
      var next := 0;
      read := 0;
      while next < |lines|
        invariant next <= |lines| && read == next
        invariant !found
        invariant forall j :: 0 <= j < next ==> !SearchText(fullMatch, regex, lines[j])
      {
        found := SearchText(fullMatch, regex, lines[next]);
        next := next + 1;
        read := next;
        if found {
          break;
        }
      }
    }

    /** searchFile7: all lines read first, then a loop that returns at the first accepted one. */
    method SearchFile7(lines: seq<string>) returns (found: bool)
      ensures found == AnyMatch(fullMatch, regex, lines)
    {
      for i := 0 to |lines|
        invariant forall j :: 0 <= j < i ==> !SearchText(fullMatch, regex, lines[j])
      {
        if SearchText(fullMatch, regex, lines[i]) {
          return true;
        }
      }
      return false;
    }

    /**
     * zipFilesJava7 without the byte copying: open the archive at zipFileName
     * (a null name makes FileOutputStream throw), take filePath as the base
     * directory (a null path makes the File constructor throw), then write the
     * entries that NameEntries computes.
     */
    method ZipFilesJava7() returns (r: Result<Archive, ArchiveError>)
      ensures zipFileName.None? ==> r == Failure(NoArchiveTarget)
      ensures zipFileName.Some? && filePath.None? ==> r == Failure(NoBaseDirectory)
      ensures zipFileName.Some? && filePath.Some? ==>
        r == match NamedEntries(zipFiles, resolve(filePath.value))
             case Success(es) => Success(Archive(zipFileName.value, es))
             case Failure(e) => Failure(e)
    {
      if zipFileName.None? {
        return Failure(NoArchiveTarget);
      }
      if filePath.None? {
        return Failure(NoBaseDirectory);
      }
      var baseDir := resolve(filePath.value);
      var entries := NameEntries(zipFiles, baseDir);
      match entries
      case Success(es) => r := Success(Archive(zipFileName.value, es));
      case Failure(e) => r := Failure(e);
    }
  }
}
