# FileSearchApp in Dafny

FileSearchApp is a single Java class. It walks a directory tree and keeps the files that
have a line fully matching a regular expression. It then writes those files into a zip
archive, naming each entry by its path relative to the searched directory. This project
models the sequential logic under the filesystem, regex and zip library calls, and
proves what that logic promises:

- `relative_names.dfy`, module `RelativeNames`: `getRelativeFilename`. It cuts off the
  base directory's length, turns every `\` into `/` and strips leading `/` with a
  `while` loop.
- `line_matching.dfy`, module `LineMatching`: `searchText` and the `anyMatch` of
  `searchFile8`. The regex engine is a parameter, `fullMatch(regex, line)`. It holds when
  the pattern matches the whole line, as `Matcher.matches` does.
- `traversal.dfy`, module `Traversal`: the directory tree as a datatype (`Node`), the
  files a depth-first walk meets (`Files`), and the files `processFile` keeps
  (`Wanted`, `Selection`).
- `file_search_app.dfy`, module `FileSearch`: the class `FileSearchApp` with its fields
  `filePath`, `regex`, `zipFileName` and `zipFiles`. It also holds the setters, `main`'s
  argument switch (`Dispatch`), `addFileToZip`, `processFile`, `searchDirectory6`,
  `searchFile6`, `searchFile7` and the entry-naming part of `zipFilesJava7`.
- `wrappers.dfy`, module `Wrappers`: `Option`, standing for a nullable field, and
  `Result`, standing for a thrown exception.

Java's `null` is `None`. A file is a `File` value holding its absolute path, its
last-modified time and its lines. The lines are `None` when reading the file fails.
A directory is a `Directory` node whose listing is the array `listFiles` returns, in
that order. The class has a ghost field `processed`: the list of files `processFile`
has been called on, in call order. The walk is specified against it.

Three behaviours of the code are easy to miss:

- `getRelativeFilename` does not check that the file lies under the base directory. It
  only uses the base's length (`OnlyBaseLengthMatters`). There is no path error beyond
  the exception `substring` throws on a path shorter than the base.
- With no regex, a file with zero lines is not selected: `anyMatch` over an empty
  stream is false (`EmptyFileNeverMatches`, `AnyMatchMeaning`).
- The search opens and reads the file even when no regex is set.

## Model

| member | source | states |
|---|---|---|
| `RelativeNames.ReplaceBackslashes` | src/com/possible/FileSearchApp.java:186 | the result has the same length, holds no `\`, turns every `\` into `/` and keeps every other character |
| `RelativeNames.StripLeadingSlashes` | src/com/possible/FileSearchApp.java:188-190 | the result is the longest suffix that does not start with `/`: everything removed was `/` |
| `RelativeNames.RelativeName` | src/com/possible/FileSearchApp.java:182-193 | the entry name has no `\`, does not start with `/`, and is no longer than the path minus the length of the base |
| `RelativeNames.GetRelativeFilename` | src/com/possible/FileSearchApp.java:182-193 | the `while` loop that strips one `/` at a time computes exactly `RelativeName` |
| `RelativeNames.RelativeNameOfChild` | src/com/possible/FileSearchApp.java:183-192 | for a path `base + "/" + rest` with a clean `rest`, the name is exactly `rest` |
| `RelativeNames.EntryNameIsFixedPoint` | src/com/possible/FileSearchApp.java:186-190 | a name that is already clean is returned unchanged against an empty base |
| `RelativeNames.RelativeNameIdempotent` | src/com/possible/FileSearchApp.java:186-190 | normalising a result again changes nothing |
| `RelativeNames.OnlyBaseLengthMatters` | src/com/possible/FileSearchApp.java:183 | two bases of equal length give the same name: there is no prefix check |
| `LineMatching.SearchText` | src/com/possible/FileSearchApp.java:69-72 | a line is accepted iff no regex is set or the engine fully matches the whole line against the regex |
| `LineMatching.AnyMatch` | src/com/possible/FileSearchApp.java:126-128 | `searchFile8` is true iff some line satisfies `searchText` |
| `LineMatching.AnyMatchMeaning` | src/com/possible/FileSearchApp.java:69-70 | with no regex, a file is selected iff it has a line; with a regex, iff some whole line fully matches it |
| `LineMatching.EmptyFileNeverMatches` | src/com/possible/FileSearchApp.java:127 | a file with zero lines is never selected, even with no regex |
| `LineMatching.FirstMatchExists` | src/com/possible/FileSearchApp.java:110-113 | when some line is accepted there is exactly one first accepted line |
| `Traversal.FilesAreTheRegularNodes` | src/com/possible/FileSearchApp.java:74-88 | the walk yields a file iff it is a regular-file node somewhere in the tree; directories are never yielded |
| `Traversal.FilesInAreTheRegularNodes` | src/com/possible/FileSearchApp.java:81-87 | a listing yields a file iff one of its entries contains it |
| `Traversal.WalkStep` | src/com/possible/FileSearchApp.java:81-87 | walking one more listing entry appends that entry's files, and what is kept from them, at the end |
| `Traversal.SelectionSound` | src/com/possible/FileSearchApp.java:49-64 | only processed files that are wanted are kept, never more than were processed |
| `Traversal.SelectionComplete` | src/com/possible/FileSearchApp.java:49-64 | every processed file that is wanted is kept |
| `Traversal.SelectionAppend` | src/com/possible/FileSearchApp.java:60-64 | files are kept in the order they were processed |
| `Traversal.NoTargetSelectsNothing` | src/com/possible/FileSearchApp.java:61 | without a zip file name nothing is ever kept |
| `Traversal.SelectedFromTree` | src/com/possible/FileSearchApp.java:74-88 | after a walk, the kept files are exactly the tree's readable regular files with an accepted line, when a zip name is set |
| `FileSearch.ArgCount` | src/com/possible/FileSearchApp.java:24 | the switch value is the argument count, capped at 3 |
| `FileSearch.NamedEntriesWhenAllUnder` | src/com/possible/FileSearchApp.java:166-177 | when every path is at least as long as the base, naming succeeds with one entry per file, in order, entry i being file i's name and timestamp |
| `FileSearch.NamedEntriesWhenOneOutside` | src/com/possible/FileSearchApp.java:183 | one path shorter than the base, anywhere in the list, makes the naming fail |
| `FileSearch.NamedEntriesSucceed` | src/com/possible/FileSearchApp.java:166-177 | naming succeeds iff no path is shorter than the base; then there is one entry per file, in order, entry i named `RelativeName(file i)` with file i's timestamp |
| `FileSearch.NamedEntriesFail` | src/com/possible/FileSearchApp.java:183 | naming fails on the first file whose path is shorter than the base |
| `FileSearch.EntryNamesAreRelative` | src/com/possible/FileSearchApp.java:185-190 | every archive entry name has no `\` and no leading `/` |
| `FileSearch.EntriesBelowBase` | src/com/possible/FileSearchApp.java:166-177 | files at `base + "/" + rest` are archived under exactly their `rest` |
| `FileSearch.NameEntries` | src/com/possible/FileSearchApp.java:166-177 | the entry loop produces exactly `NamedEntries`: the entries in order, or the exception of the first bad path |
| `FileSearch.FileSearchApp.constructor` | src/com/possible/FileSearchApp.java:14-19 | a new app has all three settings null and an empty `zipFiles` |
| `FileSearch.FileSearchApp.SetFilePath` | src/com/possible/FileSearchApp.java:199-201 | sets the path, nothing else |
| `FileSearch.FileSearchApp.SetRegex` | src/com/possible/FileSearchApp.java:207-210 | sets the regex and nothing else; the compiled pattern is the engine applied to this regex |
| `FileSearch.FileSearchApp.SetZipFileName` | src/com/possible/FileSearchApp.java:216-218 | sets the zip file name, nothing else |
| `FileSearch.FileSearchApp.Dispatch` | src/com/possible/FileSearchApp.java:24-34 | for n = min(args.length, 3): zip name set iff n = 3, regex iff n >= 2, path iff n >= 1; a search follows iff n > 0 |
| `FileSearch.FileSearchApp.AddFileToZip` | src/com/possible/FileSearchApp.java:60-64 | appends the file iff a zip file name is set, else leaves `zipFiles` unchanged |
| `FileSearch.FileSearchApp.ProcessFile` | src/com/possible/FileSearchApp.java:49-58 | appends the file at the end iff it is readable, has an accepted line and a zip name is set; otherwise `zipFiles` is unchanged; keeps `zipFiles` equal to the selection of all processed files |
| `FileSearch.FileSearchApp.SearchDirectory6` | src/com/possible/FileSearchApp.java:74-88 | `processFile` is called on exactly the tree's regular files, depth-first in listing order, and `zipFiles` grows by exactly the wanted ones, in that order |
| `FileSearch.FileSearchApp.SearchFile6` | src/com/possible/FileSearchApp.java:107-116 | returns `anyMatch`; when true it stopped at the first accepted line, every earlier line rejected; when false it read every line |
| `FileSearch.FileSearchApp.SearchFile7` | src/com/possible/FileSearchApp.java:118-124 | returns `anyMatch`: agrees with `searchFile6` and `searchFile8` |
| `FileSearch.FileSearchApp.ZipFilesJava7` | src/com/possible/FileSearchApp.java:162-180 | a null zip name or a null path throws before any entry; otherwise the archive goes to `zipFileName` and holds the `NamedEntries` of `zipFiles` |

## Left out

- Filesystem I/O (`listFiles`, `Files.walk`, `Files.walkFileTree`, `Scanner`,
  `Files.readAllLines`, `Files.lines`, `lastModified`, `getAbsolutePath`) becomes
  inputs. The tree is a `Node`, a file's text is its `lines`, and resolving the
  configured path against the working directory is the class constant `resolve`.
- The three searches take the same list of lines. Differences in how `Scanner` and
  `Files.lines` split lines, or fail on bad UTF-8, are not modelled. A file that cannot
  be read or decoded has no lines at all (`None`).
- The regex engine: `Pattern.compile`, its `PatternSyntaxException` in `setRegex`, and
  `matcher(...).matches()`. The compiled `pattern` field is not kept. The engine's
  full-match test on the current `regex` stands in for it.
- Zip output: `ZipOutputStream`, `Files.copy`, entry and archive finalisation, and what
  a failed archive contains. Only entry names and timestamps are modelled. Neither
  `ZipEntry`'s name-length limit nor a duplicate-entry `ZipException` is modelled.
- `zipFilesJava6`: it repeats the naming loop of `zipFilesJava7`, with a `finally`
  block instead of try-with-resources.
- `searchDirectory7` and `searchDirectory8`: library-driven versions of the walk. The
  version the program runs, `Files.walk`, also hands the root and every subdirectory
  to `processFile`, where reading fails and is reported.
- `searchDirectory` and the rest of `main`: the wiring that calls `searchDirectory8`
  and then `zipFilesJava7` even when no zip name is set, and the catch that prints the
  resulting exception.
- SearchDirectory6: `listFiles` returning null is not modelled. A `Directory` node
  always has a listing, and the method requires a directory node. So the model does not
  capture a top-level path that is not a directory, nor a subdirectory that passes
  `isDirectory()` but cannot be listed (permission denied, I/O error). In the code the
  latter makes the for-each throw `NullPointerException` part-way through the walk,
  after some files have already gone to `processFile`, and the walk is abandoned.
- RelativeName: lengths count characters (Unicode scalar values), while Java's
  `length()` and `substring` count UTF-16 code units. The two agree whenever the base
  is a prefix of the path, as it is for files found under the searched directory. They
  can differ when the base is not a prefix and the first `|base|` positions of the base
  and of the path hold different numbers of characters outside the Basic Multilingual
  Plane. Then Java cuts a different number of characters from the path, or throws
  `StringIndexOutOfBoundsException`, where the model (and so `OnlyBaseLengthMatters`
  and `NamedEntries`) does not.
- Printing: the usage line, the "Error processing file" report and `printStackTrace`.
  Java `assert` statements are also left out.
