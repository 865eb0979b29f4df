/**
 * The knowledge dump of scripts/prepare_kb.py: every text file of the project that passes the
 * name and extension filter, under a directory that is not ignored, written as one block of the
 * dump, with a count of the files and of their characters.
 */
module KnowledgeDump {
  import opened Wrappers
  import opened Strings
  import Paths

  const IgnoreDirs: set<string> :=
    {"venv", "__pycache__", ".git", ".idea", "alembic", ".agent", "node_modules", ".gemini", "scripts"}
  const IgnoreFiles: set<string> :=
    {".DS_Store", "full_codebase.txt", "poetry.lock", "package-lock.json", "generate_code_dump.py", "code_dump.txt"}
  const ValidExtensions: set<string> :=
    {".py", ".yaml", ".yml", ".Dockerfile", ".md", ".txt", ".sh", ".json", ".env.example"}

  /** The dump's own file name, written into the project root. */
  const OutputName := "full_codebase.txt"

  /** `'=' * 50`. */
  const Rule := "=================================================="

  /**
   * A file `os.walk` would list if nothing were pruned: the directory names leading to it below the
   * project root, its name, and its text, or None when opening or decoding it raises.
   */
  datatype Entry = Entry(dir: seq<string>, name: string, content: Option<string>)

  /** `dirs[:] = [d for d in dirs if d not in IGNORE_DIRS]`. */
  function Prune(dirs: seq<string>): (r: seq<string>)
    ensures |r| <= |dirs|
    ensures forall d :: d in r <==> d in dirs && d !in IgnoreDirs
  {
    if dirs == [] then []
    else
      var rest := Prune(dirs[..|dirs| - 1]);
      var d := dirs[|dirs| - 1];
      assert forall x :: x in dirs <==> x in dirs[..|dirs| - 1] || x == d;
      if d in IgnoreDirs then rest else rest + [d]
  }

  /** The walk reaches a directory exactly when no directory on the way to it is ignored. */
  predicate Reached(dir: seq<string>) {
    forall k :: 0 <= k < |dir| ==> dir[k] !in IgnoreDirs
  }

  /** The name and extension filter of the inner loop. */
  predicate Selected(name: string) {
    name !in IgnoreFiles && (Paths.SplitExt(name) in ValidExtensions || name == "Dockerfile")
  }

  /** A file that gets a block: reached, selected and readable. */
  predicate Dumps(e: Entry) {
    Reached(e.dir) && Selected(e.name) && e.content.Some?
  }

  /** `os.path.relpath(os.path.join(root, file), PROJECT_ROOT)`. */
  function RelPath(e: Entry): string {
    Paths.JoinAll(e.dir + [e.name])
  }

  function Header(root: string): string {
    "PROJECT CODEBASE DUMP\n" + ("Root: " + root + "\n") + (Rule + "\n\n")
  }

  /** What one file contributes to the dump. */
  function Block(relpath: string, content: string): string {
    "\n" + Rule + "\n" + "FILE: " + relpath + "\n" + Rule + "\n" + content + "\n\n"
  }

  function ContentOf(e: Entry): string {
    if e.content.Some? then e.content.value else ""
  }

  function BlockOf(e: Entry): string {
    Block(RelPath(e), ContentOf(e))
  }

  /** The files that get a block, in walk order. */
  function DumpedFiles(entries: seq<Entry>): (r: seq<Entry>)
    ensures |r| <= |entries|
  {
    if entries == [] then []
    else
      var last := entries[|entries| - 1];
      DumpedFiles(entries[..|entries| - 1]) + (if Dumps(last) then [last] else [])
  }

  /** The number of characters of the given files. */
  function TotalSize(files: seq<Entry>): nat {
    if files == [] then 0 else TotalSize(files[..|files| - 1]) + |ContentOf(files[|files| - 1])|
  }

  /** The dump for a walk: the header, then one block per dumped file. */
  function Dump(root: string, entries: seq<Entry>): string {
    Header(root) + JoinMap(BlockOf, DumpedFiles(entries))
  }

  lemma DumpedSnoc(entries: seq<Entry>, e: Entry)
    ensures DumpedFiles(entries + [e]) == DumpedFiles(entries) + (if Dumps(e) then [e] else [])
  {
    assert (entries + [e])[..|entries|] == entries;
  }

  lemma TotalSizeSnoc(files: seq<Entry>, e: Entry)
    ensures TotalSize(files + [e]) == TotalSize(files) + |ContentOf(e)|
  {
    assert (files + [e])[..|files|] == files;
  }

  /**
   * The body of the inner loop for one walked file: its block when it passes the filters and can be
   * read, and nothing otherwise.
   */
  method DumpFile(e: Entry) returns (block: Option<string>)
    ensures Dumps(e) ==> block == Some(BlockOf(e))
    ensures !Dumps(e) ==> block == None
  {
    // os.walk never enters a directory pruned from the listing of its parent
    if !Reached(e.dir) {
      return None;
    }
    if e.name in IgnoreFiles {
      return None;
    }
    var ext := Paths.SplitExt(e.name);
    var relpath := RelPath(e);
    if ext !in ValidExtensions && e.name != "Dockerfile" {
      return None;
    }
    if e.content.None? {
      // the read raised: the file is reported as skipped
      return None;
    }
    var content := e.content.value;
    return Some(Block(relpath, content));
  }

  /**
   * `generate_dump` up to its closing summary: the header, then for each walked file that passes
   * the filters and can be read, its block, counted and measured.
   */
  method GenerateDump(root: string, entries: seq<Entry>) returns (out: string, fileCount: nat, totalSize: nat)
    ensures out == Dump(root, entries)
    ensures fileCount == |DumpedFiles(entries)|
    ensures totalSize == TotalSize(DumpedFiles(entries))
  {
    fileCount, totalSize := 0, 0;
    out := "PROJECT CODEBASE DUMP\n";
    out := out + ("Root: " + root + "\n");
    out := out + (Rule + "\n\n");
    ghost var header := Header(root);
    assert out == header;
    for i := 0 to |entries|
      invariant out == header + JoinMap(BlockOf, DumpedFiles(entries[..i]))
      invariant fileCount == |DumpedFiles(entries[..i])|
      invariant totalSize == TotalSize(DumpedFiles(entries[..i]))
    {
      var e := entries[i];
      ghost var before := DumpedFiles(entries[..i]);
      assert entries[..i + 1] == entries[..i] + [e];
      DumpedSnoc(entries[..i], e);
      var block := DumpFile(e);
      if block.Some? {
        assert DumpedFiles(entries[..i + 1]) == before + [e];
        JoinMapSnoc(BlockOf, before, e);
        TotalSizeSnoc(before, e);
        AppendAssoc(header, JoinMap(BlockOf, before), BlockOf(e));
        out := out + block.value;
        fileCount := fileCount + 1;
        totalSize := totalSize + |e.content.value|;
        assert out == header + JoinMap(BlockOf, before + [e]);
        assert totalSize == TotalSize(before + [e]);
      } else {
        assert DumpedFiles(entries[..i + 1]) == before;
      }
    }
    assert entries[..|entries|] == entries;
  }

  /**
   * Pruning by name at every depth: below a reached directory, a subdirectory is walked exactly
   * when it survives the pruning of its parent's listing.
   */
  lemma PrunedByName(dir: seq<string>, subdirs: seq<string>, d: string)
    requires d in subdirs
    ensures Reached(dir + [d]) <==> Reached(dir) && d in Prune(subdirs)
  {
    assert (dir + [d])[|dir|] == d;
    assert forall k :: 0 <= k < |dir| ==> (dir + [d])[k] == dir[k];
  }

  /** A file below an ignored directory, at any depth, gets no block. */
  lemma IgnoredDirectoryHidesFile(e: Entry, k: nat)
    requires k < |e.dir| && e.dir[k] in IgnoreDirs
    ensures !Dumps(e)
  {
  }

  /** The name list wins over the extension: an ignored name is skipped whatever its extension. */
  lemma IgnoredNameFirst(name: string)
    requires name in IgnoreFiles
    ensures !Selected(name)
  {
  }

  /** The dump never includes itself, although ".txt" is a valid extension. */
  lemma OutputNeverDumped(content: Option<string>)
    ensures ".txt" in ValidExtensions
    ensures !Dumps(Entry([], OutputName, content))
  {
  }

  /**
   * `splitext` returns only the last suffix, which holds no '.' after its first character, so the
   * listed extension ".env.example" never matches and a file is selected by the other eight
   * extensions or by the name "Dockerfile" alone.
   */
  lemma EnvExampleNeverMatches(name: string)
    ensures Paths.SplitExt(name) != ".env.example"
    ensures Selected(name) <==> (name !in IgnoreFiles
      && (Paths.SplitExt(name) in ValidExtensions - {".env.example"} || name == "Dockerfile"))
  {
    assert '.' in ".env.example"[1..] by {
      assert ".env.example"[1..][3] == '.';
    }
  }

  /** A file is dumped exactly when it is walked, passes the filters and can be read. */
  lemma {:induction false} DumpedFilesIff(entries: seq<Entry>, e: Entry)
    ensures e in DumpedFiles(entries) <==> e in entries && Dumps(e)
    decreases |entries|
  {
    if entries != [] {
      var init := entries[..|entries| - 1];
      DumpedFilesIff(init, e);
      assert entries == init + [entries[|entries| - 1]];
    }
  }

  /** Dumping keeps the walk order: the files of a longer walk follow those of its first part. */
  lemma {:induction false} DumpedInWalkOrder(first: seq<Entry>, rest: seq<Entry>)
    ensures DumpedFiles(first + rest) == DumpedFiles(first) + DumpedFiles(rest)
    decreases |rest|
  {
    if rest != [] {
      var n := |rest| - 1;
      DumpedInWalkOrder(first, rest[..n]);
      assert first + rest == (first + rest[..n]) + [rest[n]];
      assert rest == rest[..n] + [rest[n]];
      DumpedSnoc(first + rest[..n], rest[n]);
      DumpedSnoc(rest[..n], rest[n]);
    } else {
      assert first + rest == first;
    }
  }

  /** The three header lines open the dump, before any file block. */
  lemma HeaderFirst(root: string, entries: seq<Entry>)
    ensures StartsWith(Dump(root, entries), "PROJECT CODEBASE DUMP\n" + ("Root: " + root + "\n") + (Rule + "\n\n"))
  {
    assert Dump(root, entries)[..|Header(root)|] == Header(root);
  }

  /** The block of the `k`-th dumped file comes right after the header and the blocks before it. */
  lemma BlockInPlace(root: string, entries: seq<Entry>, k: nat)
    requires k < |DumpedFiles(entries)|
    ensures var files := DumpedFiles(entries);
      OccursAt(Dump(root, entries), BlockOf(files[k]), |Header(root)| + |JoinMap(BlockOf, files[..k])|)
  {
    var files := DumpedFiles(entries);
    assert Dump(root, entries) == Header(root) + JoinMap(BlockOf, files);
    JoinMapBehind(Header(root), BlockOf, files, k);
  }

  /**
   * One more walked file: a dumped one appends its block, adds one to the file count and its length
   * to the size; any other file, an unreadable one included, changes neither the dump nor the counters.
   */
  lemma DumpStep(root: string, entries: seq<Entry>, e: Entry)
    ensures Dumps(e) ==> (Dump(root, entries + [e]) == Dump(root, entries) + BlockOf(e)
      && |DumpedFiles(entries + [e])| == |DumpedFiles(entries)| + 1
      && TotalSize(DumpedFiles(entries + [e])) == TotalSize(DumpedFiles(entries)) + |e.content.value|)
    ensures !Dumps(e) ==> (Dump(root, entries + [e]) == Dump(root, entries)
      && DumpedFiles(entries + [e]) == DumpedFiles(entries))
  {
    DumpedSnoc(entries, e);
    var files := DumpedFiles(entries);
    if Dumps(e) {
      JoinMapSnoc(BlockOf, files, e);
      TotalSizeSnoc(files, e);
      AppendAssoc(Header(root), JoinMap(BlockOf, files), BlockOf(e));
    } else {
      assert files + [] == files;
    }
  }

  /** A file whose read raises is skipped, with the dump and both counters unchanged. */
  lemma UnreadableSkipped(root: string, entries: seq<Entry>, dir: seq<string>, name: string)
    ensures var e := Entry(dir, name, None);
      Dump(root, entries + [e]) == Dump(root, entries)
      && |DumpedFiles(entries + [e])| == |DumpedFiles(entries)|
      && TotalSize(DumpedFiles(entries + [e])) == TotalSize(DumpedFiles(entries))
  {
    DumpStep(root, entries, Entry(dir, name, None));
  }

  /** A top-level file is shown by its bare name; a nested one by its directories and name joined with '/'. */
  lemma RelPathShape(e: Entry)
    ensures e.dir == [] ==> RelPath(e) == e.name
    ensures |e.dir| == 1 ==> RelPath(e) == e.dir[0] + "/" + e.name
  {
    if |e.dir| == 1 {
      var parts := e.dir + [e.name];
      assert parts == [e.dir[0], e.name];
      assert parts[1..] == [e.name];
      assert Paths.JoinAll(parts[1..]) == e.name;
    }
  }
}
