/** The script that concatenates the frontend sources into one text file: which files it
    skips, which directories it never enters, the order of the files, and the text it
    writes. The directory tree is a value; reading a file is its `content`. */
module ConcatFrontend {
  import opened Wrappers
  import opened Text
  import Ordering

  // ---------------------------------------------------------------------------------------
  // should_exclude_file
  // ---------------------------------------------------------------------------------------

  /** `EXCLUDE_DIRS`: the directories the walk never enters. */
  const ExcludeDirs: set<string> := {"node_modules", "dist", "build", ".git", ".vite"}

  const ExcludeNames: set<string> := {"frontend_concat.txt", "package-lock.json", "yarn.lock", "pnpm-lock.yaml", "bun.lockb"}

  /** A lower-cased name ending in one of the configuration suffixes `.ts`, `.js`, `.json`. */
  predicate HasConfigSuffix(lowered: string) {
    EndsWith(lowered, ".ts") || EndsWith(lowered, ".js") || EndsWith(lowered, ".json")
  }

  /** `should_exclude_file` on the file's name: a lock file or the output itself, or a
      configuration script or JSON file, whatever the case of its name. */
  predicate ExcludedName(name: string) {
    name in ExcludeNames || (Contains(Lower(name), "config") && HasConfigSuffix(Lower(name)))
  }

  /** A path relative to the frontend folder, one name per component. */
  type Path = seq<string>

  /** `Path.name` */
  function Name(p: Path): string {
    if p == [] then "" else p[|p| - 1]
  }

  /** `should_exclude_file(path)` */
  predicate ShouldExcludeFile(p: Path) {
    ExcludedName(Name(p))
  }

  /** Only the final component matters: the same name is skipped or kept in every
      directory. */
  lemma {:induction false} OnlyNameMatters(dirs1: Path, dirs2: Path, name: string)
    ensures ShouldExcludeFile(dirs1 + [name]) == ShouldExcludeFile(dirs2 + [name])
    ensures ShouldExcludeFile(dirs1 + [name]) == ExcludedName(name)
  {
    assert Name(dirs1 + [name]) == name;
    assert Name(dirs2 + [name]) == name;
  }

  /** A name that does not mention "config" in any case is skipped exactly when it is one of
      the listed names. */
  lemma {:induction false} NonConfigNames(name: string)
    requires !Contains(Lower(name), "config")
    ensures ExcludedName(name) <==> name in ExcludeNames
  {
  }

  /** Outside the listed names, the rule ignores case. */
  lemma {:induction false} ConfigRuleIgnoresCase(a: string, b: string)
    requires Lower(a) == Lower(b) && a !in ExcludeNames && b !in ExcludeNames
    ensures ExcludedName(a) == ExcludedName(b)
  {
  }

  /** A `.tsx` component is never taken for a configuration file, whatever its name. */
  lemma {:induction false} TsxKept(name: string)
    requires EndsWith(Lower(name), ".tsx") && name !in ExcludeNames
    ensures !ExcludedName(name)
  {
    var l := Lower(name);
    assert l[|l| - 4..] == ".tsx";
    assert l[|l| - 3..][2] == 'x' != ".ts"[2];
    assert l[|l| - 3..][2] == 'x' != ".js"[2];
    if |l| >= 5 {
      assert l[|l| - 5..][4] == 'x' != ".json"[4];
    }
  }

  // ---------------------------------------------------------------------------------------
  // iter_files: os.walk from the frontend folder, pruning the excluded directories
  // ---------------------------------------------------------------------------------------

  /** A directory entry, in the order the directory lists it. */
  datatype Entry = File(name: string, content: string) | Dir(name: string, entries: seq<Entry>)

  /** A file the walk yields, with the text reading it gives. */
  datatype Found = Found(path: Path, content: string)

  /** The files of the first `i` entries that are kept, in listing order. */
  function FilesHere(entries: seq<Entry>, i: nat): seq<Found>
    requires i <= |entries|
  {
    if i == 0 then []
    else
      var e := entries[i - 1];
      FilesHere(entries, i - 1) + (if e.File? && !ExcludedName(e.name) then [Found([e.name], e.content)] else [])
  }

  /** The files found below `name`, with `name` put in front of their paths. */
  function Under(name: string, fs: seq<Found>): (r: seq<Found>)
    ensures |r| == |fs| && forall k :: 0 <= k < |fs| ==> r[k] == Found([name] + fs[k].path, fs[k].content)
  {
    seq(|fs|, k requires 0 <= k < |fs| => Found([name] + fs[k].path, fs[k].content))
  }

  /** The files below the first `i` entries that are directories the walk enters. */
  function SubWalk(entries: seq<Entry>, i: nat): seq<Found>
    requires i <= |entries|
    decreases entries, 1, i
  {
    if i == 0 then []
    else
      assert entries[i - 1] in entries;
      SubWalk(entries, i - 1) + Below(entries[i - 1])
  }

  /** The files below one entry: none for a file or a pruned directory. */
  function Below(e: Entry): seq<Found>
    decreases e, 0
  {
    if e.Dir? && e.name !in ExcludeDirs then Under(e.name, Walk(e.entries)) else []
  }

  /** `iter_files`: os.walk goes top-down, so a directory's own files come before those of
      its subdirectories, which are visited in listing order. */
  function Walk(entries: seq<Entry>): seq<Found>
    decreases entries, 2
  {
    FilesHere(entries, |entries|) + SubWalk(entries, |entries|)
  }

  function Paths(fs: seq<Found>): (r: seq<Path>)
    ensures |r| == |fs| && forall k :: 0 <= k < |fs| ==> r[k] == fs[k].path
  {
    seq(|fs|, k requires 0 <= k < |fs| => fs[k].path)
  }

  /** `p` names a file of the tree. */
  predicate Listed(entries: seq<Entry>, p: Path)
    decreases |p|
  {
    if |p| == 0 then false
    else if |p| == 1 then exists i :: 0 <= i < |entries| && entries[i].File? && entries[i].name == p[0]
    else exists i :: 0 <= i < |entries| && entries[i].Dir? && entries[i].name == p[0] && Listed(entries[i].entries, p[1..])
  }

  /** No directory on the way to the file is an excluded one. */
  predicate NoExcludedDir(p: Path) {
    forall k :: 0 <= k < |p| - 1 ==> p[k] !in ExcludeDirs
  }

  lemma {:induction false} FilesHereSpec(entries: seq<Entry>, i: nat, f: Found)
    requires i <= |entries| && f in FilesHere(entries, i)
    ensures |f.path| == 1 && !ExcludedName(f.path[0])
    ensures exists j :: 0 <= j < i && entries[j] == File(f.path[0], f.content)
  {
    if f !in FilesHere(entries, i - 1) {
      assert entries[i - 1] == File(f.path[0], f.content);
    } else {
      FilesHereSpec(entries, i - 1, f);
    }
  }

  lemma {:induction false} FilesHereHas(entries: seq<Entry>, i: nat, j: nat)
    requires j < i <= |entries| && entries[j].File? && !ExcludedName(entries[j].name)
    ensures Found([entries[j].name], entries[j].content) in FilesHere(entries, i)
  {
    if j < i - 1 {
      FilesHereHas(entries, i - 1, j);
    }
  }

  /** `f` is the file `g`, found below the entered directory `e`. */
  predicate CameFrom(e: Entry, g: Found, f: Found) {
    e.Dir? && e.name !in ExcludeDirs && g in Walk(e.entries) && f == Found([e.name] + g.path, g.content)
  }

  /** The directory a file found by `SubWalk` came from, and the file as found there. */
  lemma {:induction false} SubWalkWitness(entries: seq<Entry>, i: nat, f: Found) returns (j: nat, g: Found)
    requires i <= |entries| && f in SubWalk(entries, i)
    ensures j < i && CameFrom(entries[j], g, f)
  {
    var earlier, g0 := SubWalkStep(entries, i, f);
    if earlier {
      var before := SubWalk(entries, i - 1);
      assert f in before;
      j, g := SubWalkWitness(entries, i - 1, f);
    } else {
      j, g := i - 1, g0;
    }
  }

  /** A file found below the first `i` entries is found below the first `i - 1` (`earlier`),
      or else is a file `g` found below entry `i - 1`, an entered directory. */
  lemma {:induction false} SubWalkStep(entries: seq<Entry>, i: nat, f: Found) returns (earlier: bool, g: Found)
    requires i <= |entries| && f in SubWalk(entries, i)
    ensures i > 0
    ensures earlier ==> f in SubWalk(entries, i - 1)
    ensures !earlier ==> CameFrom(entries[i - 1], g, f)
  {
    var e := entries[i - 1];
    var before := SubWalk(entries, i - 1);
    InEither(before, Below(e), f);
    earlier := f in before;
    if !earlier {
      g := UnderWitness(e.name, Walk(e.entries), f);
    } else {
      g := f;
    }
  }

  lemma {:induction false} UnderWitness(name: string, fs: seq<Found>, f: Found) returns (g: Found)
    requires f in Under(name, fs)
    ensures g in fs && f == Found([name] + g.path, g.content)
  {
    var k := UnderIndex(name, fs, f);
    g := fs[k];
  }

  lemma {:induction false} UnderIndex(name: string, fs: seq<Found>, f: Found) returns (k: nat)
    requires f in Under(name, fs)
    ensures k < |fs| && f == Found([name] + fs[k].path, fs[k].content)
  {
    k :| 0 <= k < |fs| && Under(name, fs)[k] == f;
  }

  lemma {:induction false} InEither<T>(a: seq<T>, b: seq<T>, x: T)
    requires x in a + b
    ensures x in a || x in b
  {
    var k :| 0 <= k < |a + b| && (a + b)[k] == x;
    if k >= |a| {
      assert b[k - |a|] == x;
    }
  }

  lemma {:induction false} SubWalkHas(entries: seq<Entry>, i: nat, j: nat, g: Found)
    requires j < i <= |entries| && entries[j].Dir? && entries[j].name !in ExcludeDirs
    requires g in Walk(entries[j].entries)
    ensures Found([entries[j].name] + g.path, g.content) in SubWalk(entries, i)
  {
    if j < i - 1 {
      SubWalkHas(entries, i - 1, j, g);
      var x := Found([entries[j].name] + g.path, g.content);
      var before := SubWalk(entries, i - 1);
      assert x in before;
      SubWalkGrows(entries, i, x);
    } else {
      SubWalkNewest(entries, i, g);
    }
  }

  /** What is found below the first `i - 1` entries is found below the first `i`. */
  lemma {:induction false} SubWalkGrows(entries: seq<Entry>, i: nat, x: Found)
    requires 0 < i <= |entries| && x in SubWalk(entries, i - 1)
    ensures x in SubWalk(entries, i)
  {
    var e := entries[i - 1];
    InLeft(SubWalk(entries, i - 1), Below(e), x);
  }

  /** The files below entry `i - 1`, an entered directory, are found below the first `i`. */
  lemma {:induction false} SubWalkNewest(entries: seq<Entry>, i: nat, g: Found)
    requires 0 < i <= |entries| && entries[i - 1].Dir? && entries[i - 1].name !in ExcludeDirs
    requires g in Walk(entries[i - 1].entries)
    ensures Found([entries[i - 1].name] + g.path, g.content) in SubWalk(entries, i)
  {
    var e := entries[i - 1];
    var tail := Under(e.name, Walk(e.entries));
    InUnder(e.name, Walk(e.entries), g);
    InRight(SubWalk(entries, i - 1), tail, Found([e.name] + g.path, g.content));
  }

  lemma {:induction false} InUnder(name: string, fs: seq<Found>, g: Found)
    requires g in fs
    ensures Found([name] + g.path, g.content) in Under(name, fs)
  {
    var k :| 0 <= k < |fs| && fs[k] == g;
    assert Under(name, fs)[k] == Found([name] + g.path, g.content);
  }

  lemma {:induction false} InLeft<T>(a: seq<T>, b: seq<T>, x: T)
    requires x in a
    ensures x in a + b
  {
    var k :| 0 <= k < |a| && a[k] == x;
    assert (a + b)[k] == x;
  }

  lemma {:induction false} InRight<T>(a: seq<T>, b: seq<T>, x: T)
    requires x in b
    ensures x in a + b
  {
    var k :| 0 <= k < |b| && b[k] == x;
    assert (a + b)[|a| + k] == x;
  }

  /** Every file the walk yields is in the tree, has a kept name, and lies under no excluded
      directory, at any depth. */
  lemma {:induction false} WalkSound(entries: seq<Entry>, f: Found)
    requires f in Walk(entries)
    ensures Listed(entries, f.path) && !ShouldExcludeFile(f.path) && NoExcludedDir(f.path)
    decreases entries
  {
    var n := |entries|;
    if f in FilesHere(entries, n) {
      FilesHereSpec(entries, n, f);
      var j :| 0 <= j < n && entries[j] == File(f.path[0], f.content);
      assert entries[j].File? && entries[j].name == f.path[0];
    } else {
      var j, g := SubWalkWitness(entries, n, f);
      assert entries[j] in entries;
      WalkSound(entries[j].entries, g);
      UnderDirSound(entries, j, g.path);
    }
  }

  /** A sound path below an entered directory is sound one level up. */
  lemma {:induction false} UnderDirSound(entries: seq<Entry>, j: nat, q: Path)
    requires j < |entries| && entries[j].Dir? && entries[j].name !in ExcludeDirs
    requires Listed(entries[j].entries, q) && !ShouldExcludeFile(q) && NoExcludedDir(q)
    ensures var p := [entries[j].name] + q;
      Listed(entries, p) && !ShouldExcludeFile(p) && NoExcludedDir(p)
  {
    var p := [entries[j].name] + q;
    assert |q| > 0;
    assert p[1..] == q && p[0] == entries[j].name;
    assert Name(p) == Name(q);
    forall k | 0 <= k < |p| - 1 ensures p[k] !in ExcludeDirs {
      if k > 0 {
        assert p[k] == q[k - 1];
      }
    }
  }

  /** The output file lies in the frontend folder, but a later run never reads it back, nor
      any lock file. */
  lemma {:induction false} OutputNotReread(entries: seq<Entry>, f: Found)
    requires f in Walk(entries)
    ensures Name(f.path) !in ExcludeNames
  {
    WalkSound(entries, f);
  }

  /** And every file of the tree with a kept name under no excluded directory is yielded. */
  lemma {:induction false} WalkComplete(entries: seq<Entry>, p: Path)
    requires Listed(entries, p) && !ShouldExcludeFile(p) && NoExcludedDir(p)
    ensures p in Paths(Walk(entries))
    decreases |p|
  {
    var n := |entries|;
    if |p| == 1 {
      var i :| 0 <= i < n && entries[i].File? && entries[i].name == p[0];
      FileYielded(entries, i, p);
    } else {
      var i :| 0 <= i < n && entries[i].Dir? && entries[i].name == p[0] && Listed(entries[i].entries, p[1..]);
      var q := p[1..];
      assert Name(q) == Name(p);
      forall k | 0 <= k < |q| - 1 ensures q[k] !in ExcludeDirs {
        assert q[k] == p[k + 1];
      }
      WalkComplete(entries[i].entries, q);
      DirFileYielded(entries, i, p);
    }
  }

  /** A kept file of this directory is yielded. */
  lemma {:induction false} FileYielded(entries: seq<Entry>, i: nat, p: Path)
    requires i < |entries| && entries[i].File? && p == [entries[i].name]
    requires !ShouldExcludeFile(p)
    ensures p in Paths(Walk(entries))
  {
    var n := |entries|;
    FilesHereHas(entries, n, i);
    var f := Found([entries[i].name], entries[i].content);
    InLeft(FilesHere(entries, n), SubWalk(entries, n), f);
    PathIn(Walk(entries), f);
  }

  /** A path yielded below an entered directory is yielded here with the directory's name in
      front. */
  lemma {:induction false} DirFileYielded(entries: seq<Entry>, i: nat, p: Path)
    requires i < |entries| && entries[i].Dir? && |p| > 1 && entries[i].name == p[0]
    requires p[0] !in ExcludeDirs && p[1..] in Paths(Walk(entries[i].entries))
    ensures p in Paths(Walk(entries))
  {
    var n := |entries|;
    var q := p[1..];
    var sub := Walk(entries[i].entries);
    var k :| 0 <= k < |sub| && Paths(sub)[k] == q;
    SubWalkHas(entries, n, i, sub[k]);
    var f := Found([p[0]] + q, sub[k].content);
    assert [p[0]] + q == p;
    InRight(FilesHere(entries, n), SubWalk(entries, n), f);
    PathIn(Walk(entries), f);
  }

  lemma {:induction false} PathIn(fs: seq<Found>, f: Found)
    requires f in fs
    ensures f.path in Paths(fs)
  {
    var k :| 0 <= k < |fs| && fs[k] == f;
    assert Paths(fs)[k] == f.path;
  }

  /** The loop of `iter_files`: the files of this directory are yielded first; then the walk
      descends into the subdirectories that survive the pruning. */
  method IterFiles(entries: seq<Entry>) returns (found: seq<Found>)
    ensures found == Walk(entries)
    decreases entries
  {
    found := [];
    var i := 0;
    while i < |entries|
      invariant i <= |entries| && found == FilesHere(entries, i)
    {
      var e := entries[i];
      if e.File? && !ExcludedName(e.name) {
        found := found + [Found([e.name], e.content)];
      }
      i := i + 1;
    }
    var below: seq<Found> := [];
    i := 0;
    while i < |entries|
      invariant i <= |entries| && below == SubWalk(entries, i)
    {
      var e := entries[i];
      if e.Dir? && e.name !in ExcludeDirs {
        assert e in entries;
        var sub := IterFiles(e.entries);
        below := below + Under(e.name, sub);
      }
      i := i + 1;
    }
    found := found + below;
  }

  // ---------------------------------------------------------------------------------------
  // main: sort by lower-cased path, write one section per file
  // ---------------------------------------------------------------------------------------

  /** `str(p).lower()` for a file below the frontend folder `root`. */
  function SortKey(root: string, p: Path): string {
    Lower(root + "/" + Join(p, "/"))
  }

  function Keyed(root: string, fs: seq<Found>): (r: seq<(string, Found)>)
    ensures |r| == |fs| && forall k :: 0 <= k < |fs| ==> r[k] == (SortKey(root, fs[k].path), fs[k])
  {
    seq(|fs|, k requires 0 <= k < |fs| => (SortKey(root, fs[k].path), fs[k]))
  }

  /** `sorted(iter_files(FRONTEND), key=lambda p: str(p).lower())` */
  function SortedFiles(root: string, fs: seq<Found>): seq<(string, Found)> {
    Ordering.StableSort(Keyed(root, fs), Ordering.StringLess)
  }

  /** The files come out in order of their lower-cased paths, each exactly as often as the
      walk yielded it; paths that differ only in case keep the walk's order. */
  lemma {:induction false} SortedFilesCorrect(root: string, fs: seq<Found>)
    ensures var s := SortedFiles(root, fs);
      && |s| == |fs|
      && (forall i, j :: 0 <= i < j < |s| ==> !Ordering.StrLess(s[j].0, s[i].0))
      && multiset(s) == multiset(Keyed(root, fs))
      && forall key :: Ordering.KeyRun(s, key) == Ordering.KeyRun(Keyed(root, fs), key)
  {
    Ordering.StrLessIsStrictTotalOrder();
    Ordering.StableSortCorrect(Keyed(root, fs), Ordering.StringLess);
    Ordering.StableSortLength(Keyed(root, fs), Ordering.StringLess);
  }

  /** `f"# === FILE: {rel} ===\n"` */
  function Header(p: Path): string {
    "# === FILE: " + Join(p, "/") + " ===\n"
  }

  /** What the script writes for one file. */
  function Section(f: Found): string {
    Header(f.path) + f.content + "\n\n"
  }

  /** The whole output, one section per file in order. */
  function Output(files: seq<(string, Found)>): string {
    if files == [] then "" else Output(files[..|files| - 1]) + Section(files[|files| - 1].1)
  }

  lemma {:induction false} OutputAppend(a: seq<(string, Found)>, b: seq<(string, Found)>)
    ensures Output(a + b) == Output(a) + Output(b)
    decreases |b|
  {
    if b == [] {
      assert a + b == a;
    } else {
      var n := |b| - 1;
      var ab := a + b;
      var sec := Section(b[n].1);
      assert ab[..|ab| - 1] == a + b[..n];
      assert ab[|ab| - 1] == b[n];
      assert Output(ab) == Output(a + b[..n]) + sec;
      assert Output(b) == Output(b[..n]) + sec;
      OutputAppend(a, b[..n]);
      var x, y := Output(a), Output(b[..n]);
      assert (x + y) + sec == x + (y + sec);
    }
  }

  /** The output around one of its files. */
  lemma {:induction false} OutputSplit(files: seq<(string, Found)>, k: nat)
    requires k < |files|
    ensures Output(files) == Output(files[..k]) + Section(files[k].1) + Output(files[k + 1..])
  {
    var upto, rest := files[..k + 1], files[k + 1..];
    assert files == upto + rest;
    assert upto[..|upto| - 1] == files[..k] && upto[|upto| - 1] == files[k];
    calc {
      Output(files);
      Output(upto + rest);
      { OutputAppend(upto, rest); }
      Output(upto) + Output(rest);
      (Output(files[..k]) + Section(files[k].1)) + Output(rest);
    }
  }

  /** Every file written has its header in the output, followed by its content. */
  lemma {:induction false} OutputHasSections(files: seq<(string, Found)>, k: nat)
    requires k < |files|
    ensures Contains(Output(files), Section(files[k].1))
  {
    OutputSplit(files, k);
    ContainedInMiddle(Output(files[..k]), Section(files[k].1), Output(files[k + 1..]));
  }

  lemma {:induction false} ContainedInMiddle(a: string, sub: string, b: string)
    ensures Contains(a + sub + b, sub)
  {
    var s := a + sub + b;
    assert s[|a|..][..|sub|] == sub;
    ContainsAt(s, sub, |a|);
  }

  /** The output file, which the script truncates and then appends to. */
  class OutFile {
    var text: string

    constructor()
      ensures text == ""
    {
      text := "";
    }

    /** `write_text` */
    method WriteText(s: string)
      modifies this
      ensures text == s
    {
      text := s;
    }

    /** `write` on a file opened for appending */
    method Append(s: string)
      modifies this
      ensures text == old(text) + s
    {
      text := text + s;
    }
  }

  /** `main`: fails when the frontend folder is missing; otherwise the output file holds the
      sections of the walked files in sorted order, and the exit code is 0. */
  method Concatenate(root: string, frontendExists: bool, tree: seq<Entry>, out: OutFile) returns (r: Result<int>)
    modifies out
    ensures !frontendExists ==> r == Err("frontend folder not found: " + root) && out.text == old(out.text)
    ensures frontendExists ==> r == Ok(0) && out.text == Output(SortedFiles(root, Walk(tree)))
  {
    if !frontendExists {
      return Err("frontend folder not found: " + root);
    }
    var found := IterFiles(tree);
    var files := SortedFiles(root, found);
    out.WriteText("");
    var i := 0;
    while i < |files|
      invariant i <= |files| && out.text == Output(files[..i])
    {
      assert files[..i + 1][..i] == files[..i];
      var f := files[i].1;
      out.Append(Header(f.path));
      out.Append(f.content);
      out.Append("\n\n");
      i := i + 1;
    }
    assert files[..i] == files;
    r := Ok(0);
  }
}
