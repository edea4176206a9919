/** The clone stage (stages/clone.py): clone outcome, file metadata, git
    history and the resumable batch. Git, the file system and date parsing are
    parameters: a commit log as lines, a walk as a list of files, and
    `parseIso`, which maps ISO-8601 text to wall-clock minutes, ignoring any
    UTC offset the text carries. */
module Clone {
  import opened Wrappers
  import opened Numeric
  import opened Text
  import opened Models
  import opened Collections

  // ---------------------------------------------------------------------
  // Cloning
  // ---------------------------------------------------------------------

  /** Longest error text kept from git's stderr. */
  const MaxCloneError: nat := 200

  /** `_clone_repo`: an existing valid checkout counts as cloned; otherwise git's
      exit code decides, and a failure keeps at most 200 characters of stripped
      stderr, or "unknown_error" when stderr is empty. */
  function CloneRepo(alreadyValid: bool, exitCode: int, stderr: string): (r: (bool, Option<string>))
    ensures r.0 <==> alreadyValid || exitCode == 0
    ensures r.0 <==> r.1.None?
    ensures r.1.Some? ==> |r.1.value| <= MaxCloneError
    ensures r.1.Some? && stderr == "" ==> r.1.value == "unknown_error"
    ensures r.1.Some? && stderr != "" ==> r.1.value == Take(Strip(stderr), MaxCloneError)
  {
    if alreadyValid || exitCode == 0 then (true, None)
    else (false, Some(if stderr != "" then Take(Strip(stderr), MaxCloneError) else "unknown_error"))
  }

  // ---------------------------------------------------------------------
  // Repository files
  // ---------------------------------------------------------------------

  const SkipExtensions: set<string> := {
    ".lock", ".svg", ".png", ".jpg", ".jpeg", ".gif", ".ico", ".woff", ".woff2", ".ttf", ".eot", ".map",
    ".min.js", ".min.css", ".pyc", ".pyo", ".so", ".dylib", ".dll", ".exe"}

  const LockFiles: set<string> := {"package-lock.json", "yarn.lock", "pnpm-lock.yaml", "Cargo.lock", "poetry.lock"}

  /** Suffix to language, in table order. */
  const LanguageExtensions: seq<(string, string)> := [
    (".py", "Python"), (".js", "JavaScript"), (".ts", "TypeScript"), (".tsx", "TypeScript"),
    (".jsx", "JavaScript"), (".rs", "Rust"), (".go", "Go"), (".java", "Java"), (".rb", "Ruby"),
    (".swift", "Swift"), (".kt", "Kotlin"), (".cpp", "C++"), (".c", "C"), (".cs", "C#"),
    (".html", "HTML"), (".css", "CSS"), (".scss", "SCSS"), (".vue", "Vue"), (".svelte", "Svelte"),
    (".dart", "Dart"), (".sh", "Shell"), (".md", "Markdown"), (".json", "JSON"), (".yaml", "YAML"),
    (".yml", "YAML"), (".toml", "TOML")]

  /** `table.get(key)` for a table of pairs. */
  function Lookup(table: seq<(string, string)>, key: string): (r: Option<string>)
    ensures r.Some? ==> exists i :: 0 <= i < |table| && table[i] == (key, r.value)
    ensures r.None? ==> forall i :: 0 <= i < |table| ==> table[i].0 != key
  {
    if table == [] then None
    else if table[0].0 == key then Some(table[0].1)
    else Lookup(table[1..], key)
  }

  const ReadmeNames: seq<string> := ["README.md", "readme.md", "README.rst", "README", "README.txt"]

  const TestExtensions: seq<string> := [".py", ".js", ".ts", ".tsx", ".jsx", ".rs", ".go"]

  /** A file reached by the walk (directories in the skip list already pruned):
      its name and its number of non-blank lines, or None when it cannot be read. */
  datatype WalkedFile = WalkedFile(name: string, lines: Option<nat>)

  /** Index of the last `c` in `s`, if any. */
  function LastIndex(s: string, c: char): (r: Option<nat>)
    ensures r.Some? <==> c in s
    ensures r.Some? ==> r.value < |s| && s[r.value] == c && c !in s[r.value + 1..]
  {
    if s == [] then None
    else if s[|s| - 1] == c then Some(|s| - 1)
    else
      var r := LastIndex(s[..|s| - 1], c);
      assert s == s[..|s| - 1] + [s[|s| - 1]];
      if r.Some? then
        assert s[r.value + 1..] == s[..|s| - 1][r.value + 1..] + [s[|s| - 1]];
        r
      else r
  }

  /** `Path(name).suffix`: from the last dot on, unless that dot leads or ends the name. */
  function Suffix(name: string): (r: string)
    ensures r == [] || (r[0] == '.' && '.' !in r[1..] && EndsWith(name, r) && |r| < |name|)
  {
    match LastIndex(name, '.')
    case Some(i) =>
      if 0 < i < |name| - 1 then
        assert name[i..][1..] == name[i + 1..];
        name[i..]
      else ""
    case None => ""
  }

  /** The skip test as written: the lower-cased suffix is a skipped extension, or
      the name is a lock file. */
  predicate SkippedAsWritten(name: string) {
    Lower(Suffix(name)) in SkipExtensions || name in LockFiles
  }

  /** A suffix carries a single dot, so the two-dot entries of the skip list never
      match: a minified bundle is counted as code. */
  lemma SuffixHasOneDot(name: string)
    ensures Lower(Suffix(name)) != ".min.js" && Lower(Suffix(name)) != ".min.css"
  {
    var r := Suffix(name);
    if |r| > 4 {
      DotFree(r, 4);
    }
  }

  lemma DotFree(r: string, k: nat)
    requires 0 < k < |r| && '.' !in r[1..]
    ensures Lower(r)[k] != '.'
  {
    assert r[k] == r[1..][k - 1];
  }

  /** Every minified bundle gets ".js" as its suffix. */
  lemma {:induction false} MinJsSuffix(stem: string)
    ensures Suffix(stem + ".min.js") == ".js"
  {
    var name := stem + ".min.js";
    var n := |name|;
    assert name[n - 1] == 's' && name[n - 2] == 'j' && name[n - 3] == '.';
    assert name[..n - 1][..n - 2] == name[..n - 2];
    assert LastIndex(name[..n - 2], '.') == Some(n - 3);
    assert LastIndex(name, '.') == Some(n - 3);
    assert name[n - 3..] == ".js";
  }

  /** As written, no minified bundle that is not a lock file is skipped: its
      lines are counted as JavaScript. */
  lemma MinifiedNotSkippedAsWritten(stem: string)
    requires stem + ".min.js" !in LockFiles
    ensures !SkippedAsWritten(stem + ".min.js")
    ensures LanguageOf(stem + ".min.js") == Some("JavaScript")
  {
    MinJsSuffix(stem);
    JsSuffixCounted();
  }

  /** The ".js" suffix is not on the skip list and maps to JavaScript. */
  lemma JsSuffixCounted()
    ensures Lower(".js") == ".js" && ".js" !in SkipExtensions
    ensures Lookup(LanguageExtensions, Lower(".js")) == Some("JavaScript")
  {
    assert Lower(".js") == ".js";
  }

  /** The skip test as intended: additionally skip names ending in a two-dot entry. */
  predicate Skipped(name: string) {
    SkippedAsWritten(name) || EndsWith(Lower(name), ".min.js") || EndsWith(Lower(name), ".min.css")
  }

  /** Every name skipped as written is still skipped, and so is every minified bundle. */
  lemma SkippedExtendsAsWritten(name: string)
    ensures SkippedAsWritten(name) ==> Skipped(name)
    ensures EndsWith(Lower(name), ".min.js") || EndsWith(Lower(name), ".min.css") ==> Skipped(name)
  {
  }

  /** The intended test skips every minified bundle, whatever its stem. */
  lemma BundleSkipped(stem: string)
    ensures Skipped(stem + ".min.js") && Skipped(stem + ".min.css")
  {
    EndsWithLower(stem, ".min.js");
    EndsWithLower(stem, ".min.css");
    SkippedExtendsAsWritten(stem + ".min.js");
    SkippedExtendsAsWritten(stem + ".min.css");
  }

  /** The language a file counts toward, if its suffix is a known one. */
  function LanguageOf(name: string): Option<string> {
    var ext := Lower(Suffix(name));
    Lookup(LanguageExtensions, ext)
  }

  /** The languages of an insertion-ordered `dict[str, int]`. */
  function KeySet(d: seq<LanguageLoc>): set<string> {
    if d == [] then {} else {d[0].language} + KeySet(d[1..])
  }

  /** Each language occurs once. */
  predicate DistinctKeys(d: seq<LanguageLoc>) {
    d == [] || (d[0].language !in KeySet(d[1..]) && DistinctKeys(d[1..]))
  }

  lemma {:induction false} KeySetMember(d: seq<LanguageLoc>, x: string)
    ensures x in KeySet(d) <==> exists i :: 0 <= i < |d| && d[i].language == x
  {
    if d != [] {
      KeySetMember(d[1..], x);
      if x in KeySet(d[1..]) {
        var i :| 0 <= i < |d[1..]| && d[1..][i].language == x;
        assert d[i + 1].language == x;
      }
      if exists i :: 0 <= i < |d| && d[i].language == x {
        var i :| 0 <= i < |d| && d[i].language == x;
        if i > 0 {
          assert d[1..][i - 1].language == x;
        }
      }
    }
  }

  lemma {:induction false} DistinctIndices(d: seq<LanguageLoc>, i: nat, j: nat)
    requires DistinctKeys(d) && i < j < |d|
    ensures d[i].language != d[j].language
  {
    if i == 0 {
      KeySetMember(d[1..], d[j].language);
      assert d[1..][j - 1] == d[j];
    } else {
      DistinctIndices(d[1..], i - 1, j - 1);
    }
  }

  function Total(d: seq<LanguageLoc>): nat {
    if d == [] then 0 else d[0].loc + Total(d[1..])
  }

  /** `lang_loc[lang] = lang_loc.get(lang, 0) + lines`: update in place, or append. */
  function AddLoc(d: seq<LanguageLoc>, lang: string, n: nat): (r: seq<LanguageLoc>)
    requires DistinctKeys(d)
    ensures DistinctKeys(r)
    ensures KeySet(r) == KeySet(d) + {lang}
    ensures Total(r) == Total(d) + n
    ensures |r| == |d| + (if lang in KeySet(d) then 0 else 1)
  {
    if d == [] then [LanguageLoc(lang, n)]
    else if d[0].language == lang then
      var r := [LanguageLoc(lang, d[0].loc + n)] + d[1..];
      assert r[1..] == d[1..];
      r
    else
      var rest := AddLoc(d[1..], lang, n);
      var r := [d[0]] + rest;
      assert r[1..] == rest;
      r
  }

  /** Running totals of the first walk. */
  datatype Tally = Tally(fileCount: nat, totalLoc: nat, langLoc: seq<LanguageLoc>)

  /** How the first walk treats a file. */
  datatype FileClass = Excluded | Unreadable | Counted(lines: nat, language: Option<string>)

  /** The first walk's test, with the skip list as written: minified bundles
      are counted (see `MinifiedNotSkippedAsWritten`). */
  function Classify(f: WalkedFile): FileClass {
    if SkippedAsWritten(f.name) then Excluded
    else match f.lines
      case None => Unreadable
      case Some(n) => Counted(n, LanguageOf(f.name))
  }

  /** A readable minified bundle that is not a lock file is counted in full as JavaScript. */
  lemma MinifiedBundleCounted(stem: string, n: nat)
    requires stem + ".min.js" !in LockFiles
    ensures Classify(WalkedFile(stem + ".min.js", Some(n))) == Counted(n, Some("JavaScript"))
  {
    MinifiedNotSkippedAsWritten(stem);
  }

  /** The class counts lines toward `lang`. */
  predicate CountsIn(c: FileClass, lang: string) {
    c.Counted? && c.language == Some(lang)
  }

  predicate CountsLanguage(f: WalkedFile, lang: string) {
    CountsIn(Classify(f), lang)
  }

  /** The tally after one more file. */
  function TallyNext(t: Tally, c: FileClass): (r: Tally)
    requires DistinctKeys(t.langLoc) && Total(t.langLoc) <= t.totalLoc
    ensures DistinctKeys(r.langLoc) && Total(r.langLoc) <= r.totalLoc
    ensures r.fileCount <= t.fileCount + 1
    ensures forall lang :: lang in KeySet(r.langLoc) <==> lang in KeySet(t.langLoc) || CountsIn(c, lang)
  {
    match c
    case Excluded => t
    case Unreadable => Tally(t.fileCount + 1, t.totalLoc, t.langLoc)
    case Counted(n, None) => Tally(t.fileCount + 1, t.totalLoc + n, t.langLoc)
    case Counted(n, Some(lang)) => Tally(t.fileCount + 1, t.totalLoc + n, AddLoc(t.langLoc, lang, n))
  }

  /** The first walk over the files' classes, in walk order. */
  function TallyClasses(cs: seq<FileClass>): (t: Tally)
    ensures DistinctKeys(t.langLoc)
    ensures t.fileCount <= |cs|
    ensures Total(t.langLoc) <= t.totalLoc
  {
    if cs == [] then Tally(0, 0, [])
    else TallyNext(TallyClasses(cs[..|cs| - 1]), cs[|cs| - 1])
  }

  function Classes(walk: seq<WalkedFile>): (cs: seq<FileClass>)
    ensures |cs| == |walk| && forall i :: 0 <= i < |walk| ==> cs[i] == Classify(walk[i])
  {
    seq(|walk|, i requires 0 <= i < |walk| => Classify(walk[i]))
  }

  /** A language is tallied exactly when some class counts toward it. */
  lemma {:induction false} TallyLanguages(cs: seq<FileClass>, lang: string)
    ensures lang in KeySet(TallyClasses(cs).langLoc) <==> exists i :: 0 <= i < |cs| && CountsIn(cs[i], lang)
  {
    if cs != [] {
      var init := cs[..|cs| - 1];
      var last := |cs| - 1;
      TallyLanguages(init, lang);
      assert TallyClasses(cs) == TallyNext(TallyClasses(init), cs[last]);
      if lang in KeySet(TallyClasses(cs).langLoc) {
        if !CountsIn(cs[last], lang) {
          var i :| 0 <= i < |init| && CountsIn(init[i], lang);
          assert init[i] == cs[i];
        }
      } else {
        forall i | 0 <= i < |cs|
          ensures !CountsIn(cs[i], lang)
        {
          if i < last {
            assert init[i] == cs[i];
          }
        }
      }
    }
  }

  /** Index of the first entry with the largest count: `max(d, key=d.get)`. */
  function FirstMax(d: seq<LanguageLoc>): (i: nat)
    requires d != []
    ensures i < |d|
    ensures forall j :: 0 <= j < |d| ==> d[j].loc <= d[i].loc
    ensures forall j :: 0 <= j < i ==> d[j].loc < d[i].loc
  {
    if |d| == 1 then 0
    else
      var k := FirstMax(d[1..]);
      if d[0].loc >= d[k + 1].loc then 0 else k + 1
  }

  function LocKey(e: LanguageLoc): real { e.loc as real }

  /** The language table sorted by lines, largest first, and the primary
      language: the first largest entry of the unsorted table, "unknown" when
      there is none. */
  datatype Ranking = Ranking(languages: seq<LanguageLoc>, primary: string)

  function RankLanguages(d: seq<LanguageLoc>): (r: Ranking)
    requires DistinctKeys(d)
    ensures SortedDesc(r.languages, LocKey)
    ensures multiset(r.languages) == multiset(d)
    ensures Total(r.languages) == Total(d)
    ensures KeySet(r.languages) == KeySet(d)
    ensures r.languages == [] ==> r.primary == "unknown"
    ensures r.languages != [] ==> exists k :: 0 <= k < |r.languages| && r.languages[k].language == r.primary
    ensures forall k :: 0 <= k < |r.languages| && r.languages[k].language == r.primary ==>
              (forall j :: 0 <= j < |r.languages| ==> r.languages[j].loc <= r.languages[k].loc)
  {
    var languages := SortDesc(d, LocKey);
    SortPreservesKeys(d, languages);
    TotalSort(d);
    if d == [] then Ranking(languages, "unknown")
    else
      PrimaryIsLargest(d, languages);
      Ranking(languages, d[FirstMax(d)].language)
  }

  /** `_scan_repo_files` */
  function ScanRepoFiles(repoExists: bool, walk: seq<WalkedFile>, topLevel: set<string>): (r: RepoFiles)
    ensures !repoExists ==> r == DefaultRepoFiles
    ensures r.fileCount <= |walk|
    ensures SortedDesc(r.languages, LocKey)
    ensures Total(r.languages) <= r.totalLoc
    ensures repoExists ==> KeySet(r.languages) == KeySet(TallyClasses(Classes(walk)).langLoc)
    ensures r.languages == [] ==> r.primaryLanguage == "unknown"
    ensures r.languages != [] ==> exists k :: 0 <= k < |r.languages| && r.languages[k].language == r.primaryLanguage
    ensures forall k :: 0 <= k < |r.languages| && r.languages[k].language == r.primaryLanguage ==>
              (forall j :: 0 <= j < |r.languages| ==> r.languages[j].loc <= r.languages[k].loc)
    ensures r.hasReadme <==> repoExists && HasReadme(topLevel)
    ensures r.hasTests <==> repoExists && HasTests(walk)
  {
    if !repoExists then DefaultRepoFiles
    else FilesOf(TallyClasses(Classes(walk)), HasReadme(topLevel), HasTests(walk))
  }

  /** One of the README names is at the top level. */
  predicate HasReadme(topLevel: set<string>) {
    exists i :: 0 <= i < |ReadmeNames| && ReadmeNames[i] in topLevel
  }

  /** Some walked file looks like a test. */
  predicate HasTests(walk: seq<WalkedFile>) {
    exists i :: 0 <= i < |walk| && LooksLikeTest(walk[i].name)
  }

  /** The file statistics of a finished tally, its languages ranked. */
  function FilesOf(t: Tally, hasReadme: bool, hasTests: bool): (r: RepoFiles)
    requires DistinctKeys(t.langLoc) && Total(t.langLoc) <= t.totalLoc
    ensures r.fileCount == t.fileCount && r.totalLoc == t.totalLoc
    ensures r.hasReadme == hasReadme && r.hasTests == hasTests
    ensures SortedDesc(r.languages, LocKey)
    ensures Total(r.languages) <= r.totalLoc
    ensures KeySet(r.languages) == KeySet(t.langLoc)
    ensures r.languages == [] ==> r.primaryLanguage == "unknown"
    ensures r.languages != [] ==> exists k :: 0 <= k < |r.languages| && r.languages[k].language == r.primaryLanguage
    ensures forall k :: 0 <= k < |r.languages| && r.languages[k].language == r.primaryLanguage ==>
              (forall j :: 0 <= j < |r.languages| ==> r.languages[j].loc <= r.languages[k].loc)
  {
    var ranked := RankLanguages(t.langLoc);
    RepoFiles(t.fileCount, t.totalLoc, ranked.primary, ranked.languages, hasReadme, hasTests)
  }

  /** A language is listed exactly when some counted, readable file of the walk
      has one of its suffixes. */
  lemma ScanLanguages(walk: seq<WalkedFile>, topLevel: set<string>, lang: string)
    ensures lang in KeySet(ScanRepoFiles(true, walk, topLevel).languages)
            <==> exists i :: 0 <= i < |walk| && CountsLanguage(walk[i], lang)
  {
    var cs := Classes(walk);
    TallyLanguages(cs, lang);
    assert KeySet(ScanRepoFiles(true, walk, topLevel).languages) == KeySet(TallyClasses(cs).langLoc);
    forall i | 0 <= i < |walk|
      ensures CountsLanguage(walk[i], lang) == CountsIn(cs[i], lang)
    {
    }
  }

  /** A repository holding only a readable minified bundle reports it as one
      JavaScript file: its lines make up the total and JavaScript is primary. */
  lemma MinifiedBundleScan(stem: string, n: nat, topLevel: set<string>)
    requires stem + ".min.js" !in LockFiles
    ensures var r := ScanRepoFiles(true, [WalkedFile(stem + ".min.js", Some(n))], topLevel);
      && r.fileCount == 1 && r.totalLoc == n
      && r.languages == [LanguageLoc("JavaScript", n)] && r.primaryLanguage == "JavaScript"
  {
    SingleBundleTally(stem, n);
    RankSingle(LanguageLoc("JavaScript", n));
  }

  lemma SingleBundleTally(stem: string, n: nat)
    requires stem + ".min.js" !in LockFiles
    ensures TallyClasses(Classes([WalkedFile(stem + ".min.js", Some(n))])) == Tally(1, n, [LanguageLoc("JavaScript", n)])
  {
    MinifiedBundleCounted(stem, n);
    var cs := Classes([WalkedFile(stem + ".min.js", Some(n))]);
    assert cs[..0] == [];
    assert TallyClasses(cs) == TallyNext(Tally(0, 0, []), Counted(n, Some("JavaScript")));
  }

  /** A single language is ranked as itself and is primary. */
  lemma RankSingle(x: LanguageLoc)
    ensures RankLanguages([x]) == Ranking([x], x.language)
  {
    var r := RankLanguages([x]);
    assert r.languages[0] in multiset([x]);
  }

  /** The second walk's test: "test" or "spec" in the lower-cased name, with a code suffix. */
  predicate LooksLikeTest(name: string) {
    var lower := Lower(name);
    (Contains(lower, "test") || Contains(lower, "spec"))
    && exists e :: 0 <= e < |TestExtensions| && EndsWith(lower, TestExtensions[e])
  }

  lemma {:induction false} TotalInsert(x: LanguageLoc, t: seq<LanguageLoc>)
    ensures Total(Insert(x, t, LocKey)) == x.loc + Total(t)
  {
    if t != [] && LocKey(t[0]) > LocKey(x) {
      TotalInsert(x, t[1..]);
      assert ([t[0]] + Insert(x, t[1..], LocKey))[1..] == Insert(x, t[1..], LocKey);
    } else if t != [] {
      assert ([x] + t)[1..] == t;
    }
  }

  /** Sorting keeps the line total. */
  lemma {:induction false} TotalSort(d: seq<LanguageLoc>)
    ensures Total(SortDesc(d, LocKey)) == Total(d)
  {
    if d != [] {
      TotalSort(d[1..]);
      TotalInsert(d[0], SortDesc(d[1..], LocKey));
    }
  }

  lemma SortPreservesKeys(d: seq<LanguageLoc>, s: seq<LanguageLoc>)
    requires multiset(s) == multiset(d)
    ensures KeySet(s) == KeySet(d)
  {
    forall x | x in KeySet(s) ensures x in KeySet(d) {
      KeySetMember(s, x);
      KeySetMember(d, x);
      var i :| 0 <= i < |s| && s[i].language == x;
      assert s[i] in multiset(d);
    }
    forall x | x in KeySet(d) ensures x in KeySet(s) {
      KeySetMember(s, x);
      KeySetMember(d, x);
      var i :| 0 <= i < |d| && d[i].language == x;
      assert d[i] in multiset(s);
    }
  }

  /** In a permutation of a dictionary's items, equal keys mean the same item. */
  lemma DistinctAfterSort(d: seq<LanguageLoc>, s: seq<LanguageLoc>, k: nat, k2: nat)
    requires DistinctKeys(d) && multiset(s) == multiset(d)
    requires k < |s| && k2 < |s| && s[k].language == s[k2].language
    ensures s[k] == s[k2]
  {
    assert s[k] in multiset(d);
    assert s[k2] in multiset(d);
    var i :| 0 <= i < |d| && d[i] == s[k];
    var j :| 0 <= j < |d| && d[j] == s[k2];
    if i < j {
      DistinctIndices(d, i, j);
    } else if j < i {
      DistinctIndices(d, j, i);
    }
  }

  /** The first largest entry keeps the largest count after sorting. */
  lemma PrimaryIsLargest(d: seq<LanguageLoc>, s: seq<LanguageLoc>)
    requires DistinctKeys(d) && d != [] && multiset(s) == multiset(d)
    ensures exists k :: 0 <= k < |s| && s[k].language == d[FirstMax(d)].language
    ensures forall k :: 0 <= k < |s| && s[k].language == d[FirstMax(d)].language ==>
              forall j :: 0 <= j < |s| ==> s[j].loc <= s[k].loc
  {
    var m := FirstMax(d);
    assert d[m] in multiset(s);
    var k :| 0 <= k < |s| && s[k] == d[m];
    forall k2, j | 0 <= k2 < |s| && s[k2].language == d[m].language && 0 <= j < |s|
      ensures s[j].loc <= s[k2].loc
    {
      DistinctAfterSort(d, s, k, k2);
      assert s[j] in multiset(d);
    }
  }

  // ---------------------------------------------------------------------
  // Git history
  // ---------------------------------------------------------------------

  /** A parsed line of `git log --format=%H|%aI|%an|%s --all`; `date` in minutes. */
  datatype Commit = Commit(hash: string, date: real, author: string, message: string)

  /** `line.split("|", 3)` when it yields four parts. */
  function LogFields(line: string): (r: Option<(string, string, string, string)>)
    ensures r.Some? ==> line == r.value.0 + ['|'] + (r.value.1 + ['|'] + (r.value.2 + ['|'] + r.value.3))
    ensures r.Some? ==> '|' !in r.value.0 && '|' !in r.value.1 && '|' !in r.value.2
  {
    match Cut(line, '|')
    case None => None
    case Some((hash, rest)) =>
      match Cut(rest, '|')
      case None => None
      case Some((date, rest2)) =>
        match Cut(rest2, '|')
        case None => None
        case Some((author, message)) => Some((hash, date, author, message))
  }

  /** Every line git writes for a commit splits back into its four fields; the
      message may itself contain '|'. */
  lemma LogFieldsRoundTrip(hash: string, date: string, author: string, message: string)
    requires '|' !in hash && '|' !in date && '|' !in author
    ensures LogFields(hash + ['|'] + (date + ['|'] + (author + ['|'] + message))) == Some((hash, date, author, message))
  {
    var rest2 := author + ['|'] + message;
    var rest := date + ['|'] + rest2;
    CutJoin(hash, '|', rest);
    CutJoin(date, '|', rest2);
    CutJoin(author, '|', message);
  }

  /** A log line becomes a commit when it has four fields and its date parses
      (a trailing "Z" read as "+00:00"). */
  function ParseCommit(line: string, parseIso: string -> Option<real>): Option<Commit> {
    match LogFields(line)
    case None => None
    case Some(fields) =>
      match parseIso(ReplaceAll(fields.1, "Z", "+00:00"))
      case None => None
      case Some(d) => Some(Commit(fields.0, d, fields.2, fields.3))
  }

  /** The commits of a log, in log order; unparsable lines are dropped. */
  function ParseLog(lines: seq<string>, parseIso: string -> Option<real>): (cs: seq<Commit>)
    ensures |cs| <= |lines|
  {
    if lines == [] then []
    else
      var rest := ParseLog(lines[1..], parseIso);
      match ParseCommit(lines[0], parseIso)
      case Some(c) => [c] + rest
      case None => rest
  }

  /** Parsing works line by line: a log split in two parses to the two parts' commits. */
  lemma {:induction false} ParseLogAppend(a: seq<string>, b: seq<string>, parseIso: string -> Option<real>)
    ensures ParseLog(a + b, parseIso) == ParseLog(a, parseIso) + ParseLog(b, parseIso)
  {
    if a == [] {
      assert a + b == b;
    } else {
      assert (a + b)[0] == a[0];
      assert (a + b)[1..] == a[1..] + b;
      ParseLogAppend(a[1..], b, parseIso);
    }
  }

  /** A single line yields its commit, or nothing. */
  lemma ParseLogLine(line: string, parseIso: string -> Option<real>)
    ensures ParseLog([line], parseIso) == (match ParseCommit(line, parseIso) case Some(c) => [c] case None => [])
  {
    assert [line][1..] == [];
  }

  function Authors(cs: seq<Commit>): set<string> {
    set c | c in cs :: c.author
  }

  /** Sort key putting the earliest commit first. */
  function Earliest(c: Commit): real { -c.date }

  /** Git-period checking is on and both hackathon dates are given. */
  predicate PeriodCheckEnabled(hack: Option<HackathonConfig>) {
    hack.Some? && hack.value.verifyGitPeriod && Given(hack.value.startDate) && Given(hack.value.endDate)
  }

  /** The deadline text the period check parses: the deadline (else the end date)
      with 'T' replaced by a space and everything from the first '+' dropped. */
  function DeadlineText(h: HackathonConfig): (r: string)
    requires Given(h.endDate)
    ensures '+' !in r
  {
    var d := if Given(h.deadlineUtc) then h.deadlineUtc.value else h.endDate.value;
    Split(ReplaceAll(d, "T", " "), '+')[0]
  }

  /** Start and end of the hackathon, when the check is on and both parse. */
  function PeriodBounds(hack: Option<HackathonConfig>, parseIso: string -> Option<real>): Option<(real, real)> {
    if !PeriodCheckEnabled(hack) then None
    else match (parseIso(hack.value.startDate.value), parseIso(DeadlineText(hack.value)))
      case (Some(start), Some(end)) => Some((start, end))
      case _ => None
  }

  /** The three windows of the period check. */
  datatype Window = Before(start: real) | During(start: real, end: real) | After(end: real)

  predicate InWindow(c: Commit, w: Window) {
    match w
    case Before(start) => c.date < start
    case During(start, end) => start <= c.date <= end
    case After(end) => c.date > end
  }

  /** `sum(1 for c in commits if ...)` */
  function Count(cs: seq<Commit>, w: Window): nat {
    if cs == [] then 0 else (if InWindow(cs[0], w) then 1 else 0) + Count(cs[1..], w)
  }

  /** With the start no later than the end, every commit falls in exactly one window. */
  lemma {:induction false} PeriodPartition(cs: seq<Commit>, start: real, end: real)
    requires start <= end
    ensures Count(cs, Before(start)) + Count(cs, During(start, end)) + Count(cs, After(end)) == |cs|
  {
    if cs != [] {
      PeriodPartition(cs[1..], start, end);
    }
  }

  lemma {:induction false} CountInsert(x: Commit, t: seq<Commit>, w: Window)
    ensures Count(Insert(x, t, Earliest), w) == (if InWindow(x, w) then 1 else 0) + Count(t, w)
  {
    if t != [] && Earliest(t[0]) > Earliest(x) {
      CountInsert(x, t[1..], w);
      assert ([t[0]] + Insert(x, t[1..], Earliest))[1..] == Insert(x, t[1..], Earliest);
    } else if t != [] {
      assert ([x] + t)[1..] == t;
    }
  }

  /** Sorting the commits by date does not change any window's count. */
  lemma {:induction false} CountSort(cs: seq<Commit>, w: Window)
    ensures Count(SortDesc(cs, Earliest), w) == Count(cs, w)
  {
    if cs != [] {
      CountSort(cs[1..], w);
      CountInsert(cs[0], SortDesc(cs[1..], Earliest), w);
    }
  }

  /** Classification by the number and share of commits made before the start. */
  function PeriodFlag(before: nat, total: nat): HackathonPeriodFlag
    requires total > 0
  {
    if before == 0 then Clean
    else if before <= 3 && (before as real) / (total as real) < 0.1 then MinorPriorWork
    else if (before as real) / (total as real) < 0.5 then SignificantPriorWork
    else PreExistingProject
  }

  /** The thresholds in whole numbers: minor prior work is one to three early
      commits under 10% of the history; half or more makes it pre-existing. */
  lemma PeriodFlagThresholds(before: nat, total: nat)
    requires 0 < total
    ensures PeriodFlag(before, total) == Clean <==> before == 0
    ensures PeriodFlag(before, total) == MinorPriorWork <==> 0 < before <= 3 && 10 * before < total
    ensures PeriodFlag(before, total) == SignificantPriorWork
            <==> 0 < before && !(before <= 3 && 10 * before < total) && 2 * before < total
    ensures PeriodFlag(before, total) == PreExistingProject <==> 0 < before && 2 * before >= total
  {
    DivLess(before as real, total as real, 0.1);
    DivLess(before as real, total as real, 0.5);
  }

  function PeriodRank(f: HackathonPeriodFlag): nat {
    match f
    case Clean => 0
    case MinorPriorWork => 1
    case SignificantPriorWork => 2
    case PreExistingProject => 3
    case UnknownPeriod => 4
  }

  /** More commits before the start never yield a cleaner classification. */
  lemma PeriodFlagMonotone(b1: nat, b2: nat, total: nat)
    requires 0 < total && b1 <= b2
    ensures PeriodRank(PeriodFlag(b1, total)) <= PeriodRank(PeriodFlag(b2, total))
  {
    PeriodFlagThresholds(b1, total);
    PeriodFlagThresholds(b2, total);
  }

  lemma EarliestOrder(sorted: seq<Commit>, cs: seq<Commit>)
    requires multiset(sorted) == multiset(cs) && SortedDesc(sorted, Earliest) && cs != []
    ensures forall c :: c in cs ==> sorted[0].date <= c.date <= sorted[|sorted| - 1].date
    ensures sorted[0] in cs && sorted[|sorted| - 1] in cs
  {
    assert |sorted| == |cs| by {
      assert |multiset(sorted)| == |multiset(cs)|;
    }
    forall c | c in cs ensures sorted[0].date <= c.date <= sorted[|sorted| - 1].date {
      assert c in multiset(sorted);
      var k :| 0 <= k < |sorted| && sorted[k] == c;
      assert Earliest(sorted[0]) >= Earliest(sorted[k]) >= Earliest(sorted[|sorted| - 1]);
    }
    assert sorted[0] in multiset(cs);
    assert sorted[|sorted| - 1] in multiset(cs);
  }

  /** `_analyze_git_history`: commit counts, first and last dates, authors, and,
      when configured, the split around the hackathon window. */
  function AnalyzeGitHistory(repoExists: bool, log: Option<seq<string>>, hack: Option<HackathonConfig>,
                             parseIso: string -> Option<real>): (r: GitHistory)
    ensures var cs := if repoExists && log.Some? then ParseLog(log.value, parseIso) else [];
      && r.totalCommits == |cs|
      && (cs == [] ==> r == DefaultGitHistory)
      && (r.isSingleCommitDump <==> |cs| == 1)
      && r.commitAuthors == Authors(cs)
      && (r.firstCommitDate.Some? <==> cs != []) && (r.lastCommitDate.Some? <==> cs != [])
      && (cs != [] ==> forall c :: c in cs ==> r.firstCommitDate.value <= c.date <= r.lastCommitDate.value)
      && (cs != [] ==> exists c :: c in cs && c.date == r.firstCommitDate.value)
      && (cs != [] ==> exists c :: c in cs && c.date == r.lastCommitDate.value)
      && (r.hackathonPeriodFlag != UnknownPeriod <==> cs != [] && PeriodBounds(hack, parseIso).Some?)
      && (r.hackathonPeriodFlag != UnknownPeriod ==>
            var (start, end) := PeriodBounds(hack, parseIso).value;
            && r.commitsBeforeHackathon == Count(cs, Before(start))
            && r.commitsDuringHackathon == Count(cs, During(start, end))
            && r.commitsAfterDeadline == Count(cs, After(end))
            && r.hackathonPeriodFlag == PeriodFlag(r.commitsBeforeHackathon, r.totalCommits))
      && (r.hackathonPeriodFlag == UnknownPeriod ==>
            r.commitsBeforeHackathon == 0 && r.commitsDuringHackathon == 0 && r.commitsAfterDeadline == 0)
    ensures !r.isFork
  {
    if !repoExists || log.None? then DefaultGitHistory
    else
      var commits := ParseLog(log.value, parseIso);
      if commits == [] then DefaultGitHistory
      else
        var h := HistoryOf(commits);
        match PeriodBounds(hack, parseIso)
        case None => h
        case Some((start, end)) => PeriodSplit(h, commits, start, end)
  }

  /** The history of a non-empty commit list, before any period check: the
      first and last dates are the extremes, read off the list sorted oldest first. */
  function HistoryOf(commits: seq<Commit>): (h: GitHistory)
    requires commits != []
    ensures h.totalCommits == |commits| && (h.isSingleCommitDump <==> |commits| == 1)
    ensures h.commitAuthors == Authors(commits) && !h.isFork
    ensures h.firstCommitDate.Some? && h.lastCommitDate.Some?
    ensures forall c :: c in commits ==> h.firstCommitDate.value <= c.date <= h.lastCommitDate.value
    ensures exists c :: c in commits && c.date == h.firstCommitDate.value
    ensures exists c :: c in commits && c.date == h.lastCommitDate.value
    ensures h.hackathonPeriodFlag == UnknownPeriod
    ensures h.commitsBeforeHackathon == 0 && h.commitsDuringHackathon == 0 && h.commitsAfterDeadline == 0
  {
    var sorted := SortDesc(commits, Earliest);
    EarliestOrder(sorted, commits);
    GitHistory(Some(sorted[0].date), Some(sorted[|sorted| - 1].date), |commits|, 0, 0, 0,
               UnknownPeriod, false, |commits| == 1, Authors(commits))
  }

  /** The period counts, taken over the sorted list as the source does, equal
      the counts over the commits in any order. */
  function PeriodSplit(h: GitHistory, commits: seq<Commit>, start: real, end: real): (r: GitHistory)
    requires commits != [] && h.totalCommits == |commits|
    ensures r == h.(commitsBeforeHackathon := Count(commits, Before(start)),
                    commitsDuringHackathon := Count(commits, During(start, end)),
                    commitsAfterDeadline := Count(commits, After(end)),
                    hackathonPeriodFlag := PeriodFlag(Count(commits, Before(start)), |commits|))
    ensures r.hackathonPeriodFlag != UnknownPeriod
  {
    var sorted := SortDesc(commits, Earliest);
    CountSort(commits, Before(start));
    CountSort(commits, During(start, end));
    CountSort(commits, After(end));
    var before := Count(sorted, Before(start));
    h.(commitsBeforeHackathon := before,
       commitsDuringHackathon := Count(sorted, During(start, end)),
       commitsAfterDeadline := Count(sorted, After(end)),
       hackathonPeriodFlag := PeriodFlag(before, |commits|))
  }

  // ---------------------------------------------------------------------
  // One submission and the batch
  // ---------------------------------------------------------------------

  /** What cloning and scanning one repository observed: whether a valid
      checkout was already there, git's exit code and stderr, the walk, the
      top-level names, and the commit log (None when `git log` fails). */
  datatype CloneObservation = CloneObservation(
    alreadyValid: bool, exitCode: int, stderr: string,
    repoExists: bool, walk: seq<WalkedFile>, topLevel: set<string>, log: Option<seq<string>>)

  const NoValidUrl: string := "no_valid_github_url"

  predicate Cloneable(sub: Submission) {
    sub.github.isValid && Given(sub.github.cloneUrl)
  }

  /** `_process_one`: submissions without a usable clone URL are not cloned;
      otherwise the clone outcome is recorded, and only a successful clone is
      scanned. */
  function ProcessOne(sub: Submission, hack: Option<HackathonConfig>, parseIso: string -> Option<real>,
                      obs: CloneObservation): (r: RepoMetadata)
    ensures r.teamNumber == sub.teamNumber && r.teamName == sub.teamName
    ensures r.projectName == sub.projectName && r.sanitizedName == sub.sanitizedName
    ensures !Cloneable(sub) ==> r == DefaultRepoMetadata(sub).(cloneError := Some(NoValidUrl))
    ensures r.cloneSuccess <==> Cloneable(sub) && (obs.alreadyValid || obs.exitCode == 0)
    ensures r.cloneSuccess <==> r.cloneError.None?
    ensures !r.cloneSuccess ==> r.files == DefaultRepoFiles && r.gitHistory == DefaultGitHistory
    ensures r.cloneSuccess ==> r.gitHistory == AnalyzeGitHistory(obs.repoExists, obs.log, hack, parseIso)
  {
    var meta := DefaultRepoMetadata(sub);
    if !Cloneable(sub) then meta.(cloneError := Some(NoValidUrl))
    else
      var (success, error) := CloneRepo(obs.alreadyValid, obs.exitCode, obs.stderr);
      if success then
        meta.(cloneSuccess := true, cloneError := error,
              files := ScanRepoFiles(obs.repoExists, obs.walk, obs.topLevel),
              gitHistory := AnalyzeGitHistory(obs.repoExists, obs.log, hack, parseIso))
      else meta.(cloneSuccess := false, cloneError := error)
  }

  /** The earlier results `run_clone` resumes from: only when resuming and a saved file exists. */
  function Resumed(resume: bool, saved: Option<seq<RepoMetadata>>): map<int, RepoMetadata> {
    if resume && saved.Some? then IndexBy(saved.value, MetaTeam) else map[]
  }

  /** An earlier result is reused only when it records a successful clone. */
  predicate Reuses(existing: map<int, RepoMetadata>, sub: Submission) {
    sub.teamNumber in existing && existing[sub.teamNumber].cloneSuccess
  }

  /** `run_clone`: one result per submission, in submission order; a team whose
      earlier clone succeeded keeps that result, every other team is processed
      afresh. */
  function RunClone(resume: bool, saved: Option<seq<RepoMetadata>>, subs: seq<Submission>,
                    hack: Option<HackathonConfig>, parseIso: string -> Option<real>,
                    observe: Submission -> CloneObservation): (r: seq<RepoMetadata>)
    ensures |r| == |subs|
    ensures forall i :: 0 <= i < |subs| ==> r[i].teamNumber == subs[i].teamNumber
    ensures forall i :: 0 <= i < |subs| && Reuses(Resumed(resume, saved), subs[i]) ==>
              r[i] == Resumed(resume, saved)[subs[i].teamNumber] && r[i].cloneSuccess
    ensures forall i :: 0 <= i < |subs| && !Reuses(Resumed(resume, saved), subs[i]) ==>
              r[i] == ProcessOne(subs[i], hack, parseIso, observe(subs[i]))
    ensures !resume ==> forall i :: 0 <= i < |subs| ==> r[i] == ProcessOne(subs[i], hack, parseIso, observe(subs[i]))
  {
    var existing := Resumed(resume, saved);
    seq(|subs|, i requires 0 <= i < |subs| =>
      if Reuses(existing, subs[i]) then existing[subs[i].teamNumber]
      else ProcessOne(subs[i], hack, parseIso, observe(subs[i])))
  }

  predicate DistinctTeams(subs: seq<Submission>) {
    forall i, j :: 0 <= i < j < |subs| ==> subs[i].teamNumber != subs[j].teamNumber
  }

  /** Resuming from a stage's own output changes nothing: successful clones are
      kept and the rest are recomputed to the same result. */
  lemma RunCloneIdempotent(resume: bool, saved: Option<seq<RepoMetadata>>, subs: seq<Submission>,
                           hack: Option<HackathonConfig>, parseIso: string -> Option<real>,
                           observe: Submission -> CloneObservation)
    requires DistinctTeams(subs)
    ensures var first := RunClone(resume, saved, subs, hack, parseIso, observe);
            RunClone(true, Some(first), subs, hack, parseIso, observe) == first
  {
    var first := RunClone(resume, saved, subs, hack, parseIso, observe);
    var again := RunClone(true, Some(first), subs, hack, parseIso, observe);
    forall i | 0 <= i < |subs| ensures again[i] == first[i] {
      ResumedOwnOutput(first, subs, i);
    }
  }

  /** Indexing a result list whose teams are distinct finds each result under its team. */
  lemma ResumedOwnOutput(first: seq<RepoMetadata>, subs: seq<Submission>, i: nat)
    requires DistinctTeams(subs) && |first| == |subs| && i < |subs|
    requires forall k :: 0 <= k < |subs| ==> first[k].teamNumber == subs[k].teamNumber
    ensures Resumed(true, Some(first))[subs[i].teamNumber] == first[i]
  {
    assert forall j :: i < j < |first| ==> MetaTeam(first[j]) != MetaTeam(first[i]);
    IndexByLastWins(first, MetaTeam, i);
  }
}
