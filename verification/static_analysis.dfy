/** Static analysis (stages/static_analysis.py) over abstract scan results:
    per-file regex match counts, the set of existing paths, top-level entries
    and config file contents stand in for walking and reading the repository. */
module StaticAnalysis {
  import opened Wrappers
  import opened Text
  import opened Models
  import opened Collections

  // ---------------------------------------------------------------------
  // Pattern table
  // ---------------------------------------------------------------------

  /** One AI-integration pattern: its regexes (tried in order), weight and label. */
  datatype PatternSpec = PatternSpec(name: string, regexes: seq<string>, weight: nat, description: string)

  const AiPatterns: seq<PatternSpec> := [
    PatternSpec("anthropic_sdk",
      [@"import\s+anthropic", @"from\s+anthropic", @"require\(['""]@anthropic", @"require\(['""]anthropic",
       @"import\s+Anthropic", @"new\s+Anthropic"], 3, "Anthropic SDK import/usage"),
    PatternSpec("claude_model_reference",
      ["claude-opus", "claude-sonnet", "claude-haiku", "claude-3", "claude-4", "opus-4", "opus4"],
      3, "Claude model name reference"),
    PatternSpec("anthropic_api_key", ["ANTHROPIC_API_KEY", "sk-ant-"], 2, "Anthropic API key reference"),
    PatternSpec("extended_thinking",
      ["extended.?thinking", "thinking.*budget", "think.*tokens", "budget_tokens"],
      4, "Extended thinking / chain-of-thought"),
    PatternSpec("tool_use",
      ["tool_use", "tool_choice", "function_calling", @"tools\s*=\s*\[", "input_schema"],
      3, "Tool use / function calling"),
    PatternSpec("mcp_server",
      ["mcp.*server", "model.?context.?protocol", "FastMCP", "@mcp", @"mcp\.tool", "MCPServer"],
      4, "MCP (Model Context Protocol) server"),
    PatternSpec("claude_code",
      ["claude.?code", @"CLAUDE\.md", @"\.claude", "claude.*hooks", "claude.*skills"],
      3, "Claude Code integration"),
    PatternSpec("streaming",
      ["stream.*message", "with.*stream", "content_block", "message_stream"],
      2, "Streaming response handling"),
    PatternSpec("multi_turn",
      ["conversation.*history", @"messages\s*[\.\[]\s*append", "chat.*history", "message.*history"],
      2, "Multi-turn conversation"),
    PatternSpec("agentic_pattern",
      ["agent.*loop", "observe.*act", "autonomous", "self.*correct", "plan.*execute"],
      3, "Agentic patterns"),
    PatternSpec("openai_sdk",
      [@"import\s+openai", @"from\s+openai", @"OpenAI\(", "OPENAI_API_KEY"], 2, "OpenAI SDK usage"),
    PatternSpec("gemini_sdk",
      [@"import\s+google\.genai", @"from\s+google\s+import\s+genai", @"genai\.Client", "GEMINI_API_KEY"],
      2, "Google Gemini SDK usage"),
    PatternSpec("system_prompt",
      [@"system\s*[=:]\s*['""]", "system_prompt", "role.*system"], 1, "System prompt usage")
  ]

  /** Sum of a pattern table's weights from index `from` on. */
  function WeightsFrom(pats: seq<PatternSpec>, from: nat): nat
    requires from <= |pats|
    decreases |pats| - from
  {
    if from == |pats| then 0 else pats[from].weight + WeightsFrom(pats, from + 1)
  }

  /** The table's weights sum to 34, so a score is at most 5 × 34. */
  lemma AiPatternWeights()
    ensures WeightsFrom(AiPatterns, 0) == 34
  {
    var ws := [3, 3, 2, 4, 3, 4, 3, 2, 2, 3, 2, 2, 1];
    var sums := [34, 31, 28, 26, 22, 19, 15, 12, 10, 8, 5, 3, 1, 0];
    var k := |AiPatterns|;
    while k > 0
      invariant 0 <= k <= |AiPatterns|
      invariant WeightsFrom(AiPatterns, k) == sums[k]
    {
      k := k - 1;
      assert AiPatterns[k].weight == ws[k];
    }
  }

  /** Pattern names are distinct. */
  lemma AiPatternsWellFormed()
    ensures DistinctNames(AiPatterns)
  {
    var ns := ["anthropic_sdk", "claude_model_reference", "anthropic_api_key", "extended_thinking",
               "tool_use", "mcp_server", "claude_code", "streaming", "multi_turn", "agentic_pattern",
               "openai_sdk", "gemini_sdk", "system_prompt"];
    AiPatternNames(ns);
    NamesDistinct(ns);
  }

  lemma NamesDistinct(ns: seq<string>)
    requires ns == ["anthropic_sdk", "claude_model_reference", "anthropic_api_key", "extended_thinking",
                    "tool_use", "mcp_server", "claude_code", "streaming", "multi_turn", "agentic_pattern",
                    "openai_sdk", "gemini_sdk", "system_prompt"]
    ensures forall p, q :: 0 <= p < q < |ns| ==> ns[p] != ns[q]
  {
    forall p, q | 0 <= p < q < |ns|
      ensures ns[p] != ns[q]
    {
      assert ns[p][0] != ns[q][0] || ns[p][1] != ns[q][1] || |ns[p]| != |ns[q]|;
    }
  }

  lemma AiPatternNames(ns: seq<string>)
    requires ns == ["anthropic_sdk", "claude_model_reference", "anthropic_api_key", "extended_thinking",
                    "tool_use", "mcp_server", "claude_code", "streaming", "multi_turn", "agentic_pattern",
                    "openai_sdk", "gemini_sdk", "system_prompt"]
    ensures |AiPatterns| == |ns| && forall p :: 0 <= p < |ns| ==> AiPatterns[p].name == ns[p]
  {
  }

  /** Every pattern weighs at least 1. */
  predicate PositiveWeights(pats: seq<PatternSpec>) {
    forall p :: 0 <= p < |pats| ==> pats[p].weight >= 1
  }

  lemma AiPatternWeightsPositive()
    ensures PositiveWeights(AiPatterns)
  {
  }

  // ---------------------------------------------------------------------
  // Per-file contributions
  // ---------------------------------------------------------------------

  const ScannableExtensions: set<string> := {
    ".py", ".js", ".ts", ".tsx", ".jsx", ".rs", ".go", ".java", ".rb", ".swift", ".kt", ".cpp", ".c",
    ".cs", ".vue", ".svelte", ".dart", ".sh", ".bash", ".zsh",
    ".md", ".txt", ".json", ".yaml", ".yml", ".toml", ".cfg", ".ini", ".conf"}

  const ScannableFilenames: set<string> := {
    ".env.example", "Dockerfile", "docker-compose.yml", "Makefile", "Procfile", "CLAUDE.md"}

  /** A file the walk reached: relative path, file name, lower-cased suffix,
      whether its text is non-empty, and `matches[p][r]`, the number of matches
      of regex `r` of pattern `p` in its text. */
  datatype ScannedFile = ScannedFile(
    relPath: string, fileName: string, suffix: string, hasContent: bool, matches: seq<seq<nat>>)

  /** The file is read at all. */
  predicate Scanned(f: ScannedFile) {
    (f.suffix in ScannableExtensions || f.fileName in ScannableFilenames) && f.hasContent
  }

  /** Match count of regex `r` of pattern `p` (0 where the file records none). */
  function MatchCount(f: ScannedFile, p: nat, r: nat): nat {
    if p < |f.matches| && r < |f.matches[p]| then f.matches[p][r] else 0
  }

  /** The count of the first of the first `n` regexes that matches, or 0. */
  function FirstMatchFrom(f: ScannedFile, p: nat, r: nat, n: nat): (c: nat)
    decreases n - r
    ensures c > 0 ==> exists i :: r <= i < n && MatchCount(f, p, i) == c
                                  && forall j :: r <= j < i ==> MatchCount(f, p, j) == 0
    ensures c == 0 ==> forall i :: r <= i < n ==> MatchCount(f, p, i) == 0
  {
    if r >= n then 0
    else if MatchCount(f, p, r) > 0 then MatchCount(f, p, r)
    else FirstMatchFrom(f, p, r + 1, n)
  }

  /** What pattern `p` of the table takes from one file: only the first regex
      that matches counts. */
  function Contribution(f: ScannedFile, pats: seq<PatternSpec>, p: nat): nat
    requires p < |pats|
  {
    if Scanned(f) then FirstMatchFrom(f, p, 0, |pats[p].regexes|) else 0
  }

  /** Reference definition: the files in which pattern `p` was found, in walk order. */
  function FilesMatching(fs: seq<ScannedFile>, pats: seq<PatternSpec>, p: nat): seq<string>
    requires p < |pats|
  {
    if fs == [] then []
    else FilesMatching(fs[..|fs| - 1], pats, p)
         + (if Contribution(fs[|fs| - 1], pats, p) > 0 then [fs[|fs| - 1].relPath] else [])
  }

  /** Reference definition: the total matches recorded for pattern `p`. */
  function TotalMatches(fs: seq<ScannedFile>, pats: seq<PatternSpec>, p: nat): (n: nat)
    requires p < |pats|
    ensures n >= 1 <==> FilesMatching(fs, pats, p) != []
  {
    if fs == [] then 0
    else TotalMatches(fs[..|fs| - 1], pats, p) + Contribution(fs[|fs| - 1], pats, p)
  }

  /** `found` holds exactly what the reference definitions say about pattern `p`
      after the files `fs`. */
  ghost predicate Agrees(found: map<string, PatternMatch>, fs: seq<ScannedFile>, pats: seq<PatternSpec>, p: nat)
    requires p < |pats|
  {
    var name := pats[p].name;
    && (name in found <==> FilesMatching(fs, pats, p) != [])
    && (name in found ==>
          found[name] == PatternMatch(pats[p].description, FilesMatching(fs, pats, p), TotalMatches(fs, pats, p)))
  }

  predicate IsPatternName(pats: seq<PatternSpec>, n: string) {
    exists p :: 0 <= p < |pats| && pats[p].name == n
  }

  predicate DistinctNames(pats: seq<PatternSpec>) {
    forall p, q :: 0 <= p < q < |pats| ==> pats[p].name != pats[q].name
  }

  /** Adding one more file to the walk extends both reference definitions by that file. */
  lemma ReferenceSnoc(pre: seq<ScannedFile>, f: ScannedFile, pats: seq<PatternSpec>, p: nat)
    requires p < |pats|
    ensures FilesMatching(pre + [f], pats, p)
            == FilesMatching(pre, pats, p) + (if Contribution(f, pats, p) > 0 then [f.relPath] else [])
    ensures TotalMatches(pre + [f], pats, p) == TotalMatches(pre, pats, p) + Contribution(f, pats, p)
  {
    assert (pre + [f])[..|pre|] == pre;
  }

  /** One pass of the inner loop: pattern `q` records file `f` when it matches there. */
  function Step(found: map<string, PatternMatch>, f: ScannedFile, pats: seq<PatternSpec>, q: nat): map<string, PatternMatch>
    requires q < |pats|
  {
    var c := Contribution(f, pats, q);
    if c == 0 then found
    else
      var name := pats[q].name;
      var prior := if name in found then found[name] else PatternMatch(pats[q].description, [], 0);
      found[name := PatternMatch(prior.description, prior.files + [f.relPath], prior.matchCount + c)]
  }

  lemma StepAgrees(found: map<string, PatternMatch>, pre: seq<ScannedFile>, f: ScannedFile, pats: seq<PatternSpec>, q: nat)
    requires q < |pats|
    requires Agrees(found, pre, pats, q)
    ensures Agrees(Step(found, f, pats, q), pre + [f], pats, q)
  {
    ReferenceSnoc(pre, f, pats, q);
  }

  lemma StepKeepsOthers(found: map<string, PatternMatch>, fs: seq<ScannedFile>, f: ScannedFile,
                        pats: seq<PatternSpec>, q: nat, p: nat)
    requires DistinctNames(pats)
    requires q < |pats| && p < |pats| && p != q
    requires Agrees(found, fs, pats, p)
    ensures Agrees(Step(found, f, pats, q), fs, pats, p)
  {
    var name := pats[p].name;
    assert name != pats[q].name;
    var stepped := Step(found, f, pats, q);
    assert name in stepped <==> name in found;
    assert name in found ==> stepped[name] == found[name];
  }

  /** The pattern-gathering loops of `_detect_ai_integration`, over a table
      whose names are distinct. */
  method CollectPatterns(pats: seq<PatternSpec>, files: seq<ScannedFile>) returns (found: map<string, PatternMatch>)
    requires DistinctNames(pats)
    ensures forall p :: 0 <= p < |pats| ==> Agrees(found, files, pats, p)
    ensures forall n :: n in found ==> IsPatternName(pats, n)
  {
    found := map[];
    var i := 0;
    while i < |files|
      invariant i <= |files|
      invariant forall p :: 0 <= p < |pats| ==> Agrees(found, files[..i], pats, p)
      invariant forall n :: n in found ==> IsPatternName(pats, n)
    {
      assert files[..i + 1] == files[..i] + [files[i]];
      found := ScanFile(found, files[..i], files[i], pats);
      i := i + 1;
    }
    assert files[..|files|] == files;
  }

  /** The inner loop of the scan: every pattern tried against one more file. */
  method ScanFile(found0: map<string, PatternMatch>, pre: seq<ScannedFile>, f: ScannedFile, pats: seq<PatternSpec>)
    returns (found: map<string, PatternMatch>)
    requires DistinctNames(pats)
    requires forall p :: 0 <= p < |pats| ==> Agrees(found0, pre, pats, p)
    requires forall n :: n in found0 ==> IsPatternName(pats, n)
    ensures forall p :: 0 <= p < |pats| ==> Agrees(found, pre + [f], pats, p)
    ensures forall n :: n in found ==> IsPatternName(pats, n)
  {
    found := found0;
    ghost var next := pre + [f];
    var q := 0;
    while q < |pats|
      invariant q <= |pats|
      invariant forall p :: 0 <= p < q ==> Agrees(found, next, pats, p)
      invariant forall p :: q <= p < |pats| ==> Agrees(found, pre, pats, p)
      invariant forall n :: n in found ==> IsPatternName(pats, n)
    {
      ghost var before := found;
      found := Step(found, f, pats, q);
      StepAgrees(before, pre, f, pats, q);
      forall p | 0 <= p < q
        ensures Agrees(found, next, pats, p)
      {
        StepKeepsOthers(before, next, f, pats, q, p);
      }
      forall p | q < p < |pats|
        ensures Agrees(found, pre, pats, p)
      {
        StepKeepsOthers(before, pre, f, pats, q, p);
      }
      q := q + 1;
    }
  }

  // ---------------------------------------------------------------------
  // Score and depth
  // ---------------------------------------------------------------------

  /** Σ weight × min(match_count, 5) over the detected patterns of a table,
      from index `from` on. */
  function ScoreFrom(pats: seq<PatternSpec>, found: map<string, PatternMatch>, from: nat): nat
    requires from <= |pats|
    decreases |pats| - from
  {
    if from == |pats| then 0
    else
      var spec := pats[from];
      (if spec.name in found then spec.weight * MinFive(found[spec.name].matchCount) else 0)
      + ScoreFrom(pats, found, from + 1)
  }

  function MinFive(n: nat): nat { if n < 5 then n else 5 }

  function IntegrationScore(found: map<string, PatternMatch>): nat {
    ScoreFrom(AiPatterns, found, 0)
  }

  /** Each detected pattern saturates at five matches, so the score is at most
      five times the weight sum. */
  lemma {:induction false} ScoreFromBound(pats: seq<PatternSpec>, found: map<string, PatternMatch>, from: nat)
    requires from <= |pats|
    ensures ScoreFrom(pats, found, from) <= 5 * WeightsFrom(pats, from)
    decreases |pats| - from
  {
    if from < |pats| {
      ScoreFromBound(pats, found, from + 1);
    }
  }

  /** A pattern of positive weight found with at least one match makes the score positive. */
  lemma {:induction false} ScoreFromPositive(pats: seq<PatternSpec>, found: map<string, PatternMatch>, from: nat, p: nat)
    requires from <= p < |pats| && pats[p].weight >= 1
    requires pats[p].name in found && found[pats[p].name].matchCount >= 1
    ensures ScoreFrom(pats, found, from) > 0
    decreases |pats| - from
  {
    if from < p {
      ScoreFromPositive(pats, found, from + 1, p);
    }
  }

  /** Nothing found, nothing scored. */
  lemma {:induction false} ScoreFromNothing(pats: seq<PatternSpec>, found: map<string, PatternMatch>, from: nat)
    requires from <= |pats|
    requires forall p :: from <= p < |pats| ==> pats[p].name !in found
    ensures ScoreFrom(pats, found, from) == 0
    decreases |pats| - from
  {
    if from < |pats| {
      ScoreFromNothing(pats, found, from + 1);
    }
  }

  /** `_detect_ai_integration`'s bucketing of pattern count and score. */
  function DepthFor(patternCount: nat, score: nat): (d: IntegrationDepth)
    ensures d == NoIntegration <==> patternCount == 0
  {
    if patternCount == 0 then NoIntegration
    else if patternCount <= 2 && score < 6 then Basic
    else if patternCount <= 4 && score < 15 then Moderate
    else if patternCount <= 6 && score < 25 then Deep
    else Extensive
  }

  function DepthRank(d: IntegrationDepth): nat {
    match d
    case NoIntegration => 0
    case Basic => 1
    case Moderate => 2
    case Deep => 3
    case Extensive => 4
  }

  /** More patterns or a higher score never lower the depth bucket. */
  lemma DepthMonotone(c1: nat, s1: nat, c2: nat, s2: nat)
    requires c1 <= c2 && s1 <= s2
    ensures DepthRank(DepthFor(c1, s1)) <= DepthRank(DepthFor(c2, s2))
  {
  }

  /** `_detect_ai_integration` over a pattern table with distinct names and
      positive weights: the detected patterns agree with the reference
      definitions, the score is positive exactly when something was found and
      at most five times the weight sum, and the depth bucket follows. A
      repository directory that does not exist yields nothing. */
  method DetectWith(pats: seq<PatternSpec>, repoExists: bool, files: seq<ScannedFile>)
    returns (found: map<string, PatternMatch>, score: nat, depth: IntegrationDepth)
    requires DistinctNames(pats) && PositiveWeights(pats)
    ensures !repoExists ==> found == map[] && score == 0 && depth == NoIntegration
    ensures repoExists ==> forall p :: 0 <= p < |pats| ==> Agrees(found, files, pats, p)
    ensures forall n :: n in found ==> IsPatternName(pats, n)
    ensures score == ScoreFrom(pats, found, 0)
    ensures score <= 5 * WeightsFrom(pats, 0)
    ensures score == 0 <==> found == map[]
    ensures depth == DepthFor(|found|, score)
    ensures depth == NoIntegration <==> found == map[]
  {
    if !repoExists {
      found, score, depth := map[], 0, NoIntegration;
      ScoreFromNothing(pats, found, 0);
      ScoreFromBound(pats, found, 0);
      return;
    }
    found := CollectPatterns(pats, files);
    score := ScoreFrom(pats, found, 0);
    ScoreFromBound(pats, found, 0);
    if found != map[] {
      var n :| n in found;
      var p :| 0 <= p < |pats| && pats[p].name == n;
      assert Agrees(found, files, pats, p);
      ScoreFromPositive(pats, found, 0, p);
    } else {
      ScoreFromNothing(pats, found, 0);
    }
    depth := DepthFor(|found|, score);
  }

  /** `_detect_ai_integration` with the table above: a score of at most 5 × 34. */
  method DetectAiIntegration(repoExists: bool, files: seq<ScannedFile>)
    returns (found: map<string, PatternMatch>, score: nat, depth: IntegrationDepth)
    ensures !repoExists ==> found == map[] && score == 0 && depth == NoIntegration
    ensures repoExists ==> forall p :: 0 <= p < |AiPatterns| ==> Agrees(found, files, AiPatterns, p)
    ensures forall n :: n in found ==> IsPatternName(AiPatterns, n)
    ensures score == IntegrationScore(found)
    ensures score <= 5 * 34
    ensures score == 0 <==> found == map[]
    ensures depth == DepthFor(|found|, score)
  {
    AiPatternsWellFormed();
    AiPatternWeights();
    AiPatternWeightsPositive();
    found, score, depth := DetectWith(AiPatterns, repoExists, files);
  }

  // ---------------------------------------------------------------------
  // Boilerplate
  // ---------------------------------------------------------------------

  datatype BoilerplateSpec = BoilerplateSpec(name: string, files: seq<string>, description: string)

  const BoilerplateIndicators: seq<BoilerplateSpec> := [
    BoilerplateSpec("create_react_app", ["src/App.test.js", "src/reportWebVitals.js", "src/setupTests.js"],
                    "Create React App boilerplate"),
    BoilerplateSpec("next_js_default", ["app/page.tsx", "app/layout.tsx", "next.config.ts"],
                    "Next.js default template"),
    BoilerplateSpec("vite_default", ["vite.config.ts", "src/App.tsx"], "Vite default template")
  ]

  /** How many of the marker files exist. */
  function CountExisting(files: seq<string>, existing: set<string>): (n: nat)
    ensures n <= |files|
  {
    if files == [] then 0
    else (if files[0] in existing then 1 else 0) + CountExisting(files[1..], existing)
  }

  /** At least 60% of the indicator's marker files exist. */
  predicate Indicated(spec: BoilerplateSpec, existing: set<string>) {
    CountExisting(spec.files, existing) as real >= |spec.files| as real * 0.6
  }

  /** The first indicator from index `from` on that is met. */
  function FirstIndicated(existing: set<string>, from: nat): (r: Option<nat>)
    requires from <= |BoilerplateIndicators|
    decreases |BoilerplateIndicators| - from
    ensures r.Some? ==> from <= r.value < |BoilerplateIndicators|
                        && Indicated(BoilerplateIndicators[r.value], existing)
                        && forall j :: from <= j < r.value ==> !Indicated(BoilerplateIndicators[j], existing)
    ensures r.None? ==> forall j :: from <= j < |BoilerplateIndicators| ==> !Indicated(BoilerplateIndicators[j], existing)
  {
    if from == |BoilerplateIndicators| then None
    else if Indicated(BoilerplateIndicators[from], existing) then Some(from)
    else FirstIndicated(existing, from + 1)
  }

  /** `_detect_boilerplate`: the first template, in table order, of which at least
      60% of the marker files exist; heavy when that template comes with fewer
      than 500 lines of code. */
  function DetectBoilerplate(repoExists: bool, existing: set<string>, totalLoc: nat): (r: (Option<string>, bool))
    ensures r.1 ==> r.0.Some? && totalLoc < 500
    ensures r.0.Some? ==> repoExists && r.1 == (totalLoc < 500)
    ensures r.0.Some? ==> exists i :: 0 <= i < |BoilerplateIndicators|
                           && r.0.value == BoilerplateIndicators[i].description
                           && Indicated(BoilerplateIndicators[i], existing)
                           && forall j :: 0 <= j < i ==> !Indicated(BoilerplateIndicators[j], existing)
    ensures repoExists && r.0.None? ==>
      forall j :: 0 <= j < |BoilerplateIndicators| ==> !Indicated(BoilerplateIndicators[j], existing)
  {
    if !repoExists then (None, false)
    else match FirstIndicated(existing, 0)
      case Some(i) => (Some(BoilerplateIndicators[i].description), totalLoc < 500)
      case None => (None, false)
  }

  /** Two of the three Create React App markers are enough, and two of Vite's two
      are needed. */
  lemma BoilerplateThresholds(existing: set<string>)
    ensures "src/App.test.js" in existing && "src/setupTests.js" in existing ==>
              Indicated(BoilerplateIndicators[0], existing)
    ensures "vite.config.ts" in existing && "src/App.tsx" !in existing ==>
              !Indicated(BoilerplateIndicators[2], existing)
  {
    var cra := BoilerplateIndicators[0].files;
    assert cra == ["src/App.test.js", "src/reportWebVitals.js", "src/setupTests.js"];
    assert cra[1..][1..][1..] == [];
    assert CountExisting(cra[1..][1..], existing) == (if "src/setupTests.js" in existing then 1 else 0);
    var vite := BoilerplateIndicators[2].files;
    assert vite == ["vite.config.ts", "src/App.tsx"];
    assert vite[1..][1..] == [];
    assert CountExisting(vite[1..], existing) == (if "src/App.tsx" in existing then 1 else 0);
  }

  // ---------------------------------------------------------------------
  // Repository structure
  // ---------------------------------------------------------------------

  const SkipDirs: set<string> := {
    "node_modules", ".git", "vendor", "venv", ".venv", "__pycache__", ".next", "dist", "build", ".cache",
    "target", "coverage", ".idea", ".vscode", "env", ".env", ".tox", "egg-info", ".mypy_cache",
    ".pytest_cache", ".ruff_cache"}

  /** A top-level entry of the repository, in sorted order. */
  datatype DirEntry = DirEntry(name: string, isDir: bool, isFile: bool)

  /** A configuration file and the (keyword, framework) pairs looked for in it. */
  datatype FrameworkSignal = FrameworkSignal(configFile: string, detectors: seq<(string, string)>)

  const FrameworkSignals: seq<FrameworkSignal> := [
    FrameworkSignal("package.json", [("next", "Next.js"), ("react", "React"), ("vue", "Vue"),
                                     ("express", "Express"), ("svelte", "Svelte")]),
    FrameworkSignal("requirements.txt", [("flask", "Flask"), ("fastapi", "FastAPI"), ("django", "Django"),
                                         ("streamlit", "Streamlit")]),
    FrameworkSignal("pyproject.toml", [("flask", "Flask"), ("fastapi", "FastAPI"), ("django", "Django")]),
    FrameworkSignal("Cargo.toml", []),
    FrameworkSignal("go.mod", [])
  ]

  const LanguageOfConfig: map<string, string> := map[
    "Cargo.toml" := "Rust", "go.mod" := "Go", "package.json" := "Node.js",
    "requirements.txt" := "Python", "pyproject.toml" := "Python"]

  /** The frameworks whose keyword occurs in `content`, in detector order. */
  function KeywordHits(detectors: seq<(string, string)>, content: string): (r: seq<string>)
    ensures forall x :: x in r ==> exists d :: d in detectors && d.1 == x
  {
    if detectors == [] then []
    else (if Contains(content, detectors[0].0) then [detectors[0].1] else [])
         + KeywordHits(detectors[1..], content)
  }

  /** What one existing config file contributes: its frameworks, or else its language. */
  function SignalHits(sig: FrameworkSignal, content: string): seq<string> {
    var hits := KeywordHits(sig.detectors, Lower(content));
    if hits != [] then hits
    else if sig.configFile in LanguageOfConfig then [LanguageOfConfig[sig.configFile]]
    else []
  }

  /** The framework list before de-duplication. */
  function RawFrameworks(signals: seq<FrameworkSignal>, existing: set<string>, contents: map<string, string>): seq<string> {
    if signals == [] then []
    else
      var sig := signals[0];
      (if sig.configFile in existing
       then SignalHits(sig, if sig.configFile in contents then contents[sig.configFile] else "")
       else [])
      + RawFrameworks(signals[1..], existing, contents)
  }

  /** Hidden entries are skipped except `.env.example` and `.claude`. */
  predicate Listed(e: DirEntry) {
    !(|e.name| > 0 && e.name[0] == '.') || e.name in {".env.example", ".claude"}
  }

  function TopLevelDirs(entries: seq<DirEntry>): seq<string> {
    if entries == [] then []
    else (if Listed(entries[0]) && entries[0].isDir && entries[0].name !in SkipDirs then [entries[0].name] else [])
         + TopLevelDirs(entries[1..])
  }

  function TopLevelFiles(entries: seq<DirEntry>): seq<string> {
    if entries == [] then []
    else (if Listed(entries[0]) && !(entries[0].isDir && entries[0].name !in SkipDirs) && entries[0].isFile
          then [entries[0].name] else [])
         + TopLevelFiles(entries[1..])
  }

  predicate AnyExists(names: seq<string>, existing: set<string>) {
    exists i :: 0 <= i < |names| && names[i] in existing
  }

  /** `_analyze_structure` */
  function AnalyzeStructure(repoExists: bool, entries: seq<DirEntry>, existing: set<string>,
                            contents: map<string, string>): (s: RepoStructure)
    ensures NoDuplicates(s.frameworksDetected)
    ensures forall x :: x in s.frameworksDetected <==> repoExists && x in RawFrameworks(FrameworkSignals, existing, contents)
    ensures !repoExists ==> s == DefaultStructure
  {
    if !repoExists then DefaultStructure
    else RepoStructure(
      TopLevelDirs(entries),
      TopLevelFiles(entries),
      AnyExists(["Dockerfile", "docker-compose.yml", "docker-compose.yaml"], existing),
      ".github/workflows" in existing,
      AnyExists([".env.example", ".env.local.example", ".env.sample"], existing),
      "CLAUDE.md" in existing || ".claude" in existing,
      AnyExists(["LICENSE", "LICENSE.md", "LICENSE.txt"], existing),
      Dedupe(RawFrameworks(FrameworkSignals, existing, contents)))
  }

  // ---------------------------------------------------------------------
  // One submission
  // ---------------------------------------------------------------------

  /** Everything the scan of one cloned repository observed. */
  datatype RepoScan = RepoScan(
    repoExists: bool,
    files: seq<ScannedFile>,
    existing: set<string>,
    entries: seq<DirEntry>,
    contents: map<string, string>)

  /** `_process_one`: a failed clone yields the default result; otherwise the
      pattern, boilerplate and structure analyses fill it in. */
  method ProcessOne(sub: Submission, meta: RepoMetadata, scan: RepoScan) returns (r: StaticAnalysisResult)
    ensures r.teamNumber == sub.teamNumber && r.cloneSuccess == meta.cloneSuccess
    ensures !meta.cloneSuccess ==>
      && r.integrationPatterns == map[] && r.integrationScore == 0
      && r.integrationDepth == NoIntegration && !r.isBoilerplateHeavy
      && r.structure.frameworksDetected == []
    ensures r.integrationScore == 0 <==> r.integrationPatterns == map[]
    ensures r.integrationDepth == NoIntegration <==> r.integrationPatterns == map[]
    ensures r.isBoilerplateHeavy ==> meta.files.totalLoc < 500
    ensures NoDuplicates(r.structure.frameworksDetected)
  {
    r := DefaultStatic(sub.teamNumber, meta.cloneSuccess);
    if !meta.cloneSuccess {
      return;
    }
    var found, score, depth := DetectAiIntegration(scan.repoExists, scan.files);
    var bp := DetectBoilerplate(scan.repoExists, scan.existing, meta.files.totalLoc);
    r := r.(integrationPatterns := found, integrationScore := score, integrationDepth := depth,
            boilerplateType := bp.0, isBoilerplateHeavy := bp.1,
            structure := AnalyzeStructure(scan.repoExists, scan.entries, scan.existing, scan.contents));
  }
}
