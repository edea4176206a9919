/** The scoring engine (stages/scoring.py): heuristic estimators, the
    per-criterion merge of LLM scores and heuristics, the weighted total and
    the ranked batch. */
module Scoring {
  import opened Wrappers
  import opened Numeric
  import opened Text
  import opened Models
  import opened Collections

  // ---------------------------------------------------------------------
  // Bounded log-scale mapping
  // ---------------------------------------------------------------------

  /** The transcendental functions `_log_scale` calls (`math.exp`, `math.log`). */
  datatype Numerics = Numerics(exp: real -> real, ln: real -> real)

  /** All that the scoring rules need to know about `math.exp`: it is never negative. */
  ghost predicate ValidNumerics(num: Numerics) {
    forall x :: num.exp(x) >= 0.0
  }

  /** `_log_scale`: a logistic curve over `log(value + 1)`, centred on `midpoint`. */
  function LogScale(num: Numerics, value: real, midpoint: real, steepness: real): (r: real)
    requires ValidNumerics(num)
    ensures value <= 0.0 ==> r == 0.0
    ensures value > 0.0 ==> 0.0 < r
    ensures r <= 1.0
  {
    if value <= 0.0 then 0.0
    else
      var e := num.exp(-steepness * (num.ln(value + 1.0) - num.ln(midpoint + 1.0)));
      assert 1.0 + e >= 1.0;
      1.0 / (1.0 + e)
  }

  // ---------------------------------------------------------------------
  // Heuristic estimators
  // ---------------------------------------------------------------------

  function Flat(b: bool, bonus: real): real {
    if b then bonus else 0.0
  }

  function Min(a: real, b: real): real {
    if a <= b then a else b
  }

  /** Number of whitespace-separated words. */
  function WordCount(s: string): nat {
    |SplitWhitespace(s)|
  }

  /** `_heuristic_impact`. Its terms add up to at most 8, so the upper clamp at 10
      never binds. */
  function ImpactHeuristic(num: Numerics, sub: Submission, meta: RepoMetadata, st: StaticAnalysisResult): (r: real)
    requires ValidNumerics(num)
    ensures 1.0 <= r <= 8.0
    ensures WordCount(sub.description) >= 160 && meta.files.hasReadme ==> r >= 3.0
  {
    var words := Min(2.0, WordCount(sub.description) as real / 80.0);
    var size := LogScale(num, meta.files.totalLoc as real, 5000.0, 1.2) * 2.5;
    var frameworks := Min(1.0, |st.structure.frameworksDetected| as real * 0.4);
    var readme := Flat(meta.files.hasReadme, 1.0);
    var deploy := Flat(st.structure.hasDocker, 0.5) + Flat(st.structure.hasCi, 0.5)
                  + Flat(st.structure.hasEnvExample, 0.5);
    Clamp(words + size + frameworks + readme + deploy, 1.0, 10.0)
  }

  predicate HasPattern(st: StaticAnalysisResult, name: string) {
    name in st.integrationPatterns
  }

  /** Bonus for specific high-value integration patterns. */
  function AiUseBonus(st: StaticAnalysisResult): (b: real)
    ensures 0.0 <= b <= 1.5
  {
    Flat(HasPattern(st, "extended_thinking"), 0.4)
    + Flat(HasPattern(st, "mcp_server"), 0.3)
    + Flat(HasPattern(st, "agentic_pattern"), 0.3)
    + Flat(HasPattern(st, "anthropic_sdk") || HasPattern(st, "openai_sdk") || HasPattern(st, "gemini_sdk"), 0.3)
    + Flat(HasPattern(st, "tool_use"), 0.2)
  }

  /** `_heuristic_ai_use`: capped at 8, below the LLM-only top band. */
  function AiUseHeuristic(num: Numerics, st: StaticAnalysisResult): (r: real)
    requires ValidNumerics(num)
    ensures 1.0 <= r <= 8.0
    ensures st.integrationScore == 0 ==> r == 1.0
    ensures st.integrationScore > 0 ==> r > 1.0
  {
    if st.integrationScore == 0 then 1.0
    else
      var base := 1.0 + LogScale(num, st.integrationScore as real, 60.0, 1.0) * 7.0;
      Clamp(base + AiUseBonus(st), 1.0, 8.0)
  }

  const DataLanguages: set<string> := {"Markdown", "JSON", "YAML", "TOML"}

  /** Number of listed languages that are programming languages. */
  function CodeLanguageCount(langs: seq<LanguageLoc>): nat {
    if langs == [] then 0
    else (if langs[0].language in DataLanguages then 0 else 1) + CodeLanguageCount(langs[1..])
  }

  /** `commits_during_hackathon or total_commits` */
  function DepthCommits(h: GitHistory): nat {
    if h.commitsDuringHackathon != 0 then h.commitsDuringHackathon else h.totalCommits
  }

  /** The depth estimate before penalties. */
  function DepthBase(num: Numerics, meta: RepoMetadata, st: StaticAnalysisResult): (r: real)
    requires ValidNumerics(num)
    ensures 0.0 <= r <= 9.0
  {
    LogScale(num, DepthCommits(meta.gitHistory) as real, 50.0, 1.0) * 2.5
    + LogScale(num, meta.files.totalLoc as real, 10000.0, 1.0) * 2.0
    + Flat(meta.files.hasTests, 1.0)
    + Flat(st.structure.hasClaudeMd, 0.5)
    + Flat(meta.files.hasReadme, 0.5)
    + Flat(CodeLanguageCount(meta.files.languages) >= 3, 0.5)
    + Flat(st.structure.hasDocker, 0.5)
    + Flat(st.structure.hasCi, 0.5)
    + LogScale(num, meta.files.fileCount as real, 50.0, 1.0)
  }

  /** The penalty for a pre-existing project, or else for significant prior work. */
  function PeriodPenalty(flag: HackathonPeriodFlag): real {
    if flag == PreExistingProject then 3.0
    else if flag == SignificantPriorWork then 1.5
    else 0.0
  }

  /** `_heuristic_depth`: the base estimate minus the gaming penalties, clamped. */
  function DepthHeuristic(num: Numerics, meta: RepoMetadata, st: StaticAnalysisResult): (r: real)
    requires ValidNumerics(num)
    ensures 1.0 <= r <= 9.0
  {
    var score := DepthBase(num, meta, st)
                 - Flat(meta.gitHistory.isSingleCommitDump, 2.0)
                 - Flat(st.isBoilerplateHeavy, 2.0)
                 - PeriodPenalty(meta.gitHistory.hackathonPeriodFlag);
    Clamp(score, 1.0, 10.0)
  }

  /** The same evidence with every penalty-triggering signal cleared. */
  function Unpenalised(meta: RepoMetadata): RepoMetadata {
    meta.(gitHistory := meta.gitHistory.(isSingleCommitDump := false, hackathonPeriodFlag := Clean))
  }

  function WithoutBoilerplate(st: StaticAnalysisResult): StaticAnalysisResult {
    st.(isBoilerplateHeavy := false)
  }

  /** Penalties never raise a depth estimate, and before clamping each costs
      exactly its amount: 2 for a one-commit dump, 2 for heavy boilerplate, and
      3 for a pre-existing project or else 1.5 for significant prior work. */
  lemma DepthPenaltiesLower(num: Numerics, meta: RepoMetadata, st: StaticAnalysisResult)
    requires ValidNumerics(num)
    ensures DepthHeuristic(num, meta, st) <= DepthHeuristic(num, Unpenalised(meta), WithoutBoilerplate(st))
    ensures
      var penalty := Flat(meta.gitHistory.isSingleCommitDump, 2.0) + Flat(st.isBoilerplateHeavy, 2.0)
                     + PeriodPenalty(meta.gitHistory.hackathonPeriodFlag);
      DepthBase(num, meta, st) - penalty >= 1.0 ==>
        DepthHeuristic(num, Unpenalised(meta), WithoutBoilerplate(st)) - DepthHeuristic(num, meta, st) == penalty
  {
    assert DepthBase(num, Unpenalised(meta), WithoutBoilerplate(st)) == DepthBase(num, meta, st);
  }

  /** `_heuristic_demo`: 1 without a downloaded video, otherwise 1 plus a
      bonus that depends on the duration band. */
  function DemoHeuristic(video: Option<VideoAnalysisResult>): (r: real)
    ensures 1.0 <= r <= 8.0
    ensures video.None? || !video.value.download.success ==> r == 1.0
    ensures video.Some? && video.value.download.success ==>
      var d := video.value.download.durationSeconds;
      && (d < 30.0 ==> r == 1.3)
      && (30.0 <= d < 60.0 ==> r == 2.0)
      && (60.0 <= d <= 200.0 ==> r == 3.5)
      && (200.0 < d ==> r == 3.0)
  {
    if video.None? || !video.value.download.success then 1.0
    else
      var dur := video.value.download.durationSeconds;
      var bonus := if dur < 30.0 then 0.3 else if dur < 60.0 then 1.0 else if dur <= 200.0 then 2.5 else 2.0;
      Clamp(1.0 + bonus, 1.0, 8.0)
  }

  /** A downloaded video of 60 to 200 seconds gets the best demo estimate there is. */
  lemma DemoWindowIsBest(ideal: VideoAnalysisResult, other: Option<VideoAnalysisResult>)
    requires ideal.download.success && 60.0 <= ideal.download.durationSeconds <= 200.0
    ensures DemoHeuristic(other) <= DemoHeuristic(Some(ideal))
  {
  }

  // ---------------------------------------------------------------------
  // Merge policy
  // ---------------------------------------------------------------------

  /** The evidence the merge policy reads for one submission; the repository
      and static records are already defaulted. */
  datatype Evidence = Evidence(
    sub: Submission,
    meta: RepoMetadata,
    analysis: StaticAnalysisResult,
    review: Option<CodeReviewResult>,
    video: Option<VideoAnalysisResult>)

  /** Missing repository or static records become their default instances. */
  function GatherEvidence(sub: Submission, meta: Option<RepoMetadata>, st: Option<StaticAnalysisResult>,
                          review: Option<CodeReviewResult>, video: Option<VideoAnalysisResult>): Evidence
  {
    Evidence(sub, meta.GetOr(DefaultRepoMetadata(sub)), st.GetOr(DefaultStatic(sub.teamNumber, false)), review, video)
  }

  /** The successful code review's score for `key`, if it has one. */
  function ReviewScore(review: Option<CodeReviewResult>, key: string): Option<real> {
    if review.Some? && review.value.success && key in review.value.scores
    then Some(review.value.scores[key].score) else None
  }

  /** The successful video analysis's `demo` score, if it has one. */
  function VideoDemoScore(video: Option<VideoAnalysisResult>): Option<real> {
    if video.Some? && video.value.analysisSuccess && "demo" in video.value.scores
    then Some(video.value.scores["demo"].score) else None
  }

  /** The LLM score the merge takes for `key`: for `demo` the video analysis
      wins over the code review, otherwise only the code review counts. */
  function LlmScore(ev: Evidence, key: string): Option<real> {
    if key == "demo" && VideoDemoScore(ev.video).Some? then VideoDemoScore(ev.video)
    else ReviewScore(ev.review, key)
  }

  /** The heuristic for a criterion key; an unknown key gets a neutral 5. */
  function Heuristic(num: Numerics, ev: Evidence, key: string): (r: real)
    requires ValidNumerics(num)
    ensures 1.0 <= r <= 9.0
  {
    if key == "impact" then ImpactHeuristic(num, ev.sub, ev.meta, ev.analysis)
    else if key == "ai_use" then AiUseHeuristic(num, ev.analysis)
    else if key == "depth" then DepthHeuristic(num, ev.meta, ev.analysis)
    else if key == "demo" then DemoHeuristic(ev.video)
    else 5.0
  }

  /** One criterion's merged score. */
  function MergeCriterion(num: Numerics, ev: Evidence, key: string): (c: CriterionScore)
    requires ValidNumerics(num)
    ensures c.rationale == ""
  {
    match LlmScore(ev, key)
    case Some(s) => CriterionScoreOf(s, SourceLlmReview)
    case None => CriterionScoreOf(RoundTo(Heuristic(num, ev, key), 10), SourceHeuristic)
  }

  /** The score mapping: one merged entry per configured criterion. */
  function MergeAll(num: Numerics, ev: Evidence, cs: seq<Criterion>): (m: map<string, CriterionScore>)
    requires ValidNumerics(num)
    ensures m.Keys == Keys(cs)
    ensures forall k :: k in m ==> m[k] == MergeCriterion(num, ev, k)
  {
    if cs == [] then map[]
    else
      var init := cs[..|cs| - 1];
      var last := cs[|cs| - 1];
      assert cs == init + [last];
      assert Keys(cs) == Keys(init) + {last.key};
      MergeAll(num, ev, init)[last.key := MergeCriterion(num, ev, last.key)]
  }

  /** Sum of score times weight over the configured criteria that have a score. */
  function WeightedSum(cs: seq<Criterion>, scores: map<string, CriterionScore>): real {
    if cs == [] then 0.0
    else
      (if cs[0].key in scores then scores[cs[0].key].score * cs[0].weight else 0.0)
      + WeightedSum(cs[1..], scores)
  }

  function SumWeights(cs: seq<Criterion>): real {
    if cs == [] then 0.0 else cs[0].weight + SumWeights(cs[1..])
  }

  /** `_score_one` */
  function ScoreOne(num: Numerics, sub: Submission, meta: Option<RepoMetadata>, st: Option<StaticAnalysisResult>,
                    review: Option<CodeReviewResult>, video: Option<VideoAnalysisResult>,
                    scoring: Option<ScoringConfig>): (ps: ProjectScore)
    requires ValidNumerics(num)
    ensures ps.teamNumber == sub.teamNumber && ps.teamName == sub.teamName && ps.projectName == sub.projectName
    ensures !ScoringEnabled(scoring) ==> ps.scores == map[] && ps.weightedTotal == 0.0
    ensures ScoringEnabled(scoring) ==> ps.scores.Keys == Keys(scoring.value.criteria)
    ensures ScoringEnabled(scoring) ==>
      ps.weightedTotal == RoundTo(WeightedSum(scoring.value.criteria, ps.scores), 100)
    ensures forall k :: k in ps.scores ==>
      ps.scores[k] == MergeCriterion(num, GatherEvidence(sub, meta, st, review, video), k)
  {
    var ps := EmptyProjectScore(sub);
    if !ScoringEnabled(scoring) then ps
    else
      var cs := scoring.value.criteria;
      var scores := MergeAll(num, GatherEvidence(sub, meta, st, review, video), cs);
      ps.(scores := scores, weightedTotal := RoundTo(WeightedSum(cs, scores), 100))
  }

  // ---------------------------------------------------------------------
  // Properties of the merge and the total
  // ---------------------------------------------------------------------

  /** The precedence of the merge, criterion by criterion:
      a video `demo` score first (for `demo` only), then a successful code review's
      score, both tagged `llm_review`; otherwise the heuristic rounded to one
      decimal and tagged `heuristic`, with 5 for a key no heuristic knows. */
  lemma MergePrecedence(num: Numerics, sub: Submission, meta: Option<RepoMetadata>, st: Option<StaticAnalysisResult>,
                        review: Option<CodeReviewResult>, video: Option<VideoAnalysisResult>,
                        scoring: Option<ScoringConfig>, key: string)
    requires ValidNumerics(num)
    requires ScoringEnabled(scoring) && key in Keys(scoring.value.criteria)
    ensures var c := ScoreOne(num, sub, meta, st, review, video, scoring).scores[key];
      && c.rationale == ""
      && (key == "demo" && video.Some? && video.value.analysisSuccess && "demo" in video.value.scores ==>
            c.source == SourceLlmReview && c.score == video.value.scores["demo"].score)
      && (review.Some? && review.value.success && key in review.value.scores
          && !(key == "demo" && video.Some? && video.value.analysisSuccess && "demo" in video.value.scores) ==>
            c.source == SourceLlmReview && c.score == review.value.scores[key].score)
      && (!(review.Some? && review.value.success && key in review.value.scores)
          && !(key == "demo" && video.Some? && video.value.analysisSuccess && "demo" in video.value.scores) ==>
            && c.source == SourceHeuristic
            && c.score == RoundTo(Heuristic(num, GatherEvidence(sub, meta, st, review, video), key), 10)
            && (key !in {"impact", "ai_use", "depth", "demo"} ==> c.score == 5.0))
  {
    if key !in {"impact", "ai_use", "depth", "demo"} {
      RoundOnGrid(50, 10);
      assert 50 as real / 10 as real == 5.0;
    }
  }

  /** The incoming LLM scores are already clamped to [1, 10] by the providers. */
  ghost predicate LlmScoresInRange(review: Option<CodeReviewResult>, video: Option<VideoAnalysisResult>) {
    && (review.Some? ==> forall k :: k in review.value.scores ==> 1.0 <= review.value.scores[k].score <= 10.0)
    && (video.Some? ==> forall k :: k in video.value.scores ==> 1.0 <= video.value.scores[k].score <= 10.0)
  }

  /** Every merged score lies in [1, 10]. */
  lemma ScoresInRange(num: Numerics, sub: Submission, meta: Option<RepoMetadata>, st: Option<StaticAnalysisResult>,
                      review: Option<CodeReviewResult>, video: Option<VideoAnalysisResult>,
                      scoring: Option<ScoringConfig>)
    requires ValidNumerics(num)
    requires LlmScoresInRange(review, video)
    ensures var ps := ScoreOne(num, sub, meta, st, review, video, scoring);
      forall k :: k in ps.scores ==> 1.0 <= ps.scores[k].score <= 10.0
  {
    var ps := ScoreOne(num, sub, meta, st, review, video, scoring);
    if ScoringEnabled(scoring) {
      var ev := GatherEvidence(sub, meta, st, review, video);
      forall k | k in ps.scores
        ensures 1.0 <= ps.scores[k].score <= 10.0
      {
        assert ps.scores[k] == MergeCriterion(num, ev, k);
        MergeInRange(num, ev, k);
      }
    }
  }

  lemma MergeInRange(num: Numerics, ev: Evidence, k: string)
    requires ValidNumerics(num)
    requires LlmScoresInRange(ev.review, ev.video)
    ensures 1.0 <= MergeCriterion(num, ev, k).score <= 10.0
  {
    if LlmScore(ev, k).None? {
      RoundWithin(Heuristic(num, ev, k), 1, 10, 10);
    }
  }

  /** With non-negative weights and scores in [1, 10], the unrounded total lies
      between the sum of the weights and ten times that sum. */
  lemma {:induction false} WeightedSumBounds(cs: seq<Criterion>, scores: map<string, CriterionScore>)
    requires forall i :: 0 <= i < |cs| ==> cs[i].weight >= 0.0
    requires forall i :: 0 <= i < |cs| ==> cs[i].key in scores
    requires forall k :: k in scores ==> 1.0 <= scores[k].score <= 10.0
    ensures SumWeights(cs) <= WeightedSum(cs, scores) <= 10.0 * SumWeights(cs)
  {
    if cs != [] {
      WeightedSumBounds(cs[1..], scores);
      var sc, w := scores[cs[0].key].score, cs[0].weight;
      assert (sc - 1.0) * w >= 0.0;
      assert (10.0 - sc) * w >= 0.0;
    }
  }

  /** The weighted total: within half a hundredth of the exact weighted sum,
      which itself lies between the weight sum and ten times it. */
  lemma WeightedTotalBounds(num: Numerics, sub: Submission, meta: Option<RepoMetadata>, st: Option<StaticAnalysisResult>,
                            review: Option<CodeReviewResult>, video: Option<VideoAnalysisResult>,
                            scoring: Option<ScoringConfig>)
    requires ValidNumerics(num)
    requires LlmScoresInRange(review, video)
    requires ScoringEnabled(scoring)
    requires forall i :: 0 <= i < |scoring.value.criteria| ==> scoring.value.criteria[i].weight >= 0.0
    ensures var ps := ScoreOne(num, sub, meta, st, review, video, scoring);
      var cs := scoring.value.criteria;
      && SumWeights(cs) <= WeightedSum(cs, ps.scores) <= 10.0 * SumWeights(cs)
      && -0.005 <= ps.weightedTotal - WeightedSum(cs, ps.scores) <= 0.005
  {
    var ps := ScoreOne(num, sub, meta, st, review, video, scoring);
    var cs := scoring.value.criteria;
    ScoresInRange(num, sub, meta, st, review, video, scoring);
    WeightedSumBounds(cs, ps.scores);
    RoundError(WeightedSum(cs, ps.scores), 100);
  }

  /** With no evidence at all, every criterion falls back to its heuristic over the
      default records: AI use, depth and demo are exactly 1 and impact, which
      only sees the description, stays at most 2. */
  lemma NoEvidenceScoresNeutral(num: Numerics, sub: Submission, scoring: Option<ScoringConfig>, key: string)
    requires ValidNumerics(num)
    requires ScoringEnabled(scoring) && key in Keys(scoring.value.criteria)
    ensures var c := ScoreOne(num, sub, None, None, None, None, scoring).scores[key];
      && c.source == SourceHeuristic
      && (key == "ai_use" || key == "depth" || key == "demo" ==> c.score == 1.0)
      && (key == "impact" ==> 1.0 <= c.score <= 2.0)
  {
    var ps := ScoreOne(num, sub, None, None, None, None, scoring);
    assert key in ps.scores;
    NoEvidenceMerge(num, sub, key);
  }

  /** The merge of one criterion over no evidence at all. */
  lemma NoEvidenceMerge(num: Numerics, sub: Submission, key: string)
    requires ValidNumerics(num)
    ensures var c := MergeCriterion(num, GatherEvidence(sub, None, None, None, None), key);
      && c.source == SourceHeuristic
      && (key == "ai_use" || key == "depth" || key == "demo" ==> c.score == 1.0)
      && (key == "impact" ==> 1.0 <= c.score <= 2.0)
  {
    var ev := GatherEvidence(sub, None, None, None, None);
    assert LlmScore(ev, key) == None;
    var h := Heuristic(num, ev, key);
    if key == "ai_use" || key == "depth" || key == "demo" {
      assert h == 1.0;
      RoundOnGrid(10, 10);
    } else if key == "impact" {
      assert h <= 2.0;
      RoundWithin(h, 1, 2, 10);
    }
  }

  // ---------------------------------------------------------------------
  // Batch scoring and ranking
  // ---------------------------------------------------------------------

  /** All upstream records, each list keyed by team number (last record wins). */
  datatype Upstream = Upstream(
    metas: seq<RepoMetadata>,
    statics: seq<StaticAnalysisResult>,
    reviews: seq<CodeReviewResult>,
    videos: seq<VideoAnalysisResult>)

  /** The score record of one submission, looking its evidence up by team number. */
  function ScoreSubmission(num: Numerics, up: Upstream, scoring: Option<ScoringConfig>, sub: Submission): ProjectScore
    requires ValidNumerics(num)
  {
    var t := sub.teamNumber;
    ScoreOne(num, sub,
             Get(IndexBy(up.metas, MetaTeam), t), Get(IndexBy(up.statics, StaticTeam), t),
             Get(IndexBy(up.reviews, ReviewTeam), t), Get(IndexBy(up.videos, VideoTeam), t), scoring)
  }

  /** One score record per submission, in submission order. */
  function ScoreAll(num: Numerics, up: Upstream, scoring: Option<ScoringConfig>, subs: seq<Submission>): (r: seq<ProjectScore>)
    requires ValidNumerics(num)
    ensures |r| == |subs|
    ensures forall i :: 0 <= i < |subs| ==> r[i] == ScoreSubmission(num, up, scoring, subs[i])
  {
    if subs == [] then []
    else [ScoreSubmission(num, up, scoring, subs[0])] + ScoreAll(num, up, scoring, subs[1..])
  }

  /** `run_scoring` without the file write: nothing when scoring is not configured,
      otherwise every submission's record ranked by weighted total, highest first. */
  function RunScoring(num: Numerics, scoring: Option<ScoringConfig>, subs: seq<Submission>, up: Upstream): (r: seq<ProjectScore>)
    requires ValidNumerics(num)
    ensures !ScoringEnabled(scoring) ==> r == []
    ensures ScoringEnabled(scoring) ==>
      && |r| == |subs|
      && multiset(r) == multiset(ScoreAll(num, up, scoring, subs))
      && SortedDesc(r, TotalOf)
  {
    if !ScoringEnabled(scoring) then []
    else SortDesc(ScoreAll(num, up, scoring, subs), TotalOf)
  }

  /** Every submission's own record appears in the ranking. */
  lemma RankingCoversEverySubmission(num: Numerics, scoring: Option<ScoringConfig>, subs: seq<Submission>,
                                     up: Upstream, i: nat)
    requires ValidNumerics(num)
    requires ScoringEnabled(scoring) && i < |subs|
    ensures ScoreSubmission(num, up, scoring, subs[i]) in RunScoring(num, scoring, subs, up)
  {
    var all := ScoreAll(num, up, scoring, subs);
    assert all[i] in multiset(all);
  }

  /** Ties keep submission order: the records sharing a weighted total appear
      in the ranking in the order of their submissions. */
  lemma RankingIsStable(num: Numerics, scoring: Option<ScoringConfig>, subs: seq<Submission>, up: Upstream, v: real)
    requires ValidNumerics(num)
    requires ScoringEnabled(scoring)
    ensures WithKey(RunScoring(num, scoring, subs, up), TotalOf, v) == WithKey(ScoreAll(num, up, scoring, subs), TotalOf, v)
  {
    SortDescStable(ScoreAll(num, up, scoring, subs), TotalOf, v);
  }

  function ExampleCriteria(): seq<Criterion> {
    [Criterion("impact", 0.25, ""), Criterion("depth", 0.20, ""),
     Criterion("demo", 0.30, ""), Criterion("ai_use", 0.25, "")]
  }

  function ExampleReview(team: int): CodeReviewResult {
    CodeReviewResult(team, true, None, "",
      map["impact" := CriterionScoreOf(7.0, "anthropic"), "depth" := CriterionScoreOf(6.0, "anthropic"),
          "ai_use" := CriterionScoreOf(8.0, "anthropic")], "", 0, 0)
  }

  function ExampleVideo(team: int): VideoAnalysisResult {
    DefaultVideoAnalysis(team).(analysisSuccess := true, scores := map["demo" := CriterionScoreOf(5.0, "gemini")])
  }

  lemma ExampleSum(m: map<string, CriterionScore>)
    requires "impact" in m && m["impact"].score == 7.0
    requires "depth" in m && m["depth"].score == 6.0
    requires "demo" in m && m["demo"].score == 5.0
    requires "ai_use" in m && m["ai_use"].score == 8.0
    ensures WeightedSum(ExampleCriteria(), m) == 6.45
  {
    var cs := ExampleCriteria();
    assert WeightedSum(cs[3..], m) == 2.0 by {
      assert cs[3..][1..] == [];
    }
    assert WeightedSum(cs[2..], m) == 3.5 by {
      assert cs[2..][1..] == cs[3..];
    }
    assert WeightedSum(cs[1..], m) == 4.7 by {
      assert cs[1..][1..] == cs[2..];
    }
  }

  lemma ExampleRounding()
    ensures RoundTo(6.45, 100) == 6.45
  {
    assert (645 as real) / (100 as real) == 6.45;
    RoundOnGrid(645, 100);
  }

  /** A worked case: code review scores impact 7, depth 6 and AI use 8, the video
      analysis scores the demo 5, and the weights are 0.25/0.20/0.30/0.25.
      Every criterion comes from the LLMs and the total is 6.45. */
  lemma AllLlmExample(num: Numerics, sub: Submission)
    requires ValidNumerics(num)
    ensures var ps := ScoreOne(num, sub, None, None, Some(ExampleReview(sub.teamNumber)),
                               Some(ExampleVideo(sub.teamNumber)), Some(ScoringConfig(ExampleCriteria())));
      && (forall k :: k in ps.scores ==> ps.scores[k].source == SourceLlmReview)
      && ps.weightedTotal == 6.45
  {
    var cs := ExampleCriteria();
    var ps := ScoreOne(num, sub, None, None, Some(ExampleReview(sub.teamNumber)),
                       Some(ExampleVideo(sub.teamNumber)), Some(ScoringConfig(cs)));
    var ev := GatherEvidence(sub, None, None, Some(ExampleReview(sub.teamNumber)), Some(ExampleVideo(sub.teamNumber)));
    assert ScoringEnabled(Some(ScoringConfig(cs)));
    ExampleProject(num, ev, ps);
  }

  /** The worked case, stated over any project score that merges its evidence. */
  lemma ExampleProject(num: Numerics, ev: Evidence, ps: ProjectScore)
    requires ValidNumerics(num)
    requires ev.review == Some(ExampleReview(ev.sub.teamNumber)) && ev.video == Some(ExampleVideo(ev.sub.teamNumber))
    requires ps.scores.Keys == Keys(ExampleCriteria())
    requires forall k :: k in ps.scores ==> ps.scores[k] == MergeCriterion(num, ev, k)
    requires ps.weightedTotal == RoundTo(WeightedSum(ExampleCriteria(), ps.scores), 100)
    ensures forall k :: k in ps.scores ==> ps.scores[k].source == SourceLlmReview
    ensures ps.weightedTotal == 6.45
  {
    var m := ps.scores;
    ExampleMerged(num, ev, m);
    ExampleSum(m);
    ExampleRounding();
  }

  lemma ExampleMerged(num: Numerics, ev: Evidence, m: map<string, CriterionScore>)
    requires ValidNumerics(num)
    requires ev.review == Some(ExampleReview(ev.sub.teamNumber)) && ev.video == Some(ExampleVideo(ev.sub.teamNumber))
    requires m.Keys == Keys(ExampleCriteria())
    requires forall k :: k in m ==> m[k] == MergeCriterion(num, ev, k)
    ensures forall k :: k in m ==> m[k].source == SourceLlmReview
    ensures m["impact"].score == 7.0 && m["depth"].score == 6.0 && m["demo"].score == 5.0 && m["ai_use"].score == 8.0
  {
    ExampleLlmScores(ev);
    var cs := ExampleCriteria();
    forall k | k in m
      ensures m[k].source == SourceLlmReview
    {
      var i :| 0 <= i < |cs| && cs[i].key == k;
      assert k == "impact" || k == "depth" || k == "demo" || k == "ai_use";
    }
    assert cs[0].key in m && cs[1].key in m && cs[2].key in m && cs[3].key in m;
  }

  /** The example's LLM scores, criterion by criterion. */
  lemma ExampleLlmScores(ev: Evidence)
    requires ev.review == Some(ExampleReview(ev.sub.teamNumber)) && ev.video == Some(ExampleVideo(ev.sub.teamNumber))
    ensures LlmScore(ev, "impact") == Some(7.0) && LlmScore(ev, "depth") == Some(6.0)
    ensures LlmScore(ev, "demo") == Some(5.0) && LlmScore(ev, "ai_use") == Some(8.0)
  {
  }
}
