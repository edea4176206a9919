/** The pipeline's record types and the default instances used when a stage
    has produced nothing for a submission (hackathon_reviewer/models.py),
    plus the configuration records the modelled stages read (config.py). */
module Models {
  import opened Wrappers

  // ---------------------------------------------------------------------
  // Enumerations
  // ---------------------------------------------------------------------

  datatype VideoPlatform =
    | YouTube | Loom | Vimeo | GoogleDrive | Dropbox | Descript | ScreenStudio | Custom | UnknownPlatform

  datatype HackathonPeriodFlag =
    | Clean | MinorPriorWork | SignificantPriorWork | PreExistingProject | UnknownPeriod

  datatype IntegrationDepth = NoIntegration | Basic | Moderate | Deep | Extensive

  datatype DemoClassification =
    | Broken | SlidesOnly | BasicWorking | Polished | Exceptional | UnknownDemo

  datatype LatenessCategory = OnTime | GracePeriod | ModeratelyLate | SignificantlyLate

  // ---------------------------------------------------------------------
  // Submission (one CSV row)
  // ---------------------------------------------------------------------

  datatype GitHubInfo = GitHubInfo(
    original: string,
    cleaned: Option<string>,
    cloneUrl: Option<string>,
    isValid: bool,
    issues: seq<string>)

  datatype VideoInfo = VideoInfo(
    original: string,
    platform: VideoPlatform,
    isValid: bool,
    issues: seq<string>)

  /** Lateness of a submission; `minutesLate` is in minutes. */
  datatype TimingInfo = TimingInfo(
    submittedUtc: string,
    isLate: bool,
    minutesLate: real,
    latenessCategory: LatenessCategory)

  datatype Submission = Submission(
    teamNumber: int,
    teamName: string,
    projectName: string,
    sanitizedName: string,
    description: string,
    github: GitHubInfo,
    video: VideoInfo,
    timing: TimingInfo,
    extraFields: map<string, string>)

  function DefaultGitHubInfo(original: string): GitHubInfo {
    GitHubInfo(original, None, None, false, [])
  }

  function DefaultVideoInfo(original: string): VideoInfo {
    VideoInfo(original, UnknownPlatform, false, [])
  }

  function DefaultTiming(submitted: string): TimingInfo {
    TimingInfo(submitted, false, 0.0, OnTime)
  }

  // ---------------------------------------------------------------------
  // Repository metadata (clone stage)
  // ---------------------------------------------------------------------

  /** Git history summary. Commit dates are instants in minutes; the author
      list is kept as a set because the source builds it from a set. */
  datatype GitHistory = GitHistory(
    firstCommitDate: Option<real>,
    lastCommitDate: Option<real>,
    totalCommits: nat,
    commitsBeforeHackathon: nat,
    commitsDuringHackathon: nat,
    commitsAfterDeadline: nat,
    hackathonPeriodFlag: HackathonPeriodFlag,
    isFork: bool,
    isSingleCommitDump: bool,
    commitAuthors: set<string>)

  /** Non-blank lines of code counted toward one language. */
  datatype LanguageLoc = LanguageLoc(language: string, loc: nat)

  /** File statistics; `languages` lists the per-language line counts, most
      lines first, each language once. */
  datatype RepoFiles = RepoFiles(
    fileCount: nat,
    totalLoc: nat,
    primaryLanguage: string,
    languages: seq<LanguageLoc>,
    hasReadme: bool,
    hasTests: bool)

  datatype RepoMetadata = RepoMetadata(
    teamNumber: int,
    teamName: string,
    projectName: string,
    sanitizedName: string,
    cloneSuccess: bool,
    cloneError: Option<string>,
    files: RepoFiles,
    gitHistory: GitHistory)

  const DefaultGitHistory: GitHistory :=
    GitHistory(None, None, 0, 0, 0, 0, UnknownPeriod, false, false, {})

  const DefaultRepoFiles: RepoFiles := RepoFiles(0, 0, "unknown", [], false, false)

  /** `RepoMetadata(team_number=..., team_name=..., project_name=..., sanitized_name=...)` */
  function DefaultRepoMetadata(sub: Submission): RepoMetadata {
    RepoMetadata(sub.teamNumber, sub.teamName, sub.projectName, sub.sanitizedName,
                 false, None, DefaultRepoFiles, DefaultGitHistory)
  }

  // ---------------------------------------------------------------------
  // Static analysis
  // ---------------------------------------------------------------------

  datatype PatternMatch = PatternMatch(description: string, files: seq<string>, matchCount: nat)

  datatype RepoStructure = RepoStructure(
    topLevelDirs: seq<string>,
    topLevelFiles: seq<string>,
    hasDocker: bool,
    hasCi: bool,
    hasEnvExample: bool,
    hasClaudeMd: bool,
    hasLicense: bool,
    frameworksDetected: seq<string>)

  datatype StaticAnalysisResult = StaticAnalysisResult(
    teamNumber: int,
    cloneSuccess: bool,
    integrationPatterns: map<string, PatternMatch>,
    integrationScore: nat,
    integrationDepth: IntegrationDepth,
    boilerplateType: Option<string>,
    isBoilerplateHeavy: bool,
    structure: RepoStructure)

  const DefaultStructure: RepoStructure := RepoStructure([], [], false, false, false, false, false, [])

  /** `StaticAnalysisResult(team_number=...)`, optionally with `clone_success`. */
  function DefaultStatic(teamNumber: int, cloneSuccess: bool): StaticAnalysisResult {
    StaticAnalysisResult(teamNumber, cloneSuccess, map[], 0, NoIntegration, None, false, DefaultStructure)
  }

  // ---------------------------------------------------------------------
  // LLM reviews
  // ---------------------------------------------------------------------

  /** One criterion's score and where it came from. */
  datatype CriterionScore = CriterionScore(score: real, rationale: string, source: string)

  const SourceAutomated := "automated"
  const SourceLlmReview := "llm_review"
  const SourceHeuristic := "heuristic"

  /** `CriterionScore(score=..., source=...)`: the rationale defaults to empty. */
  function CriterionScoreOf(score: real, source: string): CriterionScore {
    CriterionScore(score, "", source)
  }

  datatype CodeReviewResult = CodeReviewResult(
    teamNumber: int,
    success: bool,
    error: Option<string>,
    reviewText: string,
    scores: map<string, CriterionScore>,
    modelUsed: string,
    inputTokens: nat,
    outputTokens: nat)

  /** Video download outcome; `durationSeconds` is in seconds. */
  datatype VideoDownloadResult = VideoDownloadResult(
    success: bool,
    error: Option<string>,
    downloadMethod: string,
    filePath: Option<string>,
    durationSeconds: real)

  datatype VideoAnalysisResult = VideoAnalysisResult(
    teamNumber: int,
    download: VideoDownloadResult,
    analysisSuccess: bool,
    analysisError: Option<string>,
    transcriptSummary: string,
    demoClassification: DemoClassification,
    isRelatedToProject: bool,
    reviewText: string,
    scores: map<string, CriterionScore>,
    modelUsed: string)

  const DefaultDownload: VideoDownloadResult := VideoDownloadResult(false, None, "", None, 0.0)

  function DefaultVideoAnalysis(teamNumber: int): VideoAnalysisResult {
    VideoAnalysisResult(teamNumber, DefaultDownload, false, None, "", UnknownDemo, true, "", map[], "")
  }

  // ---------------------------------------------------------------------
  // Scoring and flags
  // ---------------------------------------------------------------------

  datatype ProjectScore = ProjectScore(
    teamNumber: int,
    teamName: string,
    projectName: string,
    scores: map<string, CriterionScore>,
    weightedTotal: real,
    scoreSource: string)

  /** `ProjectScore(team_number=..., team_name=..., project_name=...)` */
  function EmptyProjectScore(sub: Submission): ProjectScore {
    ProjectScore(sub.teamNumber, sub.teamName, sub.projectName, map[], 0.0, SourceAutomated)
  }

  datatype FlagType =
    | InvalidGithubUrl | CloneFailed | InvalidVideoUrl | VideoDownloadFailed
    | VideoUnrelated | LateSubmission | GitPeriodViolation | SingleCommitDump

  datatype Severity = Error | Warning | Info

  /** The facts a flag's description is rendered from. */
  datatype FlagDetail =
    | UrlIssues(issues: seq<string>)
    | FailureReason(reason: Option<string>)
    | UnrelatedVideo
    | Lateness(minutesLate: real, category: LatenessCategory)
    | PeriodViolation(flag: HackathonPeriodFlag, commitsBefore: nat)
    | OneCommit

  datatype ProjectFlag = ProjectFlag(
    teamNumber: int,
    teamName: string,
    projectName: string,
    flagType: FlagType,
    detail: FlagDetail,
    severity: Severity)

  // ---------------------------------------------------------------------
  // Keys the stages index and sort records by
  // ---------------------------------------------------------------------

  function MetaTeam(m: RepoMetadata): int { m.teamNumber }
  function StaticTeam(s: StaticAnalysisResult): int { s.teamNumber }
  function ReviewTeam(r: CodeReviewResult): int { r.teamNumber }
  function VideoTeam(v: VideoAnalysisResult): int { v.teamNumber }
  function TotalOf(ps: ProjectScore): real { ps.weightedTotal }

  // ---------------------------------------------------------------------
  // Configuration (config.py)
  // ---------------------------------------------------------------------

  /** Hackathon settings; dates are the configured ISO-8601 texts. */
  datatype HackathonConfig = HackathonConfig(
    name: string,
    deadlineUtc: Option<string>,
    gracePeriodMinutes: int,
    startDate: Option<string>,
    endDate: Option<string>,
    verifyGitPeriod: bool)

  /** Python truthiness of an optional text: present and non-empty. */
  predicate Given(s: Option<string>) {
    s.Some? && s.value != ""
  }

  datatype Criterion = Criterion(key: string, weight: real, description: string)

  /** The configured criteria, in configuration order. */
  datatype ScoringConfig = ScoringConfig(criteria: seq<Criterion>)

  /** The criteria came from a mapping, so no key repeats. */
  predicate DistinctKeys(cs: seq<Criterion>) {
    forall i, j :: 0 <= i < j < |cs| ==> cs[i].key != cs[j].key
  }

  function Keys(cs: seq<Criterion>): (ks: set<string>)
    ensures forall i :: 0 <= i < |cs| ==> cs[i].key in ks
    ensures forall k :: k in ks ==> exists i :: 0 <= i < |cs| && cs[i].key == k
  {
    set c | c in cs :: c.key
  }

  /** `cfg.scoring and cfg.scoring.criteria` */
  predicate ScoringEnabled(scoring: Option<ScoringConfig>) {
    scoring.Some? && |scoring.value.criteria| > 0
  }

  /** Configured CSV column names for each field. */
  datatype ColumnMapping = ColumnMapping(
    teamName: Option<string>,
    teamMembers: Option<string>,
    projectName: Option<string>,
    description: Option<string>,
    githubUrl: Option<string>,
    videoUrl: Option<string>,
    submittedAt: Option<string>,
    extra: seq<string>)

  const DefaultColumns: ColumnMapping := ColumnMapping(
    Some("Team Name"), Some("Team Members"), Some("Project Name"), Some("Project Description"),
    Some("Public GitHub Repository"), Some("Demo Video"), None, [])
}
