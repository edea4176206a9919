/** The decision logic of the reporting stage (stages/reporting.py): which
    flags each submission raises, the ranked leaderboard rows and the per-type
    flag counts of the summary. Rendering and file writing are not modelled. */
module Reporting {
  import opened Wrappers
  import opened Collections
  import opened Models

  // ---------------------------------------------------------------------
  // Flags of one submission
  // ---------------------------------------------------------------------

  /** The severity each flag type is raised with. */
  function SeverityOf(t: FlagType): Severity {
    match t
    case InvalidGithubUrl => Error
    case CloneFailed => Error
    case InvalidVideoUrl => Error
    case VideoDownloadFailed => Error
    case VideoUnrelated => Warning
    case LateSubmission => Warning
    case GitPeriodViolation => Warning
    case SingleCommitDump => Info
  }

  /** The position of a flag type among the checks, in the order they run. */
  function CheckOrder(t: FlagType): nat {
    match t
    case InvalidGithubUrl => 0
    case CloneFailed => 1
    case InvalidVideoUrl => 2
    case VideoDownloadFailed => 3
    case VideoUnrelated => 4
    case LateSubmission => 5
    case GitPeriodViolation => 6
    case SingleCommitDump => 7
  }

  /** A flag of type `t` for `sub`, carrying its team number and names. */
  function FlagOf(sub: Submission, t: FlagType, detail: FlagDetail): ProjectFlag {
    ProjectFlag(sub.teamNumber, sub.teamName, sub.projectName, t, detail, SeverityOf(t))
  }

  /** The condition under which a submission raises a flag of type `t`, given
      its repository metadata and video analysis (when the earlier stages left
      one) and whether a hackathon is configured. */
  predicate Raised(t: FlagType, sub: Submission, meta: Option<RepoMetadata>,
                   video: Option<VideoAnalysisResult>, hackathon: bool) {
    match t
    case InvalidGithubUrl => !sub.github.isValid
    case CloneFailed => sub.github.isValid && meta.Some? && !meta.value.cloneSuccess
    case InvalidVideoUrl => !sub.video.isValid
    case VideoDownloadFailed => sub.video.isValid && video.Some? && !video.value.download.success
    case VideoUnrelated => video.Some? && video.value.analysisSuccess && !video.value.isRelatedToProject
    case LateSubmission =>
      hackathon && (sub.timing.latenessCategory == ModeratelyLate || sub.timing.latenessCategory == SignificantlyLate)
    case GitPeriodViolation =>
      hackathon && meta.Some?
      && (meta.value.gitHistory.hackathonPeriodFlag == SignificantPriorWork
          || meta.value.gitHistory.hackathonPeriodFlag == PreExistingProject)
    case SingleCommitDump => hackathon && meta.Some? && meta.value.gitHistory.isSingleCommitDump
  }

  function GithubFlags(sub: Submission, meta: Option<RepoMetadata>): seq<ProjectFlag> {
    if !sub.github.isValid then [FlagOf(sub, InvalidGithubUrl, UrlIssues(sub.github.issues))]
    else if meta.Some? && !meta.value.cloneSuccess then [FlagOf(sub, CloneFailed, FailureReason(meta.value.cloneError))]
    else []
  }

  function VideoFlags(sub: Submission, video: Option<VideoAnalysisResult>): seq<ProjectFlag> {
    if !sub.video.isValid then [FlagOf(sub, InvalidVideoUrl, UrlIssues(sub.video.issues))]
    else if video.Some? && !video.value.download.success then
      [FlagOf(sub, VideoDownloadFailed, FailureReason(video.value.download.error))]
    else []
  }

  function UnrelatedFlags(sub: Submission, video: Option<VideoAnalysisResult>): seq<ProjectFlag> {
    if video.Some? && video.value.analysisSuccess && !video.value.isRelatedToProject then
      [FlagOf(sub, VideoUnrelated, UnrelatedVideo)]
    else []
  }

  function LateFlags(sub: Submission): seq<ProjectFlag> {
    if sub.timing.latenessCategory == ModeratelyLate || sub.timing.latenessCategory == SignificantlyLate then
      [FlagOf(sub, LateSubmission, Lateness(sub.timing.minutesLate, sub.timing.latenessCategory))]
    else []
  }

  function PeriodFlags(sub: Submission, meta: Option<RepoMetadata>): seq<ProjectFlag> {
    if meta.Some? && (meta.value.gitHistory.hackathonPeriodFlag == SignificantPriorWork
                      || meta.value.gitHistory.hackathonPeriodFlag == PreExistingProject) then
      [FlagOf(sub, GitPeriodViolation,
              PeriodViolation(meta.value.gitHistory.hackathonPeriodFlag, meta.value.gitHistory.commitsBeforeHackathon))]
    else []
  }

  function DumpFlags(sub: Submission, meta: Option<RepoMetadata>): seq<ProjectFlag> {
    if meta.Some? && meta.value.gitHistory.isSingleCommitDump then [FlagOf(sub, SingleCommitDump, OneCommit)] else []
  }

  /** The checks that run only when a hackathon is configured. */
  function HackathonFlags(sub: Submission, meta: Option<RepoMetadata>, hackathon: bool): seq<ProjectFlag> {
    if hackathon then LateFlags(sub) + PeriodFlags(sub, meta) + DumpFlags(sub, meta) else []
  }

  /** The flag types present in a list of flags. */
  function TypesOf(fs: seq<ProjectFlag>): set<FlagType> {
    set i | 0 <= i < |fs| :: fs[i].flagType
  }

  /** Flags in strictly increasing check order, so no type repeats. */
  predicate InCheckOrder(fs: seq<ProjectFlag>) {
    forall i, j :: 0 <= i < j < |fs| ==> CheckOrder(fs[i].flagType) < CheckOrder(fs[j].flagType)
  }

  /** Every flag's check position lies in [lo, hi). */
  predicate OrderWithin(fs: seq<ProjectFlag>, lo: nat, hi: nat) {
    forall i :: 0 <= i < |fs| ==> lo <= CheckOrder(fs[i].flagType) < hi
  }

  /** Every flag carries `sub`'s team number and names and its type's severity. */
  predicate Carries(fs: seq<ProjectFlag>, sub: Submission) {
    forall i :: 0 <= i < |fs| ==>
      && fs[i].teamNumber == sub.teamNumber
      && fs[i].teamName == sub.teamName
      && fs[i].projectName == sub.projectName
      && fs[i].severity == SeverityOf(fs[i].flagType)
  }

  /** The loop body of `_collect_flags` for one submission. */
  function FlagsFor(sub: Submission, meta: Option<RepoMetadata>, video: Option<VideoAnalysisResult>,
                    hackathon: bool): seq<ProjectFlag> {
    GithubFlags(sub, meta) + VideoFlags(sub, video) + UnrelatedFlags(sub, video) + HackathonFlags(sub, meta, hackathon)
  }

  /** A flag list built from pieces keeps each piece's properties. */
  lemma JoinPieces(a: seq<ProjectFlag>, b: seq<ProjectFlag>, sub: Submission, lo: nat, mid: nat, hi: nat)
    requires lo <= mid <= hi
    requires InCheckOrder(a) && OrderWithin(a, lo, mid) && Carries(a, sub)
    requires InCheckOrder(b) && OrderWithin(b, mid, hi) && Carries(b, sub)
    ensures InCheckOrder(a + b) && OrderWithin(a + b, lo, hi) && Carries(a + b, sub)
    ensures TypesOf(a + b) == TypesOf(a) + TypesOf(b)
  {
    var ab := a + b;
    forall i, j | 0 <= i < j < |ab| ensures CheckOrder(ab[i].flagType) < CheckOrder(ab[j].flagType) {
      if j < |a| {
        assert ab[i] == a[i] && ab[j] == a[j];
      } else if i < |a| {
        assert ab[i] == a[i] && ab[j] == b[j - |a|];
      } else {
        assert ab[i] == b[i - |a|] && ab[j] == b[j - |a|];
      }
    }
    forall i | 0 <= i < |ab|
      ensures lo <= CheckOrder(ab[i].flagType) < hi
      ensures ab[i].teamNumber == sub.teamNumber && ab[i].teamName == sub.teamName
      ensures ab[i].projectName == sub.projectName && ab[i].severity == SeverityOf(ab[i].flagType)
    {
      if i < |a| {
        assert ab[i] == a[i];
      } else {
        assert ab[i] == b[i - |a|];
      }
    }
    TypesOfAppend(a, b);
  }

  lemma TypesOfAppend(a: seq<ProjectFlag>, b: seq<ProjectFlag>)
    ensures TypesOf(a + b) == TypesOf(a) + TypesOf(b)
  {
    var ab := a + b;
    forall t | t in TypesOf(ab) ensures t in TypesOf(a) + TypesOf(b) {
      var i :| 0 <= i < |ab| && ab[i].flagType == t;
      if i < |a| {
        assert a[i] == ab[i];
      } else {
        assert b[i - |a|] == ab[i];
      }
    }
    forall t | t in TypesOf(a) + TypesOf(b) ensures t in TypesOf(ab) {
      if t in TypesOf(a) {
        var i :| 0 <= i < |a| && a[i].flagType == t;
        assert ab[i] == a[i];
      } else {
        var i :| 0 <= i < |b| && b[i].flagType == t;
        assert ab[|a| + i] == b[i];
      }
    }
  }

  /** A piece of at most one flag of `sub`. */
  lemma OnePiece(fs: seq<ProjectFlag>, sub: Submission, lo: nat, hi: nat)
    requires |fs| <= 1
    requires forall i :: 0 <= i < |fs| ==> fs[i] == FlagOf(sub, fs[i].flagType, fs[i].detail)
    requires forall i :: 0 <= i < |fs| ==> lo <= CheckOrder(fs[i].flagType) < hi
    ensures InCheckOrder(fs) && OrderWithin(fs, lo, hi) && Carries(fs, sub)
    ensures TypesOf(fs) == if fs == [] then {} else {fs[0].flagType}
  {
  }

  lemma GithubPiece(sub: Submission, meta: Option<RepoMetadata>)
    ensures var g := GithubFlags(sub, meta);
      && InCheckOrder(g) && OrderWithin(g, 0, 2) && Carries(g, sub)
      && TypesOf(g) == (if !sub.github.isValid then {InvalidGithubUrl}
                        else if meta.Some? && !meta.value.cloneSuccess then {CloneFailed} else {})
  {
    OnePiece(GithubFlags(sub, meta), sub, 0, 2);
  }

  lemma VideoPiece(sub: Submission, video: Option<VideoAnalysisResult>)
    ensures var v := VideoFlags(sub, video);
      && InCheckOrder(v) && OrderWithin(v, 2, 4) && Carries(v, sub)
      && TypesOf(v) == (if !sub.video.isValid then {InvalidVideoUrl}
                        else if video.Some? && !video.value.download.success then {VideoDownloadFailed} else {})
  {
    OnePiece(VideoFlags(sub, video), sub, 2, 4);
  }

  lemma UnrelatedPiece(sub: Submission, video: Option<VideoAnalysisResult>)
    ensures var u := UnrelatedFlags(sub, video);
      && InCheckOrder(u) && OrderWithin(u, 4, 5) && Carries(u, sub)
      && TypesOf(u) == (if video.Some? && video.value.analysisSuccess && !video.value.isRelatedToProject
                        then {VideoUnrelated} else {})
  {
    OnePiece(UnrelatedFlags(sub, video), sub, 4, 5);
  }

  lemma HackathonPiece(sub: Submission, meta: Option<RepoMetadata>, hackathon: bool)
    ensures var h := HackathonFlags(sub, meta, hackathon);
      && InCheckOrder(h) && OrderWithin(h, 5, 8) && Carries(h, sub)
      && TypesOf(h) == if !hackathon then {} else
           (if sub.timing.latenessCategory == ModeratelyLate || sub.timing.latenessCategory == SignificantlyLate
            then {LateSubmission} else {})
           + (if meta.Some? && (meta.value.gitHistory.hackathonPeriodFlag == SignificantPriorWork
                                || meta.value.gitHistory.hackathonPeriodFlag == PreExistingProject)
              then {GitPeriodViolation} else {})
           + (if meta.Some? && meta.value.gitHistory.isSingleCommitDump then {SingleCommitDump} else {})
  {
    if hackathon {
      var a, b, c := LateFlags(sub), PeriodFlags(sub, meta), DumpFlags(sub, meta);
      LatePiece(sub);
      PeriodPiece(sub, meta);
      DumpPiece(sub, meta);
      JoinPieces(a, b, sub, 5, 6, 7);
      JoinPieces(a + b, c, sub, 5, 7, 8);
    }
  }

  lemma LatePiece(sub: Submission)
    ensures var a := LateFlags(sub);
      && InCheckOrder(a) && OrderWithin(a, 5, 6) && Carries(a, sub)
      && TypesOf(a) == if sub.timing.latenessCategory == ModeratelyLate
                          || sub.timing.latenessCategory == SignificantlyLate then {LateSubmission} else {}
  {
    OnePiece(LateFlags(sub), sub, 5, 6);
  }

  lemma PeriodPiece(sub: Submission, meta: Option<RepoMetadata>)
    ensures var b := PeriodFlags(sub, meta);
      && InCheckOrder(b) && OrderWithin(b, 6, 7) && Carries(b, sub)
      && TypesOf(b) == if meta.Some? && (meta.value.gitHistory.hackathonPeriodFlag == SignificantPriorWork
                                         || meta.value.gitHistory.hackathonPeriodFlag == PreExistingProject)
                       then {GitPeriodViolation} else {}
  {
    OnePiece(PeriodFlags(sub, meta), sub, 6, 7);
  }

  lemma DumpPiece(sub: Submission, meta: Option<RepoMetadata>)
    ensures var c := DumpFlags(sub, meta);
      && InCheckOrder(c) && OrderWithin(c, 7, 8) && Carries(c, sub)
      && TypesOf(c) == if meta.Some? && meta.value.gitHistory.isSingleCommitDump then {SingleCommitDump} else {}
  {
    OnePiece(DumpFlags(sub, meta), sub, 7, 8);
  }

  /** The meaning of the loop body of `_collect_flags`: exactly the flag types
      whose condition holds, each once and in check order, every flag carrying
      the submission's team number and names and its type's severity. */
  lemma FlagsForMeaning(sub: Submission, meta: Option<RepoMetadata>, video: Option<VideoAnalysisResult>, hackathon: bool)
    ensures var fs := FlagsFor(sub, meta, video, hackathon);
      && (forall t :: t in TypesOf(fs) <==> Raised(t, sub, meta, video, hackathon))
      && InCheckOrder(fs)
      && Carries(fs, sub)
  {
    FlagsForJoined(sub, meta, video, hackathon);
    RaisedExactly(sub, meta, video, hackathon);
  }

  /** The four pieces of `FlagsFor`, joined, keep check order and carry the
      team, and their types are the union of the pieces' types. */
  lemma FlagsForJoined(sub: Submission, meta: Option<RepoMetadata>, video: Option<VideoAnalysisResult>, hackathon: bool)
    ensures var fs := FlagsFor(sub, meta, video, hackathon);
      TypesOf(fs) == RaisedTypes(sub, meta, video, hackathon) && InCheckOrder(fs) && Carries(fs, sub)
  {
    var front, h := EarlyFlags(sub, meta, video), HackathonFlags(sub, meta, hackathon);
    EarlyJoined(sub, meta, video);
    HackathonPiece(sub, meta, hackathon);
    JoinPieces(front, h, sub, 0, 5, 8);
  }

  /** The URL, download and relatedness flags: the checks before the hackathon ones. */
  function EarlyFlags(sub: Submission, meta: Option<RepoMetadata>, video: Option<VideoAnalysisResult>): seq<ProjectFlag> {
    GithubFlags(sub, meta) + VideoFlags(sub, video) + UnrelatedFlags(sub, video)
  }

  lemma EarlyJoined(sub: Submission, meta: Option<RepoMetadata>, video: Option<VideoAnalysisResult>)
    ensures var e := EarlyFlags(sub, meta, video);
      && InCheckOrder(e) && OrderWithin(e, 0, 5) && Carries(e, sub)
      && TypesOf(e) == (if !sub.github.isValid then {InvalidGithubUrl}
                        else if meta.Some? && !meta.value.cloneSuccess then {CloneFailed} else {})
                       + (if !sub.video.isValid then {InvalidVideoUrl}
                          else if video.Some? && !video.value.download.success then {VideoDownloadFailed} else {})
                       + (if video.Some? && video.value.analysisSuccess && !video.value.isRelatedToProject
                          then {VideoUnrelated} else {})
  {
    var g, v, u := GithubFlags(sub, meta), VideoFlags(sub, video), UnrelatedFlags(sub, video);
    GithubPiece(sub, meta);
    VideoPiece(sub, video);
    UnrelatedPiece(sub, video);
    JoinPieces(g, v, sub, 0, 2, 4);
    JoinPieces(g + v, u, sub, 0, 4, 5);
  }

  /** The flag types `_collect_flags` raises for one submission, check by check. */
  function RaisedTypes(sub: Submission, meta: Option<RepoMetadata>, video: Option<VideoAnalysisResult>,
                       hackathon: bool): set<FlagType> {
    (if !sub.github.isValid then {InvalidGithubUrl}
     else if meta.Some? && !meta.value.cloneSuccess then {CloneFailed} else {})
    + (if !sub.video.isValid then {InvalidVideoUrl}
       else if video.Some? && !video.value.download.success then {VideoDownloadFailed} else {})
    + (if video.Some? && video.value.analysisSuccess && !video.value.isRelatedToProject then {VideoUnrelated} else {})
    + (if !hackathon then {} else
         (if sub.timing.latenessCategory == ModeratelyLate || sub.timing.latenessCategory == SignificantlyLate
          then {LateSubmission} else {})
         + (if meta.Some? && (meta.value.gitHistory.hackathonPeriodFlag == SignificantPriorWork
                              || meta.value.gitHistory.hackathonPeriodFlag == PreExistingProject)
            then {GitPeriodViolation} else {})
         + (if meta.Some? && meta.value.gitHistory.isSingleCommitDump then {SingleCommitDump} else {}))
  }

  lemma RaisedExactly(sub: Submission, meta: Option<RepoMetadata>, video: Option<VideoAnalysisResult>, hackathon: bool)
    ensures forall t :: t in RaisedTypes(sub, meta, video, hackathon) <==> Raised(t, sub, meta, video, hackathon)
  {
    var r := RaisedTypes(sub, meta, video, hackathon);
    forall t ensures t in r <==> Raised(t, sub, meta, video, hackathon) {
      if CheckOrder(t) < 5 {
        EarlyRaised(t, sub, meta, video, hackathon);
      } else {
        LateRaised(t, sub, meta, video, hackathon);
      }
    }
  }

  lemma EarlyRaised(t: FlagType, sub: Submission, meta: Option<RepoMetadata>, video: Option<VideoAnalysisResult>,
                    hackathon: bool)
    requires CheckOrder(t) < 5
    ensures t in RaisedTypes(sub, meta, video, hackathon) <==> Raised(t, sub, meta, video, hackathon)
  {
    match t
    case InvalidGithubUrl =>
    case CloneFailed =>
    case InvalidVideoUrl =>
    case VideoDownloadFailed =>
    case VideoUnrelated =>
  }

  lemma LateRaised(t: FlagType, sub: Submission, meta: Option<RepoMetadata>, video: Option<VideoAnalysisResult>,
                   hackathon: bool)
    requires CheckOrder(t) >= 5
    ensures t in RaisedTypes(sub, meta, video, hackathon) <==> Raised(t, sub, meta, video, hackathon)
  {
    match t
    case LateSubmission =>
    case GitPeriodViolation =>
    case SingleCommitDump =>
  }

  /** The mutual exclusions and guards of `_collect_flags`: an invalid URL and
      a failed clone or download are never both reported, a failed clone needs
      a valid URL and metadata, an unrelated video needs a successful analysis,
      and without a hackathon no lateness or git-history flag is raised. */
  lemma FlagExclusions(sub: Submission, meta: Option<RepoMetadata>, video: Option<VideoAnalysisResult>, hackathon: bool)
    ensures var ts := TypesOf(FlagsFor(sub, meta, video, hackathon));
      && !(InvalidGithubUrl in ts && CloneFailed in ts)
      && !(InvalidVideoUrl in ts && VideoDownloadFailed in ts)
      && (CloneFailed in ts ==> sub.github.isValid && meta.Some? && !meta.value.cloneSuccess)
      && (VideoUnrelated in ts ==> video.Some? && video.value.analysisSuccess)
      && (!hackathon ==> LateSubmission !in ts && GitPeriodViolation !in ts && SingleCommitDump !in ts)
  {
    FlagsForMeaning(sub, meta, video, hackathon);
    var ts := TypesOf(FlagsFor(sub, meta, video, hackathon));
    assert InvalidGithubUrl in ts <==> Raised(InvalidGithubUrl, sub, meta, video, hackathon);
    assert CloneFailed in ts <==> Raised(CloneFailed, sub, meta, video, hackathon);
    assert InvalidVideoUrl in ts <==> Raised(InvalidVideoUrl, sub, meta, video, hackathon);
    assert VideoDownloadFailed in ts <==> Raised(VideoDownloadFailed, sub, meta, video, hackathon);
    assert VideoUnrelated in ts <==> Raised(VideoUnrelated, sub, meta, video, hackathon);
    assert LateSubmission in ts <==> Raised(LateSubmission, sub, meta, video, hackathon);
    assert GitPeriodViolation in ts <==> Raised(GitPeriodViolation, sub, meta, video, hackathon);
    assert SingleCommitDump in ts <==> Raised(SingleCommitDump, sub, meta, video, hackathon);
  }

  // ---------------------------------------------------------------------
  // Flags of all submissions
  // ---------------------------------------------------------------------

  /** The flags one submission raises, looked up as `_collect_flags` does. */
  function OwnFlags(sub: Submission, metaMap: map<int, RepoMetadata>,
                    videoMap: map<int, VideoAnalysisResult>, hackathon: bool): seq<ProjectFlag> {
    FlagsFor(sub, Get(metaMap, sub.teamNumber), Get(videoMap, sub.teamNumber), hackathon)
  }

  /** `_collect_flags` with the metadata and video records already indexed by
      team number: each submission's flags, in submission order. */
  function CollectFrom(subs: seq<Submission>, metaMap: map<int, RepoMetadata>,
                       videoMap: map<int, VideoAnalysisResult>, hackathon: bool): seq<ProjectFlag>
  {
    Flatten(subs, sub => OwnFlags(sub, metaMap, videoMap, hackathon))
  }

  /** `_collect_flags`: the metadata and video lists are indexed by team number
      (the last record of a team wins); a hackathon counts when one is configured. */
  function CollectFlags(subs: seq<Submission>, metas: seq<RepoMetadata>, videos: seq<VideoAnalysisResult>,
                        hack: Option<HackathonConfig>): seq<ProjectFlag> {
    CollectFrom(subs, IndexBy(metas, MetaTeam), IndexBy(videos, VideoTeam), hack.Some?)
  }

  /** Collecting over two lists of submissions is collecting over each in turn. */
  lemma CollectAppend(a: seq<Submission>, b: seq<Submission>, metaMap: map<int, RepoMetadata>,
                      videoMap: map<int, VideoAnalysisResult>, hackathon: bool)
    ensures CollectFrom(a + b, metaMap, videoMap, hackathon)
            == CollectFrom(a, metaMap, videoMap, hackathon) + CollectFrom(b, metaMap, videoMap, hackathon)
  {
    FlattenAppend(a, b, sub => OwnFlags(sub, metaMap, videoMap, hackathon));
  }

  /** The flags come in submission order: each belongs to the submission its
      origin names, and origins never decrease along the list. */
  lemma CollectOrdered(subs: seq<Submission>, metaMap: map<int, RepoMetadata>,
                       videoMap: map<int, VideoAnalysisResult>, hackathon: bool)
    ensures var fs := CollectFrom(subs, metaMap, videoMap, hackathon);
            var o := Origins(subs, sub => OwnFlags(sub, metaMap, videoMap, hackathon));
      && |o| == |fs|
      && (forall k :: 0 <= k < |o| ==> o[k] < |subs| && fs[k] in OwnFlags(subs[o[k]], metaMap, videoMap, hackathon))
      && (forall k, l :: 0 <= k < l < |o| ==> o[k] <= o[l])
  {
    FlattenTraced(subs, sub => OwnFlags(sub, metaMap, videoMap, hackathon));
  }

  /** Every collected flag carries the team number and names of a submission
      whose own flags include it, and its type's severity. */
  lemma CollectCarriesTeam(subs: seq<Submission>, metas: seq<RepoMetadata>, videos: seq<VideoAnalysisResult>,
                           hack: Option<HackathonConfig>, k: nat)
    requires k < |CollectFlags(subs, metas, videos, hack)|
    ensures var f := CollectFlags(subs, metas, videos, hack)[k];
      exists i :: 0 <= i < |subs|
        && f.teamNumber == subs[i].teamNumber && f.teamName == subs[i].teamName
        && f.projectName == subs[i].projectName && f.severity == SeverityOf(f.flagType)
  {
    var mm, vm := IndexBy(metas, MetaTeam), IndexBy(videos, VideoTeam);
    CollectOrdered(subs, mm, vm, hack.Some?);
    var o := Origins(subs, sub => OwnFlags(sub, mm, vm, hack.Some?));
    var i := o[k];
    var own := OwnFlags(subs[i], mm, vm, hack.Some?);
    var f := CollectFlags(subs, metas, videos, hack)[k];
    var j :| 0 <= j < |own| && own[j] == f;
    FlagsForMeaning(subs[i], Get(mm, subs[i].teamNumber), Get(vm, subs[i].teamNumber), hack.Some?);
  }

  /** With no hackathon configured, no lateness or git-history flag appears at all. */
  lemma NoHackathonFlags(subs: seq<Submission>, metas: seq<RepoMetadata>, videos: seq<VideoAnalysisResult>, k: nat)
    requires k < |CollectFlags(subs, metas, videos, None)|
    ensures CollectFlags(subs, metas, videos, None)[k].flagType !in {LateSubmission, GitPeriodViolation, SingleCommitDump}
  {
    var mm, vm := IndexBy(metas, MetaTeam), IndexBy(videos, VideoTeam);
    CollectOrdered(subs, mm, vm, false);
    var o := Origins(subs, sub => OwnFlags(sub, mm, vm, false));
    var own := OwnFlags(subs[o[k]], mm, vm, false);
    var f := CollectFlags(subs, metas, videos, None)[k];
    var j :| 0 <= j < |own| && own[j] == f;
    assert f.flagType in TypesOf(own);
    FlagExclusions(subs[o[k]], Get(mm, subs[o[k]].teamNumber), Get(vm, subs[o[k]].teamNumber), false);
  }

  // ---------------------------------------------------------------------
  // Leaderboard
  // ---------------------------------------------------------------------

  datatype RepoColumns = RepoColumns(totalLoc: nat, primaryLanguage: string, commits: nat)

  datatype UrlColumns = UrlColumns(githubUrl: string, videoUrl: string)

  /** One leaderboard row: the rank, the score record's team, names and total,
      each criterion's score, and the columns taken from the team's other
      records where the team has one. */
  datatype LeaderRow = LeaderRow(
    rank: nat,
    teamNumber: int,
    teamName: string,
    projectName: string,
    weightedTotal: real,
    criteria: map<string, real>,
    repo: Option<RepoColumns>,
    depth: Option<IntegrationDepth>,
    urls: Option<UrlColumns>)

  function CriterionValues(scores: map<string, CriterionScore>): (m: map<string, real>)
    ensures m.Keys == scores.Keys
    ensures forall k :: k in m ==> m[k] == scores[k].score
  {
    map k | k in scores :: scores[k].score
  }

  /** The row for the score record at `rank`. */
  function RowFor(rank: nat, ps: ProjectScore, sub: Option<Submission>, meta: Option<RepoMetadata>,
                  st: Option<StaticAnalysisResult>): LeaderRow {
    LeaderRow(
      rank, ps.teamNumber, ps.teamName, ps.projectName, ps.weightedTotal, CriterionValues(ps.scores),
      if meta.Some? then
        Some(RepoColumns(meta.value.files.totalLoc, meta.value.files.primaryLanguage, meta.value.gitHistory.totalCommits))
      else None,
      if st.Some? then Some(st.value.integrationDepth) else None,
      if sub.Some? then Some(UrlColumns(sub.value.github.original, sub.value.video.original)) else None)
  }

  function SubTeam(s: Submission): int { s.teamNumber }

  /** The rows `_write_leaderboard` writes: none for no scores; otherwise the
      scores by descending total (ties in input order), ranked from 1. */
  function LeaderboardRows(scores: seq<ProjectScore>, subs: seq<Submission>, metas: seq<RepoMetadata>,
                           statics: seq<StaticAnalysisResult>): (rows: seq<LeaderRow>)
    ensures |rows| == |scores|
    ensures forall i :: 0 <= i < |rows| ==> rows[i].rank == i + 1
    ensures forall i, j :: 0 <= i < j < |rows| ==> rows[i].weightedTotal >= rows[j].weightedTotal
  {
    Enumerate(SortDesc(scores, TotalOf), 1, IndexBy(subs, SubTeam), IndexBy(metas, MetaTeam), IndexBy(statics, StaticTeam))
  }

  /** `enumerate(ranked, start)`: the rows for `ranked`, the first at rank `start`. */
  function Enumerate(ranked: seq<ProjectScore>, start: nat, subMap: map<int, Submission>,
                     metaMap: map<int, RepoMetadata>, staticMap: map<int, StaticAnalysisResult>): (rows: seq<LeaderRow>)
    ensures |rows| == |ranked|
    ensures forall i :: 0 <= i < |rows| ==>
      rows[i] == RowFor(start + i, ranked[i], Get(subMap, ranked[i].teamNumber), Get(metaMap, ranked[i].teamNumber),
                        Get(staticMap, ranked[i].teamNumber))
    decreases |ranked|
  {
    if ranked == [] then []
    else
      [RowFor(start, ranked[0], Get(subMap, ranked[0].teamNumber), Get(metaMap, ranked[0].teamNumber),
              Get(staticMap, ranked[0].teamNumber))]
      + Enumerate(ranked[1..], start + 1, subMap, metaMap, staticMap)
  }

  /** Row `i` shows the `i`-th score record of the stable descending sort,
      its criterion scores, and the repository, analysis and URL columns exactly
      when the team has a record of that kind. */
  lemma LeaderboardRowContents(scores: seq<ProjectScore>, subs: seq<Submission>, metas: seq<RepoMetadata>,
                               statics: seq<StaticAnalysisResult>, i: nat)
    requires i < |scores|
    ensures var row := LeaderboardRows(scores, subs, metas, statics)[i];
            var ps := SortDesc(scores, TotalOf)[i];
      && row.teamNumber == ps.teamNumber && row.teamName == ps.teamName
      && row.projectName == ps.projectName && row.weightedTotal == ps.weightedTotal
      && row.criteria.Keys == ps.scores.Keys
      && (forall k :: k in row.criteria ==> row.criteria[k] == ps.scores[k].score)
      && (row.repo.Some? <==> exists m :: m in metas && m.teamNumber == ps.teamNumber)
      && (row.depth.Some? <==> exists a :: a in statics && a.teamNumber == ps.teamNumber)
      && (row.urls.Some? <==> exists s :: s in subs && s.teamNumber == ps.teamNumber)
  {
    var ps := SortDesc(scores, TotalOf)[i];
    HasRecord(subs, SubTeam, ps.teamNumber);
    HasRecord(metas, MetaTeam, ps.teamNumber);
    HasRecord(statics, StaticTeam, ps.teamNumber);
  }

  /** A team has an entry in an index exactly when some record carries its number. */
  lemma HasRecord<T>(xs: seq<T>, key: T -> int, n: int)
    ensures n in IndexBy(xs, key) <==> exists x :: x in xs && key(x) == n
  {
    if n in IndexBy(xs, key) {
      var i :| 0 <= i < |xs| && key(xs[i]) == n;
      assert xs[i] in xs;
    }
  }

  /** Every score record gets a row, and the row ranked first has the highest total. */
  lemma LeaderboardCoversScores(scores: seq<ProjectScore>, subs: seq<Submission>, metas: seq<RepoMetadata>,
                                statics: seq<StaticAnalysisResult>, k: nat)
    requires k < |scores|
    ensures var rows := LeaderboardRows(scores, subs, metas, statics);
      && (exists i :: 0 <= i < |rows| && rows[i].teamNumber == scores[k].teamNumber
                                       && rows[i].weightedTotal == scores[k].weightedTotal)
      && scores[k].weightedTotal <= rows[0].weightedTotal
  {
    var rows := LeaderboardRows(scores, subs, metas, statics);
    var sorted := SortDesc(scores, TotalOf);
    assert scores[k] in multiset(scores);
    assert scores[k] in multiset(sorted);
    var i :| 0 <= i < |sorted| && sorted[i] == scores[k];
    assert rows[i].teamNumber == scores[k].teamNumber;
  }

  // ---------------------------------------------------------------------
  // Flag counts of the summary
  // ---------------------------------------------------------------------

  /** How many flags have type `t`. */
  function CountOf(flags: seq<ProjectFlag>, t: FlagType): nat {
    if flags == [] then 0
    else CountOf(flags[..|flags| - 1], t) + (if flags[|flags| - 1].flagType == t then 1 else 0)
  }

  const AllFlagTypes: seq<FlagType> := [
    InvalidGithubUrl, CloneFailed, InvalidVideoUrl, VideoDownloadFailed,
    VideoUnrelated, LateSubmission, GitPeriodViolation, SingleCommitDump]

  /** The sum of a count table's entries over the types `ts`. */
  function SumOver(ts: seq<FlagType>, counts: map<FlagType, nat>): nat {
    if ts == [] then 0 else (if ts[0] in counts then counts[ts[0]] else 0) + SumOver(ts[1..], counts)
  }

  /** The sum of all entries of a count table. */
  function SumCounts(counts: map<FlagType, nat>): nat {
    SumOver(AllFlagTypes, counts)
  }

  /** The counting loop of `_write_summary`: a count per flag type that
      occurs, and the counts add up to the number of flags. */
  method FlagCounts(flags: seq<ProjectFlag>) returns (counts: map<FlagType, nat>)
    ensures forall t :: t in counts <==> CountOf(flags, t) > 0
    ensures forall t :: t in counts ==> counts[t] == CountOf(flags, t)
    ensures SumCounts(counts) == |flags|
  {
    counts := map[];
    for i := 0 to |flags|
      invariant forall t :: t in counts <==> CountOf(flags[..i], t) > 0
      invariant forall t :: t in counts ==> counts[t] == CountOf(flags[..i], t)
    {
      var t := flags[i].flagType;
      assert flags[..i + 1][..i] == flags[..i];
      counts := counts[t := (if t in counts then counts[t] else 0) + 1];
    }
    assert flags[..|flags|] == flags;
    CountsSum(flags, counts);
  }

  /** A table holding each type's count sums to the number of flags. */
  lemma CountsSum(flags: seq<ProjectFlag>, counts: map<FlagType, nat>)
    requires forall t :: t in counts <==> CountOf(flags, t) > 0
    requires forall t :: t in counts ==> counts[t] == CountOf(flags, t)
    ensures SumCounts(counts) == |flags|
  {
    SumOverCounts(AllFlagTypes, flags, counts);
    CountedAll(flags);
  }

  /** The sum over `ts` of each type's count. */
  function CountsOver(ts: seq<FlagType>, flags: seq<ProjectFlag>): nat {
    if ts == [] then 0 else CountOf(flags, ts[0]) + CountsOver(ts[1..], flags)
  }

  lemma {:induction false} SumOverCounts(ts: seq<FlagType>, flags: seq<ProjectFlag>, counts: map<FlagType, nat>)
    requires forall t :: t in counts <==> CountOf(flags, t) > 0
    requires forall t :: t in counts ==> counts[t] == CountOf(flags, t)
    ensures SumOver(ts, counts) == CountsOver(ts, flags)
  {
    if ts != [] {
      SumOverCounts(ts[1..], flags, counts);
    }
  }

  /** One more flag adds one to the sum over a list of distinct types holding its type. */
  lemma {:induction false} CountsOverSnoc(ts: seq<FlagType>, flags: seq<ProjectFlag>, f: ProjectFlag)
    requires NoDuplicates(ts)
    ensures CountsOver(ts, flags + [f]) == CountsOver(ts, flags) + (if f.flagType in ts then 1 else 0)
  {
    if ts != [] {
      assert (flags + [f])[..|flags|] == flags;
      assert NoDuplicates(ts[1..]) by {
        forall i, j | 0 <= i < j < |ts[1..]| ensures ts[1..][i] != ts[1..][j] {
          assert ts[1..][i] == ts[i + 1] && ts[1..][j] == ts[j + 1];
        }
      }
      CountsOverSnoc(ts[1..], flags, f);
      if f.flagType == ts[0] {
        assert f.flagType !in ts[1..] by {
          forall i | 0 <= i < |ts[1..]| ensures ts[1..][i] != ts[0] {
            assert ts[1..][i] == ts[i + 1];
          }
        }
      }
    }
  }

  /** Every flag is counted under exactly one of the eight types. */
  lemma {:induction false} CountedAll(flags: seq<ProjectFlag>)
    ensures CountsOver(AllFlagTypes, flags) == |flags|
  {
    if flags != [] {
      var n := |flags| - 1;
      CountedAll(flags[..n]);
      assert flags == flags[..n] + [flags[n]];
      assert NoDuplicates(AllFlagTypes);
      TypeListed(flags[n].flagType);
      CountsOverSnoc(AllFlagTypes, flags[..n], flags[n]);
    } else {
      CountsOverNone(AllFlagTypes);
    }
  }

  lemma TypeListed(t: FlagType)
    ensures t in AllFlagTypes
  {
    assert AllFlagTypes[CheckOrder(t)] == t;
  }

  lemma {:induction false} CountsOverNone(ts: seq<FlagType>)
    ensures CountsOver(ts, []) == 0
  {
    if ts != [] {
      CountsOverNone(ts[1..]);
    }
  }
}
