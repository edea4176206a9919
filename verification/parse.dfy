/** The parse stage (stages/parse.py): CSV rows to submissions, with URL
    classification, lateness and column detection. The CSV reader, URL
    splitting and ISO date parsing are parameters. */
module Parse {
  import opened Wrappers
  import opened Numeric
  import opened Text
  import opened Models

  // ---------------------------------------------------------------------
  // Directory names
  // ---------------------------------------------------------------------

  /** Characters `[a-zA-Z0-9_-]` keeps. */
  predicate NameChar(c: char) { IsAlpha(c) || IsDigit(c) || c == '_' || c == '-' }

  /** Characters a sanitized name consists of. */
  predicate CleanChar(c: char) { IsLower(c) || IsDigit(c) || c == '_' || c == '-' }

  predicate NoDoubleUnderscore(s: string) {
    forall i :: 0 <= i < |s| - 1 ==> !(s[i] == '_' && s[i + 1] == '_')
  }

  /** `re.sub(r"[^a-zA-Z0-9_-]", "_", s)` */
  function ReplaceOthers(s: string): (r: string)
    ensures |r| == |s|
    ensures forall i :: 0 <= i < |s| ==> r[i] == (if NameChar(s[i]) then s[i] else '_')
  {
    if s == [] then [] else [if NameChar(s[0]) then s[0] else '_'] + ReplaceOthers(s[1..])
  }

  /** `re.sub(r"_+", "_", s)` */
  function Collapse(s: string): (r: string)
    ensures |r| <= |s|
    ensures |s| > 0 ==> |r| > 0 && r[0] == s[0]
    ensures |s| > 0 ==> |r| > 0 && r[|r| - 1] == s[|s| - 1]
    ensures NoDoubleUnderscore(r)
    ensures forall i :: 0 <= i < |r| ==> r[i] in s
  {
    if |s| < 2 then s
    else if s[0] == '_' && s[1] == '_' then Collapse(s[1..])
    else
      var rest := Collapse(s[1..]);
      assert rest[0] == s[1];
      [s[0]] + rest
  }

  /** `_sanitize_name`: lower-case, every other character to '_', runs of '_'
      collapsed, '_' stripped from both ends, at most 50 characters. */
  function SanitizeName(name: string): string {
    Take(LStripChar(RStripChar(Collapse(ReplaceOthers(Lower(name))), '_'), '_'), 50)
  }

  /** A sanitized name is at most 50 clean characters, has no "__" and does
      not start with '_'. */
  lemma SanitizeNameClean(name: string)
    ensures var r := SanitizeName(name);
      && |r| <= 50
      && AllClean(r)
      && NoDoubleUnderscore(r)
      && (|r| > 0 ==> r[0] != '_')
  {
    var collapsed := Collapse(ReplaceOthers(Lower(name)));
    CollapseKeepsClean(name);
    var stripped := LStripChar(RStripChar(collapsed, '_'), '_');
    StripKeepsClean(collapsed);
    var r := Take(stripped, 50);
    SliceKeepsClean(stripped, 0, |r|);
  }

  /** `s.strip("_")` on a clean text stays clean and no longer starts or ends with '_'. */
  lemma StripKeepsClean(s: string)
    requires AllClean(s) && NoDoubleUnderscore(s)
    ensures var r := LStripChar(RStripChar(s, '_'), '_');
      && AllClean(r) && NoDoubleUnderscore(r)
      && (|r| > 0 ==> r[0] != '_' && r[|r| - 1] != '_')
  {
    var right := RStripChar(s, '_');
    SliceKeepsClean(s, 0, |right|);
    var stripped := LStripChar(right, '_');
    SliceKeepsClean(right, |right| - |stripped|, |right|);
  }

  predicate AllClean(s: string) {
    forall i :: 0 <= i < |s| ==> CleanChar(s[i])
  }

  lemma CollapseKeepsClean(s: string)
    ensures AllClean(Collapse(ReplaceOthers(Lower(s))))
  {
    var replaced := ReplaceOthers(Lower(s));
    assert AllClean(replaced);
    var c := Collapse(replaced);
    forall i | 0 <= i < |c| ensures CleanChar(c[i]) {
      assert c[i] in replaced;
    }
  }

  /** Any slice of a clean text without "__" is one too. */
  lemma SliceKeepsClean(s: string, a: nat, b: nat)
    requires a <= b <= |s| && AllClean(s) && NoDoubleUnderscore(s)
    ensures AllClean(s[a..b]) && NoDoubleUnderscore(s[a..b])
  {
    var t := s[a..b];
    forall i | 0 <= i < |t| ensures CleanChar(t[i]) {
      assert t[i] == s[a + i];
    }
    forall i | 0 <= i < |t| - 1 ensures !(t[i] == '_' && t[i + 1] == '_') {
      assert t[i] == s[a + i] && t[i + 1] == s[a + i + 1];
    }
  }

  /** A name that is already clean: what `SanitizeName` produces, without a trailing '_'. */
  predicate CleanName(s: string) {
    && |s| <= 50
    && AllClean(s)
    && NoDoubleUnderscore(s)
    && (|s| > 0 ==> s[0] != '_' && s[|s| - 1] != '_')
  }

  lemma {:induction false} CollapseClean(s: string)
    requires NoDoubleUnderscore(s)
    ensures Collapse(s) == s
  {
    if |s| >= 2 {
      var t := s[1..];
      NoDoubleUnderscoreTail(s);
      CollapseClean(t);
      assert !(s[0] == '_' && s[1] == '_');
      assert s == [s[0]] + t;
    }
  }

  lemma NoDoubleUnderscoreTail(s: string)
    requires |s| >= 1 && NoDoubleUnderscore(s)
    ensures NoDoubleUnderscore(s[1..])
  {
    var t := s[1..];
    forall i | 0 <= i < |t| - 1
      ensures !(t[i] == '_' && t[i + 1] == '_')
    {
      assert t[i] == s[i + 1] && t[i + 1] == s[i + 2];
    }
  }

  /** A clean name is left as it is. */
  lemma SanitizeFixpoint(s: string)
    requires CleanName(s)
    ensures SanitizeName(s) == s
  {
    assert Lower(s) == s;
    assert ReplaceOthers(s) == s;
    CollapseClean(s);
  }

  /** Sanitizing twice is sanitizing once, unless truncation to 50 characters
      left a trailing '_' for the second pass to strip. */
  lemma SanitizeIdempotent(name: string)
    requires var r := SanitizeName(name); |r| == 0 || r[|r| - 1] != '_'
    ensures SanitizeName(SanitizeName(name)) == SanitizeName(name)
  {
    SanitizeNameClean(name);
    SanitizeFixpoint(SanitizeName(name));
  }

  /** `f"{n:03d}"` */
  function Pad3(n: nat): (r: string)
    ensures |r| >= 3
    ensures forall i :: 0 <= i < |r| ==> IsDigit(r[i])
    ensures DigitsValue(r) == n
  {
    var t := NatToText(n);
    if |t| < 3 then
      var zs := Zeros(3 - |t|);
      DigitsValueLeadingZeros(3 - |t|, t);
      zs + t
    else t
  }

  /** The per-team directory name: `f"{idx:03d}_{_sanitize_name(project_name)}"`. */
  function TeamDirName(idx: nat, projectName: string): string {
    Pad3(idx) + "_" + SanitizeName(projectName)
  }

  /** The directory name splits at its first '_' into the zero-padded team
      number, which reads back as the number, and the sanitized name. */
  lemma TeamDirNameRoundTrip(idx: nat, projectName: string)
    ensures Cut(TeamDirName(idx, projectName), '_') == Some((Pad3(idx), SanitizeName(projectName)))
    ensures DigitsValue(Pad3(idx)) == idx
  {
    var p := Pad3(idx);
    assert '_' !in p by {
      forall i | 0 <= i < |p| ensures p[i] != '_' {
        assert IsDigit(p[i]);
      }
    }
    CutJoin(p, '_', SanitizeName(projectName));
  }

  /** Different team numbers give different directories, whatever the project names. */
  lemma TeamDirNamesDistinct(i: nat, j: nat, a: string, b: string)
    requires i != j
    ensures TeamDirName(i, a) != TeamDirName(j, b)
  {
    TeamDirNameRoundTrip(i, a);
    TeamDirNameRoundTrip(j, b);
  }

  // ---------------------------------------------------------------------
  // GitHub URLs
  // ---------------------------------------------------------------------

  /** What `urlparse` reports for a URL: the network location and the path. */
  datatype UrlParts = UrlParts(netloc: string, path: string)

  /** The two spelling repairs applied before parsing. */
  function NormalizeGithub(url: string): string {
    ReplaceAll(ReplaceAll(url, "https:www.github.com", "https://www.github.com"), "www.github.com", "github.com")
  }

  predicate OnGithub(parts: UrlParts) {
    Contains(parts.netloc, "github.com") || Contains(parts.path, "github.com")
  }

  /** The URL with a scheme: `https://` is prefixed unless it starts with "http". */
  function WithScheme(url: string): (r: string)
    ensures StartsWith(r, "http")
  {
    if StartsWith(url, "http") then url else "https://" + url
  }

  /** The clone URL's base before ".git": `url` cut at the first "/blob/"
      (and, when `stripTree`, first at the first "/tree/"), then trailing '/'
      stripped. */
  function CloneBase(url: string, stripTree: bool): string {
    var cut1 := if stripTree then CutFrom(url, "/tree/") else url;
    RStripChar(CutFrom(cut1, "/blob/"), '/')
  }

  /** The base is a leading part of the URL that ends just before a '/', with
      no "/blob/" (and, when cut, no "/tree/") and no trailing '/'. */
  lemma CloneBaseShape(url: string, stripTree: bool)
    ensures var base := CloneBase(url, stripTree);
      && StartsWith(url, base)
      && !Contains(base, "/blob/")
      && (stripTree ==> !Contains(base, "/tree/"))
      && (|base| > 0 ==> base[|base| - 1] != '/')
      && (|url| > |base| ==> url[|base|] == '/')
  {
    CloneBaseCut(url, stripTree);
    CloneBaseEnd(url, stripTree);
  }

  lemma CloneBaseCut(url: string, stripTree: bool)
    ensures var base := CloneBase(url, stripTree);
      && StartsWith(url, base)
      && !Contains(base, "/blob/")
      && (stripTree ==> !Contains(base, "/tree/"))
  {
    var cut1 := if stripTree then CutFrom(url, "/tree/") else url;
    var cut2 := CutFrom(cut1, "/blob/");
    var base := RStripChar(cut2, '/');
    assert cut1 == url[..|cut1|];
    BaseOfCut(cut1, cut2, base);
    if stripTree {
      TreeGone(url, cut2, base);
    }
  }

  lemma CloneBaseEnd(url: string, stripTree: bool)
    ensures var base := CloneBase(url, stripTree);
      && (|base| > 0 ==> base[|base| - 1] != '/')
      && (|url| > |base| ==> url[|base|] == '/')
  {
    var cut1 := if stripTree then CutFrom(url, "/tree/") else url;
    var cut2 := CutFrom(cut1, "/blob/");
    var base := RStripChar(cut2, '/');
    if |url| > |base| {
      BaseEndsAtSlash(url, stripTree, cut1, cut2, base);
    }
  }

  lemma BaseOfCut(cut1: string, cut2: string, base: string)
    requires cut2 == CutFrom(cut1, "/blob/") && base == RStripChar(cut2, '/')
    ensures base == cut1[..|base|] && !Contains(base, "/blob/")
  {
    assert base == cut2[..|base|];
    if Contains(base, "/blob/") {
      ContainsPrefix(cut2, |base|, "/blob/");
    }
  }

  lemma TreeGone(url: string, cut2: string, base: string)
    requires cut2 == CutFrom(CutFrom(url, "/tree/"), "/blob/") && base == RStripChar(cut2, '/')
    ensures !Contains(base, "/tree/")
  {
    var cut1 := CutFrom(url, "/tree/");
    if Contains(base, "/tree/") {
      ContainsPrefix(cut2, |base|, "/tree/");
      ContainsPrefix(cut1, |cut2|, "/tree/");
    }
  }

  lemma BaseEndsAtSlash(url: string, stripTree: bool, cut1: string, cut2: string, base: string)
    requires cut1 == (if stripTree then CutFrom(url, "/tree/") else url)
    requires cut2 == CutFrom(cut1, "/blob/") && base == RStripChar(cut2, '/')
    requires |url| > |base|
    ensures url[|base|] == '/'
  {
    assert cut1 == url[..|cut1|];
    assert cut2 == cut1[..|cut2|];
    if |base| < |cut2| {
      assert url[|base|] == cut2[|base|];
    } else if |cut2| < |cut1| {
      CutAtSlash(cut1, "/blob/");
      assert url[|cut2|] == cut1[|cut2|];
    } else {
      assert stripTree;
      CutAtSlash(url, "/tree/");
    }
  }

  /** Where a cut removed something, a '/'-led pattern began. */
  lemma CutAtSlash(s: string, p: string)
    requires |p| > 0 && p[0] == '/'
    requires |CutFrom(s, p)| < |s|
    ensures s[|CutFrom(s, p)|] == '/'
  {
    var r := CutFrom(s, p);
    assert Contains(s, p);
    assert s[|r|..][..|p|] == p;
    assert s[|r|] == s[|r|..][..|p|][0];
  }

  /** The shape of a valid result: a cleaned URL with a scheme, not a Pages
      site, and a clone URL that is a leading part of it, cut at a '/', with
      ".git" appended and no branch reference left. */
  predicate IsCloneOf(cleaned: Option<string>, cloneUrl: Option<string>, stripTree: bool) {
    && cleaned.Some? && cloneUrl.Some?
    && StartsWith(cleaned.value, "http") && !Contains(cleaned.value, "github.io")
    && EndsWith(cloneUrl.value, ".git")
    && var base := cloneUrl.value[..|cloneUrl.value| - 4];
       && StartsWith(cleaned.value, base)
       && (|cleaned.value| > |base| ==> cleaned.value[|base|] == '/')
       && !Contains(base, "/blob/")
       && (stripTree ==> !Contains(base, "/tree/"))
  }

  /** `classify_github_url`, with the branch-reference cut as a switch. */
  function ClassifyWith(raw: string, up: string -> UrlParts, stripTree: bool): (r: GitHubInfo)
    ensures r.original == Strip(raw)
    ensures Strip(raw) == "" ==> r == DefaultGitHubInfo("").(issues := ["empty_url"])
    ensures r.isValid <==> r.cloneUrl.Some?
    ensures r.isValid <==> Strip(raw) != "" && OnGithub(up(NormalizeGithub(Strip(raw))))
                           && !Contains(WithScheme(NormalizeGithub(Strip(raw))), "github.io")
    ensures r.isValid ==> IsCloneOf(r.cleaned, r.cloneUrl, stripTree)
    ensures r.isValid ==> r.issues == (if Contains(raw, "/tree/") || Contains(raw, "/blob/")
                                       then ["stripped_branch_ref"] else [])
    ensures !r.isValid ==> |r.issues| == 1
    ensures r.cleaned.None? <==> Strip(raw) == ""
  {
    var url := Strip(raw);
    if url == "" then DefaultGitHubInfo("").(issues := ["empty_url"])
    else
      var u := NormalizeGithub(url);
      var parts := up(u);
      if !OnGithub(parts) then
        GitHubInfo(url, Some(u), None, false, ["not_github_url: " + parts.netloc])
      else
        var full := WithScheme(u);
        var base := CloneBase(full, stripTree);
        if Contains(full, "github.io") then GitHubInfo(url, Some(full), None, false, ["github_pages_not_repo"])
        else
          var clone := base + ".git";
          CloneBaseShape(full, stripTree);
          assert clone[..|clone| - 4] == base;
          GitHubInfo(url, Some(full), Some(clone), true,
                     if Contains(raw, "/tree/") || Contains(raw, "/blob/") then ["stripped_branch_ref"] else [])
  }

  /** `classify_github_url` as written: the "/tree/" cut is computed and then
      discarded, because the "/blob/" cut starts again from the full URL. */
  function ClassifyGithubUrlAsWritten(raw: string, up: string -> UrlParts): (r: GitHubInfo)
    ensures r.isValid ==> IsCloneOf(r.cleaned, r.cloneUrl, false)
  {
    ClassifyWith(raw, up, false)
  }

  /** `classify_github_url` as intended: both branch references are cut. */
  function ClassifyGithubUrl(raw: string, up: string -> UrlParts): (r: GitHubInfo)
    ensures r.isValid ==> IsCloneOf(r.cleaned, r.cloneUrl, true)
  {
    ClassifyWith(raw, up, true)
  }

  /** Only the clone URL can differ between the two, and only for a URL that
      holds "/tree/". */
  lemma ClassifyVariantsAgree(raw: string, up: string -> UrlParts)
    ensures var (a, b) := (ClassifyGithubUrlAsWritten(raw, up), ClassifyGithubUrl(raw, up));
      && a.(cloneUrl := None) == b.(cloneUrl := None)
      && (!Contains(WithScheme(NormalizeGithub(Strip(raw))), "/tree/") ==> a == b)
  {
  }

  /** As written, a valid URL that holds "/tree/" and no "/blob/" and does not
      end in '/' keeps its branch reference: the clone URL is the whole cleaned
      URL plus ".git" (so "https://github.com/o/r/tree/main" gives
      ".../o/r/tree/main.git", which git cannot clone). The corrected
      classification never leaves "/tree/" in the clone URL's base. */
  lemma TreeRefKeptAsWritten(raw: string, up: string -> UrlParts)
    requires var r := ClassifyGithubUrlAsWritten(raw, up);
      && r.isValid
      && Contains(r.cleaned.value, "/tree/") && !Contains(r.cleaned.value, "/blob/")
      && r.cleaned.value[|r.cleaned.value| - 1] != '/'
    ensures var r := ClassifyGithubUrlAsWritten(raw, up);
      && r.cloneUrl == Some(r.cleaned.value + ".git")
      && Contains(r.cloneUrl.value, "/tree/")
  {
    var r := ClassifyGithubUrlAsWritten(raw, up);
    var full := r.cleaned.value;
    assert r.cloneUrl == Some(CloneBase(full, false) + ".git");
    assert CutFrom(full, "/blob/") == full;
    assert RStripChar(full, '/') == full;
    ContainsAppend(full, ".git", "/tree/");
  }

  // ---------------------------------------------------------------------
  // Video URLs
  // ---------------------------------------------------------------------

  /** Keywords whose presence in the lower-cased URL names a platform. */
  datatype PlatformCheck = PlatformCheck(keywords: seq<string>, platform: VideoPlatform)

  /** The platform checks, tried in order. */
  const PlatformChecks: seq<PlatformCheck> := [
    PlatformCheck(["youtu.be", "youtube.com"], YouTube),
    PlatformCheck(["loom.com"], Loom),
    PlatformCheck(["vimeo.com"], Vimeo),
    PlatformCheck(["drive.google.com", "docs.google.com/video"], GoogleDrive),
    PlatformCheck(["dropbox.com"], Dropbox),
    PlatformCheck(["descript.com"], Descript),
    PlatformCheck(["screen.studio"], ScreenStudio)
  ]

  predicate AnyIn(s: string, keywords: seq<string>) {
    exists k :: 0 <= k < |keywords| && Contains(s, keywords[k])
  }

  /** Index of the first check one of whose keywords occurs in `s`. */
  function FirstMatch(checks: seq<PlatformCheck>, s: string): (r: Option<nat>)
    ensures r.Some? ==> r.value < |checks| && AnyIn(s, checks[r.value].keywords)
    ensures r.Some? ==> forall j :: 0 <= j < r.value ==> !AnyIn(s, checks[j].keywords)
    ensures r.None? ==> forall j :: 0 <= j < |checks| ==> !AnyIn(s, checks[j].keywords)
  {
    if checks == [] then None
    else if AnyIn(s, checks[0].keywords) then Some(0)
    else match FirstMatch(checks[1..], s)
      case None => None
      case Some(i) =>
        assert forall j :: 1 <= j <= i ==> checks[j] == checks[1..][j - 1];
        Some(i + 1)
  }

  /** Checks that name real platforms, never Custom or Unknown. */
  predicate RealPlatforms(checks: seq<PlatformCheck>) {
    forall i :: 0 <= i < |checks| ==> checks[i].platform != Custom && checks[i].platform != UnknownPlatform
  }

  lemma ChecksNamePlatforms()
    ensures RealPlatforms(PlatformChecks)
  {
  }

  /** `classify_video_url` with the platform checks as a parameter. */
  function ClassifyVideoWith(raw: string, checks: seq<PlatformCheck>): VideoInfo
  {
    var url := Strip(raw);
    if url == "" then DefaultVideoInfo("").(issues := ["empty_url"])
    else
      var lower := Lower(url);
      var info :=
        match FirstMatch(checks, lower)
        case Some(i) => VideoInfo(url, checks[i].platform, true, [])
        case None =>
          if Contains(lower, "example.com") then VideoInfo(url, UnknownPlatform, false, ["placeholder_url"])
          else if StartsWith(url, "http") then VideoInfo(url, Custom, true, ["custom_domain_may_not_be_downloadable"])
          else VideoInfo(url, UnknownPlatform, false, ["invalid_url_format"]);
      if info.platform == ScreenStudio && Contains(lower, "uploading") then
        info.(isValid := false, issues := info.issues + ["video_still_uploading"])
      else info
  }

  /** `classify_video_url`: the platform checks above, in order. */
  function ClassifyVideoUrl(raw: string): VideoInfo {
    ClassifyVideoWith(raw, PlatformChecks)
  }

  /** What the classification means: a known platform exactly when a check
      matches, and then the first one; Custom only for an http(s) URL that is
      not a placeholder; valid exactly for a known platform (not a Screen
      Studio page still uploading) or a custom domain. */
  lemma ClassifyVideoMeaning(raw: string, checks: seq<PlatformCheck>)
    requires RealPlatforms(checks)
    ensures var r := ClassifyVideoWith(raw, checks);
      && r.original == Strip(raw)
      && (Strip(raw) == "" ==> r == DefaultVideoInfo("").(issues := ["empty_url"]))
      && (r.platform != Custom && r.platform != UnknownPlatform
          <==> Strip(raw) != "" && FirstMatch(checks, Lower(Strip(raw))).Some?)
      && (Strip(raw) != "" && FirstMatch(checks, Lower(Strip(raw))).Some?
          ==> r.platform == checks[FirstMatch(checks, Lower(Strip(raw))).value].platform)
      && (r.platform == Custom ==> StartsWith(Strip(raw), "http") && !Contains(Lower(Strip(raw)), "example.com"))
      && (r.isValid <==>
          Strip(raw) != ""
          && ((r.platform != Custom && r.platform != UnknownPlatform
               && !(r.platform == ScreenStudio && Contains(Lower(Strip(raw)), "uploading")))
              || r.platform == Custom))
      && (r.platform == UnknownPlatform ==> !r.isValid)
      && (r.platform == ScreenStudio && Contains(Lower(Strip(raw)), "uploading")
          ==> !r.isValid && r.issues == ["video_still_uploading"])
  {
    var url := Strip(raw);
    if url != "" {
      var lower := Lower(url);
      match FirstMatch(checks, lower)
      case Some(i) =>
        assert checks[i].platform != Custom && checks[i].platform != UnknownPlatform;
      case None =>
    }
  }

  /** The checks are tried in order: a URL naming a platform gets the first
      platform it names, YouTube before every other. */
  lemma VideoPlatformPrecedence(raw: string, i: nat)
    requires i < |PlatformChecks| && AnyIn(Lower(Strip(raw)), PlatformChecks[i].keywords)
    requires forall j :: 0 <= j < i ==> !AnyIn(Lower(Strip(raw)), PlatformChecks[j].keywords)
    ensures ClassifyVideoUrl(raw).platform == PlatformChecks[i].platform
  {
    var lower := Lower(Strip(raw));
    FirstMatchIs(PlatformChecks, lower, i);
    var k :| 0 <= k < |PlatformChecks[i].keywords| && Contains(lower, PlatformChecks[i].keywords[k]);
    KeywordsNonEmpty();
    ContainsLength(lower, PlatformChecks[i].keywords[k]);
    PlatformOfMatch(raw, PlatformChecks, i);
  }

  lemma KeywordsNonEmpty()
    ensures forall i, k :: 0 <= i < |PlatformChecks| && 0 <= k < |PlatformChecks[i].keywords| ==>
              PlatformChecks[i].keywords[k] != ""
  {
  }

  /** A URL whose first matching check is `i` gets that check's platform. */
  lemma PlatformOfMatch(raw: string, checks: seq<PlatformCheck>, i: nat)
    requires Strip(raw) != "" && FirstMatch(checks, Lower(Strip(raw))) == Some(i)
    ensures i < |checks| && ClassifyVideoWith(raw, checks).platform == checks[i].platform
  {
  }

  /** The first check that matches is the one `FirstMatch` reports. */
  lemma FirstMatchIs(checks: seq<PlatformCheck>, s: string, i: nat)
    requires i < |checks| && AnyIn(s, checks[i].keywords)
    requires forall j :: 0 <= j < i ==> !AnyIn(s, checks[j].keywords)
    ensures FirstMatch(checks, s) == Some(i)
  {
  }

  lemma YouTubeFirst(raw: string)
    requires Contains(Lower(Strip(raw)), "youtube.com")
    ensures ClassifyVideoUrl(raw).platform == YouTube
  {
    assert PlatformChecks[0].keywords[1] == "youtube.com";
    VideoPlatformPrecedence(raw, 0);
  }

  // ---------------------------------------------------------------------
  // Lateness
  // ---------------------------------------------------------------------

  /** The lateness bucket for a submission `delta` minutes past the deadline. */
  function CategoryFor(delta: real, grace: int): LatenessCategory {
    if delta <= grace as real then GracePeriod
    else if delta <= 60.0 then ModeratelyLate
    else SignificantlyLate
  }

  function CategoryRank(c: LatenessCategory): nat {
    match c
    case OnTime => 0
    case GracePeriod => 1
    case ModeratelyLate => 2
    case SignificantlyLate => 3
  }

  /** A later submission is never in a milder bucket. */
  lemma CategoryMonotone(d1: real, d2: real, grace: int)
    requires d1 <= d2
    ensures CategoryRank(CategoryFor(d1, grace)) <= CategoryRank(CategoryFor(d2, grace))
  {
  }

  /** The submission and deadline instants, in minutes, when the hackathon has
      a deadline and both texts parse. */
  function Instants(ts: string, hack: Option<HackathonConfig>, parseIso: string -> Option<real>): Option<(real, real)> {
    if hack.None? || !Given(hack.value.deadlineUtc) then None
    else match (parseIso(Strip(ts)), parseIso(hack.value.deadlineUtc.value))
      case (Some(t), Some(d)) => Some((t, d))
      case _ => None
  }

  /** `compute_lateness`: late only when both instants are known and the
      submission is after the deadline; the minutes are rounded to one decimal
      and the bucket compares the unrounded minutes with the grace period and
      with one hour. */
  function ComputeLateness(ts: string, hack: Option<HackathonConfig>, parseIso: string -> Option<real>): (t: TimingInfo)
    ensures t.submittedUtc == Strip(ts)
    ensures t.isLate <==> Instants(ts, hack, parseIso).Some?
                          && Instants(ts, hack, parseIso).value.0 > Instants(ts, hack, parseIso).value.1
    ensures !t.isLate ==> t == DefaultTiming(Strip(ts))
    ensures t.isLate ==>
      var (s, d) := Instants(ts, hack, parseIso).value;
      && 0.0 <= t.minutesLate
      && -0.05 <= t.minutesLate - (s - d) <= 0.05
      && t.latenessCategory == CategoryFor(s - d, hack.value.gracePeriodMinutes)
      && (t.latenessCategory == GracePeriod <==> s - d <= hack.value.gracePeriodMinutes as real)
  {
    var timing := DefaultTiming(Strip(ts));
    match Instants(ts, hack, parseIso)
    case None => timing
    case Some((s, d)) =>
      if s > d then
        var delta := s - d;
        RoundError(delta, 10);
        RoundWithin(delta, 0, delta.Floor + 1, 10);
        timing.(isLate := true, minutesLate := RoundTo(delta, 10),
                latenessCategory := CategoryFor(delta, hack.value.gracePeriodMinutes))
      else timing
  }

  /** Against the same deadline, a later submission is never in a milder bucket. */
  lemma LaterIsNoMilder(ts1: string, ts2: string, hack: Option<HackathonConfig>, parseIso: string -> Option<real>)
    requires ComputeLateness(ts1, hack, parseIso).isLate
    requires parseIso(Strip(ts2)).Some? && parseIso(Strip(ts1)).value <= parseIso(Strip(ts2)).value
    ensures ComputeLateness(ts2, hack, parseIso).isLate
    ensures CategoryRank(ComputeLateness(ts1, hack, parseIso).latenessCategory)
            <= CategoryRank(ComputeLateness(ts2, hack, parseIso).latenessCategory)
  {
    var h := hack.value;
    var d := parseIso(h.deadlineUtc.value).value;
    var s1, s2 := parseIso(Strip(ts1)).value, parseIso(Strip(ts2)).value;
    assert Instants(ts1, hack, parseIso) == Some((s1, d));
    assert Instants(ts2, hack, parseIso) == Some((s2, d));
    CategoryMonotone(s1 - d, s2 - d, h.gracePeriodMinutes);
  }

  // ---------------------------------------------------------------------
  // Column detection
  // ---------------------------------------------------------------------

  /** The submission fields read from a CSV row. */
  datatype Field = TeamNameField | TeamMembersField | ProjectNameField | DescriptionField
                 | GithubUrlField | VideoUrlField | SubmittedAtField

  /** The lower-cased header texts accepted for each field, in preference order. */
  function Aliases(f: Field): seq<string> {
    match f
    case TeamNameField => ["team name", "team", "teamname", "team_name"]
    case TeamMembersField => ["team members", "members", "team_members", "participants"]
    case ProjectNameField => ["project name", "project", "projectname", "project_name", "submission name"]
    case DescriptionField => ["project description", "description", "desc", "summary", "about"]
    case GithubUrlField =>
      ["public github repository", "github", "github url", "github_url", "repo", "repository", "github repo"]
    case VideoUrlField => ["demo video", "video", "video url", "video_url", "demo", "demo url"]
    case SubmittedAtField => ["time submitted", "submitted", "submitted_at", "timestamp", "submission time"]
  }

  /** A header as the alias table sees it: lower-cased, then stripped. */
  function NormalizeHeader(h: string): string {
    Strip(Lower(h))
  }

  /** `{norm(h): h for h in xs}`: a later entry wins a clash. */
  function KeyedBy(xs: seq<string>, norm: string -> string): map<string, string> {
    if xs == [] then map[]
    else KeyedBy(xs[..|xs| - 1], norm)[norm(xs[|xs| - 1]) := xs[|xs| - 1]]
  }

  /** The header index: `{h.lower().strip(): h for h in headers}`. */
  function HeaderIndex(headers: seq<string>): map<string, string> {
    KeyedBy(headers, NormalizeHeader)
  }

  /** The index has exactly the normal forms of the entries as keys, and maps
      each to an entry with that normal form. */
  lemma {:induction false} KeyedByKeys(xs: seq<string>, norm: string -> string, k: string)
    ensures k in KeyedBy(xs, norm) <==> exists i :: 0 <= i < |xs| && norm(xs[i]) == k
    ensures k in KeyedBy(xs, norm) ==> KeyedBy(xs, norm)[k] in xs && norm(KeyedBy(xs, norm)[k]) == k
  {
    if xs != [] {
      var init := xs[..|xs| - 1];
      KeyedByKeys(init, norm, k);
      if k != norm(xs[|xs| - 1]) {
        if exists i :: 0 <= i < |xs| && norm(xs[i]) == k {
          var i :| 0 <= i < |xs| && norm(xs[i]) == k;
          assert init[i] == xs[i];
        }
        if k in KeyedBy(init, norm) {
          assert KeyedBy(init, norm)[k] in xs;
        }
      }
    }
  }

  /** The last entry with a given normal form is the one the index keeps. */
  lemma {:induction false} KeyedByLastWins(xs: seq<string>, norm: string -> string, i: nat)
    requires i < |xs|
    requires forall j :: i < j < |xs| ==> norm(xs[j]) != norm(xs[i])
    ensures norm(xs[i]) in KeyedBy(xs, norm) && KeyedBy(xs, norm)[norm(xs[i])] == xs[i]
  {
    if i < |xs| - 1 {
      var init := xs[..|xs| - 1];
      forall j | i < j < |init| ensures norm(init[j]) != norm(init[i]) {
        assert init[j] == xs[j];
      }
      KeyedByLastWins(init, norm, i);
    }
  }

  /** Index of the first alias present in the header index. */
  function FirstAlias(aliases: seq<string>, index: map<string, string>): (r: Option<nat>)
    ensures r.Some? ==> r.value < |aliases| && aliases[r.value] in index
    ensures r.Some? ==> forall j :: 0 <= j < r.value ==> aliases[j] !in index
    ensures r.None? ==> forall j :: 0 <= j < |aliases| ==> aliases[j] !in index
  {
    if aliases == [] then None
    else if aliases[0] in index then Some(0)
    else match FirstAlias(aliases[1..], index)
      case None => None
      case Some(i) =>
        assert forall j :: 1 <= j <= i ==> aliases[j] == aliases[1..][j - 1];
        Some(i + 1)
  }

  /** `_auto_detect_columns` for one field: the header whose normal form is the
      field's first matching alias, or None when no header matches. */
  function AutoColumn(headers: seq<string>, f: Field): Option<string> {
    var index := HeaderIndex(headers);
    match FirstAlias(Aliases(f), index)
    case None => None
    case Some(i) => Some(index[Aliases(f)[i]])
  }

  /** A detected column is a header whose normal form is one of the field's
      aliases, and nothing is detected exactly when no header has such a form. */
  lemma AutoColumnMeaning(headers: seq<string>, f: Field)
    ensures var r := AutoColumn(headers, f);
      && (r.Some? ==> r.value in headers && NormalizeHeader(r.value) in Aliases(f))
      && (r.None? <==> forall h :: h in headers ==> NormalizeHeader(h) !in Aliases(f))
  {
    var index := HeaderIndex(headers);
    var r := AutoColumn(headers, f);
    match FirstAlias(Aliases(f), index)
    case None =>
      forall h | h in headers ensures NormalizeHeader(h) !in Aliases(f) {
        var i :| 0 <= i < |headers| && headers[i] == h;
        KeyedByKeys(headers, NormalizeHeader, NormalizeHeader(h));
      }
    case Some(i) =>
      KeyedByKeys(headers, NormalizeHeader, Aliases(f)[i]);
      var h := index[Aliases(f)[i]];
      assert NormalizeHeader(h) in Aliases(f);
  }

  /** The configured column for a field. */
  function Configured(col: ColumnMapping, f: Field): Option<string> {
    match f
    case TeamNameField => col.teamName
    case TeamMembersField => col.teamMembers
    case ProjectNameField => col.projectName
    case DescriptionField => col.description
    case GithubUrlField => col.githubUrl
    case VideoUrlField => col.videoUrl
    case SubmittedAtField => col.submittedAt
  }

  // ---------------------------------------------------------------------
  // Rows and the table
  // ---------------------------------------------------------------------

  /** One CSV row: column name to cell text. */
  type Row = map<string, string>

  /** The CSV file as the reader delivers it: the header line and the rows. */
  datatype CsvTable = CsvTable(headers: seq<string>, rows: seq<Row>)

  /** The column names a row has a non-empty cell for. */
  predicate Filled(row: Row, column: Option<string>) {
    column.Some? && column.value != "" && column.value in row && row[column.value] != ""
  }

  /** `_get`: the configured column's cell if it is non-empty, else the
      detected column's, stripped; "" when neither has text. */
  function GetField(row: Row, configured: Option<string>, auto: Option<string>): (r: string)
    ensures r != "" ==> exists c :: c in row && r == Strip(row[c])
    ensures Filled(row, configured) ==> r == Strip(row[configured.value])
    ensures !Filled(row, configured) && !Filled(row, auto) ==> r == ""
  {
    if Filled(row, configured) then Strip(row[configured.value])
    else if Filled(row, auto) then Strip(row[auto.value])
    else ""
  }

  /** The configured extra columns present in the row, stripped. */
  function ExtraFields(row: Row, extra: seq<string>): (m: map<string, string>)
    ensures forall c :: c in m <==> c in extra && c in row
    ensures forall c :: c in m ==> m[c] == Strip(row[c])
  {
    if extra == [] then map[]
    else
      var init := ExtraFields(row, extra[..|extra| - 1]);
      var c := extra[|extra| - 1];
      assert extra == extra[..|extra| - 1] + [c];
      if c in row then init[c := Strip(row[c])] else init
  }

  /** A field of a row, by the configured column and then the detected one. */
  function Cell(headers: seq<string>, row: Row, col: ColumnMapping, f: Field): string {
    GetField(row, Configured(col, f), AutoColumn(headers, f))
  }

  /** One row as submission number `idx`. */
  function ParseRow(idx: nat, headers: seq<string>, row: Row, col: ColumnMapping,
                    hack: Option<HackathonConfig>, parseIso: string -> Option<real>,
                    up: string -> UrlParts): (s: Submission)
    ensures s.teamNumber == idx
    ensures s.teamName == Cell(headers, row, col, TeamNameField)
    ensures s.projectName == (if Cell(headers, row, col, ProjectNameField) != ""
                              then Cell(headers, row, col, ProjectNameField) else s.teamName)
    ensures s.projectName == "" ==> s.teamName == ""
    ensures s.description == Cell(headers, row, col, DescriptionField)
    ensures s.github == ClassifyGithubUrlAsWritten(Cell(headers, row, col, GithubUrlField), up)
    ensures s.video == ClassifyVideoUrl(Cell(headers, row, col, VideoUrlField))
    ensures Cell(headers, row, col, SubmittedAtField) == "" ==> s.timing == DefaultTiming("")
    ensures Cell(headers, row, col, SubmittedAtField) != "" ==>
              s.timing == ComputeLateness(Cell(headers, row, col, SubmittedAtField), hack, parseIso)
    ensures s.sanitizedName == TeamDirName(idx, s.projectName)
    ensures Cut(s.sanitizedName, '_') == Some((Pad3(idx), SanitizeName(s.projectName)))
    ensures s.extraFields == ExtraFields(row, col.extra)
  {
    var teamName := Cell(headers, row, col, TeamNameField);
    var project := Cell(headers, row, col, ProjectNameField);
    var projectName := if project != "" then project else teamName;
    var submitted := Cell(headers, row, col, SubmittedAtField);
    TeamDirNameRoundTrip(idx, projectName);
    Submission(
      idx, teamName, projectName, TeamDirName(idx, projectName), Cell(headers, row, col, DescriptionField),
      ClassifyGithubUrlAsWritten(Cell(headers, row, col, GithubUrlField), up),
      ClassifyVideoUrl(Cell(headers, row, col, VideoUrlField)),
      if submitted != "" then ComputeLateness(submitted, hack, parseIso) else DefaultTiming(""),
      ExtraFields(row, col.extra))
  }

  /** A row whose GitHub link points into a branch ("/tree/") keeps that
      reference in its clone URL, as `classify_github_url` is written. */
  lemma ParseRowKeepsTreeRef(idx: nat, headers: seq<string>, row: Row, col: ColumnMapping,
                             hack: Option<HackathonConfig>, parseIso: string -> Option<real>,
                             up: string -> UrlParts)
    requires var g := ClassifyGithubUrlAsWritten(Cell(headers, row, col, GithubUrlField), up);
      && g.isValid
      && Contains(g.cleaned.value, "/tree/") && !Contains(g.cleaned.value, "/blob/")
      && g.cleaned.value[|g.cleaned.value| - 1] != '/'
    ensures var g := ParseRow(idx, headers, row, col, hack, parseIso, up).github;
      && g.cloneUrl == Some(g.cleaned.value + ".git")
      && Contains(g.cloneUrl.value, "/tree/")
  {
    TreeRefKeptAsWritten(Cell(headers, row, col, GithubUrlField), up);
  }

  /** Rows numbered from 1 in order, each given to `parse` with its number. */
  function Numbered<T>(rows: seq<Row>, parse: (nat, Row) -> T): (r: seq<T>)
    ensures |r| == |rows|
    ensures forall i :: 0 <= i < |rows| ==> r[i] == parse(i + 1, rows[i])
  {
    seq(|rows|, i requires 0 <= i < |rows| => parse(i + 1, rows[i]))
  }

  /** `parse_csv`: None when there is no CSV file; otherwise one submission per
      row, in file order, the row at position `i` parsed as team `i + 1`. */
  function ParseCsv(table: Option<CsvTable>, col: ColumnMapping, hack: Option<HackathonConfig>,
                    parseIso: string -> Option<real>, up: string -> UrlParts): (r: Option<seq<Submission>>)
    ensures r.Some? <==> table.Some?
    ensures r.Some? ==> |r.value| == |table.value.rows|
    ensures r.Some? ==> forall i :: 0 <= i < |r.value| ==>
      r.value[i] == ParseRow(i + 1, table.value.headers, table.value.rows[i], col, hack, parseIso, up)
  {
    match table
    case None => None
    case Some(t) =>
      Some(Numbered(t.rows, (idx: nat, row: Row) => ParseRow(idx, t.headers, row, col, hack, parseIso, up)))
  }

  /** The parsed submissions are numbered 1, 2, ... in file order, and their
      directory names are pairwise distinct, each beginning with the
      zero-padded number and '_'. */
  lemma ParseCsvNumbering(table: CsvTable, col: ColumnMapping, hack: Option<HackathonConfig>,
                          parseIso: string -> Option<real>, up: string -> UrlParts)
    ensures var subs := ParseCsv(Some(table), col, hack, parseIso, up).value;
      && (forall i :: 0 <= i < |subs| ==> subs[i].teamNumber == i + 1)
      && (forall i :: 0 <= i < |subs| ==> DirLedBy(subs[i].sanitizedName, i + 1))
      && (forall i, j :: 0 <= i < j < |subs| ==> subs[i].sanitizedName != subs[j].sanitizedName)
  {
    var subs := ParseCsv(Some(table), col, hack, parseIso, up).value;
    forall k | 0 <= k < |subs|
      ensures subs[k].teamNumber == k + 1
      ensures DirLedBy(subs[k].sanitizedName, k + 1)
    {
      var _ := ParseRow(k + 1, table.headers, table.rows[k], col, hack, parseIso, up);
    }
    NumberedDirsDistinct(subs);
  }

  /** The directory name splits at its first '_' into `Pad3(n)` and the rest. */
  predicate DirLedBy(name: string, n: nat) {
    Cut(name, '_').Some? && Cut(name, '_').value.0 == Pad3(n)
  }

  /** Directories led by their distinct positions' numbers are distinct. */
  lemma NumberedDirsDistinct(subs: seq<Submission>)
    requires forall k :: 0 <= k < |subs| ==> DirLedBy(subs[k].sanitizedName, k + 1)
    ensures forall i, j :: 0 <= i < j < |subs| ==> subs[i].sanitizedName != subs[j].sanitizedName
  {
    forall i, j | 0 <= i < j < |subs|
      ensures subs[i].sanitizedName != subs[j].sanitizedName
    {
      assert DirLedBy(subs[i].sanitizedName, i + 1) && DirLedBy(subs[j].sanitizedName, j + 1);
      assert DigitsValue(Pad3(i + 1)) != DigitsValue(Pad3(j + 1));
    }
  }
}
