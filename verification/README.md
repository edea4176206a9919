# hackathon-reviewer: the evidence-to-score pipeline, modelled in Dafny

hackathon-reviewer takes a batch of hackathon submissions from a CSV export and
runs them through several stages. It parses the rows into submissions. It clones
each repository and reads its git history. It scans the checkout for AI-integration
patterns, boilerplate templates and frameworks. Language models review the code
and the demo video. The scoring stage merges everything into one weighted score per
project, and the reporting stage writes flags, a leaderboard and a summary.

This project models the deterministic part of that pipeline and proves properties
of it. It covers:

- the submission parser: name sanitising, GitHub and video URL classification,
  lateness, header auto-detection and numbering;
- the clone stage, after git has run: file tally, primary language, commit-log
  parsing, the hackathon-period split and resuming;
- the static analysis score and depth buckets, boilerplate detection and the
  framework list;
- the scoring stage: the four heuristics, the LLM-first merge, the weighted total
  and the ranking;
- flag collection, the leaderboard rows and the flag counts of the reports;
- the score template the code-review prompt carries, and the parser that reads
  the scores back from the model's answer.

Modules:

| module | file | models |
|---|---|---|
| `Wrappers` | wrappers.dfy | `Option` |
| `Numeric` | numeric.dfy | `max/min` clamping; Python's `round(x, n)` (half to even) on reals |
| `Text` | text.dfy | the `str` methods used: `lower`, `title`, `strip`, `split`, `partition`, `replace`, slicing, `int` digits |
| `Collections` | collections.dfy | `sorted(..., reverse=True)` (stable), `{key(x): x for x in xs}`, `list(set(...))`, list-extending loops |
| `Models` | models.dfy | the records of `models.py`, with their defaults |
| `Parse` | parse.dfy | `stages/parse.py` |
| `Clone` | clone.dfy | `stages/clone.py` |
| `StaticAnalysis` | static_analysis.dfy | `stages/static_analysis.py` |
| `Scoring` | scoring.dfy | `stages/scoring.py` |
| `Reporting` | reporting.dfy | `stages/reporting.py` |
| `Anthropic` | anthropic.dfy | `providers/anthropic.py`: the score section and `_parse_scores` |

Model conventions:

- Floats are modelled as exact reals.
- `math.exp` and `math.log` come in as a `Numerics` record of function values. Its only assumption is that `exp` is never negative.
- Timestamps are wall-clock minutes as reals. `datetime.fromisoformat` is a parameter `parseIso`, which ignores any UTC offset: commit dates have their offset dropped without conversion (clone.py:147), so they are compared by local wall-clock time.
- `urlparse` is a parameter returning the host and path.
- The file system, `git` and the regular-expression engine are replaced by what they observe:
  - the walked files with their line counts;
  - the regex match counts per file;
  - the existing marker files;
  - git's exit code and stderr, and the log lines.
- A dictionary whose iteration order matters is a sequence of pairs. A dictionary that is only looked up is a `map`.

In `_score_one` the code review's score is assigned first, and the video
analysis's score then overwrites it for `demo` (scoring.py:156-159).
`Scoring.MergePrecedence` states this order.

## Model

| member | source | states |
|---|---|---|
| Numeric.Clamp | src/hackathon_reviewer/stages/scoring.py:52 | the clamp lands in [lo, hi], leaves values already there alone, and sends values below or above to the nearest end |
| Numeric.RoundedNumerator | src/hackathon_reviewer/stages/scoring.py:177 | `round(x, n)` picks an integer numerator within half a unit of `x * 10^n`, so it is the floor or the floor plus one |
| Numeric.RoundError | src/hackathon_reviewer/stages/scoring.py:186 | rounding moves a value by at most half a unit of the last kept digit |
| Numeric.RoundWithin | src/hackathon_reviewer/stages/scoring.py:177 | rounding never leaves an interval whose ends are whole numbers, so a heuristic in [1, 10] stays there after `round(val, 1)` |
| Numeric.RoundOnGrid | src/hackathon_reviewer/stages/scoring.py:186 | a value that already has the kept number of decimals is unchanged by rounding |
| Collections.SortDesc | src/hackathon_reviewer/stages/scoring.py:227 | the sorted list is a permutation of the input, ordered by descending key |
| Collections.SortDescStable | src/hackathon_reviewer/stages/scoring.py:227 | for every key value, the elements carrying it keep their input order, as Python's stable sort does |
| Collections.IndexBy | src/hackathon_reviewer/stages/scoring.py:210-213 | every record's team is a key, every key is some record's team, and each entry is filed under its own team |
| Collections.IndexByLastWins | src/hackathon_reviewer/stages/reporting.py:37-38 | when two records share a team, the dictionary keeps the later one |
| Collections.Dedupe | src/hackathon_reviewer/stages/static_analysis.py:305 | the result has no repeats and holds exactly the input's elements |
| Collections.FlattenAppend | src/hackathon_reviewer/stages/reporting.py:40-134 | a loop that extends one list per element, run over two lists in turn, gives the two outputs concatenated |
| Collections.FlattenTraced | src/hackathon_reviewer/stages/reporting.py:40-134 | every output element comes from the input element its origin names, and origins never decrease |
| StaticAnalysis.AiPatternWeights | src/hackathon_reviewer/stages/static_analysis.py:50-154 | the weights of the pattern table sum to 34 |
| StaticAnalysis.AiPatternsWellFormed | src/hackathon_reviewer/stages/static_analysis.py:50-154 | no two patterns of the table share a name |
| StaticAnalysis.TotalMatches | src/hackathon_reviewer/stages/static_analysis.py:191-216 | the reference count of a pattern is positive exactly when the reference list of files holding it is non-empty |
| StaticAnalysis.ScanFile | src/hackathon_reviewer/stages/static_analysis.py:205-216 | after one more file, every pattern's entry agrees with the reference definitions over the files seen so far |
| StaticAnalysis.CollectPatterns | src/hackathon_reviewer/stages/static_analysis.py:191-216 | for a table with distinct names, a pattern is recorded exactly when some regex of it matched in some file. Only the first matching regex of a file counts, and its files and total agree with the reference definitions |
| StaticAnalysis.ScoreFromBound | src/hackathon_reviewer/stages/static_analysis.py:218-221 | with matches capped at five per pattern, the score is at most five times the weight sum |
| StaticAnalysis.ScoreFromPositive | src/hackathon_reviewer/stages/static_analysis.py:218-221 | one detected pattern of positive weight makes the score positive |
| StaticAnalysis.ScoreFromNothing | src/hackathon_reviewer/stages/static_analysis.py:218-221 | with nothing detected the score is 0 |
| StaticAnalysis.DepthFor | src/hackathon_reviewer/stages/static_analysis.py:223-233 | the depth is "none" exactly when no pattern was detected |
| StaticAnalysis.DepthMonotone | src/hackathon_reviewer/stages/static_analysis.py:223-233 | more patterns and a higher score never give a lower depth bucket |
| StaticAnalysis.DetectWith | src/hackathon_reviewer/stages/static_analysis.py:184-235 | a missing repository yields nothing. Otherwise the detected patterns agree with the reference definitions, the score is at most 5 × the weight sum and is 0 exactly when nothing was found, and the depth is "none" exactly then |
| StaticAnalysis.DetectAiIntegration | src/hackathon_reviewer/stages/static_analysis.py:184-235 | the same as `DetectWith`, over the shipped pattern table, with the score bounded by 170 |
| StaticAnalysis.FirstIndicated | src/hackathon_reviewer/stages/static_analysis.py:240-247 | the template found is met and none before it is; when none is found, no template is met |
| StaticAnalysis.DetectBoilerplate | src/hackathon_reviewer/stages/static_analysis.py:238-248 | the reported template is the first one with at least 60% of its marker files present. "Heavy" is reported exactly when a template is found and the code is under 500 lines. A missing repository reports nothing |
| StaticAnalysis.BoilerplateThresholds | src/hackathon_reviewer/stages/static_analysis.py:156-169 | two of the three Create React App markers suffice, while Vite needs both of its markers |
| StaticAnalysis.KeywordHits | src/hackathon_reviewer/stages/static_analysis.py:278-305 | every framework reported for a config file comes from a detector of that file |
| StaticAnalysis.AnalyzeStructure | src/hackathon_reviewer/stages/static_analysis.py:251-306 | the framework list has no repeats and holds exactly the frameworks some existing config file signals. A missing repository gives the default structure |
| StaticAnalysis.ProcessOne | src/hackathon_reviewer/stages/static_analysis.py:313-335 | a failed clone gives the empty result. The score is 0 exactly when no pattern was found, and so is the depth "none". "Boilerplate-heavy" implies under 500 lines, and frameworks never repeat |
| Clone.CloneRepo | src/hackathon_reviewer/stages/clone.py:56-69 | the clone succeeds exactly when a valid checkout exists or git exits with 0, and exactly then is there no error. The error is at most 200 characters of stripped stderr, or "unknown_error" for empty stderr |
| Clone.Lookup | src/hackathon_reviewer/stages/clone.py:38-47 | the language found is the table's entry for the suffix, and no language means the suffix is not in the table |
| Clone.Suffix | src/hackathon_reviewer/stages/clone.py:87 | a suffix is empty, or a single dot-led ending of the name that is shorter than the name |
| Clone.SuffixHasOneDot | src/hackathon_reviewer/stages/clone.py:32-36 | no suffix is ".min.js" or ".min.css", so those two skip entries never match |
| Clone.MinJsSuffix | src/hackathon_reviewer/stages/clone.py:87-88 | the suffix of any minified bundle `<stem>.min.js` is ".js", the part after its last dot |
| Clone.MinifiedNotSkippedAsWritten | src/hackathon_reviewer/stages/clone.py:87-88 | as written, no minified bundle `<stem>.min.js` outside the lock-file list is skipped, and it counts as JavaScript |
| Clone.SkippedExtendsAsWritten | src/hackathon_reviewer/stages/clone.py:87-88 | the corrected skip test skips everything the written one skips, and every minified bundle |
| Clone.BundleSkipped | src/hackathon_reviewer/stages/clone.py:32-36 | the corrected skip test skips every `<stem>.min.js` and `<stem>.min.css` |
| Clone.AddLoc | src/hackathon_reviewer/stages/clone.py:99 | adding lines to a language keeps languages distinct, adds that language, and adds the lines to the total |
| Clone.TallyNext | src/hackathon_reviewer/stages/clone.py:80-99 | one file adds at most one to the file count, keeps the languages' total within the overall lines, and adds only its own language |
| Clone.TallyClasses | src/hackathon_reviewer/stages/clone.py:80-99 | languages are distinct, the file count is at most the files walked, and the per-language total never exceeds the total lines |
| Clone.TallyLanguages | src/hackathon_reviewer/stages/clone.py:80-99 | a language is tallied exactly when some counted file belongs to it |
| Clone.FirstMax | src/hackathon_reviewer/stages/clone.py:105 | `max(d, key=d.get)` is the first entry with the largest count |
| Clone.RankLanguages | src/hackathon_reviewer/stages/clone.py:103-105 | the sorted table is a descending permutation with the same languages and total. The primary language has the largest count, and is "unknown" for an empty table |
| Clone.ScanRepoFiles | src/hackathon_reviewer/stages/clone.py:76-124 | a missing repository gives the defaults. The languages are exactly those tallied, sorted descending, and the primary one is a largest. README and tests are found exactly when a README name is at top level or a test-like code file is walked |
| Clone.ScanLanguages | src/hackathon_reviewer/stages/clone.py:80-99 | a language is listed exactly when some walked file that the written skip test lets through, and that is readable, has one of its suffixes; minified bundles are among them |
| Clone.MinifiedBundleCounted | src/hackathon_reviewer/stages/clone.py:86-97 | a readable `<stem>.min.js` that is not a lock file passes the written skip test and counts all its lines toward JavaScript |
| Clone.MinifiedBundleScan | src/hackathon_reviewer/stages/clone.py:76-124 | a repository holding only a readable `<stem>.min.js` of n lines reports one file, n lines, JavaScript with n lines, and JavaScript as primary |
| Clone.TotalSort | src/hackathon_reviewer/stages/clone.py:103 | sorting the language table keeps its line total |
| Clone.PrimaryIsLargest | src/hackathon_reviewer/stages/clone.py:103-105 | the first largest entry of the unsorted table is still a largest after sorting |
| Clone.LogFields | src/hackathon_reviewer/stages/clone.py:144-146 | the four fields join back into the line, and the first three hold no '\|' |
| Clone.LogFieldsRoundTrip | src/hackathon_reviewer/stages/clone.py:136-146 | a line git formats as `%H\|%aI\|%an\|%s` splits back into its four fields, even when the message holds '\|' |
| Clone.ParseLogAppend | src/hackathon_reviewer/stages/clone.py:143-151 | parsing works line by line: a log split in two parses to the two parts' commits |
| Clone.DeadlineText | src/hackathon_reviewer/stages/clone.py:165-170 | the deadline text handed to the parser holds no '+' |
| Clone.PeriodPartition | src/hackathon_reviewer/stages/clone.py:173-179 | with the start no later than the deadline, each commit falls in exactly one of before, during and after |
| Clone.CountSort | src/hackathon_reviewer/stages/clone.py:156 | sorting the commits by date changes no window's count |
| Clone.PeriodFlagThresholds | src/hackathon_reviewer/stages/clone.py:181-189 | the classification in whole numbers. No early commit is clean. One to three early commits under 10% is minor prior work. Half or more is pre-existing. Anything else early is significant prior work |
| Clone.PeriodFlagMonotone | src/hackathon_reviewer/stages/clone.py:181-189 | more commits before the start never give a cleaner classification |
| Clone.EarliestOrder | src/hackathon_reviewer/stages/clone.py:156-158 | after sorting, the first commit is the earliest and the last is the latest, and both are commits of the log |
| Clone.AnalyzeGitHistory | src/hackathon_reviewer/stages/clone.py:131-191 | the counts, dump flag and authors are those of the parsed log, and the first and last dates are its extremes. The period flag is known exactly when there are commits and both bounds parse, and then the window counts and the flag follow from the commits. Otherwise the history is the default |
| Clone.HistoryOf | src/hackathon_reviewer/stages/clone.py:156-162 | for a non-empty log, the first and last dates are attained extremes, and the dump flag holds exactly for one commit |
| Clone.PeriodSplit | src/hackathon_reviewer/stages/clone.py:173-189 | the window counts, taken over the sorted list, are the counts over the commits in any order, and the flag is set |
| Clone.ProcessOne | src/hackathon_reviewer/stages/clone.py:198-219 | a submission without a clone URL gets the default record with a "no valid URL" error. Success means a valid checkout or a zero exit code, and exactly then is there no error. Only a success is scanned and its history analysed |
| Clone.RunClone | src/hackathon_reviewer/stages/clone.py:226-250 | there is one result per submission, in order. A team whose saved clone succeeded keeps it, and every other team is processed afresh |
| Clone.RunCloneIdempotent | src/hackathon_reviewer/stages/clone.py:232-241 | resuming from the stage's own output reproduces that output |
| Clone.ResumedOwnOutput | src/hackathon_reviewer/stages/clone.py:232-236 | with distinct teams, the saved results are found again under their own team |
| Scoring.LogScale | src/hackathon_reviewer/stages/scoring.py:25-29 | the logistic curve is 0 for non-positive values and otherwise lies in (0, 1] |
| Scoring.ImpactHeuristic | src/hackathon_reviewer/stages/scoring.py:36-52 | the impact estimate lies in [1, 8]. A description of 160 words or more together with a README gives at least 3 |
| Scoring.AiUseBonus | src/hackathon_reviewer/stages/scoring.py:62-71 | the pattern bonus lies in [0, 1.5] |
| Scoring.AiUseHeuristic | src/hackathon_reviewer/stages/scoring.py:55-72 | the AI-use estimate lies in [1, 8], is exactly 1 with integration score 0, and is above 1 otherwise |
| Scoring.DepthBase | src/hackathon_reviewer/stages/scoring.py:75-95 | the depth estimate before penalties lies in [0, 9] |
| Scoring.DepthHeuristic | src/hackathon_reviewer/stages/scoring.py:75-106 | the depth estimate lies in [1, 9] |
| Scoring.DepthPenaltiesLower | src/hackathon_reviewer/stages/scoring.py:96-104 | clearing the gaming signals never lowers depth. Above the floor, the difference is exactly 2 for a dump, plus 2 for heavy boilerplate, plus 3 for a pre-existing project or else 1.5 for significant prior work |
| Scoring.DemoHeuristic | src/hackathon_reviewer/stages/scoring.py:109-122 | the demo estimate is 1 without a downloaded video. Otherwise it ranges from 1.3 below 30 s up to its best in the 60-200 s band |
| Scoring.DemoWindowIsBest | src/hackathon_reviewer/stages/scoring.py:109-122 | a downloaded video of 60 to 200 seconds gets the best demo estimate any evidence can get |
| Scoring.Heuristic | src/hackathon_reviewer/stages/scoring.py:168-175 | every heuristic a criterion can fall back to lies in [1, 9] |
| Scoring.MergeAll | src/hackathon_reviewer/stages/scoring.py:153-179 | there is one merged entry for each configured criterion and for nothing else |
| Scoring.ScoreOne | src/hackathon_reviewer/stages/scoring.py:129-188 | the record carries the submission's team. Without criteria it is empty with total 0. Otherwise it scores exactly the configured criteria, each by the merge, and the total is the weighted sum rounded to two places |
| Scoring.MergePrecedence | src/hackathon_reviewer/stages/scoring.py:153-179 | for `demo`, a successful video's score comes first. Next comes a successful review's score for the key, both tagged "llm_review". Otherwise the heuristic rounded to one place is tagged "heuristic", and an unknown criterion gets 5 |
| Scoring.ScoresInRange | src/hackathon_reviewer/stages/scoring.py:153-179 | with LLM scores in [1, 10], every merged score lies in [1, 10] |
| Scoring.WeightedSumBounds | src/hackathon_reviewer/stages/scoring.py:182-185 | with non-negative weights and scores in [1, 10], the weighted sum lies between the weight sum and ten times it |
| Scoring.WeightedTotalBounds | src/hackathon_reviewer/stages/scoring.py:182-186 | the stored total is within 0.005 of the exact weighted sum, which lies between the weight sum and ten times it |
| Scoring.NoEvidenceScoresNeutral | src/hackathon_reviewer/stages/scoring.py:147-179 | with no repository, analysis, review or video, every score is heuristic. AI use, depth and demo are exactly 1, and impact is at most 2 |
| Scoring.ScoreAll | src/hackathon_reviewer/stages/scoring.py:215-225 | there is one record per submission, in submission order, each scored from its team's evidence |
| Scoring.RunScoring | src/hackathon_reviewer/stages/scoring.py:195-227 | disabled scoring gives nothing. Otherwise the result is a permutation of the per-submission records, ordered by descending total |
| Scoring.RankingCoversEverySubmission | src/hackathon_reviewer/stages/scoring.py:215-227 | every submission's own record appears in the ranking |
| Scoring.RankingIsStable | src/hackathon_reviewer/stages/scoring.py:227 | records with equal totals appear in the order of their submissions |
| Scoring.AllLlmExample | src/hackathon_reviewer/stages/scoring.py:153-186 | a review of impact 7, depth 6 and AI use 8, with a video demo of 5 and weights 0.25/0.20/0.30/0.25, gives all-LLM scores and a total of 6.45 |
| Parse.ReplaceOthers | src/hackathon_reviewer/stages/parse.py:189 | each character outside `[a-zA-Z0-9_-]` becomes '_', and every other character is kept in place |
| Parse.Collapse | src/hackathon_reviewer/stages/parse.py:189 | collapsing keeps the first and last characters, adds nothing new, and leaves no "__" |
| Parse.SanitizeNameClean | src/hackathon_reviewer/stages/parse.py:187-190 | a sanitized name has at most 50 characters from `[a-z0-9_-]`, no "__", and no leading '_' |
| Parse.SanitizeFixpoint | src/hackathon_reviewer/stages/parse.py:187-190 | a name that is already clean is left unchanged |
| Parse.SanitizeIdempotent | src/hackathon_reviewer/stages/parse.py:187-190 | sanitizing twice is sanitizing once, when the 50-character cut left no trailing '_' |
| Parse.Pad3 | src/hackathon_reviewer/stages/parse.py:221 | `{n:03d}` is at least three digits and reads back as n |
| Parse.TeamDirNameRoundTrip | src/hackathon_reviewer/stages/parse.py:219-222 | the directory name splits at its first '_' into the padded number, which reads back as the team number, and the sanitized name |
| Parse.TeamDirNamesDistinct | src/hackathon_reviewer/stages/parse.py:219-222 | different team numbers give different directory names, whatever the project names |
| Parse.WithScheme | src/hackathon_reviewer/stages/parse.py:47-48 | the URL handed on always starts with "http" |
| Parse.CloneBaseShape | src/hackathon_reviewer/stages/parse.py:52-54 | the base is a prefix of the URL with no "/blob/" (and, when cut, no "/tree/"), no trailing '/', and ends just before a '/' |
| Parse.ClassifyWith | src/hackathon_reviewer/stages/parse.py:30-66 | empty input gives "empty_url". The URL is valid exactly when it is non-empty and its host is GitHub, and exactly then is there a clone URL, which is the cleaned URL's base plus ".git". Issues name a branch reference or the one failure |
| Parse.ClassifyGithubUrlAsWritten | src/hackathon_reviewer/stages/parse.py:52-53 | as written, the clone URL is built from the URL cut at "/blob/" only |
| Parse.ClassifyGithubUrl | src/hackathon_reviewer/stages/parse.py:30-66 | the corrected classifier: the clone URL's base has both "/tree/" and "/blob/" cut |
| Parse.ClassifyVariantsAgree | src/hackathon_reviewer/stages/parse.py:52-54 | the written and corrected classifiers differ at most in the clone URL, and only for a URL that holds "/tree/" |
| Parse.TreeRefKeptAsWritten | src/hackathon_reviewer/stages/parse.py:52-53 | as written, a valid URL with "/tree/" and no "/blob/" or trailing '/' keeps the branch reference inside its clone URL |
| Parse.FirstMatch | src/hackathon_reviewer/stages/parse.py:79-93 | the check found matches and no earlier one does; when none is found, no check matches |
| Parse.ClassifyVideoMeaning | src/hackathon_reviewer/stages/parse.py:69-109 | a known platform is reported exactly when a check matches, and it is the first one. Custom needs an http URL without "example.com". The URL is valid exactly for a known platform (except an uploading Screen Studio link) or Custom, and empty input is flagged |
| Parse.VideoPlatformPrecedence | src/hackathon_reviewer/stages/parse.py:79-93 | a URL gets the platform of the first check it matches |
| Parse.YouTubeFirst | src/hackathon_reviewer/stages/parse.py:79-81 | a URL naming youtube.com is YouTube whatever else it names |
| Parse.CategoryMonotone | src/hackathon_reviewer/stages/parse.py:128-139 | more minutes late never give a milder bucket |
| Parse.ComputeLateness | src/hackathon_reviewer/stages/parse.py:116-141 | the submission is late exactly when both instants parse and it is after the deadline. Then the minutes are within 0.05 of the delay, and the bucket is grace period exactly within the grace minutes. Otherwise it is on time |
| Parse.LaterIsNoMilder | src/hackathon_reviewer/stages/parse.py:116-141 | against the same deadline, a later submission is also late and in no milder bucket |
| Parse.KeyedByKeys | src/hackathon_reviewer/stages/parse.py:161 | the header index has exactly the normalised headers as keys, each mapped to a header with that form |
| Parse.KeyedByLastWins | src/hackathon_reviewer/stages/parse.py:161 | of two headers with the same normal form, the index keeps the later |
| Parse.FirstAlias | src/hackathon_reviewer/stages/parse.py:164-169 | the alias found is present and no earlier alias is; when none is found, no alias is present |
| Parse.AutoColumnMeaning | src/hackathon_reviewer/stages/parse.py:159-171 | a detected column is a header whose normal form is one of the field's aliases, and nothing is detected exactly when no header has such a form |
| Parse.GetField | src/hackathon_reviewer/stages/parse.py:206-215 | a non-empty configured cell wins. Any value returned is a stripped cell of the row, and neither column having text gives "" |
| Parse.ExtraFields | src/hackathon_reviewer/stages/parse.py:233-236 | the extra fields are exactly the configured extra columns present in the row, stripped |
| Parse.ParseRow | src/hackathon_reviewer/stages/parse.py:217-249 | the submission carries its number and the row's team name. The project name falls back to the team name when its cell is empty. The directory name splits into the padded number and the sanitized project name. The GitHub info comes from the classifier as written, the video info from the video classifier, and the lateness is computed only when a submission time is given. The extra fields are the configured ones |
| Parse.ParseRowKeepsTreeRef | src/hackathon_reviewer/stages/parse.py:226 | a row whose GitHub link points into a branch ("/tree/") keeps the branch reference in its clone URL |
| Parse.Numbered | src/hackathon_reviewer/stages/parse.py:217 | row i is parsed as number i + 1, one result per row |
| Parse.ParseCsv | src/hackathon_reviewer/stages/parse.py:193-251 | there is a result exactly when the CSV exists, with one submission per row in file order |
| Parse.ParseCsvNumbering | src/hackathon_reviewer/stages/parse.py:217-222 | the submissions are numbered 1, 2, ... in order, and their directory names are pairwise distinct, each led by its number |
| Parse.NumberedDirsDistinct | src/hackathon_reviewer/stages/parse.py:221-222 | directory names led by distinct numbers are distinct |
| Reporting.FlagsForMeaning | src/hackathon_reviewer/stages/reporting.py:40-132 | a submission raises exactly the flag types whose condition holds, each once, in check order. Each flag carries the team and its type's severity |
| Reporting.FlagExclusions | src/hackathon_reviewer/stages/reporting.py:44-132 | an invalid URL and a failed clone or download are never both flagged. A failed clone needs a valid URL and metadata, an unrelated video needs a successful analysis, and without a hackathon there are no lateness or git flags |
| Reporting.CollectAppend | src/hackathon_reviewer/stages/reporting.py:40-134 | collecting over two lists of submissions is collecting over each in turn |
| Reporting.CollectOrdered | src/hackathon_reviewer/stages/reporting.py:40-134 | the flags come grouped by submission, in submission order |
| Reporting.CollectCarriesTeam | src/hackathon_reviewer/stages/reporting.py:30-134 | every collected flag carries some submission's team number and names, and its type's severity |
| Reporting.NoHackathonFlags | src/hackathon_reviewer/stages/reporting.py:96-132 | without a hackathon configured, no lateness, git-period or single-dump flag appears |
| Reporting.LeaderboardRows | src/hackathon_reviewer/stages/reporting.py:178-213 | there is one row per score, with ranks 1, 2, ... and totals non-increasing |
| Reporting.Enumerate | src/hackathon_reviewer/stages/reporting.py:188-213 | row i has rank start + i and is built from the i-th record and its team's other records |
| Reporting.LeaderboardRowContents | src/hackathon_reviewer/stages/reporting.py:185-213 | row i shows the i-th record of the stable descending sort and its criterion scores. The repository, depth and URL columns appear exactly when the team has such a record |
| Reporting.LeaderboardCoversScores | src/hackathon_reviewer/stages/reporting.py:185-213 | every score record has a row, and none beats the first row's total |
| Reporting.FlagCounts | src/hackathon_reviewer/stages/reporting.py:370-372 | there is a count exactly for each type that occurs, equal to its number of flags, and the counts add up to the number of flags |
| Reporting.CountsSum | src/hackathon_reviewer/stages/reporting.py:370-372 | any table holding each type's count sums to the number of flags |
| Anthropic.ScoresSectionLines | src/hackathon_reviewer/providers/anthropic.py:72-77 | the section splits back into the header and one line per criterion, in order. Each line opens with "- ", the title-cased label and ": ", and ends with the description |
| Anthropic.PutMeaning | src/hackathon_reviewer/providers/anthropic.py:86-87 | storing under a label changes only that label's lookup, adds only that entry, and keeps labels unique |
| Anthropic.LabelTableMeaning | src/hackathon_reviewer/providers/anthropic.py:84-87 | a label maps to the key of the last criterion carrying it, every entry comes from a criterion, and no label repeats |
| Anthropic.PyIntMeaning | src/hackathon_reviewer/providers/anthropic.py:99 | `int()` reads back a number's decimal text, also behind a minus, and rejects a token that opens with no digit or sign |
| Anthropic.FirstLabelMinimal | src/hackathon_reviewer/providers/anthropic.py:95-103 | the label loop stops at the first label the line opens with |
| Anthropic.ParseLineMeaning | src/hackathon_reviewer/providers/anthropic.py:89-103 | a line yields a score only if, stripped, it opens with "- " and a known label and a colon. The score is in [1, 10] |
| Anthropic.ParseLinesLastWins | src/hackathon_reviewer/providers/anthropic.py:89-103 | a key has a score exactly when some line yields one for it, and the last such line decides |
| Anthropic.ParseScoresRange | src/hackathon_reviewer/providers/anthropic.py:80-105 | every key returned is a configured criterion's key, with a score in [1, 10] |
| Anthropic.TemplateLineScoreless | src/hackathon_reviewer/providers/anthropic.py:76 | the blank template line holds no number to read |
| Anthropic.TemplateYieldsNoScores | src/hackathon_reviewer/providers/anthropic.py:72-105 | parsing the blank score section yields no scores at all |
| Anthropic.FilledLineParses | src/hackathon_reviewer/providers/anthropic.py:76-103 | with snake-case, distinct keys, an answer line "- Label: n/10 ..." reads back as its own criterion's score, clamped to [1, 10] |

## Left out

- File system, `git` and `subprocess` calls, `os.walk`, `tqdm`, `click` output and JSON reading and writing: these are I/O. The model takes what they observe as parameters: the walked files, the log lines, git's exit code and stderr, the saved results.
- Regular-expression matching of the AI patterns: the model takes the match count of each regex in each file as input, and proves what the scan does with those counts.
- Boilerplate markers and framework keywords are looked up in a given set of existing files and a map of file contents; reading the files is I/O.
- `math.exp` and `math.log`: there is no real exponential in Dafny, so they are parameters, and only the fact that `exp` is never negative is assumed.
- Floating-point rounding errors: arithmetic is exact on reals. `round()` is modelled exactly on those reals, half to even.
- Unicode: `lower`, `title`, `strip`, `isspace` and `int()` are modelled for ASCII. Other characters are kept as they are.
- `_parse_members` (parse.py:178-184) and the member lists: they feed only the reports' text.
- `classify_github_url`'s `urlparse` and `compute_lateness`'s `fromisoformat` are parameters. In `compute_lateness`, a timezone-aware against naive comparison raising `TypeError` is not modelled; both instants are plain minutes.
- Clone.AnalyzeGitHistory: an aware `start_date` (clone.py:167), or a deadline ending in "Z" or "-hh:mm" (clone.py:169 cuts only at '+'), makes the comparisons at clone.py:173-175 raise `TypeError` against the naive commit dates, and nothing in `_process_one` or `run_clone` catches it. The model has no exceptions, so it computes the window counts and the period flag from the wall-clock minutes instead.
- `csv.DictReader`'s handling of short and long rows: a row is a map from header to cell.
- `_get`'s `fallback` argument (parse.py:206): `parse_csv` never passes one.
- The Markdown rendering of the flags report, the per-project reports and the summary (the top-20 table and the title-cased flag names), and the sort of the flag counts: that is text formatting.
- The summary's cloned, downloaded and analysed counts: they are plain `sum` over flags of other stages.
- The LLM calls of the providers, the prompt text other than the score section, and the Gemini provider.
- Parse.SanitizeIdempotent: stated only for names whose 50-character cut does not end in '_'. A cut that ends in '_' is stripped again by a second pass, so sanitizing is not idempotent there.
- Collections.Dedupe: keeps first occurrences in order, whereas `list(set(...))` has an unspecified order. Only membership and no repeats are stated.
- Scoring.ImpactHeuristic: the upper bound proved is 8, not the 10 the source clamps to, because the terms cannot add up to more. The README and 160-word clause is a sample lower bound, not the exact value.
- Scoring.DepthHeuristic: only its range is stated in its contract; its penalties are stated by Scoring.DepthPenaltiesLower.
- Anthropic.FilledLineParses: stated for snake-case keys (lower-case letters, digits and '_') with no two alike; keys with capitals or colons can make labels clash.

## Findings

| source | as written | input that shows it | evidently intended | confidence | as-written member | corrected member |
|---|---|---|---|---|---|---|
| src/hackathon_reviewer/stages/parse.py:52-53 | the "/tree/" cut is assigned to `base` and then overwritten by the "/blob/" cut of the full URL | `https://github.com/o/r/tree/main` gives clone URL `https://github.com/o/r/tree/main.git` | cut both "/tree/" and "/blob/", giving `https://github.com/o/r.git` | not executed | Parse.TreeRefKeptAsWritten | Parse.ClassifyGithubUrl |
| src/hackathon_reviewer/stages/clone.py:32-36 | `.min.js` and `.min.css` are in the skip list, but `Path(name).suffix` never has two dots, so they never match | `app.min.js` is counted as JavaScript lines | skip minified bundles | not executed | Clone.MinifiedNotSkippedAsWritten | Clone.BundleSkipped |

The pipeline follows the code as written in both cases: `Parse.ParseRow` classifies
with `Parse.ClassifyGithubUrlAsWritten`, and `Clone.Classify` uses
`Clone.SkippedAsWritten`. The corrected definitions stand beside them with their
properties proved.
