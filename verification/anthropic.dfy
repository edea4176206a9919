/** The score-line template the review prompts carry and the parser that reads
    the scores back out of a model's review (providers/anthropic.py). */
module Anthropic {
  import opened Wrappers
  import opened Text
  import opened Models

  // ---------------------------------------------------------------------
  // Labels
  // ---------------------------------------------------------------------

  /** `key.replace("_", " ")` */
  function Spaced(key: string): string {
    ReplaceAll(key, "_", " ")
  }

  /** `Spaced` replaces each underscore by a space and keeps every other character. */
  lemma {:induction false} SpacedAt(key: string)
    ensures |Spaced(key)| == |key|
    ensures forall i :: 0 <= i < |key| ==> Spaced(key)[i] == if key[i] == '_' then ' ' else key[i]
    decreases |key|
  {
    if |key| > 0 {
      SpacedAt(key[1..]);
      if StartsWith(key, "_") {
        assert Spaced(key) == " " + Spaced(key[1..]);
      } else {
        assert key[..1] == [key[0]];
        assert Spaced(key) == [key[0]] + Spaced(key[1..]);
      }
    }
  }

  /** Title-casing introduces no character that is not a letter. */
  lemma TitleKeeps(s: string, c: char)
    requires !IsAlpha(c) && c !in s
    ensures c !in Title(s)
  {
    LowerTitle(s, false);
    var t := Title(s);
    forall i | 0 <= i < |t| ensures t[i] != c {
      assert Lower(t)[i] == Lower(s)[i];
      assert LowerChar(t[i]) == LowerChar(s[i]);
    }
  }

  // ---------------------------------------------------------------------
  // The template
  // ---------------------------------------------------------------------

  const ScoresHeader: string := "**Scores:**"

  /** The template line for one criterion: its title-cased label, the
      expected answer shape and the criterion's description. */
  function ScoreLine(c: Criterion): string {
    LabelPart(c.key) + AnswerShape + "(" + c.description + ")"
  }

  /** What a template line asks for after its label. */
  const AnswerShape: string := "[1-10] \U{2014} [one sentence justification] "

  /** The label a template line opens with. */
  function LabelPart(key: string): string {
    "- " + Title(Spaced(key)) + ": "
  }

  function ScoreLines(criteria: seq<Criterion>): (lines: seq<string>)
    ensures |lines| == |criteria|
    ensures forall i :: 0 <= i < |criteria| ==> lines[i] == ScoreLine(criteria[i])
  {
    seq(|criteria|, i requires 0 <= i < |criteria| => ScoreLine(criteria[i]))
  }

  /** `_build_scores_section`: the header, then one template line per criterion. */
  function BuildScoresSection(criteria: seq<Criterion>): string {
    Join([ScoresHeader] + ScoreLines(criteria), '\n')
  }

  /** The section splits back into the header and one line per criterion, in
      configuration order, each opening with the criterion's label and a colon
      and closing with its description in parentheses. */
  lemma ScoresSectionLines(criteria: seq<Criterion>)
    requires forall i :: 0 <= i < |criteria| ==> '\n' !in criteria[i].key && '\n' !in criteria[i].description
    ensures var lines := Split(BuildScoresSection(criteria), '\n');
      && |lines| == |criteria| + 1
      && lines[0] == ScoresHeader
      && (forall i :: 0 <= i < |criteria| ==>
            && StartsWith(lines[i + 1], "- " + Title(Spaced(criteria[i].key)) + ": ")
            && EndsWith(lines[i + 1], "(" + criteria[i].description + ")"))
  {
    var xs := [ScoresHeader] + ScoreLines(criteria);
    forall k | 0 <= k < |xs| ensures '\n' !in xs[k] {
      if k > 0 {
        ScoreLineShape(criteria[k - 1]);
      }
    }
    SplitJoin(xs, '\n');
    forall i | 0 <= i < |criteria|
      ensures StartsWith(xs[i + 1], "- " + Title(Spaced(criteria[i].key)) + ": ")
      ensures EndsWith(xs[i + 1], "(" + criteria[i].description + ")")
    {
      ScoreLineShape(criteria[i]);
    }
  }

  lemma ScoreLineShape(c: Criterion)
    ensures StartsWith(ScoreLine(c), "- " + Title(Spaced(c.key)) + ": ")
    ensures EndsWith(ScoreLine(c), "(" + c.description + ")")
    ensures '\n' !in c.key && '\n' !in c.description ==> '\n' !in ScoreLine(c)
  {
    var head, tail := LabelPart(c.key), "(" + c.description + ")";
    assert ScoreLine(c) == head + AnswerShape + tail;
    assert (head + AnswerShape + tail)[..|head|] == head;
    assert (head + AnswerShape + tail)[|head + AnswerShape|..] == tail;
    if '\n' !in c.key && '\n' !in c.description {
      NoNewline(c);
    }
  }

  lemma AnswerShapeOneLine()
    ensures '\n' !in AnswerShape
  {
  }

  lemma NoNewline(c: Criterion)
    requires '\n' !in c.key && '\n' !in c.description
    ensures '\n' !in ScoreLine(c)
  {
    SpacedAt(c.key);
    TitleKeeps(Spaced(c.key), '\n');
    var title := Title(Spaced(c.key));
    var head, tail := LabelPart(c.key), "(" + c.description + ")";
    forall i | 0 <= i < |head| ensures head[i] != '\n' {
      if 2 <= i < 2 + |title| {
        assert head[i] == title[i - 2];
      }
    }
    forall i | 0 <= i < |tail| ensures tail[i] != '\n' {
      if 1 <= i < 1 + |c.description| {
        assert tail[i] == c.description[i - 1];
      }
    }
    AnswerShapeOneLine();
    var line := head + AnswerShape + tail;
    forall i | 0 <= i < |line| ensures line[i] != '\n' {
      if i < |head| {
        assert line[i] == head[i];
      } else if i < |head| + |AnswerShape| {
        assert line[i] == AnswerShape[i - |head|];
      } else {
        assert line[i] == tail[i - |head| - |AnswerShape|];
      }
    }
  }

  // ---------------------------------------------------------------------
  // The label table
  // ---------------------------------------------------------------------

  /** `d[label] = key` on an insertion-ordered dict of (label, key) entries: a
      label already present keeps its place and takes the new key; a new label
      goes last. */
  function Put(t: seq<(string, string)>, lbl: string, key: string): seq<(string, string)> {
    if t == [] then [(lbl, key)]
    else if t[0].0 == lbl then [(lbl, key)] + t[1..]
    else [t[0]] + Put(t[1..], lbl, key)
  }

  /** `d.get(label)` */
  function LookupLabel(t: seq<(string, string)>, lbl: string): Option<string> {
    if t == [] then None else if t[0].0 == lbl then Some(t[0].1) else LookupLabel(t[1..], lbl)
  }

  predicate UniqueLabels(t: seq<(string, string)>) {
    forall i, j :: 0 <= i < j < |t| ==> t[i].0 != t[j].0
  }

  /** Storing under a label changes the lookup of that label only, adds no
      other entry and keeps labels unique. */
  lemma {:induction false} PutMeaning(t: seq<(string, string)>, lbl: string, key: string)
    ensures forall l :: LookupLabel(Put(t, lbl, key), l) == if l == lbl then Some(key) else LookupLabel(t, l)
    ensures forall e :: e in Put(t, lbl, key) ==> e in t || e == (lbl, key)
    ensures UniqueLabels(t) ==> UniqueLabels(Put(t, lbl, key))
  {
    if t != [] && t[0].0 != lbl {
      PutMeaning(t[1..], lbl, key);
      var r := Put(t, lbl, key);
      assert r == [t[0]] + Put(t[1..], lbl, key);
      if UniqueLabels(t) {
        assert UniqueLabels(t[1..]) by {
          forall i, j | 0 <= i < j < |t[1..]| ensures t[1..][i].0 != t[1..][j].0 {
            assert t[1..][i] == t[i + 1] && t[1..][j] == t[j + 1];
          }
        }
        forall j | 0 < j < |r| ensures r[0].0 != r[j].0 {
          var e := r[j];
          assert e in Put(t[1..], lbl, key);
          if e in t[1..] {
            var k :| 0 <= k < |t[1..]| && t[1..][k] == e;
            assert t[k + 1] == e;
          }
        }
      }
    } else if t != [] {
      var r := Put(t, lbl, key);
      forall e | e in r ensures e in t || e == (lbl, key) {
        if e != (lbl, key) {
          var k :| 0 <= k < |r| && r[k] == e;
          assert k > 0 && t[k] == e;
        }
      }
      if UniqueLabels(t) {
        forall i, j | 0 <= i < j < |r| ensures r[i].0 != r[j].0 {
          assert r[j] == t[j];
          if i > 0 {
            assert r[i] == t[i];
          }
        }
      }
    }
  }

  /** Both labels of one criterion: the spaced form and the key, lower-cased. */
  function LabelsOf(c: Criterion): (string, string) {
    (Lower(Spaced(c.key)), Lower(c.key))
  }

  /** `label_to_key`, filled criterion by criterion. */
  function LabelTable(criteria: seq<Criterion>): seq<(string, string)> {
    if criteria == [] then []
    else
      var c := criteria[|criteria| - 1];
      Put(Put(LabelTable(criteria[..|criteria| - 1]), LabelsOf(c).0, c.key), LabelsOf(c).1, c.key)
  }

  /** Reference lookup: the key of the LAST criterion one of whose labels is `label`. */
  function LastKeyFor(criteria: seq<Criterion>, lbl: string): Option<string> {
    if criteria == [] then None
    else
      var c := criteria[|criteria| - 1];
      if lbl == LabelsOf(c).0 || lbl == LabelsOf(c).1 then Some(c.key)
      else LastKeyFor(criteria[..|criteria| - 1], lbl)
  }

  /** `label_to_key` behaves as a dict: a label maps to the key of the last
      criterion carrying it, every entry comes from some criterion, and no
      label appears twice. */
  lemma {:induction false} LabelTableMeaning(criteria: seq<Criterion>)
    ensures var t := LabelTable(criteria);
      && (forall l :: LookupLabel(t, l) == LastKeyFor(criteria, l))
      && (forall e :: e in t ==> exists c :: c in criteria && e.1 == c.key && (e.0 == LabelsOf(c).0 || e.0 == LabelsOf(c).1))
      && UniqueLabels(t)
  {
    if criteria != [] {
      var init := criteria[..|criteria| - 1];
      var c := criteria[|criteria| - 1];
      LabelTableMeaning(init);
      var t0 := LabelTable(init);
      var t1 := Put(t0, LabelsOf(c).0, c.key);
      PutMeaning(t0, LabelsOf(c).0, c.key);
      PutMeaning(t1, LabelsOf(c).1, c.key);
      var t := Put(t1, LabelsOf(c).1, c.key);
      forall e | e in t
        ensures exists c' :: c' in criteria && e.1 == c'.key && (e.0 == LabelsOf(c').0 || e.0 == LabelsOf(c').1)
      {
        if e in t0 {
          var c' :| c' in init && e.1 == c'.key && (e.0 == LabelsOf(c').0 || e.0 == LabelsOf(c').1);
          assert c' in criteria;
        } else {
          assert c in criteria;
        }
      }
    }
  }

  // ---------------------------------------------------------------------
  // Reading a score
  // ---------------------------------------------------------------------

  /** Digits with single underscores between them, as `int()` accepts. */
  predicate DigitGroups(s: string) {
    && |s| > 0 && IsDigit(s[0]) && IsDigit(s[|s| - 1])
    && (forall i :: 0 <= i < |s| ==> IsDigit(s[i]) || s[i] == '_')
    && (forall i :: 0 <= i < |s| - 1 ==> s[i] == '_' ==> s[i + 1] != '_')
  }

  function DropUnderscores(s: string): (r: string)
    requires forall i :: 0 <= i < |s| ==> IsDigit(s[i]) || s[i] == '_'
    ensures forall i :: 0 <= i < |r| ==> IsDigit(r[i])
  {
    if s == [] then []
    else (if s[0] == '_' then [] else [s[0]]) + DropUnderscores(s[1..])
  }

  lemma {:induction false} DropNothing(s: string)
    requires forall i :: 0 <= i < |s| ==> IsDigit(s[i])
    ensures DropUnderscores(s) == s
  {
    if s != [] {
      DropNothing(s[1..]);
    }
  }

  /** `int(tok)` for a token without white space: an optional sign, then
      digit groups. */
  function PyInt(tok: string): Option<int> {
    if |tok| > 0 && (tok[0] == '+' || tok[0] == '-') then
      var body := tok[1..];
      if DigitGroups(body) then
        var v: int := DigitsValue(DropUnderscores(body));
        Some(if tok[0] == '-' then -v else v)
      else None
    else if DigitGroups(tok) then Some(DigitsValue(DropUnderscores(tok)))
    else None
  }

  /** `int()` reads back the decimal text of a number, negated behind a minus
      sign, and refuses a token that opens with neither a sign nor a digit. */
  lemma PyIntMeaning(n: nat, tok: string)
    ensures PyInt(NatToText(n)) == Some(n)
    ensures PyInt("-" + NatToText(n)) == Some(-(n as int))
    ensures |tok| > 0 && !IsDigit(tok[0]) && tok[0] != '+' && tok[0] != '-' ==> PyInt(tok) == None
  {
    var d := NatToText(n);
    DropNothing(d);
    assert ("-" + d)[1..] == d;
  }

  /** `max(1, min(10, val))` */
  function Clamp(v: int): int {
    if v < 1 then 1 else if v > 10 then 10 else v
  }

  /** The number after the line's first colon, up to any '/', as its first
      word; None where Python raises `IndexError` or `ValueError`. */
  function ScoreValue(stripped: string): Option<int> {
    match Cut(stripped, ':')
    case None => None
    case Some(parts) =>
      var words := SplitWhitespace(Strip(Split(Strip(parts.1), '/')[0]));
      if words == [] then None else PyInt(words[0])
  }

  /** The index of the first table entry whose label, behind "- " and before
      a colon, opens `lower`. */
  function FirstLabel(lower: string, t: seq<(string, string)>): (r: Option<nat>)
    ensures r.Some? ==> r.value < |t| && StartsWith(lower, "- " + t[r.value].0 + ":")
  {
    if t == [] then None
    else if StartsWith(lower, "- " + t[0].0 + ":") then Some(0)
    else match FirstLabel(lower, t[1..])
      case None => None
      case Some(i) => Some(i + 1)
  }

  /** No entry before the one `FirstLabel` finds (or none at all, when it
      finds none) matches. */
  lemma {:induction false} FirstLabelMinimal(lower: string, t: seq<(string, string)>, j: nat)
    requires j < |t| && StartsWith(lower, "- " + t[j].0 + ":")
    ensures FirstLabel(lower, t).Some? && FirstLabel(lower, t).value <= j
  {
    if j > 0 && !StartsWith(lower, "- " + t[0].0 + ":") {
      assert t[1..][j - 1] == t[j];
      FirstLabelMinimal(lower, t[1..], j - 1);
    }
  }

  /** One iteration of the line loop of `_parse_scores`. */
  function ParseLine(line: string, t: seq<(string, string)>): Option<(string, int)> {
    var stripped := Strip(line);
    if !StartsWith(stripped, "- ") then None
    else
      match FirstLabel(Lower(stripped), t)
      case None => None
      case Some(i) =>
        match ScoreValue(stripped)
        case None => None
        case Some(v) => Some((t[i].1, Clamp(v)))
  }

  /** The line loop of `_parse_scores`, for a per-line reading `read`: each
      line that yields a score stores it, replacing an earlier one for the
      same key. */
  function ParseLines(lines: seq<string>, read: string -> Option<(string, int)>): map<string, int> {
    if lines == [] then map[]
    else
      var m := ParseLines(lines[..|lines| - 1], read);
      match read(lines[|lines| - 1])
      case None => m
      case Some(kv) => m[kv.0 := kv.1]
  }

  /** The per-line reading of `_parse_scores` under label table `t`. */
  function Reader(t: seq<(string, string)>): string -> Option<(string, int)> {
    line => ParseLine(line, t)
  }

  /** `_parse_scores` */
  function ParseScores(text: string, criteria: seq<Criterion>): map<string, int> {
    ParseLines(Split(text, '\n'), Reader(LabelTable(criteria)))
  }

  // ---------------------------------------------------------------------
  // What the parser promises
  // ---------------------------------------------------------------------

  /** A line yields a score only if, stripped, it opens with "- " and then
      some table label and a colon, case-insensitively; the score lies in
      [1, 10] and belongs to that label's key. */
  lemma ParseLineMeaning(line: string, t: seq<(string, string)>)
    ensures ParseLine(line, t).Some? ==> StartsWith(Strip(line), "- ")
    ensures ParseLine(line, t).Some? ==> 1 <= ParseLine(line, t).value.1 <= 10
    ensures ParseLine(line, t).Some? ==>
      exists i :: 0 <= i < |t| && t[i].1 == ParseLine(line, t).value.0 && StartsWith(Lower(Strip(line)), "- " + t[i].0 + ":")
  {
    ParseLineDash(line, t);
    ParseLineBounds(line, t);
    ParseLineLabel(line, t);
  }

  lemma ParseLineDash(line: string, t: seq<(string, string)>)
    ensures ParseLine(line, t).Some? ==> StartsWith(Strip(line), "- ")
  {
  }

  lemma ParseLineBounds(line: string, t: seq<(string, string)>)
    ensures ParseLine(line, t).Some? ==> 1 <= ParseLine(line, t).value.1 <= 10
  {
  }

  lemma ParseLineLabel(line: string, t: seq<(string, string)>)
    ensures ParseLine(line, t).Some? ==>
      exists i :: 0 <= i < |t| && t[i].1 == ParseLine(line, t).value.0 && StartsWith(Lower(Strip(line)), "- " + t[i].0 + ":")
  {
    var r := ParseLine(line, t);
    if r.Some? {
      var i := FirstLabel(Lower(Strip(line)), t).value;
      assert t[i].1 == r.value.0;
    }
  }

  /** Every stored score came from some line for that key, and a key's score
      is the one from the LAST line that yields a score for it. */
  lemma {:induction false} ParseLinesLastWins(lines: seq<string>, read: string -> Option<(string, int)>, k: string)
    ensures var m := ParseLines(lines, read);
      && (k in m <==> exists i :: 0 <= i < |lines| && read(lines[i]).Some? && read(lines[i]).value.0 == k)
      && (forall i :: 0 <= i < |lines| && read(lines[i]).Some? && read(lines[i]).value.0 == k
            && (forall j :: i < j < |lines| && read(lines[j]).Some? ==> read(lines[j]).value.0 != k)
            ==> k in m && m[k] == read(lines[i]).value.1)
  {
    if lines != [] {
      var n := |lines| - 1;
      var init := lines[..n];
      ParseLinesLastWins(init, read, k);
      assert forall i :: 0 <= i < n ==> init[i] == lines[i];
    }
  }

  /** Every stored score is one some line yields. */
  lemma {:induction false} ParseLinesFrom(lines: seq<string>, read: string -> Option<(string, int)>, k: string)
    requires k in ParseLines(lines, read)
    ensures exists i :: 0 <= i < |lines| && read(lines[i]) == Some((k, ParseLines(lines, read)[k]))
  {
    var n := |lines| - 1;
    var init := lines[..n];
    if read(lines[n]).Some? && read(lines[n]).value.0 == k {
      assert read(lines[n]) == Some((k, ParseLines(lines, read)[k]));
    } else {
      ParseLinesFrom(init, read, k);
      var i :| 0 <= i < |init| && read(init[i]) == Some((k, ParseLines(init, read)[k]));
      assert init[i] == lines[i];
    }
  }

  /** Every key `_parse_scores` returns is a configured criterion's key, and
      every score lies in [1, 10]. */
  lemma ParseScoresRange(text: string, criteria: seq<Criterion>, k: string)
    requires k in ParseScores(text, criteria)
    ensures (exists c :: c in criteria && c.key == k) && 1 <= ParseScores(text, criteria)[k] <= 10
  {
    var t := LabelTable(criteria);
    LinesRange(Split(text, '\n'), t, k);
    var e :| e in t && e.1 == k;
    LabelTableEntry(criteria, e);
  }

  lemma LinesRange(lines: seq<string>, t: seq<(string, string)>, k: string)
    requires k in ParseLines(lines, Reader(t))
    ensures (exists e :: e in t && e.1 == k) && 1 <= ParseLines(lines, Reader(t))[k] <= 10
  {
    ParseLinesFrom(lines, Reader(t), k);
    var i :| 0 <= i < |lines| && Reader(t)(lines[i]) == Some((k, ParseLines(lines, Reader(t))[k]));
    assert Reader(t)(lines[i]) == ParseLine(lines[i], t);
    ParseLineMeaning(lines[i], t);
    var j :| 0 <= j < |t| && t[j].1 == k && StartsWith(Lower(Strip(lines[i])), "- " + t[j].0 + ":");
    assert t[j] in t;
  }

  /** Each entry of `label_to_key` comes from a criterion: one of its labels, and its key. */
  lemma LabelTableEntry(criteria: seq<Criterion>, e: (string, string))
    requires e in LabelTable(criteria)
    ensures exists c :: c in criteria && e.1 == c.key && (e.0 == LabelsOf(c).0 || e.0 == LabelsOf(c).1)
  {
    LabelTableMeaning(criteria);
  }

  // ---------------------------------------------------------------------
  // The template read back
  // ---------------------------------------------------------------------

  /** A line that has no readable number yields no score. */
  lemma NoValueNoScore(line: string, t: seq<(string, string)>)
    requires ScoreValue(Strip(line)) == None
    ensures ParseLine(line, t) == None
  {
  }

  /** Once a line is cut at its first colon, `ScoreValue` reads the first
      word before any '/' of what follows. */
  lemma ScoreValueAfter(head: string, after: string)
    requires ':' !in head
    ensures var words := SplitWhitespace(Strip(Split(Strip(after), '/')[0]));
      ScoreValue(head + [':'] + after) == if words == [] then None else PyInt(words[0])
  {
    CutJoin(head, ':', after);
  }

  /** After the colon, a template line's first word opens with '['. */
  lemma BracketWord(x: string)
    requires |x| > 0 && x[0] == '[' && !IsSpace(x[|x| - 1])
    ensures var words := SplitWhitespace(Strip(Split(Strip(" " + x), '/')[0]));
      words != [] && words[0][0] == '['
  {
    StripAfterSpace(x);
    var p := Split(x, '/')[0];
    SplitHead(x, '/');
    assert p[0] == x[0];
    StripKeepsFirst(p);
    FirstWordStart(Strip(p));
  }

  /** A template line holds no number to read: its first word after the colon is "[1-10]". */
  lemma TemplateLineScoreless(c: Criterion, t: seq<(string, string)>)
    requires ':' !in c.key
    ensures ParseLine(ScoreLine(c), t) == None
  {
    var head := "- " + Title(Spaced(c.key));
    var x := AnswerShape + "(" + c.description + ")";
    var line := ScoreLine(c);
    SpacedAt(c.key);
    TitleKeeps(Spaced(c.key), ':');
    assert ':' !in head;
    assert line == head + [':'] + (" " + x);
    assert line[0] == '-' && line[|line| - 1] == ')';
    StripNothing(line);
    assert x[0] == '[' && x[|x| - 1] == ')';
    BracketWord(x);
    ScoreValueAfter(head, " " + x);
    var word := SplitWhitespace(Strip(Split(Strip(" " + x), '/')[0]))[0];
    PyIntMeaning(0, word);
    NoValueNoScore(line, t);
  }

  /** A text of lines that yield nothing yields no scores. */
  lemma {:induction false} NothingRead(lines: seq<string>, read: string -> Option<(string, int)>)
    requires forall i :: 0 <= i < |lines| ==> read(lines[i]).None?
    ensures ParseLines(lines, read) == map[]
  {
    if lines != [] {
      var init := lines[..|lines| - 1];
      assert forall i :: 0 <= i < |init| ==> init[i] == lines[i];
      NothingRead(init, read);
    }
  }

  /** Parsing the blank template yields no scores at all: the header is no
      "- " line and every criterion line reads "[1-10]" where a number would be. */
  lemma TemplateYieldsNoScores(criteria: seq<Criterion>)
    requires forall i :: 0 <= i < |criteria| ==>
      ':' !in criteria[i].key && '\n' !in criteria[i].key && '\n' !in criteria[i].description
    ensures ParseScores(BuildScoresSection(criteria), criteria) == map[]
  {
    var t := LabelTable(criteria);
    var xs := [ScoresHeader] + ScoreLines(criteria);
    forall k | 0 <= k < |xs| ensures '\n' !in xs[k] {
      if k > 0 {
        ScoreLineShape(criteria[k - 1]);
      }
    }
    SplitJoin(xs, '\n');
    assert Split(BuildScoresSection(criteria), '\n') == xs;
    forall k | 0 <= k < |xs| ensures Reader(t)(xs[k]).None? {
      if k == 0 {
        HeaderScoreless(t);
      } else {
        TemplateLineScoreless(criteria[k - 1], t);
      }
    }
    NothingRead(xs, Reader(t));
  }

  /** The header is no "- " line. */
  lemma HeaderScoreless(t: seq<(string, string)>)
    ensures ParseLine(ScoresHeader, t) == None
  {
    HeaderShape();
    StarLine(ScoresHeader, t);
  }

  lemma HeaderShape()
    ensures |ScoresHeader| > 0 && ScoresHeader[0] == '*' && ScoresHeader[|ScoresHeader| - 1] == '*'
  {
  }

  lemma StarLine(h: string, t: seq<(string, string)>)
    requires |h| > 0 && h[0] == '*' && h[|h| - 1] == '*'
    ensures ParseLine(h, t) == None
  {
    StripNothing(h);
    NoDashNoScore(h, t);
  }

  /** A line that, stripped, does not open with "- " yields no score. */
  lemma {:induction false} NoDashNoScore(line: string, t: seq<(string, string)>)
    requires |Strip(line)| > 0 && Strip(line)[0] != '-'
    ensures ParseLine(line, t) == None
  {
    NoDash(Strip(line));
  }

  lemma NoDash(s: string)
    requires |s| > 0 && s[0] != '-'
    ensures !StartsWith(s, "- ")
  {
    if |s| >= 2 {
      assert s[..2][0] == s[0];
    }
  }

  /** Keys in snake case: lower-case letters, digits and underscores. */
  predicate SnakeKey(k: string) {
    forall i :: 0 <= i < |k| ==> IsLower(k[i]) || IsDigit(k[i]) || k[i] == '_'
  }

  /** A snake-case key's labels are already lower-case, and hold no colon. */
  lemma SnakeLabels(k: string)
    requires SnakeKey(k)
    ensures LabelsOf(Criterion(k, 0.0, "")) == (Spaced(k), k)
    ensures ':' !in Spaced(k) && ':' !in k
  {
    SpacedAt(k);
    assert Lower(k) == k;
    assert Lower(Spaced(k)) == Spaced(k);
  }

  /** Distinct snake-case keys never share a label. */
  lemma SnakeLabelsDistinct(k1: string, k2: string)
    requires SnakeKey(k1) && SnakeKey(k2)
    requires Spaced(k1) == Spaced(k2) || Spaced(k1) == k2 || k1 == k2
    ensures k1 == k2
  {
    SpacedAt(k1);
    SpacedAt(k2);
    if Spaced(k1) == Spaced(k2) {
      forall i | 0 <= i < |k1| ensures k1[i] == k2[i] {
        assert Spaced(k1)[i] == Spaced(k2)[i];
      }
    }
  }

  /** With distinct snake-case keys, each criterion's spaced label looks up its own key. */
  lemma {:induction false} OwnLabel(criteria: seq<Criterion>, i: nat)
    requires forall j :: 0 <= j < |criteria| ==> SnakeKey(criteria[j].key)
    requires DistinctKeys(criteria)
    requires i < |criteria|
    ensures LastKeyFor(criteria, Spaced(criteria[i].key)) == Some(criteria[i].key)
  {
    var n := |criteria| - 1;
    var c := criteria[n];
    SnakeLabels(c.key);
    if i == n {
    } else {
      var init := criteria[..n];
      assert init[i] == criteria[i];
      if Spaced(criteria[i].key) == LabelsOf(c).0 || Spaced(criteria[i].key) == LabelsOf(c).1 {
        SnakeLabelsDistinct(criteria[i].key, c.key);
        assert false;
      }
      OwnLabel(init, i);
    }
  }

  /** With unique labels, an entry's label looks up that entry's key. */
  lemma {:induction false} LookupAt(t: seq<(string, string)>, j: nat)
    requires UniqueLabels(t) && j < |t|
    ensures LookupLabel(t, t[j].0) == Some(t[j].1)
  {
    if j > 0 {
      assert t[0].0 != t[j].0;
      assert UniqueLabels(t[1..]) by {
        forall a, b | 0 <= a < b < |t[1..]| ensures t[1..][a].0 != t[1..][b].0 {
          assert t[1..][a] == t[a + 1] && t[1..][b] == t[b + 1];
        }
      }
      assert t[1..][j - 1] == t[j];
      LookupAt(t[1..], j - 1);
    }
  }

  /** A label that looks up a key has an entry. */
  lemma {:induction false} LookupFound(t: seq<(string, string)>, l: string)
    requires LookupLabel(t, l).Some?
    ensures exists j :: 0 <= j < |t| && t[j].0 == l
  {
    if t[0].0 != l {
      LookupFound(t[1..], l);
      var j :| 0 <= j < |t[1..]| && t[1..][j].0 == l;
      assert t[j + 1].0 == l;
    }
  }

  /** Two "- label:" openings of one text, neither label holding a colon, are the same label. */
  lemma {:induction false} SameOpening(x: string, a: string, b: string)
    requires ':' !in a && ':' !in b
    requires StartsWith(x, "- " + a + ":") && StartsWith(x, "- " + b + ":")
    ensures a == b
  {
    var pa, pb := "- " + a + ":", "- " + b + ":";
    if |a| < |b| {
      ColonAt(x, a, b);
      assert false;
    } else if |b| < |a| {
      ColonAt(x, b, a);
      assert false;
    } else {
      assert pa == x[..|pa|] == pb;
      assert a == pa[2..2 + |a|] == pb[2..2 + |b|] == b;
    }
  }

  /** Of two "- label:" openings of one text, the longer label holds a colon
      where the shorter one ends. */
  lemma ColonAt(x: string, a: string, b: string)
    requires StartsWith(x, "- " + a + ":") && StartsWith(x, "- " + b + ":") && |a| < |b|
    ensures b[|a|] == ':'
  {
    assert x[2 + |a|] == ("- " + a + ":")[2 + |a|];
    assert x[2 + |a|] == ("- " + b + ":")[2 + |a|];
  }

  /** An answer line as a model fills in the template: the label, the number,
      "/10" and any note. */
  function FilledLine(key: string, n: nat, note: string): string {
    LabelPart(key) + (NatToText(n) + "/" + ("10" + note))
  }

  /** The line, stripped, opens with the label and the number and "/". */
  lemma {:induction false} FilledStripped(key: string, n: nat, note: string)
    ensures exists rest :: Strip(FilledLine(key, n, note)) == LabelPart(key) + (NatToText(n) + "/" + rest)
  {
    var l, d := LabelPart(key), NatToText(n);
    var line := FilledLine(key, n, note);
    assert line[0] == '-';
    assert line[|l| + |d| + 1] == '1';
    StripKeepsPrefix(line, |l| + |d| + 1);
    TakeThrough(l, d, '/', "10" + note, |Strip(line)|);
  }

  /** Cutting a text made of `a`, `b`, `c` and `x` somewhere inside `x`. */
  lemma TakeThrough(a: string, b: string, c: char, x: string, m: nat)
    requires |a| + |b| < m <= |a| + |b| + 1 + |x|
    ensures (a + (b + [c] + x))[..m] == a + (b + [c] + x[..m - |a| - |b| - 1])
  {
  }

  /** The label part is "- ", the title, the colon, then a space. */
  lemma LabelPartColon(key: string, tail: string)
    ensures LabelPart(key) + tail == ("- " + Title(Spaced(key))) + [':'] + (" " + tail)
  {
  }

  /** What follows the colon of a filled line reads as its number. */
  lemma {:induction false} FilledValue(d: string, rest: string)
    requires |d| > 0 && forall i :: 0 <= i < |d| ==> IsDigit(d[i])
    ensures var words := SplitWhitespace(Strip(Split(Strip(" " + (d + "/" + rest)), '/')[0]));
      words != [] && words[0] == d
  {
    StrippedValue(d, rest);
    var r2 :| Strip(" " + (d + "/" + rest)) == d + ['/'] + r2;
    DigitsWord(d, r2);
  }

  lemma {:induction false} StrippedValue(d: string, rest: string)
    requires |d| > 0 && forall i :: 0 <= i < |d| ==> IsDigit(d[i])
    ensures exists r2 :: Strip(" " + (d + "/" + rest)) == d + ['/'] + r2
  {
    var y := d + "/" + rest;
    StripSpaceFront(y);
    assert y[|d|] == '/';
    StripKeepsPrefix(y, |d|);
    var z := Strip(y);
    assert z[..|d|] == y[..|d|] == d;
    assert z[|d|] == '/';
    CutAt(z, d, '/');
  }

  lemma CutAt(z: string, d: string, c: char)
    requires |d| < |z| && z[..|d|] == d && z[|d|] == c
    ensures z == d + [c] + z[|d| + 1..]
  {
    assert z == z[..|d|] + [z[|d|]] + z[|d| + 1..];
  }

  lemma {:induction false} DigitsWord(d: string, r2: string)
    requires |d| > 0 && forall i :: 0 <= i < |d| ==> IsDigit(d[i])
    ensures var words := SplitWhitespace(Strip(Split(d + ['/'] + r2, '/')[0]));
      words != [] && words[0] == d
  {
    SplitHeadAt(d, '/', r2);
    StripNothing(d);
    WholeWord(d);
  }

  /** The filled line, lower-cased after stripping, opens with the spaced label and a colon. */
  lemma {:induction false} FilledOpening(key: string, n: nat, note: string)
    requires SnakeKey(key)
    ensures StartsWith(Lower(Strip(FilledLine(key, n, note))), "- " + Spaced(key) + ":")
  {
    FilledStripped(key, n, note);
    var rest :| Strip(FilledLine(key, n, note)) == LabelPart(key) + (NatToText(n) + "/" + rest);
    LowerLabelPart(key);
    LowerPrefix(LabelPart(key), NatToText(n) + "/" + rest);
    OpeningColon(Lower(Strip(FilledLine(key, n, note))), Spaced(key));
  }

  lemma OpeningColon(x: string, a: string)
    requires |a| + 4 <= |x| && x[..|a| + 4] == "- " + a + ": "
    ensures StartsWith(x, "- " + a + ":")
  {
    assert x[..|a| + 3] == x[..|a| + 4][..|a| + 3];
  }

  /** The label part of a snake-case key, lower-cased: "- ", the spaced key, ": ". */
  lemma LowerLabelPart(key: string)
    requires SnakeKey(key)
    ensures Lower(LabelPart(key)) == "- " + Spaced(key) + ": "
  {
    var title := Title(Spaced(key));
    SnakeLabels(key);
    LowerTitle(Spaced(key), false);
    LowerConcat("- " + title, ": ");
    LowerConcat("- ", title);
    assert Lower("- ") == "- " && Lower(": ") == ": ";
  }

  /** The number of a filled line, read by `ScoreValue`. */
  lemma {:induction false} FilledScore(key: string, n: nat, note: string)
    requires SnakeKey(key)
    ensures ScoreValue(Strip(FilledLine(key, n, note))) == Some(n as int)
  {
    FilledStripped(key, n, note);
    var d := NatToText(n);
    var rest :| Strip(FilledLine(key, n, note)) == LabelPart(key) + (d + "/" + rest);
    var title := Title(Spaced(key));
    SnakeLabels(key);
    SpacedAt(key);
    TitleKeeps(Spaced(key), ':');
    assert ':' !in "- " + title;
    LabelPartColon(key, d + "/" + rest);
    ScoreValueAfter("- " + title, " " + (d + "/" + rest));
    FilledValue(d, rest);
    PyIntMeaning(n, d);
  }

  /** `_parse_scores` on one line, once its label and its number are known. */
  lemma {:induction false} ParseLineFrom(line: string, t: seq<(string, string)>, f: nat, v: int)
    requires StartsWith(Strip(line), "- ")
    requires FirstLabel(Lower(Strip(line)), t) == Some(f)
    requires ScoreValue(Strip(line)) == Some(v)
    ensures ParseLine(line, t) == Some((t[f].1, Clamp(v)))
  {
  }

  /** The first label a filled line matches is its own key's spaced label. */
  lemma {:induction false} FilledLabel(criteria: seq<Criterion>, i: nat, n: nat, note: string) returns (f: nat)
    requires forall j :: 0 <= j < |criteria| ==> SnakeKey(criteria[j].key)
    requires DistinctKeys(criteria)
    requires i < |criteria|
    ensures var t := LabelTable(criteria);
      FirstLabel(Lower(Strip(FilledLine(criteria[i].key, n, note))), t) == Some(f) && t[f].1 == criteria[i].key
  {
    var key := criteria[i].key;
    var t := LabelTable(criteria);
    var lower := Lower(Strip(FilledLine(key, n, note)));
    LabelTableMeaning(criteria);
    OwnLabel(criteria, i);
    LookupFound(t, Spaced(key));
    var j :| 0 <= j < |t| && t[j].0 == Spaced(key);
    FilledOpening(key, n, note);
    SnakeLabels(key);
    FirstLabelMinimal(lower, t, j);
    f := FirstLabel(lower, t).value;
    LabelTableEntry(criteria, t[f]);
    var c :| c in criteria && t[f].1 == c.key && (t[f].0 == LabelsOf(c).0 || t[f].0 == LabelsOf(c).1);
    SnakeLabels(c.key);
    SameOpening(lower, t[f].0, Spaced(key));
    LookupAt(t, f);
    assert LookupLabel(t, Spaced(key)) == Some(t[f].1);
    assert LookupLabel(t, Spaced(key)) == LastKeyFor(criteria, Spaced(key));
  }

  /** A filled-in answer line is read back as its own criterion's score,
      brought into [1, 10], whatever note follows "/10". */
  lemma {:induction false} FilledLineParses(criteria: seq<Criterion>, i: nat, n: nat, note: string)
    requires forall j :: 0 <= j < |criteria| ==> SnakeKey(criteria[j].key)
    requires DistinctKeys(criteria)
    requires i < |criteria|
    ensures ParseLine(FilledLine(criteria[i].key, n, note), LabelTable(criteria)) == Some((criteria[i].key, Clamp(n)))
  {
    var key := criteria[i].key;
    var line := FilledLine(key, n, note);
    var f := FilledLabel(criteria, i, n, note);
    FilledStripped(key, n, note);
    var rest :| Strip(line) == LabelPart(key) + (NatToText(n) + "/" + rest);
    assert Strip(line)[..2] == "- ";
    FilledScore(key, n, note);
    ParseLineFrom(line, LabelTable(criteria), f, n);
  }
}
