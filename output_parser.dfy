/** `CustomOutputParser.parse`: reads the language model's reply as either the final answer
    or the next tool call. */
module OutputParser {
  import opened Wrappers
  import opened Text
  import opened Json

  datatype AgentStep =
    | Finish(output: string, log: string)
    | Action(tool: string, toolInput: string, log: string)

  const FinalAnswer: string := "Final Answer"
  const FinalAnswerColon: string := "Final Answer:"

  predicate IsSeparatorChar(c: char) {
    IsSpace(c) || IsDigit(c)
  }

  predicate IsBlank(c: char) {
    c == ' '
  }

  predicate IsQuote(c: char) {
    c == '"'
  }

  predicate AllSpace(t: string) {
    forall k :: 0 <= k < |t| ==> IsSpace(t[k])
  }

  predicate AllDigits(t: string) {
    forall k :: 0 <= k < |t| ==> IsDigit(t[k])
  }

  /** `\s*\d*\s*` followed by a character that is neither whitespace nor a digit (the `:` or
      the `I` the pattern needs next): every way of matching the three runs ends at the first
      such character, so the scan returns its index, or `|s|` at the end of the text. It fails
      when a digit follows the trailing spaces, which no match can cover. `phase` is 0 in the
      leading spaces, 1 in the digits, 2 in the trailing spaces. */
  function ScanSeparator(s: string, lo: nat, phase: nat): (r: Option<nat>)
    requires lo <= |s|
    ensures r.Some? ==> lo <= r.value <= |s| && (r.value < |s| ==> !IsSeparatorChar(s[r.value]))
    decreases |s| - lo
  {
    if lo == |s| then Some(lo)
    else if phase == 0 && IsSpace(s[lo]) then ScanSeparator(s, lo + 1, 0)
    else if phase <= 1 && IsDigit(s[lo]) then ScanSeparator(s, lo + 1, 1)
    else if IsSpace(s[lo]) then ScanSeparator(s, lo + 1, 2)
    else if IsDigit(s[lo]) then None
    else Some(lo)
  }

  /** `s[lo..e]` is a `\s*\d*\s*` run: spaces up to `a`, digits up to `b`, spaces up to `e`. */
  predicate SeparatorRun(s: string, lo: nat, e: nat) {
    lo <= e <= |s| &&
    exists a, b :: lo <= a <= b <= e && AllSpace(s[lo..a]) && AllDigits(s[a..b]) && AllSpace(s[b..e])
  }

  lemma {:induction false} AllSpaceCons(s: string, lo: nat, e: nat)
    requires lo < e <= |s| && IsSpace(s[lo]) && AllSpace(s[lo + 1..e])
    ensures AllSpace(s[lo..e])
  {
    forall k | 0 <= k < e - lo ensures IsSpace(s[lo..e][k]) {
      if k > 0 {
        assert s[lo..e][k] == s[lo + 1..e][k - 1];
      }
    }
  }

  lemma {:induction false} AllDigitsCons(s: string, lo: nat, e: nat)
    requires lo < e <= |s| && IsDigit(s[lo]) && AllDigits(s[lo + 1..e])
    ensures AllDigits(s[lo..e])
  {
    forall k | 0 <= k < e - lo ensures IsDigit(s[lo..e][k]) {
      if k > 0 {
        assert s[lo..e][k] == s[lo + 1..e][k - 1];
      }
    }
  }

  lemma {:induction false} AllSpaceTail(s: string, lo: nat, e: nat)
    requires lo < e <= |s| && AllSpace(s[lo..e])
    ensures IsSpace(s[lo]) && AllSpace(s[lo + 1..e])
  {
    assert s[lo] == s[lo..e][0];
    assert s[lo + 1..e] == s[lo..e][1..];
  }

  lemma {:induction false} AllDigitsTail(s: string, lo: nat, e: nat)
    requires lo < e <= |s| && AllDigits(s[lo..e])
    ensures IsDigit(s[lo]) && AllDigits(s[lo + 1..e])
  {
    assert s[lo] == s[lo..e][0];
    assert s[lo + 1..e] == s[lo..e][1..];
  }

  /** In the trailing spaces, the scan only skips spaces. */
  lemma {:induction false} ScanTrailingSound(s: string, lo: nat)
    requires lo <= |s| && ScanSeparator(s, lo, 2).Some?
    ensures AllSpace(s[lo..ScanSeparator(s, lo, 2).value])
    decreases |s| - lo
  {
    if lo < |s| && IsSpace(s[lo]) {
      ScanTrailingSound(s, lo + 1);
      AllSpaceCons(s, lo, ScanSeparator(s, lo, 2).value);
    }
  }

  /** In the digits, the scan skips digits up to `b` and then spaces. */
  lemma {:induction false} ScanDigitsSound(s: string, lo: nat) returns (b: nat)
    requires lo <= |s| && ScanSeparator(s, lo, 1).Some?
    ensures lo <= b <= ScanSeparator(s, lo, 1).value
    ensures AllDigits(s[lo..b]) && AllSpace(s[b..ScanSeparator(s, lo, 1).value])
    decreases |s| - lo
  {
    var e := ScanSeparator(s, lo, 1).value;
    b := lo;
    if lo < |s| && IsDigit(s[lo]) {
      b := ScanDigitsSound(s, lo + 1);
      AllDigitsCons(s, lo, b);
    } else if lo < |s| && IsSpace(s[lo]) {
      ScanTrailingSound(s, lo + 1);
      AllSpaceCons(s, lo, e);
    }
  }

  /** What the scan skips is a `\s*\d*\s*` run. */
  lemma {:induction false} ScanSound(s: string, lo: nat) returns (a: nat, b: nat)
    requires lo <= |s| && ScanSeparator(s, lo, 0).Some?
    ensures lo <= a <= b <= ScanSeparator(s, lo, 0).value
    ensures AllSpace(s[lo..a]) && AllDigits(s[a..b]) && AllSpace(s[b..ScanSeparator(s, lo, 0).value])
    decreases |s| - lo
  {
    a, b := lo, lo;
    if lo < |s| && IsSpace(s[lo]) {
      a, b := ScanSound(s, lo + 1);
      AllSpaceCons(s, lo, a);
    } else if lo < |s| && IsDigit(s[lo]) {
      b := ScanDigitsSound(s, lo + 1);
      AllDigitsCons(s, lo, b);
    }
  }

  /** Spaces up to a character that cannot continue the run: the scan stops there, in any phase. */
  lemma {:induction false} ScanSpacesComplete(s: string, lo: nat, phase: nat, e: nat)
    requires lo <= e <= |s| && phase <= 2 && AllSpace(s[lo..e])
    requires e < |s| ==> !IsSeparatorChar(s[e])
    ensures ScanSeparator(s, lo, phase) == Some(e)
    decreases e - lo
  {
    if lo < e {
      AllSpaceTail(s, lo, e);
      ScanSpacesComplete(s, lo + 1, if phase == 0 then 0 else 2, e);
    }
  }

  /** Digits up to `b`, then spaces up to the stop: the scan in phase 0 or 1 stops there. */
  lemma {:induction false} ScanDigitsComplete(s: string, lo: nat, phase: nat, b: nat, e: nat)
    requires lo <= b <= e <= |s| && phase <= 1 && AllDigits(s[lo..b]) && AllSpace(s[b..e])
    requires e < |s| ==> !IsSeparatorChar(s[e])
    ensures ScanSeparator(s, lo, phase) == Some(e)
    decreases b - lo
  {
    if lo < b {
      AllDigitsTail(s, lo, b);
      ScanDigitsComplete(s, lo + 1, 1, b, e);
    } else {
      ScanSpacesComplete(s, lo, phase, e);
    }
  }

  /** A `\s*\d*\s*` run followed by a character that cannot continue it: the scan stops there. */
  lemma {:induction false} ScanComplete(s: string, lo: nat, a: nat, b: nat, e: nat)
    requires lo <= a <= b <= e <= |s| && AllSpace(s[lo..a]) && AllDigits(s[a..b]) && AllSpace(s[b..e])
    requires e < |s| ==> !IsSeparatorChar(s[e])
    ensures ScanSeparator(s, lo, 0) == Some(e)
    decreases a - lo
  {
    if lo < a {
      AllSpaceTail(s, lo, a);
      ScanComplete(s, lo + 1, a, b, e);
    } else {
      ScanDigitsComplete(s, lo, 0, b, e);
    }
  }

  /** The scan stops at `e` exactly when `s[lo..e]` is a `\s*\d*\s*` run and the character
      at `e` (if any) cannot continue it; so it fails exactly when no such `e` exists. */
  lemma {:induction false} ScanSeparatorMeaning(s: string, lo: nat, e: nat)
    requires lo <= |s|
    ensures ScanSeparator(s, lo, 0) == Some(e) <==> SeparatorRun(s, lo, e) && (e < |s| ==> !IsSeparatorChar(s[e]))
  {
    if ScanSeparator(s, lo, 0) == Some(e) {
      var a, b := ScanSound(s, lo);
      assert lo <= a <= b <= e && AllSpace(s[lo..a]) && AllDigits(s[a..b]) && AllSpace(s[b..e]);
    }
    if SeparatorRun(s, lo, e) && (e < |s| ==> !IsSeparatorChar(s[e])) {
      var a, b :| lo <= a <= b <= e && AllSpace(s[lo..a]) && AllDigits(s[a..b]) && AllSpace(s[b..e]);
      ScanComplete(s, lo, a, b, e);
    }
  }

  /** `Action\s*\d*\s*:` starting at `i`: the index of its colon. */
  function ActionHeader(s: string, i: nat): (r: Option<nat>)
    ensures r.Some? ==> i + 6 <= r.value < |s| && s[r.value] == ':'
  {
    if !OccursAt(s, "Action", i) then None
    else
      match ScanSeparator(s, i + 6, 0)
      case None => None
      case Some(c) => if c < |s| && s[c] == ':' then Some(c) else None
  }

  /** `Action\s*\d*\s*Input\s*\d*\s*:` starting at `i`: the index of its colon. */
  function InputHeader(s: string, i: nat): (r: Option<nat>)
    ensures r.Some? ==> i + 11 <= r.value < |s| && s[r.value] == ':'
  {
    if !OccursAt(s, "Action", i) then None
    else
      match ScanSeparator(s, i + 6, 0)
      case None => None
      case Some(k) =>
        if !OccursAt(s, "Input", k) then None
        else
          match ScanSeparator(s, k + 5, 0)
          case None => None
          case Some(c) => if c < |s| && s[c] == ':' then Some(c) else None
  }

  /** `Action\s*\d*\s*:` matches at `i` with its colon at `c` exactly when `Action` sits at `i`
      and a `\s*\d*\s*` run leads from there to a colon at `c`. */
  lemma {:induction false} ActionHeaderMeaning(s: string, i: nat, c: nat)
    ensures ActionHeader(s, i) == Some(c) <==>
      OccursAt(s, "Action", i) && SeparatorRun(s, i + 6, c) && c < |s| && s[c] == ':'
  {
    if OccursAt(s, "Action", i) {
      ScanSeparatorMeaning(s, i + 6, c);
    }
  }

  /** `Action\s*\d*\s*Input\s*\d*\s*:` matches at `i` with its colon at `c` exactly when
      `Action`, a run, `Input` at some `k`, and a run lead from `i` to a colon at `c`. */
  lemma {:induction false} InputHeaderMeaning(s: string, i: nat, c: nat)
    ensures InputHeader(s, i) == Some(c) <==>
      OccursAt(s, "Action", i) && c < |s| && s[c] == ':' &&
      exists k: nat :: SeparatorRun(s, i + 6, k) && OccursAt(s, "Input", k) && SeparatorRun(s, k + 5, c)
  {
    if InputHeader(s, i) == Some(c) {
      var k := InputHeaderSound(s, i, c);
    }
    if OccursAt(s, "Action", i) && c < |s| && s[c] == ':' &&
       exists k: nat :: SeparatorRun(s, i + 6, k) && OccursAt(s, "Input", k) && SeparatorRun(s, k + 5, c)
    {
      var k: nat :| SeparatorRun(s, i + 6, k) && OccursAt(s, "Input", k) && SeparatorRun(s, k + 5, c);
      InputHeaderComplete(s, i, k, c);
    }
  }

  lemma {:induction false} InputHeaderSound(s: string, i: nat, c: nat) returns (k: nat)
    requires InputHeader(s, i) == Some(c)
    ensures OccursAt(s, "Action", i) && c < |s| && s[c] == ':'
    ensures SeparatorRun(s, i + 6, k) && OccursAt(s, "Input", k) && SeparatorRun(s, k + 5, c)
  {
    assert OccursAt(s, "Action", i);
    k := ScanSeparator(s, i + 6, 0).value;
    assert OccursAt(s, "Input", k);
    assert ScanSeparator(s, k + 5, 0) == Some(c);
    ScanSeparatorMeaning(s, i + 6, k);
    ScanSeparatorMeaning(s, k + 5, c);
  }

  lemma {:induction false} InputHeaderComplete(s: string, i: nat, k: nat, c: nat)
    requires OccursAt(s, "Action", i) && c < |s| && s[c] == ':'
    requires SeparatorRun(s, i + 6, k) && OccursAt(s, "Input", k) && SeparatorRun(s, k + 5, c)
    ensures InputHeader(s, i) == Some(c)
  {
    assert s[k] == s[k..k + 5][0] == 'I';
    ScanSeparatorMeaning(s, i + 6, k);
    ScanSeparatorMeaning(s, k + 5, c);
  }

  /** Where a regex match starting at `start` puts its pieces: the first colon, the newline that
      ends the lazy group, and the colon after `Input`. */
  datatype Match = Match(start: nat, colon: nat, newline: nat, inputColon: nat)

  /** The first index in `from..end - 1` that satisfies `p`: the leftmost-first search both the
      lazy group and `re.search` perform. */
  function FirstWhere(p: nat -> bool, from: nat, end: nat): (r: Option<nat>)
    ensures r.Some? ==> from <= r.value < end
    decreases end - from
  {
    if from >= end then None
    else if p(from) then Some(from)
    else FirstWhere(p, from + 1, end)
  }

  /** The index found qualifies. */
  lemma {:induction false} FirstWhereHolds(p: nat -> bool, from: nat, end: nat)
    requires FirstWhere(p, from, end).Some?
    ensures p(FirstWhere(p, from, end).value)
    decreases end - from
  {
    if !p(from) {
      FirstWhereHolds(p, from + 1, end);
    }
  }

  /** No index before the one found qualifies. */
  lemma {:induction false} FirstWhereBefore(p: nat -> bool, from: nat, end: nat, k: nat)
    requires FirstWhere(p, from, end).Some? && from <= k < FirstWhere(p, from, end).value
    ensures !p(k)
    decreases end - from
  {
    if k > from {
      FirstWhereBefore(p, from + 1, end, k);
    }
  }

  /** None is found only when no index qualifies. */
  lemma {:induction false} FirstWhereNone(p: nat -> bool, from: nat, end: nat, k: nat)
    requires FirstWhere(p, from, end).None? && from <= k < end
    ensures !p(k)
    decreases end - from
  {
    if k > from {
      FirstWhereNone(p, from + 1, end, k);
    }
  }

  /** An index that qualifies, with none before it, is the one found. */
  lemma {:induction false} FirstWhereAt(p: nat -> bool, from: nat, end: nat, n: nat)
    requires from <= n < end && p(n)
    requires forall k :: from <= k < n ==> !p(k)
    ensures FirstWhere(p, from, end) == Some(n)
    decreases n - from
  {
    if from < n {
      FirstWhereAt(p, from + 1, end, n);
    }
  }

  /** A newline at `k` followed by an input header: where the lazy group may stop. */
  predicate GroupEnd(s: string, k: nat) {
    k < |s| && s[k] == '\n' && InputHeader(s, k + 1).Some?
  }

  function GroupEnds(s: string): nat -> bool {
    (k: nat) => GroupEnd(s, k)
  }

  /** The lazy group `(.*?)\n...`: the first newline at or after `from` that is followed by an
      input header, with the index of that header's colon. */
  function LazyEnd(s: string, from: nat): (r: Option<(nat, nat)>)
    ensures r.Some? ==> from <= r.value.0 && GroupEnd(s, r.value.0) && InputHeader(s, r.value.0 + 1) == Some(r.value.1)
  {
    match FirstWhere(GroupEnds(s), from, |s|)
    case None => None
    case Some(n) =>
      FirstWhereHolds(GroupEnds(s), from, |s|);
      Some((n, InputHeader(s, n + 1).value))
  }

  lemma {:induction false} GroupEndOf(s: string, k: nat)
    requires !GroupEnds(s)(k)
    ensures !GroupEnd(s, k)
  {
  }

  /** No place before the one the lazy group stops at could end it. */
  lemma {:induction false} LazyEndBefore(s: string, from: nat, n: nat, c: nat, k: nat)
    requires LazyEnd(s, from) == Some((n, c)) && from <= k < n
    ensures !GroupEnd(s, k)
  {
    FirstWhereBefore(GroupEnds(s), from, |s|, k);
    GroupEndOf(s, k);
  }

  /** The lazy group stops at the first possible place, and fails only when there is none. */
  lemma {:induction false} LazyEndFirst(s: string, from: nat)
    ensures LazyEnd(s, from).Some? ==> forall k :: from <= k < LazyEnd(s, from).value.0 ==> !GroupEnd(s, k)
    ensures LazyEnd(s, from).None? <==> forall k :: from <= k ==> !GroupEnd(s, k)
  {
    if LazyEnd(s, from).Some? {
      forall k | from <= k < LazyEnd(s, from).value.0 ensures !GroupEnd(s, k) {
        FirstWhereBefore(GroupEnds(s), from, |s|, k);
        GroupEndOf(s, k);
      }
    } else {
      forall k | from <= k ensures !GroupEnd(s, k) {
        if k < |s| {
          FirstWhereNone(GroupEnds(s), from, |s|, k);
          GroupEndOf(s, k);
        }
      }
    }
  }

  /** The whole pattern matched at `start`; `[\s]*(.*)` after the last colon always matches. */
  function MatchAt(s: string, start: nat): (r: Option<Match>)
    ensures r.Some? ==> r.value.start == start && start + 6 <= r.value.colon < r.value.newline < r.value.inputColon < |s|
    ensures r.Some? ==> ActionHeader(s, start) == Some(r.value.colon)
    ensures r.Some? ==> LazyEnd(s, r.value.colon + 1) == Some((r.value.newline, r.value.inputColon))
  {
    match ActionHeader(s, start)
    case None => None
    case Some(c) =>
      match LazyEnd(s, c + 1)
      case None => None
      case Some(e) => Some(Match(start, c, e.0, e.1))
  }

  function Matches(s: string): nat -> bool {
    (j: nat) => MatchAt(s, j).Some?
  }

  /** `re.search`: the match with the leftmost start at or after `from`. */
  function FirstMatch(s: string, from: nat): (r: Option<Match>)
    ensures r.Some? ==> from <= r.value.start && r.value.colon < r.value.newline < r.value.inputColon < |s|
  {
    match FirstWhere(Matches(s), from, |s| + 1)
    case None => None
    case Some(j) => MatchAt(s, j)
  }

  /** The match found is the one the pattern makes at its start. */
  lemma {:induction false} FirstMatchAt(s: string, from: nat)
    requires FirstMatch(s, from).Some?
    ensures MatchAt(s, FirstMatch(s, from).value.start) == FirstMatch(s, from)
  {
  }

  lemma {:induction false} MatchesOf(s: string, j: nat)
    requires !Matches(s)(j)
    ensures MatchAt(s, j).None?
  {
  }

  lemma {:induction false} FirstMatchWhere(s: string, from: nat)
    ensures FirstMatch(s, from).None? <==> FirstWhere(Matches(s), from, |s| + 1).None?
    ensures FirstMatch(s, from).Some? ==> FirstMatch(s, from).value.start == FirstWhere(Matches(s), from, |s| + 1).value
  {
    if FirstWhere(Matches(s), from, |s| + 1).Some? {
      FirstWhereHolds(Matches(s), from, |s| + 1);
    }
  }

  /** A start before the one found does not match. */
  lemma {:induction false} NoMatchBefore(s: string, from: nat, j: nat)
    requires FirstWhere(Matches(s), from, |s| + 1).Some? && from <= j < FirstWhere(Matches(s), from, |s| + 1).value
    ensures MatchAt(s, j).None?
  {
    FirstWhereBefore(Matches(s), from, |s| + 1, j);
    MatchesOf(s, j);
  }

  /** When the search fails, no start matches. */
  lemma {:induction false} NoMatchAt(s: string, from: nat, j: nat)
    requires FirstWhere(Matches(s), from, |s| + 1).None? && from <= j
    ensures MatchAt(s, j).None?
  {
    if j <= |s| {
      FirstWhereNone(Matches(s), from, |s| + 1, j);
      MatchesOf(s, j);
    }
  }

  /** No start before the one found matches. */
  lemma {:induction false} FirstMatchLeftmost(s: string, from: nat)
    requires FirstMatch(s, from).Some?
    ensures forall j :: from <= j < FirstMatch(s, from).value.start ==> MatchAt(s, j).None?
  {
    FirstMatchWhere(s, from);
    forall j | from <= j < FirstMatch(s, from).value.start ensures MatchAt(s, j).None? {
      NoMatchBefore(s, from, j);
    }
  }

  /** The search fails only when no start at all matches. */
  lemma {:induction false} FirstMatchNone(s: string, from: nat)
    ensures FirstMatch(s, from).None? <==> forall j :: from <= j ==> MatchAt(s, j).None?
  {
    FirstMatchWhere(s, from);
    if FirstMatch(s, from).None? {
      forall j | from <= j ensures MatchAt(s, j).None? {
        NoMatchAt(s, from, j);
      }
    } else {
      FirstMatchAt(s, from);
    }
  }

  /** `match.group(1)` */
  function ToolGroup(s: string, m: Match): string
    requires m.colon < m.newline <= |s|
  {
    s[m.colon + 1..m.newline]
  }

  /** `match.group(2)`: the rest of the text after `[\s]*` has taken the leading whitespace. */
  function InputGroup(s: string, m: Match): string
    requires m.inputColon < |s|
  {
    LStripBy(s[m.inputColon + 1..], IsSpace)
  }

  /** No surrounding character satisfies `p`. */
  predicate Trimmed(t: string, p: char -> bool) {
    t == [] || (!p(t[0]) && !p(t[|t| - 1]))
  }

  lemma {:induction false} StripTrimmed(t: string, p: char -> bool)
    ensures Trimmed(StripBy(t, p), p)
  {
  }

  /** `AgentFinish(return_values={"output": llm_output.split("Final Answer:")[-1].strip()}, log=llm_output)` */
  function FinishStep(text: string): (r: AgentStep)
    ensures r.Finish? && r.log == text && Trimmed(r.output, IsSpace)
  {
    Finish(Strip(AfterLast(text, FinalAnswerColon)), text)
  }

  /** `AgentAction(tool=group(1).strip(), tool_input=group(2).strip(" ").strip('"'), log=llm_output)` */
  function ActionStep(text: string, m: Match): (r: AgentStep)
    requires m.colon < m.newline < m.inputColon < |text|
    ensures r.Action? && r.log == text && Trimmed(r.tool, IsSpace) && Trimmed(r.toolInput, IsQuote)
  {
    var tool := ToolGroup(text, m);
    var input := StripBy(InputGroup(text, m), IsBlank);
    StripTrimmed(tool, IsSpace);
    StripTrimmed(input, IsQuote);
    Action(Strip(tool), StripBy(input, IsQuote), text)
  }

  /** `parse(llm_output)`: a finish when "Final Answer" appears anywhere, even beside action
      lines; otherwise the tool call the regex finds; otherwise ValueError. */
  function Parse(text: string): (r: Result<AgentStep, Error>)
    ensures Contains(text, FinalAnswer) ==> r.Ok? && r.value.Finish?
    ensures !Contains(text, FinalAnswer) ==> (r.Err? <==> FirstMatch(text, 0).None?)
    ensures r.Err? ==> r.error == ValueError
    ensures r.Ok? ==> r.value.log == text
    ensures r.Ok? && r.value.Finish? ==> Trimmed(r.value.output, IsSpace)
    ensures r.Ok? && r.value.Action? ==> Trimmed(r.value.tool, IsSpace) && Trimmed(r.value.toolInput, IsQuote)
  {
    if Contains(text, FinalAnswer) then Ok(FinishStep(text))
    else
      match FirstMatch(text, 0)
      case None => Err(ValueError)
      case Some(m) => Ok(ActionStep(text, m))
  }

  /** The reply a model gives for a finished task, after any preceding text. */
  function FinishText(prefix: string, answer: string): string {
    prefix + FinalAnswerColon + answer
  }

  /** The last `Final Answer:` of a text ending in one followed by an answer free of it. */
  lemma {:induction false} AfterLastFinalAnswer(x: string, y: string)
    requires !Contains(y, FinalAnswerColon)
    ensures AfterLast(x + FinalAnswerColon + y, FinalAnswerColon) == y
    decreases |x|
  {
    var sep := FinalAnswerColon;
    var s := x + sep + y;
    FirstMarkerBefore(x, y);
    var i := FindFrom(s, sep, 0).value;
    AfterLastCut(s, sep, i);
    if i == |x| {
      MarkerSuffix(x, y, |x|);
      AfterLastNone(y, sep);
    } else {
      MarkerNoOverlap(x, y, i);
      MarkerSuffix(x, y, i + |sep|);
      AfterLastFinalAnswer(x[i + |sep|..], y);
    }
  }

  /** The marker the text is built with is found, at the latest where it was put. */
  lemma {:induction false} FirstMarkerBefore(x: string, y: string)
    ensures FindFrom(x + FinalAnswerColon + y, FinalAnswerColon, 0).Some?
    ensures FindFrom(x + FinalAnswerColon + y, FinalAnswerColon, 0).value <= |x|
  {
    var s := x + FinalAnswerColon + y;
    assert s[|x|..|x| + |FinalAnswerColon|] == FinalAnswerColon;
    assert OccursAt(s, FinalAnswerColon, |x|);
  }

  /** What follows a cut at `j`, in or right after `x`, in `x + "Final Answer:" + y`. */
  lemma {:induction false} MarkerSuffix(x: string, y: string, j: nat)
    requires j <= |x|
    ensures (x + FinalAnswerColon + y)[j..] == x[j..] + FinalAnswerColon + y
    ensures j == |x| ==> (x + FinalAnswerColon + y)[j + |FinalAnswerColon|..] == y
  {
  }

  /** The marker's only colon is its last character. */
  lemma {:induction false} MarkerColon(x: string, y: string, k: nat)
    ensures |x| <= k < |x| + 12 ==> (x + FinalAnswerColon + y)[k] != ':'
  {
    if |x| <= k < |x| + 12 {
      assert (x + FinalAnswerColon + y)[k] == FinalAnswerColon[k - |x|];
    }
  }

  /** An occurrence that starts inside `x` ends inside `x`: its closing colon would otherwise
      land on a character of "Final Answer", none of which is a colon. */
  lemma {:induction false} MarkerNoOverlap(x: string, y: string, i: nat)
    requires i < |x| && OccursAt(x + FinalAnswerColon + y, FinalAnswerColon, i)
    ensures i + |FinalAnswerColon| <= |x|
  {
    var s := x + FinalAnswerColon + y;
    assert s[i..i + 13][12] == ':';
    MarkerColon(x, y, i + 12);
  }

  /** A reply ending in `Final Answer:` and an answer is a finish with the stripped answer. */
  lemma {:induction false} ParseFinish(prefix: string, answer: string)
    requires !Contains(answer, FinalAnswerColon)
    ensures Parse(FinishText(prefix, answer)) == Ok(Finish(Strip(answer), FinishText(prefix, answer)))
  {
    var text := FinishText(prefix, answer);
    assert text[|prefix|..|prefix| + |FinalAnswer|] == FinalAnswer;
    assert OccursAt(text, FinalAnswer, |prefix|);
    ContainsMeaning(text, FinalAnswer);
    AfterLastFinalAnswer(prefix, answer);
  }

  /** The tool call in the format the prompt asks for. */
  function ActionText(tool: string, input: string): string {
    "Action: " + tool + "\nAction Input: " + input
  }

  lemma {:induction false} LazyEndAt(s: string, from: nat, n: nat)
    requires from <= n && GroupEnd(s, n)
    requires forall k :: from <= k < n ==> s[k] != '\n'
    ensures LazyEnd(s, from) == Some((n, InputHeader(s, n + 1).value))
  {
    GroupEndIs(s, n);
    forall k | from <= k < n ensures !GroupEnds(s)(k) {
      NoNewlineNoEnd(s, k);
    }
    FirstWhereAt(GroupEnds(s), from, |s|, n);
  }

  lemma {:induction false} GroupEndIs(s: string, k: nat)
    requires GroupEnd(s, k)
    ensures GroupEnds(s)(k)
  {
  }

  lemma {:induction false} NoNewlineNoEnd(s: string, k: nat)
    requires k < |s| ==> s[k] != '\n'
    ensures !GroupEnds(s)(k)
  {
  }

  lemma {:induction false} ActionTextHeaders(tool: string, input: string)
    requires forall k :: 0 <= k < |tool| ==> tool[k] != '\n'
    ensures ActionHeader(ActionText(tool, input), 0) == Some(6)
    ensures InputHeader(ActionText(tool, input), 9 + |tool|) == Some(21 + |tool|)
  {
    var text := ActionText(tool, input);
    var n := 8 + |tool|;
    assert text[..6] == "Action" && text[6] == ':';
    assert ScanSeparator(text, 6, 0) == Some(6);
    assert text[n + 1..n + 7] == "Action" && text[n + 7] == ' ' && text[n + 8] == 'I';
    assert text[n + 8..n + 13] == "Input" && text[n + 13] == ':';
    assert ScanSeparator(text, n + 8, 0) == Some(n + 8);
    assert ScanSeparator(text, n + 7, 0) == Some(n + 8);
    assert ScanSeparator(text, n + 13, 0) == Some(n + 13);
  }

  /** The regex finds the whole tool call, its lazy group ending at the newline after the tool. */
  lemma {:induction false} ActionTextMatch(tool: string, input: string)
    requires forall k :: 0 <= k < |tool| ==> tool[k] != '\n'
    ensures FirstMatch(ActionText(tool, input), 0) == Some(Match(0, 6, 8 + |tool|, 21 + |tool|))
  {
    var text := ActionText(tool, input);
    var n := 8 + |tool|;
    ActionTextHeaders(tool, input);
    assert text[n] == '\n';
    assert GroupEnd(text, n);
    forall k | 7 <= k < n ensures text[k] != '\n' {
      if k > 7 {
        assert text[k] == tool[k - 8];
      }
    }
    LazyEndAt(text, 7, n);
    assert MatchAt(text, 0) == Some(Match(0, 6, n, n + 13));
  }

  lemma {:induction false} ActionTextTool(tool: string, input: string)
    requires Trimmed(tool, IsSpace)
    ensures Strip(ToolGroup(ActionText(tool, input), Match(0, 6, 8 + |tool|, 21 + |tool|))) == tool
  {
    var text := ActionText(tool, input);
    assert text[7..8 + |tool|] == " " + tool;
    LStripByPrefix(" ", tool, IsSpace);
    StripByNothing(tool, IsSpace);
    assert LStripBy(tool, IsSpace) == tool;
  }

  lemma {:induction false} ActionTextInput(tool: string, input: string)
    requires Trimmed(input, IsSpace) && Trimmed(input, IsQuote)
    ensures StripBy(StripBy(InputGroup(ActionText(tool, input), Match(0, 6, 8 + |tool|, 21 + |tool|)), IsBlank), IsQuote) == input
  {
    var text := ActionText(tool, input);
    assert text[22 + |tool|..] == " " + input;
    LStripByPrefix(" ", input, IsSpace);
    StripByNothing(input, IsSpace);
    assert LStripBy(input, IsSpace) == input;
    StripByNothing(input, IsBlank);
    StripByNothing(input, IsQuote);
  }

  /** A tool call in the prompt's format parses back to its tool and input, provided the text
      has no "Final Answer" in it and the parts carry no padding the parser strips. */
  lemma {:induction false} ParseAction(tool: string, input: string)
    requires forall k :: 0 <= k < |tool| ==> tool[k] != '\n'
    requires Trimmed(tool, IsSpace) && Trimmed(input, IsSpace) && Trimmed(input, IsQuote)
    requires !Contains(ActionText(tool, input), FinalAnswer)
    ensures Parse(ActionText(tool, input)) == Ok(Action(tool, input, ActionText(tool, input)))
  {
    ActionTextMatch(tool, input);
    ActionTextTool(tool, input);
    ActionTextInput(tool, input);
  }

  /** Without "Final Answer", the call is read from the match the search finds. */
  lemma {:induction false} ParseActionMatch(text: string)
    requires !Contains(text, FinalAnswer) && FirstMatch(text, 0).Some?
    ensures Parse(text) == Ok(ActionStep(text, FirstMatch(text, 0).value))
  {
  }

  /** The match the search finds has a tool group that ends at the first newline an input header
      follows (the lazy `(.*?)`). */
  lemma {:induction false} FirstMatchLazy(text: string)
    requires FirstMatch(text, 0).Some?
    ensures ActionHeader(text, FirstMatch(text, 0).value.start) == Some(FirstMatch(text, 0).value.colon)
    ensures GroupEnd(text, FirstMatch(text, 0).value.newline)
    ensures forall k :: FirstMatch(text, 0).value.colon < k < FirstMatch(text, 0).value.newline ==> !GroupEnd(text, k)
  {
    FirstMatchAt(text, 0);
    MatchLazy(text, FirstMatch(text, 0).value);
  }

  lemma {:induction false} MatchLazy(s: string, m: Match)
    requires LazyEnd(s, m.colon + 1) == Some((m.newline, m.inputColon))
    ensures GroupEnd(s, m.newline)
    ensures forall k :: m.colon < k < m.newline ==> !GroupEnd(s, k)
  {
    forall k | m.colon < k < m.newline ensures !GroupEnd(s, k) {
      LazyEndBefore(s, m.colon + 1, m.newline, m.inputColon, k);
    }
  }
}
