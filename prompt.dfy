/** `CustomPromptTemplate.format_messages`: the prompt sent to the language model, built from
    the template, the tools and the agent's earlier steps. */
module Prompt {
  import opened Wrappers
  import opened Text
  import opened Json
  import opened OutputParser

  datatype Tool = Tool(name: string, description: string)

  /** An earlier step: the action the agent took and what the tool returned. */
  datatype Step = Step(action: AgentStep, observation: string)

  /** What one step adds to the scratchpad. */
  function StepText(st: Step): string {
    st.action.log + "\nObservation: " + st.observation + "\nThought: "
  }

  /** The scratchpad: every step's text, in order. */
  function Scratchpad(steps: seq<Step>): string {
    if steps == [] then "" else Scratchpad(steps[..|steps| - 1]) + StepText(steps[|steps| - 1])
  }

  /** The scratchpad of consecutive runs of steps is the concatenation of their scratchpads. */
  lemma {:induction false} ScratchpadAppend(a: seq<Step>, b: seq<Step>)
    ensures Scratchpad(a + b) == Scratchpad(a) + Scratchpad(b)
    decreases |b|
  {
    if b == [] {
      assert a + b == a;
    } else {
      ScratchpadAppend(a, b[..|b| - 1]);
      ScratchpadAppendStep(a, b);
    }
  }

  lemma {:induction false} ScratchpadAppendStep(a: seq<Step>, b: seq<Step>)
    requires b != []
    requires Scratchpad(a + b[..|b| - 1]) == Scratchpad(a) + Scratchpad(b[..|b| - 1])
    ensures Scratchpad(a + b) == Scratchpad(a) + Scratchpad(b)
  {
    LastOfConcat(a, b);
    var x := Scratchpad(a);
    var y := Scratchpad(b[..|b| - 1]);
    var z := StepText(b[|b| - 1]);
    assert Scratchpad(a + b) == x + y + z;
    assert Scratchpad(b) == y + z;
    Assoc(x, y, z);
  }

  lemma {:induction false} Assoc<T>(x: seq<T>, y: seq<T>, z: seq<T>)
    ensures x + y + z == x + (y + z)
  {
  }

  lemma {:induction false} LastOfConcat<T>(a: seq<T>, b: seq<T>)
    requires b != []
    ensures (a + b)[..|a + b| - 1] == a + b[..|b| - 1]
    ensures (a + b)[|a + b| - 1] == b[|b| - 1]
  {
  }

  /** Each step contributes its log, its observation and the two fixed labels, in that order,
      starting right after the steps before it. */
  lemma {:induction false} ScratchpadOfSteps(steps: seq<Step>, k: nat)
    requires k < |steps|
    ensures Scratchpad(steps) == Scratchpad(steps[..k]) + StepText(steps[k]) + Scratchpad(steps[k + 1..])
  {
    ScratchpadPrefix(steps, k);
    SplitAt(steps, k + 1);
    ScratchpadAppend(steps[..k + 1], steps[k + 1..]);
  }

  lemma {:induction false} ScratchpadPrefix(steps: seq<Step>, k: nat)
    requires k < |steps|
    ensures Scratchpad(steps[..k + 1]) == Scratchpad(steps[..k]) + StepText(steps[k])
  {
    var pre := steps[..k + 1];
    assert pre[..|pre| - 1] == steps[..k];
    assert pre[|pre| - 1] == steps[k];
  }

  lemma {:induction false} SplitAt<T>(s: seq<T>, k: nat)
    requires k <= |s|
    ensures s == s[..k] + s[k..]
  {
  }

  /** `"\n".join([f"{tool.name}: {tool.description}" for tool in self.tools])` */
  function ToolsText(tools: seq<Tool>): string {
    Join(ToolLines(tools), "\n")
  }

  function ToolLines(tools: seq<Tool>): seq<string> {
    seq(|tools|, i requires 0 <= i < |tools| => tools[i].name + ": " + tools[i].description)
  }

  /** `", ".join([tool.name for tool in self.tools])` */
  function ToolNames(tools: seq<Tool>): string {
    Join(seq(|tools|, i requires 0 <= i < |tools| => tools[i].name), ", ")
  }

  /** With single-line names and descriptions, the tools text has one line per tool. */
  lemma {:induction false} ToolsTextLines(tools: seq<Tool>)
    requires tools != []
    requires forall k, i :: 0 <= k < |tools| && 0 <= i < |tools[k].name| ==> tools[k].name[i] != '\n'
    requires forall k, i :: 0 <= k < |tools| && 0 <= i < |tools[k].description| ==> tools[k].description[i] != '\n'
    ensures SplitOn(ToolsText(tools), '\n') == ToolLines(tools)
    ensures forall k :: 0 <= k < |tools| ==> SplitOn(ToolsText(tools), '\n')[k] == tools[k].name + ": " + tools[k].description
  {
    var lines := ToolLines(tools);
    forall k, i | 0 <= k < |lines| && 0 <= i < |lines[k]| ensures lines[k][i] != '\n' {
      var nm := tools[k].name;
      if i < |nm| {
        assert lines[k][i] == nm[i];
      } else if i >= |nm| + 2 {
        assert lines[k][i] == tools[k].description[i - |nm| - 2];
      }
    }
    SplitOnJoin(lines, '\n');
  }

  /** A replacement field `{0}`, `{12}` or `{}` names a positional argument. */
  predicate Positional(name: string) {
    forall k :: 0 <= k < |name| ==> IsDigit(name[k])
  }

  /** The first `{` or `}` at or after `i`, or `|s|`. */
  function NextBrace(s: string, i: nat): (j: nat)
    requires i <= |s|
    ensures i <= j <= |s|
    ensures forall k :: i <= k < j ==> s[k] != '{' && s[k] != '}'
    ensures j < |s| ==> s[j] == '{' || s[j] == '}'
    decreases |s| - i
  {
    if i == |s| || s[i] == '{' || s[i] == '}' then i else NextBrace(s, i + 1)
  }

  function Prefixed(pre: string, r: Result<string, Error>): Result<string, Error> {
    match r
    case Err(e) => Err(e)
    case Ok(t) => Ok(pre + t)
  }

  /** `template.format(**args)` from index `i` on, left to right as Python evaluates it: `{{`
      and `}}` stand for single braces, `{name}` for `args[name]` (KeyError when absent, IndexError
      when it names a positional argument, none being given), and an unclosed `{`, a `{` inside
      a field or a single `}` raise ValueError. */
  function FormatFrom(s: string, args: map<string, string>, i: nat): Result<string, Error>
    requires i <= |s|
    decreases |s| - i
  {
    if i == |s| then Ok("")
    else if s[i] == '{' then
      if i + 1 < |s| && s[i + 1] == '{' then Prefixed("{", FormatFrom(s, args, i + 2))
      else
        var j := NextBrace(s, i + 1);
        if j == |s| || s[j] == '{' then Err(ValueError)
        else
          var name := s[i + 1..j];
          if Positional(name) then Err(IndexError)
          else if name !in args then Err(KeyError)
          else Prefixed(args[name], FormatFrom(s, args, j + 1))
    else if s[i] == '}' then
      if i + 1 < |s| && s[i + 1] == '}' then Prefixed("}", FormatFrom(s, args, i + 2)) else Err(ValueError)
    else Prefixed([s[i]], FormatFrom(s, args, i + 1))
  }

  function Format(s: string, args: map<string, string>): Result<string, Error> {
    FormatFrom(s, args, 0)
  }

  /** A template without braces is its own result, whatever the arguments. */
  lemma {:induction false} FormatPlain(s: string, args: map<string, string>, i: nat)
    requires i <= |s|
    requires forall k :: i <= k < |s| ==> s[k] != '{' && s[k] != '}'
    ensures FormatFrom(s, args, i) == Ok(s[i..])
    decreases |s| - i
  {
    if i < |s| {
      FormatPlain(s, args, i + 1);
      assert s[i..] == [s[i]] + s[i + 1..];
    }
  }

  /** A template read as literal characters and named fields. */
  datatype Piece = Lit(c: char) | Field(name: string)

  predicate ValidField(p: Piece) {
    p.Field? ==> !Positional(p.name) && forall k :: 0 <= k < |p.name| ==> p.name[k] != '{' && p.name[k] != '}'
  }

  /** The template text of one piece: a brace doubled, a field in braces. */
  function PieceText(p: Piece): string {
    match p
    case Lit(c) => if c == '{' || c == '}' then [c, c] else [c]
    case Field(n) => "{" + n + "}"
  }

  /** The template text for a sequence of pieces. */
  function Unparse(ps: seq<Piece>): string {
    if ps == [] then "" else PieceText(ps[0]) + Unparse(ps[1..])
  }

  /** The text one piece stands for. */
  function PieceValue(p: Piece, args: map<string, string>): string
    requires p.Field? ==> p.name in args
  {
    match p
    case Lit(c) => [c]
    case Field(n) => args[n]
  }

  /** The text the pieces stand for, when every field has a value. */
  function Render(ps: seq<Piece>, args: map<string, string>): string
    requires forall k :: 0 <= k < |ps| ==> ps[k].Field? ==> ps[k].name in args
  {
    if ps == [] then "" else PieceValue(ps[0], args) + Render(ps[1..], args)
  }

  /** What `format` makes of a text depends only on the text from the current index on. */
  lemma {:induction false} FormatFromShift(pre: string, s: string, args: map<string, string>, i: nat)
    requires i <= |s|
    ensures FormatFrom(pre + s, args, |pre| + i) == FormatFrom(s, args, i)
    decreases |s| - i
  {
    if i < |s| {
      if s[i] == '{' && !(i + 1 < |s| && s[i + 1] == '{') {
        var j := NextBrace(s, i + 1);
        if j < |s| && s[j] == '}' {
          FormatFromShift(pre, s, args, j + 1);
        }
        ShiftField(pre, s, args, i, j);
      } else if s[i] == '{' || (s[i] == '}' && i + 1 < |s| && s[i + 1] == '}') {
        FormatFromShift(pre, s, args, i + 2);
        ShiftPair(pre, s, args, i);
      } else if s[i] != '}' {
        FormatFromShift(pre, s, args, i + 1);
        ShiftLit(pre, s, args, i);
      } else {
        ShiftClose(pre, s, args, i);
      }
    }
  }

  lemma {:induction false} ShiftPair(pre: string, s: string, args: map<string, string>, i: nat)
    requires i + 1 < |s| && s[i] == s[i + 1] && (s[i] == '{' || s[i] == '}')
    requires FormatFrom(pre + s, args, |pre| + i + 2) == FormatFrom(s, args, i + 2)
    ensures FormatFrom(pre + s, args, |pre| + i) == FormatFrom(s, args, i)
  {
    assert (pre + s)[|pre| + i] == s[i];
    assert (pre + s)[|pre| + i + 1] == s[i + 1];
  }

  lemma {:induction false} ShiftLit(pre: string, s: string, args: map<string, string>, i: nat)
    requires i < |s| && s[i] != '{' && s[i] != '}'
    requires FormatFrom(pre + s, args, |pre| + i + 1) == FormatFrom(s, args, i + 1)
    ensures FormatFrom(pre + s, args, |pre| + i) == FormatFrom(s, args, i)
  {
    assert (pre + s)[|pre| + i] == s[i];
  }

  lemma {:induction false} ShiftClose(pre: string, s: string, args: map<string, string>, i: nat)
    requires i < |s| && s[i] == '}' && !(i + 1 < |s| && s[i + 1] == '}')
    ensures FormatFrom(pre + s, args, |pre| + i) == FormatFrom(s, args, i)
  {
    assert (pre + s)[|pre| + i] == s[i];
    if i + 1 < |s| {
      assert (pre + s)[|pre| + i + 1] == s[i + 1];
    }
  }

  lemma {:induction false} ShiftField(pre: string, s: string, args: map<string, string>, i: nat, j: nat)
    requires i < |s| && s[i] == '{' && !(i + 1 < |s| && s[i + 1] == '{')
    requires j == NextBrace(s, i + 1)
    requires j < |s| && s[j] == '}' ==> FormatFrom(pre + s, args, |pre| + j + 1) == FormatFrom(s, args, j + 1)
    ensures FormatFrom(pre + s, args, |pre| + i) == FormatFrom(s, args, i)
  {
    NextBraceShift(pre, s, i + 1);
    var t := pre + s;
    assert t[|pre| + i] == s[i];
    if i + 1 < |s| {
      assert t[|pre| + i + 1] == s[i + 1];
    }
    if j < |s| {
      assert t[|pre| + j] == s[j];
      assert t[|pre| + i + 1..|pre| + j] == s[i + 1..j];
    }
  }

  lemma {:induction false} NextBraceShift(pre: string, s: string, i: nat)
    requires i <= |s|
    ensures NextBrace(pre + s, |pre| + i) == |pre| + NextBrace(s, i)
    decreases |s| - i
  {
    if i < |s| {
      assert (pre + s)[|pre| + i] == s[i];
      if s[i] != '{' && s[i] != '}' {
        NextBraceShift(pre, s, i + 1);
      }
    }
  }

  /** Formatting the text of a sequence of pieces gives what they stand for: `format` reads
      back exactly the fields and escaped braces `Unparse` writes. */
  lemma {:induction false} FormatUnparse(ps: seq<Piece>, args: map<string, string>)
    requires forall k :: 0 <= k < |ps| ==> ValidField(ps[k])
    requires forall k :: 0 <= k < |ps| ==> ps[k].Field? ==> ps[k].name in args
    ensures Format(Unparse(ps), args) == Ok(Render(ps, args))
  {
    if ps != [] {
      FormatUnparse(ps[1..], args);
      assert ValidField(ps[0]);
      FormatPiece(ps[0], Unparse(ps[1..]), args);
    }
  }

  /** `format` reads one piece's text back as its value, then goes on with the rest. */
  lemma {:induction false} FormatPiece(p: Piece, rest: string, args: map<string, string>)
    requires ValidField(p) && (p.Field? ==> p.name in args)
    ensures Format(PieceText(p) + rest, args) == Prefixed(PieceValue(p, args), Format(rest, args))
  {
    FormatFromShift(PieceText(p), rest, args, 0);
    match p
    case Lit(c) =>
      var s := PieceText(p) + rest;
      assert s[0] == c;
      if c == '{' || c == '}' {
        assert s[1] == c;
      }
    case Field(n) =>
      FormatField(n, rest, args);
  }

  lemma {:induction false} FormatField(n: string, rest: string, args: map<string, string>)
    requires !Positional(n) && n in args
    requires forall k :: 0 <= k < |n| ==> n[k] != '{' && n[k] != '}'
    ensures FormatFrom("{" + n + "}" + rest, args, 0) == Prefixed(args[n], FormatFrom("{" + n + "}" + rest, args, |n| + 2))
  {
    var s := "{" + n + "}" + rest;
    var x := n + ("}" + rest);
    assert s == "{" + x;
    NextBraceShift("{", x, 0);
    NextBraceField(n, "}" + rest);
    assert s[1..|n| + 1] == n;
  }

  lemma {:induction false} NextBraceField(n: string, t: string)
    requires forall k :: 0 <= k < |n| ==> n[k] != '{' && n[k] != '}'
    requires t != [] && t[0] == '}'
    ensures NextBrace(n + t, 0) == |n|
  {
    var s := n + t;
    assert s[|n|] == '}';
    assert forall k :: 0 <= k < |n| ==> s[k] == n[k];
  }

  /** `kwargs` after the three assignments of `format_messages`. */
  function PromptArgs(kwargs: map<string, string>, tools: seq<Tool>, steps: seq<Step>): map<string, string> {
    kwargs["agent_scratchpad" := Scratchpad(steps)]["tools" := ToolsText(tools)]["tool_names" := ToolNames(tools)]
  }

  /** The prompt text, or the error `kwargs.pop` or `format` raises. */
  function PromptText(template: string, tools: seq<Tool>, kwargs: map<string, string>, steps: Option<seq<Step>>): Result<string, Error> {
    match steps
    case None => Err(KeyError)
    case Some(ss) => Format(template, PromptArgs(kwargs, tools, ss))
  }

  /** The generated variables override whatever the caller passed under the same names. */
  lemma {:induction false} PromptArgsOverride(kwargs: map<string, string>, tools: seq<Tool>, steps: seq<Step>, k: string)
    ensures PromptArgs(kwargs, tools, steps)["agent_scratchpad"] == Scratchpad(steps)
    ensures PromptArgs(kwargs, tools, steps)["tools"] == ToolsText(tools)
    ensures PromptArgs(kwargs, tools, steps)["tool_names"] == ToolNames(tools)
    ensures k !in {"agent_scratchpad", "tools", "tool_names"} ==>
      (k in PromptArgs(kwargs, tools, steps) <==> k in kwargs) &&
      (k in kwargs ==> PromptArgs(kwargs, tools, steps)[k] == kwargs[k])
  {
  }

  /** `format_messages(**kwargs)`, with `intermediate_steps` passed apart from the string
      arguments (None when the caller did not pass it). The text returned is the content of
      the single human message. */
  method FormatMessages(template: string, tools: seq<Tool>, kwargs: map<string, string>, intermediateSteps: Option<seq<Step>>)
    returns (r: Result<string, Error>)
    ensures r == PromptText(template, tools, kwargs, intermediateSteps)
  {
    if intermediateSteps.None? {
      return Err(KeyError);
    }
    var steps := intermediateSteps.value;
    var thoughts := "";
    for k := 0 to |steps|
      invariant thoughts == Scratchpad(steps[..k])
    {
      assert steps[..k + 1][..k] == steps[..k];
      thoughts := thoughts + steps[k].action.log;
      thoughts := thoughts + "\nObservation: " + steps[k].observation + "\nThought: ";
    }
    assert steps[..|steps|] == steps;
    var args := kwargs;
    args := args["agent_scratchpad" := thoughts];
    args := args["tools" := ToolsText(tools)];
    args := args["tool_names" := ToolNames(tools)];
    r := Format(template, args);
  }
}
