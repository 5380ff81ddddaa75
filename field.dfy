// src/field.rs: a prompted field (message, format, optional default) and the
// loop that prompts, reads one line and parses it until it gets a value.
module Field {
  import opened Wrappers
  import opened Errors
  import opened Text
  import opened Streams

  /** `StructFieldFormatting`: how the prompt line of a field looks. */
  datatype Format = Format(chip: string, prefix: string, newLine: bool, showDefault: bool)

  /** `StructFieldFormatting::default`: chip "* ", prefix ": ", same line, default shown. */
  function DefaultFormat(): (f: Format)
    ensures f.chip == "* " && f.prefix == ": " && !f.newLine && f.showDefault
  {
    Format("* ", ": ", false, true)
  }

  /** `StructField`: `customFmt` tells a menu whether to keep `fmt` or impose its own. */
  datatype StructField = StructField(msg: string, fmt: Format, customFmt: bool, default: Option<string>)

  /** `From<&str>`: the message with the default format, not custom, and no default value. */
  function FromMsg(msg: string): (f: StructField)
    ensures f.msg == msg && f.fmt == DefaultFormat() && !f.customFmt && f.default.None?
  {
    StructField(msg, DefaultFormat(), false, None)
  }

  /** `fmt`: a format of the field's own, which a menu keeps. */
  function WithFmt(f: StructField, fmt: Format): (g: StructField)
    ensures g.fmt == fmt && g.customFmt
    ensures g.msg == f.msg && g.default == f.default
  {
    f.(fmt := fmt, customFmt := true)
  }

  /** `inherit_fmt`: a format received from a menu. */
  function InheritFmt(f: StructField, fmt: Format): (g: StructField)
    ensures g.fmt == fmt && !g.customFmt
    ensures g.msg == f.msg && g.default == f.default
  {
    f.(fmt := fmt, customFmt := false)
  }

  /** `default`: sets the default text and nothing else. */
  function WithDefault(f: StructField, default: string): (g: StructField)
    ensures g.default == Some(default)
    ensures g.msg == f.msg && g.fmt == f.fmt && g.customFmt == f.customFmt
  {
    f.(default := Some(default))
  }

  /** The builders touch disjoint parts: setting a default commutes with setting a format. */
  lemma BuildersCommute(f: StructField, fmt: Format, default: string)
    ensures WithDefault(WithFmt(f, fmt), default) == WithFmt(WithDefault(f, default), fmt)
    ensures WithDefault(InheritFmt(f, fmt), default) == InheritFmt(WithDefault(f, default), fmt)
  {
  }

  /** The " (default: v)" note, shown only when there is a default and the format asks for it. */
  function DefaultNote(default: Option<string>, fmt: Format): (s: string)
    ensures s == [] <==> default.None? || !fmt.showDefault
    ensures s != [] ==> s == " (default: " + default.value + ")"
  {
    match default
    case Some(v) => if fmt.showDefault then " (default: " + v + ")" else []
    case None => []
  }

  /** `prompt_fmt`: chip, message, default note, optional line break, prefix. */
  function PromptText(msg: string, default: Option<string>, fmt: Format): (s: string)
    ensures s == fmt.chip + msg + DefaultNote(default, fmt) + (if fmt.newLine then "\n" else "") + fmt.prefix
    ensures |s| == |fmt.chip| + |msg| + |DefaultNote(default, fmt)| + (if fmt.newLine then 1 else 0) + |fmt.prefix|
  {
    fmt.chip + msg + DefaultNote(default, fmt) + (if fmt.newLine then "\n" else "") + fmt.prefix
  }

  /** With the default format a field "age" with default "18" prompts "* age (default: 18): ". */
  lemma DefaultPromptExample()
    ensures PromptText("age", Some("18"), DefaultFormat()) == "* age (default: 18): "
    ensures PromptText("age", None, DefaultFormat()) == "* age: "
  {
  }

  /** `unchecked_default_parse`: the default parsed, or `IncorrectType` naming it. */
  function DefaultParse<T>(default: string, parse: string -> Option<T>): (r: Result<T, MenuError>)
    ensures r.Ok? <==> parse(default).Some?
    ensures r.Ok? ==> r.value == parse(default).value
    ensures r.Err? ==> r.error == IncorrectType(default)
  {
    match parse(default)
    case Some(t) => Ok(t)
    case None => Err(IncorrectType(default))
  }

  /**
   * One attempt on a trimmed line: `None` means the loop prompts again.
   * Empty input takes the default when there is one; otherwise the line is
   * parsed, and a failed parse falls back to the default when there is one.
   */
  function Attempt<T>(default: Option<string>, parse: string -> Option<T>, out: string): (r: Option<Result<T, MenuError>>)
    ensures default.Some? ==> r.Some?
    ensures r.None? <==> default.None? && parse(out).None?
  {
    if out == [] && default.Some? then Some(DefaultParse(default.value, parse))
    else match parse(out)
      case Some(t) => Some(Ok(t))
      case None => if default.Some? then Some(DefaultParse(default.value, parse)) else None
  }

  /**
   * The end of a `build`: a result, or `Diverges` when the input is at end of
   * file and the empty line it yields gives no value; the loop then prompts
   * forever, since end of file keeps yielding the same empty line.
   */
  datatype Built<T> = Done(result: Result<T, MenuError>) | Diverges

  /** A `build` run: how it ends, the reads left, and the text it wrote. */
  datatype BuildRun<T> = BuildRun(outcome: Built<T>, rest: seq<Read>, written: string)

  /** One pass of the loop on what `read_line` gave: `Some` stops the loop, `None` prompts again. */
  function Iteration<T>(f: StructField, parse: string -> Option<T>, line: Result<string, MenuError>): (r: Option<Result<T, MenuError>>)
    ensures line.Err? ==> r == Some(Err(line.error))
    ensures line.Ok? ==> r == Attempt(f.default, parse, Trim(line.value))
  {
    match line
    case Err(e) => Some(Err(e))
    case Ok(raw) => Attempt(f.default, parse, Trim(raw))
  }

  /** What `build` does on the given input. */
  function BuildSpec<T>(f: StructField, parse: string -> Option<T>, input: seq<Read>): (run: BuildRun<T>)
    ensures |run.rest| <= |input|
    decreases |input|
  {
    var prompt := PromptText(f.msg, f.default, f.fmt);
    var next := NextLine(input);
    match Iteration(f, parse, next.0)
    case Some(res) => BuildRun(Done(res), next.1, prompt)
    case None =>
      if input == [] then BuildRun(Diverges, [], prompt)
      else
        var more := BuildSpec(f, parse, next.1);
        BuildRun(more.outcome, more.rest, prompt + more.written)
  }

  /** The loop stops on this read. */
  lemma BuildSpecStops<T>(f: StructField, parse: string -> Option<T>, input: seq<Read>)
    requires Iteration(f, parse, NextLine(input).0).Some?
    ensures BuildSpec(f, parse, input)
            == BuildRun(Done(Iteration(f, parse, NextLine(input).0).value), NextLine(input).1, PromptText(f.msg, f.default, f.fmt))
  {
  }

  /** The loop prompts again after this read. */
  lemma BuildSpecRetries<T>(f: StructField, parse: string -> Option<T>, input: seq<Read>)
    requires input != [] && Iteration(f, parse, NextLine(input).0).None?
    ensures BuildSpec(f, parse, input).outcome == BuildSpec(f, parse, input[1..]).outcome
    ensures BuildSpec(f, parse, input).rest == BuildSpec(f, parse, input[1..]).rest
    ensures BuildSpec(f, parse, input).written == PromptText(f.msg, f.default, f.fmt) + BuildSpec(f, parse, input[1..]).written
  {
  }

  /**
   * After writing `out` on top of `base` and leaving `input` unread, the rest
   * of the loop still ends as `whole`, the run from the start, does.
   */
  ghost predicate Resumes<T>(f: StructField, parse: string -> Option<T>, whole: BuildRun<T>,
                             base: string, input: seq<Read>, out: string)
  {
    var run := BuildSpec(f, parse, input);
    run.outcome == whole.outcome && run.rest == whole.rest && base + whole.written == out + run.written
  }

  /** A rejected read keeps the loop on course for the same run. */
  lemma RetryResumes<T>(f: StructField, parse: string -> Option<T>, whole: BuildRun<T>,
                        base: string, input: seq<Read>, out: string)
    requires Resumes(f, parse, whole, base, input, out)
    requires input != [] && Iteration(f, parse, NextLine(input).0).None?
    ensures Resumes(f, parse, whole, base, input[1..], out + PromptText(f.msg, f.default, f.fmt))
  {
    BuildSpecRetries(f, parse, input);
    var prompt := PromptText(f.msg, f.default, f.fmt);
    assert out + (prompt + BuildSpec(f, parse, input[1..]).written) == out + prompt + BuildSpec(f, parse, input[1..]).written;
  }

  /** `build`: prompt, read one line, trim, and stop on a value, a default or an error. */
  method Build<T>(f: StructField, parse: string -> Option<T>, stream: Stream) returns (r: Built<T>)
    modifies stream
    ensures var run := BuildSpec(f, parse, old(stream.input));
            r == run.outcome && stream.input == run.rest && stream.output == old(stream.output) + run.written
  {
    var prompt := PromptText(f.msg, f.default, f.fmt);
    ghost var whole := BuildSpec(f, parse, stream.input);
    while true
      invariant Resumes(f, parse, whole, old(stream.output), stream.input, stream.output)
      decreases |stream.input|
    {
      var atEnd := stream.input == [];
      ghost var before := stream.input;
      ghost var written := stream.output;
      stream.Write(prompt);
      var line := stream.ReadLine();
      var step := Iteration(f, parse, line);
      if step.Some? {
        BuildSpecStops(f, parse, before);
        r := Done(step.value);
        return;
      }
      if atEnd {
        r := Diverges;
        return;
      }
      RetryResumes(f, parse, whole, old(stream.output), before, written);
    }
  }

  /** Every line read and trimmed so far was rejected by the parser. */
  predicate AllRejected<T>(parse: string -> Option<T>, lines: seq<Read>) {
    forall i :: 0 <= i < |lines| ==> lines[i].Got? && parse(Trim(lines[i].line)).None?
  }

  /**
   * Without a default, `build` prompts once per rejected line and returns the
   * first line that parses; nothing bounds the number of retries.
   */
  lemma {:induction false} FirstParsedLineWins<T>(f: StructField, parse: string -> Option<T>, input: seq<Read>, k: nat)
    requires f.default.None?
    requires k < |input| && AllRejected(parse, input[..k])
    requires input[k].Got? && parse(Trim(input[k].line)).Some?
    ensures BuildSpec(f, parse, input).outcome == Done(Ok(parse(Trim(input[k].line)).value))
    ensures BuildSpec(f, parse, input).rest == input[k + 1..]
    ensures BuildSpec(f, parse, input).written == Repeat(PromptText(f.msg, f.default, f.fmt), k + 1)
  {
    if k > 0 {
      assert input[0] == input[..k][0];
      assert input[1..][..k - 1] == input[..k][1..];
      FirstParsedLineWins(f, parse, input[1..], k - 1);
      assert input[1..][k - 1..] == input[k..];
    }
  }

  /** With a default, `build` ends after the first prompt and the first read. */
  lemma DefaultEndsAtFirstAttempt<T>(f: StructField, parse: string -> Option<T>, input: seq<Read>)
    requires f.default.Some?
    ensures BuildSpec(f, parse, input).outcome.Done?
    ensures BuildSpec(f, parse, input).written == PromptText(f.msg, f.default, f.fmt)
    ensures BuildSpec(f, parse, input).rest == if input == [] then [] else input[1..]
  {
  }

  /** With a default, an empty line gives the parsed default even when "" itself would parse. */
  lemma EmptyLineTakesDefault<T>(f: StructField, parse: string -> Option<T>, input: seq<Read>)
    requires f.default.Some?
    requires input == [] || (input[0].Got? && Trim(input[0].line) == [])
    ensures BuildSpec(f, parse, input).outcome == Done(DefaultParse(f.default.value, parse))
  {
  }

  /** A non-empty line that parses wins over the default. */
  lemma ValidLineBeatsDefault<T>(f: StructField, parse: string -> Option<T>, input: seq<Read>)
    requires input != [] && input[0].Got?
    requires Trim(input[0].line) != [] && parse(Trim(input[0].line)).Some?
    ensures BuildSpec(f, parse, input).outcome == Done(Ok(parse(Trim(input[0].line)).value))
  {
  }

  /** An unparsable default is reported as `IncorrectType` at the first unparsable line. */
  lemma BadDefaultIsAnError<T>(f: StructField, parse: string -> Option<T>, input: seq<Read>)
    requires f.default.Some? && parse(f.default.value).None?
    requires input != [] && input[0].Got? && parse(Trim(input[0].line)).None?
    ensures BuildSpec(f, parse, input).outcome == Done(Err(IncorrectType(f.default.value)))
  {
  }

  /** A read failure ends `build` at once with the I/O error; it is never retried. */
  lemma ReadFailureEndsBuild<T>(f: StructField, parse: string -> Option<T>, input: seq<Read>)
    requires input != [] && input[0] == Broken
    ensures BuildSpec(f, parse, input) == BuildRun(Done(Err(IOError)), input[1..], PromptText(f.msg, f.default, f.fmt))
  {
  }

  /** `build` can only spin forever without a default and with "" rejected by the parser. */
  lemma {:induction false} DivergesOnlyWithoutDefault<T>(f: StructField, parse: string -> Option<T>, input: seq<Read>)
    requires BuildSpec(f, parse, input).outcome.Diverges?
    ensures f.default.None? && parse([]).None?
    ensures AllRejected(parse, input)
    decreases |input|
  {
    if input != [] {
      var (line, rest) := NextLine(input);
      if line.Ok? && Attempt(f.default, parse, Trim(line.value)).None? {
        DivergesOnlyWithoutDefault(f, parse, rest);
      }
    }
  }
}
