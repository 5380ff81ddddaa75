// menu/src/lib.rs: the oldest prompt, `ask`, which writes "- {msg}: ",
// reads one line and parses its trimmed text until that succeeds.
module Ask {
  import opened Wrappers
  import opened Text
  import opened Streams

  /**
   * How a prompt loop that panics on I/O failure ends: with a value, with a
   * panic (`expect` on a failed read), or spinning forever once end of file
   * keeps yielding an empty line the parser rejects.
   */
  datatype Asked<T> = Answer(value: T) | Panics | Spins

  datatype AskRun<T> = AskRun(outcome: Asked<T>, rest: seq<Read>, written: string)

  /** The loop `prompt; read; trim; parse` with retries on parse failure. */
  function AskSpec<T>(prompt: string, parse: string -> Option<T>, input: seq<Read>): (run: AskRun<T>)
    ensures |run.rest| <= |input|
    decreases |input|
  {
    var next := NextLine(input);
    match next.0
    case Err(_) => AskRun(Panics, next.1, prompt)
    case Ok(raw) =>
      match parse(Trim(raw))
      case Some(t) => AskRun(Answer(t), next.1, prompt)
      case None =>
        if input == [] then AskRun(Spins, [], prompt)
        else
          var more := AskSpec(prompt, parse, next.1);
          AskRun(more.outcome, more.rest, prompt + more.written)
  }

  lemma AskSpecRetries<T>(prompt: string, parse: string -> Option<T>, input: seq<Read>)
    requires input != [] && NextLine(input).0.Ok? && parse(Trim(NextLine(input).0.value)).None?
    ensures AskSpec(prompt, parse, input).outcome == AskSpec(prompt, parse, input[1..]).outcome
    ensures AskSpec(prompt, parse, input).rest == AskSpec(prompt, parse, input[1..]).rest
    ensures AskSpec(prompt, parse, input).written == prompt + AskSpec(prompt, parse, input[1..]).written
  {
  }

  /**
   * After writing `out` on top of `base` and leaving `input` unread, the rest
   * of the loop still ends as `whole`, the run from the start, does.
   */
  ghost predicate Resumes<T>(prompt: string, parse: string -> Option<T>, whole: AskRun<T>,
                             base: string, input: seq<Read>, out: string)
  {
    var run := AskSpec(prompt, parse, input);
    run.outcome == whole.outcome && run.rest == whole.rest && base + whole.written == out + run.written
  }

  /** A rejected line keeps the loop on course for the same run. */
  lemma RetryResumes<T>(prompt: string, parse: string -> Option<T>, whole: AskRun<T>,
                        base: string, input: seq<Read>, out: string)
    requires Resumes(prompt, parse, whole, base, input, out)
    requires input != [] && NextLine(input).0.Ok? && parse(Trim(NextLine(input).0.value)).None?
    ensures Resumes(prompt, parse, whole, base, input[1..], out + prompt)
  {
    AskSpecRetries(prompt, parse, input);
    assert out + (prompt + AskSpec(prompt, parse, input[1..]).written) == out + prompt + AskSpec(prompt, parse, input[1..]).written;
  }

  /** The loop itself: write and flush the prompt, read one line, parse it or retry. */
  method PromptLoop<T>(prompt: string, parse: string -> Option<T>, stream: Stream) returns (r: Asked<T>)
    modifies stream
    ensures var run := AskSpec(prompt, parse, old(stream.input));
            r == run.outcome && stream.input == run.rest && stream.output == old(stream.output) + run.written
  {
    ghost var whole := AskSpec(prompt, parse, stream.input);
    while true
      invariant Resumes(prompt, parse, whole, old(stream.output), stream.input, stream.output)
      decreases |stream.input|
    {
      var atEnd := stream.input == [];
      ghost var before := stream.input;
      ghost var written := stream.output;
      stream.Write(prompt);
      var line := stream.ReadLine();
      if line.Err? {
        r := Panics;
        return;
      }
      var parsed := parse(Trim(line.value));
      if parsed.Some? {
        r := Answer(parsed.value);
        return;
      }
      if atEnd {
        r := Spins;
        return;
      }
      RetryResumes(prompt, parse, whole, old(stream.output), before, written);
    }
  }

  /** The prompt `ask` writes before every attempt. */
  function AskPrompt(msg: string): (s: string)
    ensures s == "- " + msg + ": "
  {
    "- " + msg + ": "
  }

  /** `ask`: the prompt loop with the prompt "- {msg}: ". */
  method Ask<T>(msg: string, parse: string -> Option<T>, stream: Stream) returns (r: Asked<T>)
    modifies stream
    ensures var run := AskSpec(AskPrompt(msg), parse, old(stream.input));
            r == run.outcome && stream.input == run.rest && stream.output == old(stream.output) + run.written
  {
    r := PromptLoop(AskPrompt(msg), parse, stream);
  }

  /**
   * The first line that parses is the answer; the prompt was written once per
   * line read, and every earlier line was rejected.
   */
  lemma {:induction false} FirstParsedIsAnswer<T>(prompt: string, parse: string -> Option<T>, input: seq<Read>, k: nat)
    requires k < |input|
    requires forall i :: 0 <= i < k ==> input[i].Got? && parse(Trim(input[i].line)).None?
    requires input[k].Got? && parse(Trim(input[k].line)).Some?
    ensures AskSpec(prompt, parse, input).outcome == Answer(parse(Trim(input[k].line)).value)
    ensures AskSpec(prompt, parse, input).rest == input[k + 1..]
    ensures AskSpec(prompt, parse, input).written == Repeat(prompt, k + 1)
  {
    if k > 0 {
      FirstParsedIsAnswer(prompt, parse, input[1..], k - 1);
      assert input[1..][k - 1 + 1..] == input[k + 1..];
    }
  }

  /** A read failure panics at once; nothing is retried. */
  lemma ReadFailurePanics<T>(prompt: string, parse: string -> Option<T>, input: seq<Read>)
    requires input != [] && input[0] == Broken
    ensures AskSpec(prompt, parse, input) == AskRun(Panics, input[1..], prompt)
  {
  }

  /** The loop spins only when end of file is reached and "" is rejected. */
  lemma {:induction false} SpinsOnlyAtEndOfFile<T>(prompt: string, parse: string -> Option<T>, input: seq<Read>)
    requires AskSpec(prompt, parse, input).outcome.Spins?
    ensures parse([]).None?
    ensures forall i :: 0 <= i < |input| ==> input[i].Got? && parse(Trim(input[i].line)).None?
    decreases |input|
  {
    if input != [] {
      SpinsOnlyAtEndOfFile(prompt, parse, input[1..]);
    }
  }
}
