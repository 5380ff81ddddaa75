// src/utils.rs: the depth type of the recursive tui navigator, reading one
// trimmed line, prompting, and the 1-based index selection.
module Utils {
  import opened Wrappers
  import opened Errors
  import opened Text
  import opened Streams

  /** How many menu levels a handled event climbs. */
  datatype Depth =
    | Back(n: nat)  // go back `n` more levels
    | Current       // stay on the current page
    | Quit          // leave every nested page

  /** A run-time panic, with its message. */
  datatype Panic = Panic(message: string)

  /** `keep`: the predicate that accepts every value. */
  function Keep<T>(v: T): (r: bool)
    ensures r
  {
    true
  }

  /** `default_failed`: always panics; the message opens with the rejected default, quoted. */
  function DefaultFailed(default: string, typeName: string): (p: Panic)
    ensures |p.message| > |default| + 2 && p.message[..|default| + 2] == "`" + default + "`"
  {
    var head := "`" + default + "`";
    var m := head + " has been used as default value but is incorrect for `" + typeName + "` type";
    assert m[..|head|] == head;
    Panic(m)
  }

  /** `check_fields`: panics exactly when the slice is empty. */
  function CheckFields<T>(fields: seq<T>): (r: Option<Panic>)
    ensures r.Some? <==> |fields| == 0
  {
    if |fields| == 0 then Some(Panic("empty fields for the selectable values")) else None
  }

  /** The choice `select` makes from the line the user typed. */
  function SelectIndex(s: string, max: nat): (r: Option<nat>)
    ensures r.Some? ==> r.value < max
  {
    match ParseUsize(s)
    case Some(i) => if 1 <= i <= max then Some(i - 1) else None
    case None => None
  }

  /** `select` gives an index exactly for a number from 1 to `max`, shifted down by one. */
  lemma SelectIndexSpec(s: string, max: nat)
    ensures SelectIndex(s, max).Some? <==> ParseUsize(s).Some? && 1 <= ParseUsize(s).value <= max
    ensures SelectIndex(s, max).Some? ==> SelectIndex(s, max).value + 1 == ParseUsize(s).value
  {
  }

  /** Typing the 1-based number of entry `k` selects entry `k`. */
  lemma SelectIndexOfDisplay(k: nat, max: nat)
    requires k < max <= USIZE_MAX
    ensures SelectIndex(NatToString(k + 1), max) == Some(k)
  {
    ParseUsizeOfDisplay(k + 1);
  }

  /** `read_input`: one line, trimmed. */
  method ReadInput(stream: Stream) returns (r: Result<string, MenuError>)
    modifies stream
    ensures stream.input == NextLine(old(stream.input)).1 && stream.output == old(stream.output)
    ensures r == match NextLine(old(stream.input)).0
                 case Ok(line) => Ok(Trim(line))
                 case Err(e) => Err(e)
  {
    var line := stream.ReadLine();
    match line
    case Ok(l) => r := Ok(Trim(l));
    case Err(e) => r := Err(e);
  }

  /** `prompt`: writes the text, flushes, then reads one trimmed line. */
  method Prompt(text: string, stream: Stream) returns (r: Result<string, MenuError>)
    modifies stream
    ensures stream.output == old(stream.output) + text
    ensures stream.input == NextLine(old(stream.input)).1
    ensures r == match NextLine(old(stream.input)).0
                 case Ok(line) => Ok(Trim(line))
                 case Err(e) => Err(e)
  {
    stream.Write(text);
    r := ReadInput(stream);
  }

  /** `select`: prompts with `suffix` and picks an index among `max` values. */
  method Select(stream: Stream, suffix: string, max: nat) returns (r: Result<Option<nat>, MenuError>)
    modifies stream
    ensures stream.output == old(stream.output) + suffix
    ensures stream.input == NextLine(old(stream.input)).1
    ensures r == match NextLine(old(stream.input)).0
                 case Ok(line) => Ok(SelectIndex(Trim(line), max))
                 case Err(e) => Err(e)
  {
    var s := Prompt(suffix, stream);
    match s
    case Ok(t) => r := Ok(SelectIndex(t, max));
    case Err(e) => r := Err(e);
  }
}
