// The reader/writer pair a menu prompts through. Reading hands out the next
// line of a fixed sequence; writing appends to the text written so far.
module Streams {
  import opened Wrappers
  import opened Errors

  /** One call to `read_line`: a line, or an I/O failure. */
  datatype Read = Got(line: string) | Broken

  /** A prompt written `n` times over, as a retrying loop writes it. */
  function Repeat(s: string, n: nat): string {
    if n == 0 then [] else s + Repeat(s, n - 1)
  }

  /**
   * `read_line` on the remaining input: the next line, an I/O error, or, once
   * the input is exhausted, the empty line that `read_line` gives at end of file.
   */
  function NextLine(input: seq<Read>): (r: (Result<string, MenuError>, seq<Read>))
    ensures input == [] ==> r == (Ok([]), [])
    ensures input != [] ==> r.1 == input[1..]
  {
    if input == [] then (Ok([]), [])
    else match input[0]
      case Got(line) => (Ok(line), input[1..])
      case Broken => (Err(IOError), input[1..])
  }

  class Stream {
    /** The reads still to come. */
    var input: seq<Read>
    /** Everything written (and flushed) so far. */
    var output: string

    constructor (input: seq<Read>)
      ensures this.input == input && output == []
    {
      this.input := input;
      output := [];
    }

    /** `write!` followed by `flush`. */
    method Write(text: string)
      modifies this
      ensures output == old(output) + text && input == old(input)
    {
      output := output + text;
    }

    /** `read_line`: consumes one read (none at end of file). */
    method ReadLine() returns (r: Result<string, MenuError>)
      modifies this
      ensures (r, input) == NextLine(old(input)) && output == old(output)
    {
      var next := NextLine(input);
      r := next.0;
      input := next.1;
    }
  }
}
