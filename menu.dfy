// src/menu.rs: `StructMenu`, a title, a global format and a FIFO queue of
// fields that are prompted one after the other through one reader/writer.
module Menu {
  import opened Wrappers
  import opened Errors
  import opened Streams
  import opened Field

  /**
   * What `with_field` enqueues: a field with a format of its own keeps it;
   * any other field takes the menu's format as it is at that moment.
   */
  function Queued(field: StructField, menuFmt: Format): (g: StructField)
    ensures g.msg == field.msg && g.default == field.default && g.customFmt == field.customFmt
    ensures g.fmt == if field.customFmt then field.fmt else menuFmt
  {
    if field.customFmt then field else InheritFmt(field, menuFmt)
  }

  /** The header `get_next_field` writes: the title line the first time only. */
  function Header(title: string, firstPopped: bool): (s: string)
    ensures firstPopped ==> s == []
    ensures !firstPopped ==> s == title + "\n"
  {
    if firstPopped then [] else title + "\n"
  }

  /** A field without a format of its own is prompted in the menu's style. */
  lemma InheritedStyleExample()
    ensures var menuFmt := Format("- ", ">> ", true, false);
            PromptText(Queued(FromMsg("give a second number"), menuFmt).msg, None,
                       Queued(FromMsg("give a second number"), menuFmt).fmt)
            == "- give a second number\n>> "
  {
  }

  /** A field with its own format keeps it whatever the menu's format is. */
  lemma CustomStyleKept(field: StructField, a: Format, b: Format)
    requires field.customFmt
    ensures Queued(field, a) == Queued(field, b) == field
  {
  }

  class StructMenu {
    var title: string
    var fmt: Format
    /** The queue of fields still to prompt, front first. */
    var fields: seq<StructField>
    /** Whether the title has been written. */
    var firstPopped: bool
    /** The reader and the writer. */
    var stream: Stream

    /** `new`: empty title, default format, empty queue, title not yet written. */
    constructor (stream: Stream)
      ensures title == [] && fmt == DefaultFormat() && fields == [] && !firstPopped
      ensures this.stream == stream
    {
      title := [];
      fmt := DefaultFormat();
      fields := [];
      firstPopped := false;
      this.stream := stream;
    }

    /** `fmt`: changes the menu's format; fields already queued keep theirs. */
    method SetFmt(fmt: Format)
      modifies this
      ensures this.fmt == fmt
      ensures title == old(title) && fields == old(fields) && firstPopped == old(firstPopped) && stream == old(stream)
    {
      this.fmt := fmt;
    }

    /** `title`: changes the title. */
    method SetTitle(title: string)
      modifies this
      ensures this.title == title
      ensures fmt == old(fmt) && fields == old(fields) && firstPopped == old(firstPopped) && stream == old(stream)
    {
      this.title := title;
    }

    /** `with_field`: appends at the back, with the format fixed now. */
    method WithField(field: StructField)
      modifies this
      ensures fields == old(fields) + [Queued(field, fmt)]
      ensures title == old(title) && fmt == old(fmt) && firstPopped == old(firstPopped) && stream == old(stream)
    {
      fields := fields + [if field.customFmt then field else InheritFmt(field, fmt)];
    }

    /** `get_next_field`: writes the title line once, then pops the front field. */
    method GetNextField() returns (r: Result<StructField, MenuError>)
      modifies this, stream
      ensures firstPopped && stream == old(stream)
      ensures stream.output == old(stream.output) + Header(title, old(firstPopped))
      ensures stream.input == old(stream.input)
      ensures old(fields) == [] ==> r == Err(NoMoreField) && fields == []
      ensures old(fields) != [] ==> r == Ok(old(fields)[0]) && fields == old(fields)[1..]
      ensures title == old(title) && fmt == old(fmt)
    {
      if !firstPopped {
        stream.Write(title + "\n");
        firstPopped := true;
      }
      if fields == [] {
        r := Err(NoMoreField);
      } else {
        r := Ok(fields[0]);
        fields := fields[1..];
      }
    }

    /** `Menu::next`: builds the front field through the menu's reader and writer. */
    method Next<T>(parse: string -> Option<T>) returns (r: Built<T>)
      modifies this, stream
      ensures firstPopped && stream == old(stream) && title == old(title) && fmt == old(fmt)
      ensures old(fields) == [] ==>
                r == Done(Err(NoMoreField)) && fields == [] && stream.input == old(stream.input)
                && stream.output == old(stream.output) + Header(title, old(firstPopped))
      ensures old(fields) != [] ==>
                var run := BuildSpec(old(fields)[0], parse, old(stream.input));
                r == run.outcome && fields == old(fields)[1..] && stream.input == run.rest
                && stream.output == old(stream.output) + Header(title, old(firstPopped)) + run.written
    {
      var next := GetNextField();
      match next
      case Err(e) => r := Done(Err(e));
      case Ok(field) => r := Build(field, parse, stream);
    }

    /**
     * `Menu::next_map`: the next value, passed through `f` together with the
     * menu's writer; `f` is given as the result it returns and the text it
     * writes. Errors skip `f`.
     */
    method NextMap<T>(parse: string -> Option<T>, f: T -> (Result<T, MenuError>, string)) returns (r: Built<T>)
      modifies this, stream
      ensures firstPopped && stream == old(stream) && title == old(title) && fmt == old(fmt)
      ensures old(fields) == [] ==>
                r == Done(Err(NoMoreField)) && fields == [] && stream.input == old(stream.input)
                && stream.output == old(stream.output) + Header(title, old(firstPopped))
      ensures old(fields) != [] ==>
                var run := BuildSpec(old(fields)[0], parse, old(stream.input));
                fields == old(fields)[1..] && stream.input == run.rest
                && match run.outcome
                   case Done(Ok(v)) =>
                     r == Done(f(v).0) &&
                     stream.output == old(stream.output) + Header(title, old(firstPopped)) + run.written + f(v).1
                   case other =>
                     r == other &&
                     stream.output == old(stream.output) + Header(title, old(firstPopped)) + run.written
    {
      var next := Next(parse);
      match next
      case Done(Ok(v)) =>
        var (res, written) := f(v);
        stream.Write(written);
        r := Done(res);
      case _ => r := next;
    }
  }
}
