// menu-derive/src/lib.rs: the first `derive(Menu)`. On an enum it emits a
// `run` that prints the message of the enum's `menu` attributes, lists the
// variants as "{i} - Name" from 1, and reads lines until one is a number in
// range.
module MenuDerive {
  import opened Wrappers
  import opened Text
  import opened Streams
  import opened Ask
  import MacroUtils

  // ---- get_msg ------------------------------------------------------------------

  /** The tokens inside an attribute's parentheses, as `MenuDesc::parse` sees them. */
  datatype Tok = IdentTok(id: string) | EqTok | StrTok(s: string) | OtherTok

  /**
   * `MenuDesc::parse` under `parse_args`: an identifier, `=`, then an optional
   * string literal, and nothing after; a token other than a string literal
   * is left unread, which `parse_args` refuses.
   */
  function ParseMenuDesc(toks: seq<Tok>): (r: Option<Option<string>>)
    ensures r.Some? ==> |toks| >= 2 && toks[0].IdentTok? && toks[1] == EqTok
    ensures r == Some(None) <==> |toks| == 2 && toks[0].IdentTok? && toks[1] == EqTok
    ensures r.Some? && r.value.Some? ==> toks == [toks[0], EqTok, StrTok(r.value.value)]
  {
    if |toks| < 2 || !toks[0].IdentTok? || toks[1] != EqTok then None
    else if |toks| == 2 then Some(None)
    else if |toks| == 3 && toks[2].StrTok? then Some(Some(toks[2].s))
    else None
  }

  /** An attribute: its path segments and, for `#[p(...)]`, the tokens in the parentheses. */
  datatype MenuAttr = MenuAttr(path: seq<string>, args: Option<seq<Tok>>)

  /** The line one attribute adds: a `menu` attribute that parses and has a message gives it with "\n". */
  function LineOf(a: MenuAttr): (r: Option<string>)
    ensures r.Some? <==> |a.path| > 0 && a.path[0] == "menu" && a.args.Some? && |a.args.value| == 3
                         && a.args.value[0].IdentTok? && a.args.value[1] == EqTok && a.args.value[2].StrTok?
    ensures r.Some? ==> r.value == a.args.value[2].s + "\n"
  {
    if |a.path| > 0 && a.path[0] == "menu" && a.args.Some? then
      var desc := ParseMenuDesc(a.args.value);
      if desc.Some? && desc.value.Some? then Some(desc.value.value + "\n") else None
    else None
  }

  /** The text one attribute adds, empty when it adds none. */
  function LineText(a: MenuAttr): string {
    var l := LineOf(a); if l.Some? then l.value else []
  }

  /** `get_msg`: the lines of the attributes, in order, concatenated. */
  function GetMsg(attrs: seq<MenuAttr>): string {
    if attrs == [] then [] else LineText(attrs[0]) + GetMsg(attrs[1..])
  }

  /** The number of attributes that contribute a line. */
  function MessageCount(attrs: seq<MenuAttr>): nat {
    if attrs == [] then 0 else (if LineOf(attrs[0]).Some? then 1 else 0) + MessageCount(attrs[1..])
  }

  /** `get_msg` distributes over concatenation: each attribute contributes on its own. */
  lemma {:induction false} GetMsgConcat(a: seq<MenuAttr>, b: seq<MenuAttr>)
    ensures GetMsg(a + b) == GetMsg(a) + GetMsg(b)
  {
    if a == [] {
      assert a + b == b;
    } else {
      assert (a + b)[0] == a[0] && (a + b)[1..] == a[1..] + b;
      GetMsgConcat(a[1..], b);
      var t := LineText(a[0]);
      assert GetMsg(a + b) == t + GetMsg(a[1..] + b);
      assert GetMsg(a) == t + GetMsg(a[1..]);
    }
  }

  /** The count of contributing attributes adds up the same way. */
  lemma {:induction false} MessageCountConcat(a: seq<MenuAttr>, b: seq<MenuAttr>)
    ensures MessageCount(a + b) == MessageCount(a) + MessageCount(b)
  {
    if a == [] {
      assert a + b == b;
    } else {
      assert (a + b)[1..] == a[1..] + b;
      MessageCountConcat(a[1..], b);
    }
  }

  /** A message without line breaks of its own. */
  predicate SingleLine(a: MenuAttr) {
    LineOf(a).Some? ==> Count(LineOf(a).value[..|LineOf(a).value| - 1], '\n') == 0
  }

  /** With one-line messages, the text holds one line break per contributing attribute. */
  lemma {:induction false} GetMsgLines(attrs: seq<MenuAttr>)
    requires forall k :: 0 <= k < |attrs| ==> SingleLine(attrs[k])
    ensures Count(GetMsg(attrs), '\n') == MessageCount(attrs)
  {
    if attrs != [] {
      GetMsgLines(attrs[1..]);
      var l := LineOf(attrs[0]);
      var head := LineText(attrs[0]);
      CountConcat(head, GetMsg(attrs[1..]), '\n');
      if l.Some? {
        assert SingleLine(attrs[0]);
        assert head == head[..|head| - 1] + "\n";
        CountConcat(head[..|head| - 1], "\n", '\n');
      }
    }
  }

  /** Attributes other than `menu`, and `menu` attributes that do not parse or carry no message, are skipped. */
  lemma GetMsgExample()
    ensures GetMsg([MenuAttr(["menu"], Some([IdentTok("msg"), EqTok, StrTok("Pick one")])),
                    MenuAttr(["doc"], Some([IdentTok("msg"), EqTok, StrTok("hidden")])),
                    MenuAttr(["menu"], Some([IdentTok("msg"), EqTok, OtherTok])),
                    MenuAttr(["menu"], Some([IdentTok("msg"), EqTok]))]) == "Pick one\n"
  {
    var a := MenuAttr(["menu"], Some([IdentTok("msg"), EqTok, StrTok("Pick one")]));
    var b := MenuAttr(["doc"], Some([IdentTok("msg"), EqTok, StrTok("hidden")]));
    var c := MenuAttr(["menu"], Some([IdentTok("msg"), EqTok, OtherTok]));
    var d := MenuAttr(["menu"], Some([IdentTok("msg"), EqTok]));
    assert ParseMenuDesc(a.args.value) == Some(Some("Pick one"));
    assert LineText(a) == "Pick one" + "\n" == "Pick one\n";
    assert LineText(b) == LineText(c) == LineText(d) == [];
    var all := [a, b, c, d];
    assert all[1..] == [b, c, d] && all[1..][1..] == [c, d] && all[1..][1..][1..] == [d];
  }

  // ---- the generated `run` ------------------------------------------------------------

  /** The line listing variant `i` (counted from 1). */
  function EntryLine(i: nat, name: string): string {
    NatToString(i) + " - " + name + "\n"
  }

  /** The listing of `names`, one numbered line each. */
  function Listing(names: seq<string>): (r: string)
    ensures |names| > 0 ==> r == Listing(names[..|names| - 1]) + EntryLine(|names|, names[|names| - 1])
  {
    if names == [] then [] else Listing(names[..|names| - 1]) + EntryLine(|names|, names[|names| - 1])
  }

  /** With one-line variant names, the listing holds exactly one line per variant. */
  lemma {:induction false} ListingLines(names: seq<string>)
    requires forall k :: 0 <= k < |names| ==> Count(names[k], '\n') == 0
    ensures Count(Listing(names), '\n') == |names|
  {
    if names != [] {
      var init := names[..|names| - 1];
      var name := names[|names| - 1];
      ListingLines(init);
      MacroUtils.NatDigitsNoNewline(|names|);
      CountConcat(Listing(init), EntryLine(|names|, name), '\n');
      CountConcat(NatToString(|names|) + " - " + name, "\n", '\n');
      CountConcat(NatToString(|names|) + " - ", name, '\n');
      CountConcat(NatToString(|names|), " - ", '\n');
    }
  }

  /** The choice the read loop accepts: a `usize` from 1 to `len`. */
  function Choice(len: nat): string -> Option<nat> {
    s => var n := ParseUsize(s); if n.Some? && 1 <= n.value <= len then n else None
  }

  /** The line the final `match` prints for the choice made. */
  function ChosenLine(i: nat): string {
    "wooohooo: " + NatToString(i) + "\n"
  }

  /** The `for` loop of `run`: one "{i} - Name" line per variant. */
  method WriteListing(names: seq<string>, stream: Stream)
    modifies stream
    ensures stream.input == old(stream.input)
    ensures stream.output == old(stream.output) + Listing(names)
  {
    var i := 0;
    while i < |names|
      invariant 0 <= i <= |names|
      invariant stream.input == old(stream.input)
      invariant stream.output == old(stream.output) + Listing(names[..i])
    {
      var line := EntryLine(i + 1, names[i]);
      ListingStep(names, i);
      stream.Write(line);
      assert stream.output == old(stream.output) + (Listing(names[..i]) + line);
      i := i + 1;
    }
    assert names[..i] == names;
  }

  /** One more variant adds its line to the listing. */
  lemma ListingStep(names: seq<string>, i: nat)
    requires i < |names|
    ensures Listing(names[..i + 1]) == Listing(names[..i]) + EntryLine(i + 1, names[i])
  {
    assert names[..i + 1][..i] == names[..i];
  }

  /** `run`: the message, the numbered list, the ">> " read loop, then the line for the choice. */
  method Run(mainMsg: string, names: seq<string>, stream: Stream) returns (r: Asked<nat>)
    modifies stream
    ensures var run := AskSpec<nat>(">> ", Choice(|names|), old(stream.input));
            r == run.outcome && stream.input == run.rest
            && stream.output == old(stream.output) + mainMsg + Listing(names) + run.written
                                + (if r.Answer? then ChosenLine(r.value) else [])
  {
    stream.Write(mainMsg);
    WriteListing(names, stream);
    r := PromptLoop(">> ", Choice(|names|), stream);
    if r.Answer? {
      stream.Write(ChosenLine(r.value));
    }
  }

  /** The read loop only ever answers a number from 1 to `len`, so the `unreachable!()` arm is never taken. */
  lemma {:induction false} AnswerInRange(len: nat, input: seq<Read>)
    ensures var o := AskSpec<nat>(">> ", Choice(len), input).outcome; o.Answer? ==> 1 <= o.value <= len
    decreases |input|
  {
    var next := NextLine(input);
    if next.0.Ok? && Choice(len)(Trim(next.0.value)).None? && input != [] {
      AnswerInRange(len, next.1);
    }
  }

  lemma DigitsTrimmed(n: nat)
    ensures Trim(NatToString(n)) == NatToString(n)
  {
    var t := NatToString(n);
    assert !IsWhitespace(t[0]) && !IsWhitespace(t[|t| - 1]);
    assert t == [] + t + [];
    TrimOfPadded([], t, []);
  }

  /** Typing the number listed before variant `k` selects it, after a single ">> ". */
  lemma ListedNumberSelects(names: seq<string>, k: nat, rest: seq<Read>)
    requires k < |names| <= USIZE_MAX
    ensures AskSpec<nat>(">> ", Choice(|names|), [Got(NatToString(k + 1))] + rest) == AskRun(Answer(k + 1), rest, ">> ")
  {
    DigitsTrimmed(k + 1);
    ParseUsizeOfDisplay(k + 1);
    assert Choice(|names|)(Trim(NatToString(k + 1))) == Some(k + 1);
    assert ([Got(NatToString(k + 1))] + rest)[1..] == rest;
  }

  /** An enum without variants accepts nothing: the generated loop never answers. */
  lemma {:induction false} NoVariantsNeverAnswer(input: seq<Read>)
    ensures !AskSpec<nat>(">> ", Choice(0), input).outcome.Answer?
  {
    AnswerInRange(0, input);
  }

  // ---- build_menu -----------------------------------------------------------------------

  /** What the derive input holds. */
  datatype Data = EnumData(variants: seq<string>) | NamedStruct | OtherData

  /** The emitted item: an enum's `run`, or a struct's `run` whose body is `todo!()`. */
  datatype Generated = EnumRun(name: string, mainMsg: string, names: seq<string>) | StructTodo(name: string)

  /** `build_menu`: enums and structs with named fields; anything else aborts with the message returned. */
  function BuildMenu(name: string, attrs: seq<MenuAttr>, data: Data): (r: Result<Generated, string>)
    ensures data.EnumData? ==> r == Ok(EnumRun(name, GetMsg(attrs), data.variants))
    ensures data.NamedStruct? ==> r == Ok(StructTodo(name))
    ensures data.OtherData? ==> r == Err("Menu macro works only on non-tuple structs and enums.")
  {
    match data
    case EnumData(variants) => Ok(EnumRun(name, GetMsg(attrs), variants))
    case NamedStruct => Ok(StructTodo(name))
    case OtherData => Err("Menu macro works only on non-tuple structs and enums.")
  }
}
