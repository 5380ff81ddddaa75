// ezmenu-macros/src/prompted/promptable.rs: the promptables a
// `derive(Prompted)` field expands to, and the `select(...)` entries of a
// field attribute, of which at most one may be marked `default`.
module PromptableMacro {
  import opened Wrappers
  import opened MacroUtils
  import opened FormatMacro

  /** A selection entry as written in the attribute: `[default] ("label", expr)`. */
  datatype RawSelectedField = RawSelectedField(isDefault: bool, lit: string, val: string)

  /** A selection entry as emitted: the couple `("label", expr)`. */
  datatype SelectedField = SelectedField(lit: string, val: string)

  /** The tokens of one entry: the `default` keyword, a parenthesised group, a string literal, a comma, an expression. */
  datatype Tok = DefaultTok | Paren(inner: seq<Tok>) | LitTok(s: string) | CommaTok | ExprTok(e: string)

  /** `impl Parse for SelectedField`: the whole parenthesised content is `"label", expr`. */
  function ParseSelectedField(content: seq<Tok>): (r: Option<SelectedField>)
    ensures r.Some? <==> |content| == 3 && content[0].LitTok? && content[1] == CommaTok && content[2].ExprTok?
  {
    if |content| == 3 && content[0].LitTok? && content[1] == CommaTok && content[2].ExprTok? then
      Some(SelectedField(content[0].s, content[2].e))
    else None
  }

  /** `impl Parse for RawSelectedField`: an optional `default`, then the parenthesised entry; the rest is returned. */
  function ParseRawSelected(toks: seq<Tok>): (r: Option<(RawSelectedField, seq<Tok>)>)
  {
    var isDefault := toks != [] && toks[0] == DefaultTok;
    var rest := if isDefault then toks[1..] else toks;
    if rest != [] && rest[0].Paren? then
      match ParseSelectedField(rest[0].inner)
      case Some(f) => Some((RawSelectedField(isDefault, f.lit, f.val), rest[1..]))
      case None => None
    else None
  }

  /** The tokens of an entry. */
  function PrintRawSelected(f: RawSelectedField): seq<Tok> {
    (if f.isDefault then [DefaultTok] else []) + [Paren([LitTok(f.lit), CommaTok, ExprTok(f.val)])]
  }

  /** Every entry reads back from its tokens, whatever follows them. */
  lemma ParseRawSelectedRoundTrip(f: RawSelectedField, rest: seq<Tok>)
    ensures ParseRawSelected(PrintRawSelected(f) + rest) == Some((f, rest))
  {
    var toks := PrintRawSelected(f) + rest;
    if f.isDefault {
      assert toks[1..] == [Paren([LitTok(f.lit), CommaTok, ExprTok(f.val)])] + rest;
    }
  }

  /** Conversely, the parser accepts exactly the tokens of an entry, and consumes exactly them. */
  lemma ParseRawSelectedExact(toks: seq<Tok>)
    requires ParseRawSelected(toks).Some?
    ensures toks == PrintRawSelected(ParseRawSelected(toks).value.0) + ParseRawSelected(toks).value.1
  {
    var f := ParseRawSelected(toks).value.0;
    var rest := if f.isDefault then toks[1..] else toks;
    assert rest[0].inner == [LitTok(f.lit), CommaTok, ExprTok(f.val)];
    assert rest == [rest[0]] + rest[1..];
    if f.isDefault {
      assert toks == [toks[0]] + toks[1..];
    }
  }

  // ---- the default entry -------------------------------------------------------
  // Which entries carry the `default` marker is all `get_default_fn` looks at;
  // the select derive of ezmenu-macros/src/prompted/select.rs:387-401 has the
  // same loop over its own entries, and shares these definitions.

  /** The number of marked entries. */
  function DefaultCount(marks: seq<bool>): nat {
    if marks == [] then 0
    else DefaultCount(marks[..|marks| - 1]) + (if marks[|marks| - 1] then 1 else 0)
  }

  /**
   * The `for (i, v) in input.enumerate()` loop of `get_default_fn` from entry
   * `i` on, with `found` the default seen so far: a second default aborts.
   */
  function DefaultScan(marks: seq<bool>, i: nat, found: Option<nat>): Result<Option<nat>, Abort>
    decreases |marks| - i
  {
    if i >= |marks| then Ok(found)
    else if marks[i] then
      if found.None? then DefaultScan(marks, i + 1, Some(i)) else Err(ExtraDefault)
    else DefaultScan(marks, i + 1, found)
  }

  /** The `default` markers of raw selection entries. */
  function MarksOf(raws: seq<RawSelectedField>): (r: seq<bool>)
    ensures |r| == |raws| && forall k :: 0 <= k < |raws| ==> r[k] == raws[k].isDefault
  {
    seq(|raws|, k requires 0 <= k < |raws| => raws[k].isDefault)
  }

  /** `get_default_fn`: the position of the default entry, if there is one. */
  method GetDefaultFn(entries: seq<RawSelectedField>) returns (r: Result<Option<nat>, Abort>)
    ensures r == DefaultScan(MarksOf(entries), 0, None)
  {
    var default: Option<nat> := None;
    for i := 0 to |entries|
      invariant DefaultScan(MarksOf(entries), i, default) == DefaultScan(MarksOf(entries), 0, None)
    {
      if entries[i].isDefault {
        if default.None? {
          default := Some(i);
        } else {
          return Err(ExtraDefault);
        }
      }
    }
    return Ok(default);
  }

  lemma {:induction false} DefaultCountPrefix(marks: seq<bool>, i: nat)
    requires i < |marks|
    ensures DefaultCount(marks[..i + 1]) == DefaultCount(marks[..i]) + (if marks[i] then 1 else 0)
  {
    assert marks[..i + 1][..i] == marks[..i];
  }

  lemma {:induction false} DefaultCountMono(marks: seq<bool>, i: nat)
    requires i <= |marks|
    ensures DefaultCount(marks[..i]) <= DefaultCount(marks)
    decreases |marks| - i
  {
    if i < |marks| {
      DefaultCountPrefix(marks, i);
      DefaultCountMono(marks, i + 1);
    } else {
      assert marks[..i] == marks;
    }
  }

  /** Exactly one marked entry in `marks[..i]`, at `k`. */
  predicate OnlyDefaultBefore(marks: seq<bool>, i: nat, k: nat)
    requires i <= |marks|
  {
    k < i && marks[k] && forall j :: 0 <= j < i && j != k ==> !marks[j]
  }

  lemma {:induction false} DefaultCountOne(marks: seq<bool>, i: nat, k: nat)
    requires i <= |marks| && OnlyDefaultBefore(marks, i, k)
    ensures DefaultCount(marks[..i]) == 1
    decreases i
  {
    DefaultCountPrefix(marks, i - 1);
    if k < i - 1 {
      DefaultCountOne(marks, i - 1, k);
    } else {
      DefaultCountNone(marks, i - 1);
    }
  }

  lemma {:induction false} DefaultCountNone(marks: seq<bool>, i: nat)
    requires i <= |marks| && forall j :: 0 <= j < i ==> !marks[j]
    ensures DefaultCount(marks[..i]) == 0
    decreases i
  {
    if i > 0 {
      DefaultCountPrefix(marks, i - 1);
      DefaultCountNone(marks, i - 1);
    } else {
      assert marks[..0] == [];
    }
  }

  /**
   * `get_default_fn` succeeds iff at most one entry is marked `default`; it
   * then gives that entry's position, or nothing when none is marked.
   */
  lemma {:induction false} DefaultScanSpec(marks: seq<bool>, i: nat, found: Option<nat>)
    requires i <= |marks|
    requires found.None? ==> forall j :: 0 <= j < i ==> !marks[j]
    requires found.Some? ==> OnlyDefaultBefore(marks, i, found.value)
    ensures DefaultScan(marks, i, found).Err? <==> DefaultCount(marks) >= 2
    ensures DefaultScan(marks, i, found).Err? ==> DefaultScan(marks, i, found).error == ExtraDefault
    ensures DefaultScan(marks, i, found) == Ok(None) <==> DefaultCount(marks) == 0
    ensures DefaultScan(marks, i, found).Ok? && DefaultScan(marks, i, found).value.Some? ==>
              OnlyDefaultBefore(marks, |marks|, DefaultScan(marks, i, found).value.value)
    decreases |marks| - i
  {
    if i == |marks| {
      assert marks[..i] == marks;
      if found.Some? {
        DefaultCountOne(marks, i, found.value);
      } else {
        DefaultCountNone(marks, i);
      }
    } else {
      DefaultCountPrefix(marks, i);
      if marks[i] && found.Some? {
        DefaultCountOne(marks, i, found.value);
        DefaultCountMono(marks, i + 1);
      } else if marks[i] {
        DefaultScanSpec(marks, i + 1, Some(i));
      } else {
        DefaultScanSpec(marks, i + 1, found);
      }
    }
  }

  /** Two marked entries, wherever they stand, abort. */
  lemma TwoDefaultsAbort(marks: seq<bool>, a: nat, b: nat)
    requires a < b < |marks| && marks[a] && marks[b]
    ensures DefaultScan(marks, 0, None) == Err(ExtraDefault)
  {
    DefaultCountPrefix(marks, a);
    DefaultCountPrefix(marks, b);
    assert marks[..b][..a + 1] == marks[..a + 1];
    DefaultCountMono(marks[..b], a + 1);
    DefaultCountMono(marks, b + 1);
    DefaultScanSpec(marks, 0, None);
  }

  // ---- the promptables ---------------------------------------------------------

  /** `Written`: the message, and the optional format, example and defaults. */
  datatype Written = Written(msg: string, fmt: Option<Format>, example: Option<string>,
                             orVal: Option<string>, orEnv: Option<string>)

  /** `Selected`: the entries without their `default` markers, and the default's position. */
  datatype Selected = Selected(msg: string, entries: seq<SelectedField>, fmt: Option<Format>, default: Option<nat>)

  /** The `Promptable` enum of ezmenu-macros/src/prompted.rs:184-197. */
  datatype Promptable =
    | SelectedP(selected: Selected)
    | WrittenP(w: Written)
    | UntilP(inner: Promptable, til: Operand)
    | SeparatedP(sw: Written, sep: string, envSep: Option<(string, string)>)
    | BoolP(bw: Written, basicExample: bool)
    | PasswordP(pmsg: string, pfmt: Option<Format>)

  /** `entries.map(|raw| raw.raw)`. */
  function Strip(raws: seq<RawSelectedField>): (r: seq<SelectedField>)
    ensures |r| == |raws|
    ensures forall k :: 0 <= k < |raws| ==> r[k] == SelectedField(raws[k].lit, raws[k].val)
  {
    seq(|raws|, k requires 0 <= k < |raws| => SelectedField(raws[k].lit, raws[k].val))
  }

  /** What `Selected::new` builds. */
  function SelectedOf(msg: string, fmt: Option<Format>, raws: seq<RawSelectedField>): (r: Result<Selected, Abort>)
  {
    match DefaultScan(MarksOf(raws), 0, None)
    case Ok(d) => Ok(Selected(msg, Strip(raws), fmt, d))
    case Err(e) => Err(e)
  }

  /** `Selected::new`. */
  method SelectedNew(msg: string, fmt: Option<Format>, raws: seq<RawSelectedField>) returns (r: Result<Selected, Abort>)
    ensures r == SelectedOf(msg, fmt, raws)
  {
    var default := GetDefaultFn(raws);
    if default.Err? {
      return Err(default.error);
    }
    return Ok(Selected(msg, Strip(raws), fmt, default.value));
  }

  /**
   * `Selected::new` keeps every entry, in order, with only the `default`
   * markers dropped; it succeeds iff at most one entry is marked, and the
   * default then points at the marked entry.
   */
  lemma SelectedOfSpec(msg: string, fmt: Option<Format>, raws: seq<RawSelectedField>)
    ensures SelectedOf(msg, fmt, raws).Ok? <==> DefaultCount(MarksOf(raws)) <= 1
    ensures SelectedOf(msg, fmt, raws).Err? ==> SelectedOf(msg, fmt, raws).error == ExtraDefault
    ensures SelectedOf(msg, fmt, raws).Ok? ==>
              var s := SelectedOf(msg, fmt, raws).value;
              s.msg == msg && s.fmt == fmt && |s.entries| == |raws| &&
              (forall k :: 0 <= k < |raws| ==> s.entries[k].lit == raws[k].lit && s.entries[k].val == raws[k].val) &&
              (s.default.None? <==> DefaultCount(MarksOf(raws)) == 0) &&
              (s.default.Some? ==> s.default.value < |raws| && raws[s.default.value].isDefault)
  {
    DefaultScanSpec(MarksOf(raws), 0, None);
  }
}
