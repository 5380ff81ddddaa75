// ezmenu-macros/src/utils.rs: what the procedural macros share. Attributes are
// kept as records (their path and the part the macros look at), an abort is a
// value carrying its reason, and identifiers are ASCII strings.
module MacroUtils {
  import opened Wrappers
  import opened Text

  /**
   * Why a macro expansion stops with a compile error (`abort!`). Spans and
   * the exact wording of most messages are not modelled.
   */
  datatype Abort =
    | DuplicateParam(param: string)          // a parameter written twice
    | ConflictParam(param: string, with: string) // a parameter next to one it excludes
    | TuiFeature                             // `tui`/`block` without the `tui` feature
    | InvalidIdent(message: string)          // an identifier outside the accepted list
    | ExtraDefault                           // a second entry marked `default`
    | OptionalOrDefault                      // `or_default` on a field of type `Option`
    | MissingMessage                         // an unnamed field with no message to show
    | UnboundFields(sample: string)          // a variant with fields but no entries for them
    | NotSupported(what: string)             // an item the derive does not handle
    | Unreachable                            // the macro panics at an `unreachable!` arm
    | Rejected(what: string)                 // any other abort of the macros

  /** One comma-separated operand inside an attribute argument. */
  datatype Operand =
    | OStr(s: string)                        // a string literal
    | OBool(b: bool)                         // a boolean literal
    | OInt(n: nat)                           // an unsuffixed integer literal
    | OIdent(id: string)                     // a bare identifier
    | OEntry(isDefault: bool, caption: string, value: string) // a `[default] ("label", expr)` selection entry
    | OOther                                 // any other expression, path or closure

  /** What follows a parameter keyword inside an attribute. */
  datatype Arg =
    | Bare                                   // `kw`
    | Assign(value: Operand)                 // `kw = value`
    | Group(operands: seq<Operand>)          // `kw(a, b, ...)`
    | Nested(items: seq<Item>)               // `kw(p = .., q, ...)`, itself a parameter list

  /** One token tree of an attribute's argument list. */
  datatype Item =
    | Param(name: string, arg: Arg)          // an identifier and what follows it
    | Comma                                  // a separating `,`
    | Stray                                  // anything else

  /** A value bound to a field of a variant: `id: expr`, or `expr` alone. */
  datatype Binding = Binding(id: Option<string>, val: string)

  /** An entry for a variant with fields: `[ident] ("label", bindings...)`. */
  datatype BoundEntry = BoundEntry(marker: Option<string>, lit: string, bindings: seq<Binding>)

  /** One comma-separated term of an attribute read as a plain list: `id`, `id = value`, or a literal. */
  datatype Term =
    | TIdent(id: string, rhs: Option<Operand>) // an identifier, with what follows `=` if anything
    | TLit(text: string)                     // a string literal
    | TOther                                 // anything else

  /** What an attribute holds after its path. */
  datatype AttrBody =
    | StrValue(text: string)                 // `#[p = "text"]`, e.g. a `///` doc line
    | Args(items: seq<Item>)                 // `#[p(...)]`, a parameter list
    | BoundEntries(entries: seq<BoundEntry>) // `#[p(...)]`, a list of entries with bindings
    | Terms(terms: seq<Term>)                // `#[p(...)]`, a plain list of terms
    | OtherBody                              // any other form

  /** An outer attribute: the segments of its path and its body. */
  datatype Attribute = Attribute(path: seq<string>, body: AttrBody)

  predicate Marks(a: Attribute, ident: string) {
    ident in a.path
  }

  /** `get_attr`: the first attribute with a path segment equal to `ident`. */
  function GetAttr(attrs: seq<Attribute>, ident: string): (r: Option<Attribute>)
    ensures r.None? <==> forall i :: 0 <= i < |attrs| ==> !Marks(attrs[i], ident)
    ensures r.Some? ==> r.value in attrs && Marks(r.value, ident)
    decreases |attrs|
  {
    if attrs == [] then None
    else if Marks(attrs[0], ident) then Some(attrs[0])
    else GetAttr(attrs[1..], ident)
  }

  /** The attribute found is the first marked one: every marked attribute after it is passed over. */
  lemma {:induction false} GetAttrIsFirst(attrs: seq<Attribute>, ident: string, i: nat)
    requires i < |attrs| && Marks(attrs[i], ident)
    requires forall j :: 0 <= j < i ==> !Marks(attrs[j], ident)
    ensures GetAttr(attrs, ident) == Some(attrs[i])
    decreases i
  {
    if i > 0 {
      assert !Marks(attrs[0], ident);
      GetAttrIsFirst(attrs[1..], ident, i - 1);
    }
  }

  /** `trim_start_matches(' ')`: drops the leading spaces, and only spaces. */
  function TrimLeadingSpaces(s: string): (r: string)
    ensures |r| <= |s| && r == s[|s| - |r|..]
    ensures forall k :: 0 <= k < |s| - |r| ==> s[k] == ' '
    ensures r == [] || r[0] != ' '
    decreases |s|
  {
    if s != [] && s[0] == ' ' then TrimLeadingSpaces(s[1..]) else s
  }

  /**
   * `get_first_doc`: the text of the first `doc` attribute when it is a
   * name-value string, without its leading spaces; a first `doc` attribute of
   * another form gives nothing, whatever follows it.
   */
  function GetFirstDoc(attrs: seq<Attribute>): (r: Option<string>)
  {
    match GetAttr(attrs, "doc")
    case Some(Attribute(_, StrValue(text))) => Some(TrimLeadingSpaces(text))
    case _ => None
  }

  /** The doc line is taken from the first doc attribute only, and loses exactly its leading spaces. */
  lemma FirstDocSpec(attrs: seq<Attribute>, i: nat)
    requires i < |attrs| && Marks(attrs[i], "doc") && forall j :: 0 <= j < i ==> !Marks(attrs[j], "doc")
    ensures attrs[i].body.StrValue? ==> GetFirstDoc(attrs) == Some(TrimLeadingSpaces(attrs[i].body.text))
    ensures !attrs[i].body.StrValue? ==> GetFirstDoc(attrs).None?
    ensures GetFirstDoc(attrs).Some? ==> GetFirstDoc(attrs).value == [] || GetFirstDoc(attrs).value[0] != ' '
  {
    GetAttrIsFirst(attrs, "doc", i);
  }

  /** Without any doc attribute there is no doc line. */
  lemma NoDocNoLine(attrs: seq<Attribute>)
    requires forall i :: 0 <= i < |attrs| ==> !Marks(attrs[i], "doc")
    ensures GetFirstDoc(attrs).None?
  {
  }

  /**
   * The start of the message chain every derive uses: the text given in the
   * attribute, else the first doc line unless `nodoc` is set.
   */
  function MessageOf(explicit: Option<string>, nodoc: bool, attrs: seq<Attribute>): (r: Option<string>)
    ensures explicit.Some? ==> r == explicit
    ensures explicit.None? ==> r == (if nodoc then None else GetFirstDoc(attrs))
  {
    if explicit.Some? then explicit else if nodoc then None else GetFirstDoc(attrs)
  }

  /** A message mapped by the case given, and left as it is without one (`Inherited` is the default). */
  function MapCase(c: Option<Case>, s: string): (r: string)
    ensures c.None? ==> r == s
  {
    (if c.Some? then c.value else DefaultCase).Map(s)
  }

  // ---- Case ------------------------------------------------------------------

  /** How an identifier is turned into displayed text; `Inherited` is the default. */
  datatype Case = Upper | Lower | Inherited {
    /** `Case::map`. */
    function Map(s: string): (r: string)
      ensures |r| == |s|
      ensures Upper? ==> forall k :: 0 <= k < |r| ==> !IsAsciiLower(r[k])
      ensures Lower? ==> forall k :: 0 <= k < |r| ==> !IsAsciiUpper(r[k])
      ensures Inherited? ==> r == s
      ensures ToLower(r) == ToLower(s)
    {
      match this
      case Upper => ToUpper(s)
      case Lower => ToLower(s)
      case Inherited => s
    }
  }

  const DefaultCase: Case := Inherited

  const UpperSpellings: seq<string> := ["upper", "upper_case", "uppercase", "up"]
  const LowerSpellings: seq<string> := ["lower", "lower_case", "lowercase", "low"]
  const InheritSpellings: seq<string> := ["inherit", "inherited", "inh"]

  /** Every identifier a case parameter accepts, in the order the abort message lists them. */
  const CaseSpellings: seq<string> := UpperSpellings + LowerSpellings + InheritSpellings

  /** The message of `abort_invalid_ident` (without the spelling suggestion). */
  function InvalidIdentMessage(id: string, valids: seq<string>): string {
    "unexpected identifier: `" + id + "`. expected one of:\n" + Prettify(valids)
  }

  /** `Case::parse` on the identifier it reads. */
  function ParseCase(id: string): (r: Result<Case, Abort>)
    ensures r.Ok? <==> id in CaseSpellings
    ensures r.Ok? && r.value.Upper? <==> id in UpperSpellings
    ensures r.Ok? && r.value.Lower? <==> id in LowerSpellings
    ensures r.Ok? && r.value.Inherited? <==> id in InheritSpellings
    ensures r.Err? ==> r.error == InvalidIdent(InvalidIdentMessage(id, CaseSpellings))
  {
    if id in UpperSpellings then Ok(Upper)
    else if id in LowerSpellings then Ok(Lower)
    else if id in InheritSpellings then Ok(Inherited)
    else Err(InvalidIdent(InvalidIdentMessage(id, CaseSpellings)))
  }

  /** No spelling is claimed by two cases, so the parse does not depend on the order of the tests. */
  lemma CaseSpellingsDisjoint()
    ensures forall s :: s in UpperSpellings ==> s !in LowerSpellings && s !in InheritSpellings
    ensures forall s :: s in LowerSpellings ==> s !in InheritSpellings
  {
  }

  /** The short spellings in use: `up`, `upper_case`, `low`, `inh`. */
  lemma ParseCaseExamples()
    ensures ParseCase("up") == Ok(Upper) && ParseCase("upper_case") == Ok(Upper)
    ensures ParseCase("low") == Ok(Lower) && ParseCase("inh") == Ok(Inherited)
    ensures ParseCase("Upper").Err? && ParseCase("uppercased").Err?
  {
  }

  /** Upper then lower is lower: the last mapping decides the letters. */
  lemma {:induction false} MapsCompose(s: string)
    ensures Lower.Map(Upper.Map(s)) == Lower.Map(s)
    ensures Upper.Map(Lower.Map(s)) == Upper.Map(s)
  {
    assert forall k :: 0 <= k < |s| ==> LowerChar(UpperChar(s[k])) == LowerChar(s[k]);
    assert forall k :: 0 <= k < |s| ==> UpperChar(LowerChar(s[k])) == UpperChar(s[k]);
  }

  // ---- split_ident_camel_case ----------------------------------------------

  /**
   * What the character at index `k` becomes: an uppercase letter after the
   * first position gets a space in front of it and is lowercased when a
   * lowercase letter follows; every other character is kept.
   */
  function CamelPiece(s: string, k: nat): (r: string)
    requires k < |s|
  {
    if k > 0 && IsAsciiUpper(s[k]) then
      [' ', if k + 1 < |s| && IsAsciiLower(s[k + 1]) then LowerChar(s[k]) else s[k]]
    else [s[k]]
  }

  /** The number of uppercase letters among `s[1..k]`. */
  function UppersAfterFirst(s: string, k: nat): nat
    requires k <= |s|
  {
    if k <= 1 then 0 else UppersAfterFirst(s, k - 1) + (if IsAsciiUpper(s[k - 1]) then 1 else 0)
  }

  /** The first `k` characters of `s`, split. */
  function CamelPrefix(s: string, k: nat): (r: string)
    requires k <= |s|
    ensures |r| == k + UppersAfterFirst(s, k)
    ensures k > 0 ==> r[0] == s[0]
    decreases k
  {
    if k == 0 then [] else CamelPrefix(s, k - 1) + CamelPiece(s, k - 1)
  }

  /** `split_ident_camel_case` on an ASCII identifier. */
  function CamelSplit(s: string): (r: string)
  {
    CamelPrefix(s, |s|)
  }

  /** An identifier as displayed: verbatim with `raw`, else split at its capitals. */
  function Label(raw: bool, id: string): string {
    if raw then id else CamelSplit(id)
  }

  /**
   * The loop of `split_ident_camel_case`: it walks the growing string, inserts
   * a space before each uppercase letter past the start and lowercases that
   * letter when a lowercase one follows. `prevUp` is kept as in the source;
   * it is never set.
   */
  method SplitIdentCamelCase(id: string) returns (out: string)
    ensures out == CamelSplit(id)
  {
    out := id;
    var prevUp := false;
    var i := 0;
    ghost var k := 0;
    while i < |out|
      invariant k <= |id| && i <= |out|
      invariant out[..i] == CamelPrefix(id, k) && out[i..] == id[k..]
      invariant !prevUp
      decreases |id| - k
    {
      assert (i > 0) == (k > 0);
      var c := out[i];
      assert c == id[k] && out[i + 1..] == id[k + 1..] by { SuffixStep(out, i, id, k); }
      ghost var piece := CamelPiece(id, k);
      if IsAsciiUpper(c) {
        if !prevUp && i > 0 {
          assert out[i + 1..] == id[k + 1..];
          out := SpaceBeforeUpper(out, i);
          i := i + 1;
        } else {
          PrefixStep(out, i);
        }
        prevUp := false;
      } else {
        prevUp := false;
        PrefixStep(out, i);
      }
      i := i + 1;
      k := k + 1;
    }
    assert out[..i] == out;
  }

  /**
   * The body of the loop at an uppercase letter past the start: lowercase it
   * when a lowercase letter follows, then insert a space before it.
   */
  method SpaceBeforeUpper(s: string, i: nat) returns (t: string)
    requires 0 < i < |s|
    ensures |t| == |s| + 1
    ensures t[..i] == s[..i] && t[i + 2..] == s[i + 1..]
    ensures t[i..i + 2] == [' ', if i + 1 < |s| && IsAsciiLower(s[i + 1]) then LowerChar(s[i]) else s[i]]
  {
    t := s;
    if i + 1 < |t| && IsAsciiLower(t[i + 1]) {
      ReplaceAt(t, i, LowerChar(t[i]));
      t := t[..i] + [LowerChar(t[i])] + t[i + 1..];
    }
    InsertAt(t, i, ' ');
    t := t[..i] + [' '] + t[i..];
  }

  lemma SuffixStep(out: string, i: nat, id: string, k: nat)
    requires i < |out| && k <= |id| && out[i..] == id[k..]
    ensures k < |id| && out[i] == id[k] && out[i + 1..] == id[k + 1..]
  {
    assert out[i..][0] == out[i];
    assert out[i..][1..] == out[i + 1..];
  }

  lemma PrefixStep(out: string, i: nat)
    requires i < |out|
    ensures out[..i + 1] == out[..i] + [out[i]]
  {
  }

  lemma ReplaceAt(s: string, i: nat, x: char)
    requires i < |s|
    ensures var t := s[..i] + [x] + s[i + 1..]; |t| == |s| && t[..i] == s[..i] && t[i] == x && t[i + 1..] == s[i + 1..]
  {
    var t := s[..i] + [x] + s[i + 1..];
    assert t[i + 1..] == s[i + 1..];
  }

  lemma InsertAt(s: string, i: nat, x: char)
    requires i < |s|
    ensures var t := s[..i] + [x] + s[i..]; t[..i + 2] == s[..i] + [x, s[i]] && t[i + 2..] == s[i + 1..]
  {
    var t := s[..i] + [x] + s[i..];
    assert t[i + 2..] == s[i + 1..];
  }

  /** The split keeps the first character and adds one space per uppercase letter after it. */
  lemma SplitShape(s: string)
    ensures |CamelSplit(s)| == |s| + UppersAfterFirst(s, |s|)
    ensures s != [] ==> CamelSplit(s)[0] == s[0]
  {
  }

  /** `s` with every space removed. */
  function Unspaced(s: string): (r: string)
    ensures |r| <= |s|
  {
    if s == [] then [] else Unspaced(s[..|s| - 1]) + (if s[|s| - 1] == ' ' then [] else [s[|s| - 1]])
  }

  /** Dropping spaces from a concatenation drops them from each part. */
  lemma {:induction false} UnspacedConcat(a: string, b: string)
    ensures Unspaced(a + b) == Unspaced(a) + Unspaced(b)
    decreases |b|
  {
    if b != [] {
      UnspacedConcat(a, b[..|b| - 1]);
      assert (a + b)[..|a + b| - 1] == a + b[..|b| - 1];
    } else {
      assert a + b == a;
    }
  }

  /** Spaces dropped and letters folded to lowercase. */
  function Folded(s: string): string {
    ToLower(Unspaced(s))
  }

  lemma FoldedConcat(a: string, b: string)
    ensures Folded(a + b) == Folded(a) + Folded(b)
  {
    UnspacedConcat(a, b);
    ToLowerConcat(Unspaced(a), Unspaced(b));
  }

  /** Each piece of the split folds to the character it came from. */
  lemma PieceFolds(s: string, k: nat)
    requires k < |s| && s[k] != ' '
    ensures Folded(CamelPiece(s, k)) == Folded([s[k]])
  {
    var piece := CamelPiece(s, k);
    assert Unspaced([s[k]]) == [s[k]] by { assert [s[k]][..0] == []; }
    if k > 0 && IsAsciiUpper(s[k]) {
      assert Unspaced(piece) == [piece[1]] by {
        assert piece[..1] == [' '];
        assert [' '][..0] == [];
      }
    }
  }

  /** Folding the split of the first `k` characters gives the first `k` characters, folded. */
  lemma {:induction false} SplitOnlyAddsSpaces(s: string, k: nat)
    requires k <= |s| && forall j :: 0 <= j < |s| ==> s[j] != ' '
    ensures Folded(CamelPrefix(s, k)) == Folded(s[..k])
    decreases k
  {
    if k > 0 {
      SplitOnlyAddsSpaces(s, k - 1);
      FoldedConcat(CamelPrefix(s, k - 1), CamelPiece(s, k - 1));
      assert s[..k] == s[..k - 1] + [s[k - 1]];
      FoldedConcat(s[..k - 1], [s[k - 1]]);
      PieceFolds(s, k - 1);
    }
  }

  /** A space-free identifier and its split agree once spaces are dropped and case is folded. */
  lemma SplitRoundTrip(s: string)
    requires forall j :: 0 <= j < |s| ==> s[j] != ' '
    ensures Folded(CamelSplit(s)) == Folded(s)
  {
    SplitOnlyAddsSpaces(s, |s|);
    assert s[..|s|] == s;
  }

  /** Two concrete splits: a word boundary is lowercased, a run of capitals is spaced out. */
  lemma SplitExamples()
    ensures CamelSplit("MyName") == "My name"
    ensures CamelSplit("AB") == "A B"
  {
    assert CamelPrefix("MyName", 1) == "M";
    assert CamelPrefix("MyName", 2) == "My";
    assert CamelPrefix("MyName", 3) == "My n";
    assert CamelPrefix("MyName", 4) == "My na";
    assert CamelPrefix("MyName", 5) == "My nam";
    assert CamelPrefix("AB", 1) == "A";
  }


  // ---- prettify ----------------------------------------------------------------

  /** The most lines `prettify` lists. */
  const PrettifyMax: nat := 5

  /** The numbered lines for `items`, the first one numbered `start`. */
  function NumberedLines(items: seq<string>, start: nat): string
    decreases |items|
  {
    if items == [] then []
    else NatToString(start) + " - `" + items[0] + "`\n" + NumberedLines(items[1..], start + 1)
  }

  /**
   * `prettify`: one line `"{k} - `s`\n"` for each of the first five items,
   * numbered from 1, then `"... and more"` when there were more.
   */
  function Prettify(args: seq<string>): string {
    var shown := if |args| > PrettifyMax then args[..PrettifyMax] else args;
    NumberedLines(shown, 1) + (if |args| > PrettifyMax then "... and more" else "")
  }

  /** Numbered lines hold one newline per item when the items hold none. */
  lemma {:induction false} NumberedLinesCount(items: seq<string>, start: nat)
    requires forall k :: 0 <= k < |items| ==> Count(items[k], '\n') == 0
    ensures Count(NumberedLines(items, start), '\n') == |items|
    decreases |items|
  {
    if items != [] {
      NumberedLinesCount(items[1..], start + 1);
      NatDigitsNoNewline(start);
      var head := NatToString(start) + " - `" + items[0] + "`\n";
      CountConcat(head, NumberedLines(items[1..], start + 1), '\n');
      CountConcat(NatToString(start) + " - `" + items[0], "`\n", '\n');
      CountConcat(NatToString(start) + " - `", items[0], '\n');
      CountConcat(NatToString(start), " - `", '\n');
    }
  }

  lemma {:induction false} NatDigitsNoNewline(n: nat)
    ensures Count(NatToString(n), '\n') == 0
  {
    var s := NatToString(n);
    DigitsNoNewline(s);
  }

  lemma {:induction false} DigitsNoNewline(s: string)
    requires AllDigits(s)
    ensures Count(s, '\n') == 0
    decreases |s|
  {
    if s != [] {
      DigitsNoNewline(s[1..]);
    }
  }

  lemma {:induction false} AndMoreNoNewline()
    ensures Count("... and more", '\n') == 0
  {
    var t := "... and more";
    assert t[1..] == ".. and more";
  }

  /** Past five items `prettify` prints the first five and the `... and more` marker, nothing of the rest. */
  lemma PrettifyCapped(args: seq<string>)
    ensures |args| > PrettifyMax ==> Prettify(args) == Prettify(args[..PrettifyMax]) + "... and more"
    ensures |args| <= PrettifyMax ==> Prettify(args) == NumberedLines(args, 1)
  {
    if |args| > PrettifyMax {
      assert |args[..PrettifyMax]| == PrettifyMax;
    }
  }

  /** `prettify` prints one line per item, up to five. */
  lemma PrettifyLineCount(args: seq<string>)
    requires forall k :: 0 <= k < |args| ==> Count(args[k], '\n') == 0
    ensures Count(Prettify(args), '\n') == if |args| > PrettifyMax then PrettifyMax else |args|
  {
    var shown := if |args| > PrettifyMax then args[..PrettifyMax] else args;
    NumberedLinesCount(shown, 1);
    var tail: string := if |args| > PrettifyMax then "... and more" else "";
    assert Count(tail, '\n') == 0 by {
      if |args| > PrettifyMax { AndMoreNoNewline(); }
    }
    CountConcat(NumberedLines(shown, 1), tail, '\n');
  }
}
