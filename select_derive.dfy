// ezmenu-macros/src/select.rs: the older `derive(Select)`. A unit variant is
// one entry, labelled by its identifier split at word boundaries, its doc line
// or its `select` attribute, which may also mark it as the default; a variant
// with fields lists its entries in its attribute. The enum's attribute gives
// the message and the format. Both attributes take at most two values of
// different kinds.
module SelectDerive {
  import opened Wrappers
  import opened Text
  import opened MacroUtils
  import opened Kw
  import opened PromptableMacro
  import opened PromptedSelect

  // ---- splitting the identifier --------------------------------------------------

  /**
   * `Entry::from`: the regex `([a-z])([A-Z])` replaced by `$1 $2`, scanning
   * left to right; a match consumes both letters, so matches never overlap.
   */
  function SplitWords(s: string): (r: string)
    ensures s != [] ==> r != [] && r[0] == s[0]
    ensures |r| >= |s|
    ensures forall k :: 0 <= k < |r| - 1 ==> !(IsAsciiLower(r[k]) && IsAsciiUpper(r[k + 1]))
  {
    if |s| < 2 then s
    else if IsAsciiLower(s[0]) && IsAsciiUpper(s[1]) then
      var rest := SplitWords(s[2..]);
      assert forall k :: 3 <= k < |rest| + 3 ==> ([s[0], ' ', s[1]] + rest)[k] == rest[k - 3];
      [s[0], ' ', s[1]] + rest
    else
      var rest := SplitWords(s[1..]);
      assert forall k :: 1 <= k < |rest| + 1 ==> ([s[0]] + rest)[k] == rest[k - 1];
      [s[0]] + rest
  }

  /** The string has no space, as an identifier has none. */
  predicate NoSpace(s: string) {
    forall k :: 0 <= k < |s| ==> s[k] != ' '
  }

  lemma UnspacedOneThen(a: char, t: string)
    requires a != ' '
    ensures Unspaced([a] + t) == [a] + Unspaced(t)
  {
    UnspacedConcat([a], t);
    assert [a][..0] == [];
  }

  lemma UnspacedPairThen(a: char, b: char, t: string)
    requires a != ' ' && b != ' '
    ensures Unspaced([a, ' ', b] + t) == [a, b] + Unspaced(t)
  {
    UnspacedConcat([a, ' ', b], t);
    assert [a, ' ', b][..2] == [a, ' '];
    assert [a, ' '][..1] == [a];
    assert [a][..0] == [];
    assert Unspaced([a]) == [a];
    assert Unspaced([a, ' ']) == [a];
    assert Unspaced([a, ' ', b]) == [a, b];
  }

  /** Splitting only inserts spaces: dropping them gives the identifier back. */
  lemma {:induction false} SplitWordsUnspaced(s: string)
    requires NoSpace(s)
    ensures Unspaced(SplitWords(s)) == s
  {
    if |s| == 1 {
      UnspacedOneThen(s[0], []);
      assert [s[0]] + [] == s;
    } else if |s| >= 2 && IsAsciiLower(s[0]) && IsAsciiUpper(s[1]) {
      var t := SplitWords(s[2..]);
      SplitWordsUnspaced(s[2..]);
      UnspacedPairThen(s[0], s[1], t);
      assert s == [s[0], s[1]] + s[2..];
    } else if |s| >= 2 {
      var t := SplitWords(s[1..]);
      SplitWordsUnspaced(s[1..]);
      UnspacedOneThen(s[0], t);
      assert s == [s[0]] + s[1..];
    }
  }

  /** Each inserted space sits between a lowercase and an uppercase letter. */
  lemma {:induction false} SplitWordsSpaces(s: string)
    requires NoSpace(s)
    ensures forall k :: 0 <= k < |SplitWords(s)| && SplitWords(s)[k] == ' ' ==>
              0 < k < |SplitWords(s)| - 1 && IsAsciiLower(SplitWords(s)[k - 1]) && IsAsciiUpper(SplitWords(s)[k + 1])
  {
    var r := SplitWords(s);
    if |s| < 2 {
    } else if IsAsciiLower(s[0]) && IsAsciiUpper(s[1]) {
      var rest := SplitWords(s[2..]);
      assert r == [s[0], ' ', s[1]] + rest;
      SplitWordsSpaces(s[2..]);
      forall k | 0 <= k < |r| && r[k] == ' '
        ensures 0 < k < |r| - 1 && IsAsciiLower(r[k - 1]) && IsAsciiUpper(r[k + 1])
      {
        if k >= 3 {
          assert r[k] == rest[k - 3];
          assert r[k - 1] == rest[k - 4];
          assert r[k + 1] == rest[k - 2];
        }
      }
    } else {
      var rest := SplitWords(s[1..]);
      assert r == [s[0]] + rest;
      SplitWordsSpaces(s[1..]);
      forall k | 0 <= k < |r| && r[k] == ' '
        ensures 0 < k < |r| - 1 && IsAsciiLower(r[k - 1]) && IsAsciiUpper(r[k + 1])
      {
        assert r[k] == rest[k - 1];
        assert r[k - 1] == rest[k - 2];
        assert r[k + 1] == rest[k];
      }
    }
  }

  /** A string with no lowercase letter followed by an uppercase one is left as it is. */
  lemma {:induction false} SplitWordsFixed(s: string)
    requires forall k :: 0 <= k < |s| - 1 ==> !(IsAsciiLower(s[k]) && IsAsciiUpper(s[k + 1]))
    ensures SplitWords(s) == s
  {
    if |s| >= 2 {
      SplitWordsFixed(s[1..]);
      assert s == [s[0]] + s[1..];
    }
  }

  /** Splitting twice is splitting once: a split label has no boundary left. */
  lemma SplitWordsIdempotent(s: string)
    ensures SplitWords(SplitWords(s)) == SplitWords(s)
  {
    SplitWordsFixed(SplitWords(s));
  }

  /** `Entry::from` on a two-word identifier. */
  lemma SplitWordsExample()
    ensures SplitWords("aB") == "a B"
  {
  }

  // ---- the attribute values ---------------------------------------------------------

  /** The values of a plain term list, read one after the other; the first refused term stops the parse. */
  function ParseEach<T>(ts: seq<Term>, parse: Term -> Result<T, Failure>): (r: Result<seq<T>, Failure>)
    ensures r.Ok? <==> forall k :: 0 <= k < |ts| ==> parse(ts[k]).Ok?
    ensures r.Ok? ==> |r.value| == |ts| && forall k :: 0 <= k < |ts| ==> r.value[k] == parse(ts[k]).value
    ensures r.Err? ==> exists k :: 0 <= k < |ts| && parse(ts[k]) == Err(r.error) &&
                                   forall j :: 0 <= j < k ==> parse(ts[j]).Ok?
  {
    if ts == [] then Ok([])
    else
      match parse(ts[0])
      case Err(e) => Err(e)
      case Ok(first) =>
        var rest := ParseEach(ts[1..], parse);
        assert forall k :: 1 <= k < |ts| ==> ts[k] == ts[1..][k - 1];
        match rest
        case Err(e) =>
          assert exists k :: 1 <= k < |ts| && parse(ts[k]) == Err(e) && forall j :: 0 <= j < k ==> parse(ts[j]).Ok? by {
            var k :| 0 <= k < |ts[1..]| && parse(ts[1..][k]) == Err(e) && forall j :: 0 <= j < k ==> parse(ts[1..][j]).Ok?;
            assert forall j :: 1 <= j < k + 1 ==> parse(ts[j]).Ok? by {
              forall j | 1 <= j < k + 1
                ensures parse(ts[j]).Ok?
              {
                assert ts[j] == ts[1..][j - 1];
              }
            }
          }
          Err(e)
        case Ok(tail) => Ok([first] + tail)
  }

  const AlreadyDefined := "attribute already defined"

  /**
   * The three `vals.next()` steps of `UnitAttr` and `RootAttr`: the values
   * are of two kinds (`isA` tells which); the first is taken, the second is
   * taken only if its kind is still free, and a third aborts. The result holds
   * the position of the value of each kind.
   */
  function TwoSlots(isA: seq<bool>): (r: Result<(Option<nat>, Option<nat>), Abort>)
    ensures r.Ok? <==> forall i, j :: 0 <= i < j < |isA| ==> isA[i] != isA[j]
    ensures r.Err? ==> r.error == Rejected(AlreadyDefined)
    ensures r.Ok? ==> (r.value.0.Some? <==> exists k :: 0 <= k < |isA| && isA[k])
    ensures r.Ok? ==> (r.value.1.Some? <==> exists k :: 0 <= k < |isA| && !isA[k])
    ensures r.Ok? && r.value.0.Some? ==> r.value.0.value < |isA| && isA[r.value.0.value]
    ensures r.Ok? && r.value.1.Some? ==> r.value.1.value < |isA| && !isA[r.value.1.value]
  {
    if |isA| == 0 then Ok((None, None))
    else
      var first: (Option<nat>, Option<nat>) := if isA[0] then (Some(0), None) else (None, Some(0));
      if |isA| == 1 then Ok(first)
      else if isA[1] == isA[0] then Err(Rejected(AlreadyDefined))
      else if |isA| > 2 then
        assert isA[2] == isA[0] || isA[2] == isA[1];
        Err(Rejected(AlreadyDefined))
      else Ok(if isA[1] then (Some(1), first.1) else (first.0, Some(1)))
  }

  /** A value of a unit variant's attribute. */
  datatype UnitValue = DefaultUnit | LitUnit(lit: string)

  /** `Unit::parse`: `default`, `msg = "..."` or a bare string literal; any other identifier aborts. */
  function ParseUnit(t: Term): (r: Result<UnitValue, Failure>)
    ensures r.Ok? ==> (r.value.DefaultUnit? <==> t == TIdent("default", None))
    ensures t.TIdent? && t.id != "default" && t.id != "msg" ==> r == Err(Aborted(InvalidIdent(InvalidIdentMessage(t.id, ["default", "msg"]))))
  {
    match t
    case TIdent(id, rhs) =>
      if id == "default" then
        (if rhs.None? then Ok(DefaultUnit) else Err(SynError))
      else if id == "msg" then
        (if rhs.Some? && rhs.value.OStr? then Ok(LitUnit(rhs.value.s)) else Err(SynError))
      else Err(Aborted(InvalidIdent(InvalidIdentMessage(id, ["default", "msg"]))))
    case TLit(text) => Ok(LitUnit(text))
    case TOther => Err(SynError)
  }

  /** `UnitAttr`: the message and whether the variant is the default. */
  datatype UnitAttr = UnitAttr(lit: Option<string>, default: bool)

  function DefaultFlags(units: seq<UnitValue>): (r: seq<bool>)
    ensures |r| == |units| && forall k :: 0 <= k < |units| ==> r[k] == units[k].DefaultUnit?
  {
    seq(|units|, k requires 0 <= k < |units| => units[k].DefaultUnit?)
  }

  /** `UnitAttr::parse` on the values read. */
  function UnitAttrOf(units: seq<UnitValue>): (r: Result<UnitAttr, Failure>)
    ensures r.Ok? <==> forall i, j :: 0 <= i < j < |units| ==> units[i].DefaultUnit? != units[j].DefaultUnit?
    ensures r.Err? ==> r.error == Aborted(Rejected(AlreadyDefined))
    ensures r.Ok? ==> (r.value.default <==> exists k :: 0 <= k < |units| && units[k].DefaultUnit?)
    ensures r.Ok? ==> (r.value.lit.None? <==> forall k :: 0 <= k < |units| ==> units[k].DefaultUnit?)
    ensures r.Ok? && r.value.lit.Some? ==> LitUnit(r.value.lit.value) in units
  {
    var flags := DefaultFlags(units);
    match TwoSlots(flags)
    case Err(e) => Err(Aborted(e))
    case Ok((d, l)) =>
      Ok(UnitAttr(if l.Some? then Some(units[l.value].lit) else None, d.Some?))
  }

  /** The `select` attribute of a unit variant, `#[select(...)]`. */
  function ParseUnitAttr(body: AttrBody): Result<UnitAttr, Failure> {
    match body
    case Terms(ts) =>
      (match ParseEach(ts, ParseUnit)
       case Err(e) => Err(e)
       case Ok(units) => UnitAttrOf(units))
    case _ => Err(SynError)
  }

  /** A value of the enum's attribute. */
  datatype RootArg = MsgArg(msg: string) | FmtArg(fmt: Operand)

  /** `RootArg::parse`: `msg = "..."`, `fmt = expr` or a bare string literal; another identifier aborts. */
  function ParseRootArg(t: Term): (r: Result<RootArg, Failure>)
    ensures t.TIdent? && t.rhs.Some? && t.id != "msg" && t.id != "fmt" ==>
              r == Err(Aborted(InvalidIdent(InvalidIdentMessage(t.id, ["msg", "fmt"]))))
    ensures t.TIdent? && t.rhs.None? ==> r == Err(SynError)
    ensures r.Ok? ==> (r.value.FmtArg? <==> t.TIdent? && t.id == "fmt")
  {
    match t
    case TIdent(id, rhs) =>
      if rhs.None? then Err(SynError)
      else if id == "msg" then
        (if rhs.value.OStr? then Ok(MsgArg(rhs.value.s)) else Err(SynError))
      else if id == "fmt" then Ok(FmtArg(rhs.value))
      else Err(Aborted(InvalidIdent(InvalidIdentMessage(id, ["msg", "fmt"]))))
    case TLit(text) => Ok(MsgArg(text))
    case TOther => Err(SynError)
  }

  /** `RootAttr`: the message and the format expression. */
  datatype RootAttr = RootAttr(msg: Option<string>, fmt: Option<Operand>)

  function FmtFlags(args: seq<RootArg>): (r: seq<bool>)
    ensures |r| == |args| && forall k :: 0 <= k < |args| ==> r[k] == args[k].FmtArg?
  {
    seq(|args|, k requires 0 <= k < |args| => args[k].FmtArg?)
  }

  /** `RootAttr::parse` on the values read. */
  function RootAttrOf(args: seq<RootArg>): (r: Result<RootAttr, Failure>)
    ensures r.Ok? <==> forall i, j :: 0 <= i < j < |args| ==> args[i].FmtArg? != args[j].FmtArg?
    ensures r.Err? ==> r.error == Aborted(Rejected(AlreadyDefined))
    ensures r.Ok? ==> (r.value.fmt.None? <==> forall k :: 0 <= k < |args| ==> args[k].MsgArg?)
    ensures r.Ok? ==> (r.value.msg.None? <==> forall k :: 0 <= k < |args| ==> args[k].FmtArg?)
    ensures r.Ok? && r.value.fmt.Some? ==> FmtArg(r.value.fmt.value) in args
    ensures r.Ok? && r.value.msg.Some? ==> MsgArg(r.value.msg.value) in args
  {
    var flags := FmtFlags(args);
    match TwoSlots(flags)
    case Err(e) => Err(Aborted(e))
    case Ok((f, m)) =>
      Ok(RootAttr(if m.Some? then Some(args[m.value].msg) else None, if f.Some? then Some(args[f.value].fmt) else None))
  }

  function ParseRootAttr(body: AttrBody): Result<RootAttr, Failure> {
    match body
    case Terms(ts) =>
      (match ParseEach(ts, ParseRootArg)
       case Err(e) => Err(e)
       case Ok(args) => RootAttrOf(args))
    case _ => Err(SynError)
  }

  /** A message and a format, in this order, are accepted. */
  lemma RootMsgThenFmt(m: string, f: Operand)
    ensures ParseRootAttr(Terms([TLit(m), TIdent("fmt", Some(f))])) == Ok(RootAttr(Some(m), Some(f)))
  {
    assert FmtFlags([MsgArg(m), FmtArg(f)]) == [false, true];
  }

  /** A format and a message, in this order, are accepted too. */
  lemma RootFmtThenMsg(m: string, f: Operand)
    ensures ParseRootAttr(Terms([TIdent("fmt", Some(f)), TIdent("msg", Some(OStr(m)))])) == Ok(RootAttr(Some(m), Some(f)))
  {
    assert FmtFlags([FmtArg(f), MsgArg(m)]) == [true, false];
  }

  /** Two messages abort. */
  lemma RootTwoMessages(m: string, m': string)
    ensures ParseRootAttr(Terms([TLit(m), TLit(m')])) == Err(Aborted(Rejected(AlreadyDefined)))
  {
    assert FmtFlags([MsgArg(m), MsgArg(m')]) == [false, false];
  }

  /** `#[select("label", default)]` sets both; a third value aborts whatever its kind. */
  lemma UnitAttrExamples(m: string)
    ensures ParseUnitAttr(Terms([TLit(m), TIdent("default", None)])) == Ok(UnitAttr(Some(m), true))
    ensures ParseUnitAttr(Terms([TLit(m), TIdent("default", None), TLit(m)])) == Err(Aborted(Rejected(AlreadyDefined)))
  {
    assert DefaultFlags([LitUnit(m), DefaultUnit]) == [false, true];
    assert DefaultFlags([LitUnit(m), DefaultUnit, LitUnit(m)]) == [false, true, false];
  }

  // ---- the entries of a variant --------------------------------------------------------

  const UnboundMessage := "expected variant to have bound values in select attribute"

  /** The label of a unit variant: its attribute's message, else its doc line, else its split identifier. */
  function UnitLabelOf(v: Variant, u: Option<UnitAttr>): string {
    if u.Some? && u.value.lit.Some? then u.value.lit.value
    else GetFirstDoc(v.attrs).UnwrapOr(SplitWords(v.ident))
  }

  /** `Select::from`: the entries of one variant. */
  function SelectFrom(v: Variant): (r: Result<seq<Entry>, Failure>)
    ensures v.fields.UnitFields? && r.Ok? ==> |r.value| == 1 && r.value[0].id == v.ident && !r.value[0].named
    ensures !v.fields.UnitFields? && GetAttr(v.attrs, "select").None? ==> r == Err(Aborted(Rejected(UnboundMessage)))
    ensures r.Ok? ==> |r.value| == EntryCount(v, "select")
  {
    match v.fields
    case UnitFields =>
      (match GetAttr(v.attrs, "select")
       case None => Ok([Entry(v.ident, UnitLabelOf(v, None), false, [], false)])
       case Some(a) =>
         match ParseUnitAttr(a.body)
         case Err(e) => Err(e)
         case Ok(u) => Ok([Entry(v.ident, UnitLabelOf(v, Some(u)), false, [], u.default)]))
    case _ =>
      match GetAttr(v.attrs, "select")
      case None => Err(Aborted(Rejected(UnboundMessage)))
      case Some(a) =>
        match ListOf(a.body)
        case None => Err(SynError)
        case Some(es) => EntriesOfList(es, v.ident, v.fields.NamedFields?)
  }

  /**
   * A unit variant's label is its attribute's message, else its doc line,
   * else its split identifier; it is the default exactly when its attribute
   * says `default`.
   */
  lemma UnitLabelChain(v: Variant)
    requires v.fields.UnitFields? && SelectFrom(v).Ok?
    ensures var e := SelectFrom(v).value[0];
            var u := if GetAttr(v.attrs, "select").Some? then Some(ParseUnitAttr(GetAttr(v.attrs, "select").value.body).value)
                     else None;
            (u.Some? && u.value.lit.Some? ==> e.lit == u.value.lit.value) &&
            (!(u.Some? && u.value.lit.Some?) && GetFirstDoc(v.attrs).Some? ==> e.lit == GetFirstDoc(v.attrs).value) &&
            (!(u.Some? && u.value.lit.Some?) && GetFirstDoc(v.attrs).None? ==> e.lit == SplitWords(v.ident)) &&
            (e.isDefault <==> u.Some? && u.value.default)
  {
  }

  // ---- the enum ----------------------------------------------------------------------

  /** `RootData::new`: the message, the enum's name by default, and the format. */
  datatype SelectRoot = SelectRoot(msg: string, fmt: Option<Operand>)

  function SelectRootOf(name: string, attrs: seq<Attribute>): (r: Result<SelectRoot, Failure>)
    ensures GetAttr(attrs, "select").None? ==> r == Ok(SelectRoot(name, None))
    ensures r.Ok? && GetAttr(attrs, "select").Some? ==>
              var ra := ParseRootAttr(GetAttr(attrs, "select").value.body);
              ra.Ok? && r.value.msg == ra.value.msg.UnwrapOr(name) && r.value.fmt == ra.value.fmt
  {
    match GetAttr(attrs, "select")
    case None => Ok(SelectRoot(name, None))
    case Some(a) =>
      match ParseRootAttr(a.body)
      case Err(e) => Err(e)
      case Ok(ra) => Ok(SelectRoot(ra.msg.UnwrapOr(name), ra.fmt))
  }

  /** The entries `SelectFrom` gives add up to the entries the variants declare. */
  lemma {:induction false} EntriesCount(variants: seq<Variant>)
    requires EntriesWith(variants, SelectFrom).Ok?
    ensures |EntriesWith(variants, SelectFrom).value| == TotalCount(variants, "select")
    decreases |variants|
  {
    if variants != [] {
      EntriesWithSnoc(variants, SelectFrom);
      EntriesCount(variants[..|variants| - 1]);
    }
  }

  /** The entries of the variants of the enum. */
  function EntriesOf(variants: seq<Variant>): (r: Result<seq<Entry>, Failure>)
    ensures r.Ok? ==> |r.value| == TotalCount(variants, "select")
  {
    var r := EntriesWith(variants, SelectFrom);
    if r.Ok? then EntriesCount(variants); r else r
  }

  /**
   * The entries are flattened in the order of the variants: those of variant
   * `i` come right after the entries of the variants before it.
   */
  lemma {:induction false} EntriesOfAt(variants: seq<Variant>, i: nat)
    requires EntriesOf(variants).Ok? && i < |variants|
    ensures SelectFrom(variants[i]).Ok?
    ensures var off := TotalCount(variants[..i], "select");
            var es := SelectFrom(variants[i]).value;
            off + |es| <= |EntriesOf(variants).value| && EntriesOf(variants).value[off..off + |es|] == es
  {
    EntriesWithAt(variants, i, SelectFrom);
    EntriesCount(variants[..i]);
  }

  /** The `Selectable` implementation: message, format, entries, their number and the default's position. */
  datatype Expansion = Expansion(msg: string, fmt: Option<Operand>, entries: seq<Entry>, n: nat, default: Option<nat>)

  const NotEnumMessage := "derive(Select) only supports unit enums."

  /** What `build_select` expands to; `variants` is `None` when the input is not an enum. */
  function BuildSelectOf(attrs: seq<Attribute>, name: string, variants: Option<seq<Variant>>): Result<Expansion, Failure> {
    match variants
    case None => Err(Aborted(NotSupported(NotEnumMessage)))
    case Some(vs) =>
      match SelectRootOf(name, attrs)
      case Err(e) => Err(e)
      case Ok(data) =>
        match EntriesOf(vs)
        case Err(e) => Err(e)
        case Ok(entries) =>
          match DefaultScan(EntryMarks(entries), 0, None)
          case Err(e) => Err(Aborted(e))
          case Ok(d) => Ok(Expansion(data.msg, data.fmt, entries, |entries|, d))
  }

  /** `build_select`. */
  method BuildSelect(attrs: seq<Attribute>, name: string, variants: Option<seq<Variant>>) returns (r: Result<Expansion, Failure>)
    ensures r == BuildSelectOf(attrs, name, variants)
  {
    if variants.None? {
      return Err(Aborted(NotSupported(NotEnumMessage)));
    }
    var data := SelectRootOf(name, attrs);
    if data.Err? {
      return Err(data.error);
    }
    var entries := EntriesOf(variants.value);
    if entries.Err? {
      return Err(entries.error);
    }
    var n := |entries.value|;
    var default := PromptedSelect.GetDefaultFn(entries.value);
    if default.Err? {
      return Err(Aborted(default.error));
    }
    return Ok(Expansion(data.value.msg, data.value.fmt, entries.value, n, default.value));
  }

  /**
   * Only enums are accepted; the number of entries is the sum over the
   * variants; at most one entry is the default, and its position is its
   * index in the flattened list; a second default aborts.
   */
  lemma BuildSelectSpec(attrs: seq<Attribute>, name: string, variants: Option<seq<Variant>>)
    ensures variants.None? ==> BuildSelectOf(attrs, name, variants) == Err(Aborted(NotSupported(NotEnumMessage)))
    ensures var r := BuildSelectOf(attrs, name, variants);
            r.Ok? ==>
              r.value.n == |r.value.entries| == TotalCount(variants.value, "select") &&
              DefaultCount(EntryMarks(r.value.entries)) <= 1 &&
              (r.value.default.None? <==> forall k :: 0 <= k < r.value.n ==> !r.value.entries[k].isDefault) &&
              (r.value.default.Some? ==> r.value.default.value < r.value.n &&
                                         r.value.entries[r.value.default.value].isDefault)
    ensures variants.Some? && SelectRootOf(name, attrs).Ok? && EntriesOf(variants.value).Ok? ==>
              (BuildSelectOf(attrs, name, variants).Ok? <==> DefaultCount(EntryMarks(EntriesOf(variants.value).value)) <= 1) &&
              (BuildSelectOf(attrs, name, variants).Err? ==> BuildSelectOf(attrs, name, variants) == Err(Aborted(ExtraDefault)))
  {
    if variants.Some? && EntriesOf(variants.value).Ok? {
      DefaultOfEntries(EntriesOf(variants.value).value);
    }
  }
}
