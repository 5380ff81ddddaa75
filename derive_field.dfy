// ezmenu-derive/src/struct_field.rs: what `#[menu(...)]` on a struct field
// becomes in `derive(Menu)`: the format flags, the `.fmt(...)` literal, the
// `.default(...)` call and the `next`/`next_map` choice.
module DeriveField {
  import opened Wrappers
  import opened Text
  import opened DeriveUtils
  import Field
  import Customs

  // ---- FieldFormatting ---------------------------------------------------------

  /**
   * `FieldFormatting`: the four format parameters as written, whether any was
   * written (`customFmt`) and whether any was left out (`someOmitted`).
   */
  datatype Formatting = Formatting(chip: Option<string>, prefix: Option<string>, newLine: Option<bool>,
                                   dispDefault: Option<bool>, customFmt: bool, someOmitted: bool)

  predicate AnySet(f: Formatting) {
    f.chip.Some? || f.prefix.Some? || f.newLine.Some? || f.dispDefault.Some?
  }

  predicate AllSet(f: Formatting) {
    f.chip.Some? && f.prefix.Some? && f.newLine.Some? && f.dispDefault.Some?
  }

  /** The flags agree with the four parameters. */
  predicate FlagsAgree(f: Formatting) {
    (f.customFmt <==> AnySet(f)) && (f.someOmitted <==> !AllSet(f))
  }

  /** `FieldFormatting::default`: nothing written, so nothing custom and everything omitted. */
  function DefaultFormatting(): (f: Formatting)
    ensures !AnySet(f) && FlagsAgree(f)
  {
    Formatting(None, None, None, None, false, true)
  }

  /** The flag computation after parsing: `custom_fmt` is "any", `some_omitted` is "not all". */
  function WithFlags(f: Formatting): (g: Formatting)
    ensures FlagsAgree(g)
    ensures g.chip == f.chip && g.prefix == f.prefix && g.newLine == f.newLine && g.dispDefault == f.dispDefault
  {
    var custom := f.chip.Some? || f.prefix.Some? || f.newLine.Some? || f.dispDefault.Some?;
    var omitted := !(f.chip.Some? && f.prefix.Some? && f.newLine.Some? && f.dispDefault.Some?);
    f.(customFmt := custom, someOmitted := omitted)
  }

  /**
   * The emitted `StructFieldFormatting { name: lit, ... }` literal: the fields
   * written, and `..Default::default()` when `base`.
   */
  datatype FmtLiteral = FmtLiteral(chip: Option<string>, prefix: Option<string>, newLine: Option<bool>,
                                   showDefault: Option<bool>, base: bool)

  /** `ToTokens for FieldFormatting`: nothing unless custom; the base call only when some field is omitted. */
  function EmitFmt(f: Formatting): (r: Option<FmtLiteral>)
    ensures r.Some? <==> f.customFmt
    ensures r.Some? ==> r.value.chip == f.chip && r.value.prefix == f.prefix
                        && r.value.newLine == f.newLine && r.value.showDefault == f.dispDefault
    ensures r.Some? ==> (r.value.base <==> f.someOmitted)
  {
    if !f.customFmt then None else Some(FmtLiteral(f.chip, f.prefix, f.newLine, f.dispDefault, f.someOmitted))
  }

  /**
   * What Rust makes of the emitted literal: each field as written, or from
   * `StructFieldFormatting::default()` under `..Default::default()`; a field
   * neither written nor defaulted does not compile.
   */
  function EvalFmt(lit: FmtLiteral): Option<Field.Format> {
    var d := Field.DefaultFormat();
    if lit.base then
      Some(Field.Format(lit.chip.UnwrapOr(d.chip), lit.prefix.UnwrapOr(d.prefix),
                        lit.newLine.UnwrapOr(d.newLine), lit.showDefault.UnwrapOr(d.showDefault)))
    else if lit.chip.Some? && lit.prefix.Some? && lit.newLine.Some? && lit.showDefault.Some? then
      Some(Field.Format(lit.chip.value, lit.prefix.value, lit.newLine.value, lit.showDefault.value))
    else None
  }

  /** The format a field ends up with: the parameters written, the library default for the rest. */
  function Merged(f: Formatting): Field.Format {
    var d := Field.DefaultFormat();
    Field.Format(f.chip.UnwrapOr(d.chip), f.prefix.UnwrapOr(d.prefix),
                 f.newLine.UnwrapOr(d.newLine), f.dispDefault.UnwrapOr(d.showDefault))
  }

  /**
   * With flags that agree, the literal is emitted exactly when a parameter is
   * written, and it always compiles to the written parameters over the
   * library default: `..Default::default()` is there exactly when needed.
   */
  lemma EmittedFmtComplete(f: Formatting)
    requires FlagsAgree(f)
    ensures EmitFmt(f).Some? <==> AnySet(f)
    ensures EmitFmt(f).Some? ==> EvalFmt(EmitFmt(f).value) == Some(Merged(f))
    ensures EmitFmt(f).Some? ==> (EmitFmt(f).value.base <==> !AllSet(f))
  {
  }

  /**
   * A partial literal with the base call and a full one without it both
   * compile; a partial one without the base call would not.
   */
  lemma FmtExamples()
    ensures EvalFmt(EmitFmt(WithFlags(Formatting(Some("> "), None, None, None, false, false))).value)
            == Some(Field.Format("> ", ": ", false, true))
    ensures EvalFmt(EmitFmt(WithFlags(Formatting(Some("> "), Some("? "), Some(true), Some(false), false, false))).value)
            == Some(Field.Format("> ", "? ", true, false))
    ensures !EmitFmt(WithFlags(Formatting(Some("> "), Some("? "), Some(true), Some(false), false, false))).value.base
    ensures EvalFmt(FmtLiteral(Some("> "), None, None, None, false)).None?
  {
  }

  // ---- DefaultValue --------------------------------------------------------------

  /** The source text of a literal, which is what `stringify!` produces. */
  function LitText(lit: Lit): string {
    match lit
    case LStr(s) => "\"" + s + "\""
    case LBool(b) => if b then "true" else "false"
    case LInt(digits) => digits
    case LOther(text) => text
  }

  /** The emitted `.default(...)` call: a string literal as is, any other literal through `stringify!`. */
  datatype DefaultCall = DefaultAsIs(s: string) | DefaultStringified(lit: Lit)

  function EmitDefault(lit: Lit): (r: DefaultCall)
    ensures r.DefaultAsIs? <==> lit.LStr?
  {
    if lit.LStr? then DefaultAsIs(lit.s) else DefaultStringified(lit)
  }

  /** The `&str` the generated `.default(...)` passes to the field. */
  function DefaultArgument(c: DefaultCall): string {
    match c
    case DefaultAsIs(s) => s
    case DefaultStringified(lit) => LitText(lit)
  }

  /**
   * The default text a field receives is the value the user would type:
   * a string without its quotes, a boolean its word, an integer its digits;
   * so a `bool` default reads back through `MenuBool` and an integer one
   * through `usize::from_str`.
   */
  lemma DefaultReadsBack(lit: Lit)
    ensures lit.LStr? ==> DefaultArgument(EmitDefault(lit)) == lit.s
    ensures lit.LBool? ==> Customs.ParseMenuBool(DefaultArgument(EmitDefault(lit))).Ok?
                           && Customs.ParseMenuBool(DefaultArgument(EmitDefault(lit))).value.value == lit.b
    ensures lit.LInt? && lit.digits != [] && AllDigits(lit.digits) && DigitsValue(lit.digits) <= USIZE_MAX ==>
              ParseUsize(DefaultArgument(EmitDefault(lit))) == Some(DigitsValue(lit.digits))
  {
    if lit.LBool? {
      var t := DefaultArgument(EmitDefault(lit));
      assert ToLower(t) == t;
    }
  }

  // ---- MetaFieldDesc ---------------------------------------------------------------

  /** `MetaFieldDesc`: what a field's `menu` attribute sets. */
  datatype FieldDesc = FieldDesc(msg: Option<string>, default: Option<Lit>, thenFn: Option<seq<string>>, fmt: Formatting)

  function DefaultDesc(): FieldDesc {
    FieldDesc(None, None, None, DefaultFormatting())
  }

  /** The argument names a field attribute knows. */
  const FieldArgs: set<string> := {"msg", "default", "then", "chip", "prefix", "new_line", "display_default"}

  /** `parse_arg_nested`: `arg(value)`; `default` takes any literal, `then` a path. */
  function ParseArgNested(d: FieldDesc, arg: string, nm: NestedMeta): (r: Result<FieldDesc, DeriveAbort>)
    ensures arg !in FieldArgs ==> r == Err(InvalidArgName(arg))
    ensures arg == "then" ==> (r.Ok? <==> nm.NMeta? && nm.meta.MPath?)
    ensures arg == "then" && r.Ok? ==> r.value == d.(thenFn := Some(nm.meta.path))
    ensures arg == "default" && r.Ok? ==> nm.NLit? && r.value == d.(default := Some(nm.lit))
    ensures r.Ok? ==> r.value.fmt.customFmt == d.fmt.customFmt && r.value.fmt.someOmitted == d.fmt.someOmitted
    ensures r.Err? ==> r.error == InvalidArgName(arg) || r.error == InvalidType(arg)
  {
    if arg == "msg" then
      var v := RunNestedStr(arg, nm); if v.Err? then Err(v.error) else Ok(d.(msg := Some(v.value)))
    else if arg == "default" then
      var v := RunNested(arg, nm); if v.Err? then Err(v.error) else Ok(d.(default := Some(v.value)))
    else if arg == "then" then
      var v := RunNestedPath(arg, nm); if v.Err? then Err(v.error) else Ok(d.(thenFn := Some(v.value)))
    else if arg == "chip" then
      var v := RunNestedStr(arg, nm); if v.Err? then Err(v.error) else Ok(d.(fmt := d.fmt.(chip := Some(v.value))))
    else if arg == "prefix" then
      var v := RunNestedStr(arg, nm); if v.Err? then Err(v.error) else Ok(d.(fmt := d.fmt.(prefix := Some(v.value))))
    else if arg == "new_line" then
      var v := RunNestedBool(arg, nm); if v.Err? then Err(v.error) else Ok(d.(fmt := d.fmt.(newLine := Some(v.value))))
    else if arg == "display_default" then
      var v := RunNestedBool(arg, nm);
      if v.Err? then Err(v.error) else Ok(d.(fmt := d.fmt.(dispDefault := Some(v.value))))
    else Err(InvalidArgName(arg))
  }

  /** `parse_arg_nv`: `arg = lit`; `default` takes any literal unchecked, and `then` is unknown here. */
  function ParseArgNv(d: FieldDesc, arg: string, lit: Lit): (r: Result<FieldDesc, DeriveAbort>)
    ensures arg !in FieldArgs || arg == "then" ==> r == Err(InvalidArgName(arg))
    ensures arg == "default" ==> r == Ok(d.(default := Some(lit)))
    ensures r.Ok? ==> r.value.thenFn == d.thenFn
    ensures r.Ok? ==> r.value.fmt.customFmt == d.fmt.customFmt && r.value.fmt.someOmitted == d.fmt.someOmitted
    ensures r.Err? ==> r.error == InvalidArgName(arg) || r.error == InvalidType(arg)
  {
    if arg == "msg" then
      var v := RunNvStr(arg, lit); if v.Err? then Err(v.error) else Ok(d.(msg := Some(v.value)))
    else if arg == "default" then Ok(d.(default := Some(lit)))
    else if arg == "chip" then
      var v := RunNvStr(arg, lit); if v.Err? then Err(v.error) else Ok(d.(fmt := d.fmt.(chip := Some(v.value))))
    else if arg == "prefix" then
      var v := RunNvStr(arg, lit); if v.Err? then Err(v.error) else Ok(d.(fmt := d.fmt.(prefix := Some(v.value))))
    else if arg == "new_line" then
      var v := RunNvBool(arg, lit); if v.Err? then Err(v.error) else Ok(d.(fmt := d.fmt.(newLine := Some(v.value))))
    else if arg == "display_default" then
      var v := RunNvBool(arg, lit);
      if v.Err? then Err(v.error) else Ok(d.(fmt := d.fmt.(dispDefault := Some(v.value))))
    else Err(InvalidArgName(arg))
  }

  /** `MetaFieldDesc::from`: the dispatcher over the attribute, then the format flags. */
  function FieldDescOf(meta: Meta): (r: Result<FieldDesc, DeriveAbort>)
    ensures r.Ok? ==> FlagsAgree(r.value.fmt)
    ensures !meta.MList? ==> r == Err(IncorrectDef)
  {
    var parsed := ParseSpec(DefaultDesc(), ParseArgNested, ParseArgNv, meta);
    if parsed.Err? then Err(parsed.error) else Ok(parsed.value.(fmt := WithFlags(parsed.value.fmt)))
  }

  /** `then` is taken only in list form: `then(f)` sets it, `then = "f"` aborts. */
  lemma ThenOnlyInListForm()
    ensures FieldDescOf(MList(["menu"], [NMeta(MList(["then"], [NMeta(MPath(["f"]))]))])).Ok?
    ensures FieldDescOf(MList(["menu"], [NMeta(MList(["then"], [NMeta(MPath(["f"]))]))])).value.thenFn == Some(["f"])
    ensures FieldDescOf(MList(["menu"], [NMeta(MNameValue(["then"], LStr("f")))])) == Err(InvalidArgName("then"))
  {
    var one := NMeta(MList(["then"], [NMeta(MPath(["f"]))]));
    assert [one][..0] == [];
    var two := NMeta(MNameValue(["then"], LStr("f")));
    assert [two][..0] == [];
  }

  /** Nothing rejects a repeated argument: the last one written wins. */
  lemma LastWriteWins()
    ensures FieldDescOf(MList(["menu"], [NMeta(MNameValue(["msg"], LStr("a"))), NMeta(MNameValue(["msg"], LStr("b")))])).Ok?
    ensures FieldDescOf(MList(["menu"], [NMeta(MNameValue(["msg"], LStr("a"))), NMeta(MNameValue(["msg"], LStr("b")))])).value.msg
            == Some("b")
  {
    var a := NMeta(MNameValue(["msg"], LStr("a")));
    var b := NMeta(MNameValue(["msg"], LStr("b")));
    assert [a, b][..1] == [a];
    assert [a][..0] == [];
  }

  // ---- FieldMenuInit ------------------------------------------------------------------

  /** `FieldMenuInitKind`: `ident: menu.next()?` or `ident: menu.next_map(func)?`. */
  datatype FieldInitKind = Simple(ident: string) | Mapped(ident: string, func: seq<string>)

  /** `FieldMenuInit`: the message, the default call, the format and the kind. */
  datatype FieldMenuInit = FieldMenuInit(msg: string, default: Option<DefaultCall>, fmt: Formatting, kind: FieldInitKind)

  /** The description a field's attributes give: its first `menu` attribute parsed, or the default. */
  function FieldDescFor(attrs: seq<SynAttr>): (r: Result<FieldDesc, DeriveAbort>)
    ensures r.Ok? ==> FlagsAgree(r.value.fmt)
  {
    var meta := GetMenuMeta(attrs);
    if meta.Err? then Err(meta.error)
    else if meta.value.None? then Ok(DefaultDesc())
    else FieldDescOf(meta.value.value)
  }

  /** `FieldMenuInit::from`: the message defaults to the identifier; `then` makes the field mapped. */
  function FieldMenuInitOf(ident: string, attrs: seq<SynAttr>): (r: Result<FieldMenuInit, DeriveAbort>)
    ensures r.Ok? <==> FieldDescFor(attrs).Ok?
    ensures r.Ok? ==> r.value.kind.ident == ident && FlagsAgree(r.value.fmt)
    ensures r.Ok? ==> (r.value.kind.Mapped? <==> FieldDescFor(attrs).value.thenFn.Some?)
    ensures r.Ok? && FieldDescFor(attrs).value.msg.None? ==> r.value.msg == ident
  {
    var desc := FieldDescFor(attrs);
    if desc.Err? then Err(desc.error)
    else
      var d := desc.value;
      var msg := d.msg.UnwrapOr(ident);
      var default := if d.default.Some? then Some(EmitDefault(d.default.value)) else None;
      var kind := if d.thenFn.Some? then Mapped(ident, d.thenFn.value) else Simple(ident);
      Ok(FieldMenuInit(msg, default, d.fmt, kind))
  }

  /** A field without a `menu` attribute asks with its own name, the default format, and no default. */
  lemma PlainField(ident: string, attrs: seq<SynAttr>)
    requires forall j :: 0 <= j < |attrs| ==> !IsIdentMenu(attrs[j].path)
    ensures FieldMenuInitOf(ident, attrs) == Ok(FieldMenuInit(ident, None, DefaultFormatting(), Simple(ident)))
  {
  }

  /** The library field the emitted `StructField::from(msg).default(..).fmt(..)` chain builds. */
  function FieldValue(init: FieldMenuInit): Option<Field.StructField> {
    var base := Field.FromMsg(init.msg);
    var withDefault := if init.default.Some? then Field.WithDefault(base, DefaultArgument(init.default.value)) else base;
    var lit := EmitFmt(init.fmt);
    if lit.None? then Some(withDefault)
    else
      var fmt := EvalFmt(lit.value);
      if fmt.None? then None else Some(Field.WithFmt(withDefault, fmt.value))
  }

  /**
   * Every field the derive accepts builds: its library field keeps the message,
   * gets the default text, is custom exactly when a format parameter was
   * written, and has the written parameters over the library default.
   */
  lemma FieldBuilds(ident: string, attrs: seq<SynAttr>)
    requires FieldMenuInitOf(ident, attrs).Ok?
    ensures var init := FieldMenuInitOf(ident, attrs).value;
            FieldValue(init).Some? && FieldValue(init).value.msg == init.msg
            && (FieldValue(init).value.customFmt <==> AnySet(init.fmt))
            && FieldValue(init).value.fmt == Merged(init.fmt)
            && FieldValue(init).value.default == (if init.default.Some? then Some(DefaultArgument(init.default.value)) else None)
  {
    var init := FieldMenuInitOf(ident, attrs).value;
    EmittedFmtComplete(init.fmt);
  }
}
