// ezmenu-derive/src/struct_impl.rs: the struct-level `#[menu(...)]` of
// `derive(Menu)` (a title and a format) and the builder chain the derive
// emits: `.title(..)`, `.fmt(..)`, then one `.with_field(..)` per field.
module DeriveImpl {
  import opened Wrappers
  import opened DeriveUtils
  import opened DeriveField

  /** `MetaMenuDesc`: what the struct's `menu` attribute sets. */
  datatype MenuDesc = MenuDesc(title: Option<string>, fmt: Formatting)

  function DefaultMenuDesc(): MenuDesc {
    MenuDesc(None, DefaultFormatting())
  }

  /** The argument names a struct attribute knows. */
  const MenuArgs: set<string> := {"title", "chip", "prefix", "new_line", "display_default"}

  /** `parse_arg_nested`: `arg("..")` or `arg(true)`. */
  function ParseArgNested(d: MenuDesc, arg: string, nm: NestedMeta): (r: Result<MenuDesc, DeriveAbort>)
    ensures arg !in MenuArgs ==> r == Err(InvalidArgName(arg))
    ensures arg == "title" ==> (r.Ok? <==> nm.NLit? && nm.lit.LStr?)
    ensures arg == "title" && r.Ok? ==> r.value == d.(title := Some(nm.lit.s))
    ensures r.Ok? ==> r.value.fmt.customFmt == d.fmt.customFmt && r.value.fmt.someOmitted == d.fmt.someOmitted
    ensures r.Err? ==> r.error == InvalidArgName(arg) || r.error == InvalidType(arg)
  {
    if arg == "title" then
      var v := RunNestedStr(arg, nm); if v.Err? then Err(v.error) else Ok(d.(title := Some(v.value)))
    else if arg == "chip" then
      var v := RunNestedStr(arg, nm); if v.Err? then Err(v.error) else Ok(d.(fmt := d.fmt.(chip := Some(v.value))))
    else if arg == "prefix" then
      var v := RunNestedStr(arg, nm); if v.Err? then Err(v.error) else Ok(d.(fmt := d.fmt.(prefix := Some(v.value))))
    else if arg == "new_line" then
      var v := RunNestedBool(arg, nm); if v.Err? then Err(v.error) else Ok(d.(fmt := d.fmt.(newLine := Some(v.value))))
    else if arg == "display_default" then
      var v := RunNestedBool(arg, nm);
      if v.Err? then Err(v.error) else Ok(d.(fmt := d.fmt.(dispDefault := Some(v.value))))
    else Err(InvalidArgName(arg))
  }

  /** `parse_arg_nv`: `arg = ".."` or `arg = true`. */
  function ParseArgNv(d: MenuDesc, arg: string, lit: Lit): (r: Result<MenuDesc, DeriveAbort>)
    ensures arg !in MenuArgs ==> r == Err(InvalidArgName(arg))
    ensures arg == "title" ==> (r.Ok? <==> lit.LStr?)
    ensures arg == "title" && r.Ok? ==> r.value == d.(title := Some(lit.s))
    ensures r.Ok? ==> r.value.fmt.customFmt == d.fmt.customFmt && r.value.fmt.someOmitted == d.fmt.someOmitted
    ensures r.Err? ==> r.error == InvalidArgName(arg) || r.error == InvalidType(arg)
  {
    if arg == "title" then
      var v := RunNvStr(arg, lit); if v.Err? then Err(v.error) else Ok(d.(title := Some(v.value)))
    else if arg == "chip" then
      var v := RunNvStr(arg, lit); if v.Err? then Err(v.error) else Ok(d.(fmt := d.fmt.(chip := Some(v.value))))
    else if arg == "prefix" then
      var v := RunNvStr(arg, lit); if v.Err? then Err(v.error) else Ok(d.(fmt := d.fmt.(prefix := Some(v.value))))
    else if arg == "new_line" then
      var v := RunNvBool(arg, lit); if v.Err? then Err(v.error) else Ok(d.(fmt := d.fmt.(newLine := Some(v.value))))
    else if arg == "display_default" then
      var v := RunNvBool(arg, lit);
      if v.Err? then Err(v.error) else Ok(d.(fmt := d.fmt.(dispDefault := Some(v.value))))
    else Err(InvalidArgName(arg))
  }

  /** In either form, a struct argument is read the same way. */
  lemma BothFormsAgree(d: MenuDesc, arg: string, lit: Lit)
    ensures ParseArgNested(d, arg, NLit(lit)) == ParseArgNv(d, arg, lit)
  {
    NestedBoolMatchesNv(arg, lit);
  }

  /** `MetaMenuDesc::from`: the dispatcher over the attribute, then the format flags. */
  function MenuDescOf(meta: Meta): (r: Result<MenuDesc, DeriveAbort>)
    ensures r.Ok? ==> FlagsAgree(r.value.fmt)
    ensures !meta.MList? ==> r == Err(IncorrectDef)
  {
    var parsed := ParseSpec(DefaultMenuDesc(), ParseArgNested, ParseArgNv, meta);
    if parsed.Err? then Err(parsed.error) else Ok(parsed.value.(fmt := WithFlags(parsed.value.fmt)))
  }

  /** `AllMenuInit`: the title and the format of a struct that has a `menu` attribute. */
  datatype AllMenuInit = AllMenuInit(title: Option<string>, fmt: Formatting)

  /** `MenuInit`: the struct-level part, if any, and the fields in declaration order. */
  datatype MenuInit = MenuInit(all: Option<AllMenuInit>, fields: seq<FieldMenuInit>)

  /** `MenuInit::new`: the struct attribute is parsed here, after the fields. */
  function MenuInitNew(structAttr: Option<Meta>, fields: seq<FieldMenuInit>): (r: Result<MenuInit, DeriveAbort>)
    ensures structAttr.None? ==> r == Ok(MenuInit(None, fields))
    ensures r.Ok? ==> r.value.fields == fields && (r.value.all.Some? <==> structAttr.Some?)
    ensures r.Ok? && r.value.all.Some? ==> FlagsAgree(r.value.all.value.fmt)
  {
    if structAttr.None? then Ok(MenuInit(None, fields))
    else
      var desc := MenuDescOf(structAttr.value);
      if desc.Err? then Err(desc.error) else Ok(MenuInit(Some(AllMenuInit(desc.value.title, desc.value.fmt)), fields))
  }

  /** One call of the emitted builder chain on `StructMenu::default()`. */
  datatype MenuCall = TitleCall(title: string) | FmtCall(lit: FmtLiteral) | WithField(field: FieldMenuInit)

  function WithFields(fields: seq<FieldMenuInit>): (r: seq<MenuCall>)
    ensures |r| == |fields|
    ensures forall k :: 0 <= k < |fields| ==> r[k] == WithField(fields[k])
  {
    if fields == [] then [] else [WithField(fields[0])] + WithFields(fields[1..])
  }

  /** The calls before the fields: `.title(..)` and `.fmt(..)`, each when present. */
  function ChainHead(m: MenuInit): (r: seq<MenuCall>)
    ensures |r| <= 2
  {
    var title := if m.all.Some? && m.all.value.title.Some? then [TitleCall(m.all.value.title.value)] else [];
    var fmt := if m.all.Some? then (var lit := EmitFmt(m.all.value.fmt); if lit.Some? then [FmtCall(lit.value)] else [])
               else [];
    title + fmt
  }

  /** `ToTokens for MenuInit`: `.title(..)`, `.fmt(..)` (each when present), then the fields. */
  function MenuChain(m: MenuInit): seq<MenuCall> {
    ChainHead(m) + WithFields(m.fields)
  }

  /** Helper for `ChainShape`: the number of `.title(..)` calls in a chain. */
  function CountTitles(calls: seq<MenuCall>): nat {
    if calls == [] then 0 else (if calls[0].TitleCall? then 1 else 0) + CountTitles(calls[1..])
  }

  /** Helper for `ChainShape`: titles count additively over concatenation. */
  lemma {:induction false} CountTitlesConcat(a: seq<MenuCall>, b: seq<MenuCall>)
    ensures CountTitles(a + b) == CountTitles(a) + CountTitles(b)
  {
    if a != [] {
      assert (a + b)[1..] == a[1..] + b;
      CountTitlesConcat(a[1..], b);
    } else {
      assert a + b == b;
    }
  }

  /** Helper for `ChainShape`: the field calls hold no title. */
  lemma {:induction false} NoTitleAmongFields(fields: seq<FieldMenuInit>)
    ensures CountTitles(WithFields(fields)) == 0
  {
    if fields != [] {
      NoTitleAmongFields(fields[1..]);
    }
  }

  /** Helper for `ChainShape`: the head holds a title exactly when one was given, first, and a format exactly when one was written. */
  lemma {:induction false} HeadShape(m: MenuInit)
    requires m.all.Some? ==> FlagsAgree(m.all.value.fmt)
    ensures var h := ChainHead(m);
            var titled := m.all.Some? && m.all.value.title.Some?;
            (CountTitles(h) == 1 <==> titled)
            && (CountTitles(h) == 0 <==> !titled)
            && (titled ==> h[0] == TitleCall(m.all.value.title.value))
            && ((exists k :: 0 <= k < |h| && h[k].FmtCall?) <==> m.all.Some? && AnySet(m.all.value.fmt))
  {
    var title := if m.all.Some? && m.all.value.title.Some? then [TitleCall(m.all.value.title.value)] else [];
    var fmt := if m.all.Some? then (var lit := EmitFmt(m.all.value.fmt); if lit.Some? then [FmtCall(lit.value)] else [])
               else [];
    var h := ChainHead(m);
    assert h == title + fmt;
    CountTitlesConcat(title, fmt);
    assert CountTitles(fmt) == 0;
    if m.all.Some? {
      EmittedFmtComplete(m.all.value.fmt);
    }
    if fmt != [] {
      assert h[|title|].FmtCall?;
    } else {
      assert forall k :: 0 <= k < |h| ==> h[k] == title[k];
    }
  }

  /** Helper for `ChainShape`: the chain holds a title exactly when one was given, and then first. */
  lemma {:induction false} ChainTitles(m: MenuInit)
    requires m.all.Some? ==> FlagsAgree(m.all.value.fmt)
    ensures var c := MenuChain(m);
            (CountTitles(c) == 1 <==> m.all.Some? && m.all.value.title.Some?)
            && (CountTitles(c) == 0 <==> !(m.all.Some? && m.all.value.title.Some?))
            && (m.all.Some? && m.all.value.title.Some? ==> c[0] == TitleCall(m.all.value.title.value))
  {
    var h := ChainHead(m);
    HeadShape(m);
    ChainAt(h, m.fields);
    CountTitlesConcat(h, WithFields(m.fields));
    NoTitleAmongFields(m.fields);
  }

  /** Helper for `ChainShape`: before the fields come at most two calls, and a format among them exactly when one was written. */
  lemma {:induction false} ChainFormat(m: MenuInit)
    requires m.all.Some? ==> FlagsAgree(m.all.value.fmt)
    ensures var c := MenuChain(m);
            var head := |c| - |m.fields|;
            0 <= head <= 2
            && ((exists k :: 0 <= k < head && c[k].FmtCall?) <==> m.all.Some? && AnySet(m.all.value.fmt))
  {
    var h := ChainHead(m);
    HeadShape(m);
    ChainAt(h, m.fields);
  }

  /** The chain ends with one `.with_field(..)` per field, in order. */
  lemma {:induction false} ChainFields(m: MenuInit)
    ensures var c := MenuChain(m);
            |m.fields| <= |c| && c[|c| - |m.fields|..] == WithFields(m.fields)
  {
    var h := ChainHead(m);
    var w := WithFields(m.fields);
    assert MenuChain(m) == h + w;
    assert (h + w)[|h|..] == w;
  }

  /**
   * The chain holds one `.title(..)` exactly when a title was given, first;
   * a `.fmt(..)` exactly when the struct attribute wrote a format parameter;
   * and it ends with one `.with_field(..)` per field, in order (`WithFields`).
   */
  lemma {:induction false} ChainShape(m: MenuInit)
    requires m.all.Some? ==> FlagsAgree(m.all.value.fmt)
    ensures var c := MenuChain(m);
            var head := |c| - |m.fields|;
            0 <= head <= 2
            && (CountTitles(c) == 1 <==> m.all.Some? && m.all.value.title.Some?)
            && (CountTitles(c) == 0 <==> !(m.all.Some? && m.all.value.title.Some?))
            && (m.all.Some? && m.all.value.title.Some? ==> c[0] == TitleCall(m.all.value.title.value))
            && ((exists k :: 0 <= k < head && c[k].FmtCall?) <==> m.all.Some? && AnySet(m.all.value.fmt))
            && c[head..] == WithFields(m.fields)
  {
    ChainTitles(m);
    ChainFormat(m);
    ChainFields(m);
  }

  /** Indexing the chain: the head comes first, then one call per field. */
  lemma ChainAt(h: seq<MenuCall>, fields: seq<FieldMenuInit>)
    ensures forall k :: 0 <= k < |h| ==> (h + WithFields(fields))[k] == h[k]
    ensures forall k :: 0 <= k < |fields| ==> (h + WithFields(fields))[|h| + k] == WithField(fields[k])
  {
  }

  /** Without a struct attribute the chain is the fields alone. */
  lemma NoAttrJustFields(fields: seq<FieldMenuInit>)
    ensures MenuChain(MenuInit(None, fields)) == WithFields(fields)
  {
  }
}
