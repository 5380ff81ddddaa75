// ezmenu-macros/src/menu.rs: `derive(Menu)` on an enum. Each unit variant
// becomes an entry of the menu: either the fields of another menu spliced in
// (`flatten`), or a message with the kind of the entry (a callback, a child
// menu, going back some levels, or quitting). The enum's attribute gives the
// title (or the `tui` block), the format, the case of the entries and the
// `once` flag.
module MenuMacro {
  import opened Wrappers
  import opened MacroUtils
  import opened Kw
  import opened FormatMacro
  import opened PromptedSelect

  // ---- the attributes --------------------------------------------------------------

  /** The kind parameters of an entry, in declaration order; each excludes all the others. */
  const KindNames: seq<string> := ["flatten", "mapped_with", "mapped", "map_with", "map", "parent", "back", "quit"]

  /** `RawEntryAttr`, the attribute of a variant. */
  const RawEntrySchema: seq<Decl> := [
    Decl("msg", []), Decl("case", []), Decl("raw", ["msg"]), Decl("nodoc", ["msg"]),
    Decl("path", ["mapped_with", "mapped", "map_with", "map", "back", "quit"]),
    Decl("flatten", ["mapped_with", "mapped", "map_with", "map", "parent", "back", "quit"]),
    Decl("mapped_with", ["mapped", "map_with", "map", "parent", "back", "quit", "flatten"]),
    Decl("mapped", ["mapped_with", "map_with", "map", "parent", "back", "quit", "flatten"]),
    Decl("map_with", ["mapped_with", "mapped", "map", "parent", "back", "quit", "flatten"]),
    Decl("map", ["mapped_with", "mapped", "map_with", "parent", "back", "quit", "flatten"]),
    Decl("parent", ["mapped_with", "mapped", "map_with", "map", "back", "quit", "flatten"]),
    Decl("back", ["mapped_with", "mapped", "map_with", "map", "parent", "quit", "flatten"]),
    Decl("quit", ["mapped_with", "mapped", "map_with", "map", "parent", "back", "flatten"])
  ]

  /** `RootAttr`, the attribute of the enum. */
  const RootMenuSchema: seq<Decl> := [
    Decl("block", ["title"]), Decl("title", ["block"]), Decl("raw", []), Decl("no_title", ["title", "raw"]),
    Decl("nodoc", ["title"]), Decl("fmt", []), Decl("case", []), Decl("once", []), Decl("tui", ["once"])
  ]

  /** A `mapped`, `mapped_with` or `map_with` parameter: the function and its arguments. */
  function CallParam(m: map<string, Value>, name: string): Option<(Operand, seq<Operand>)> {
    if name in m && m[name].Call? then Some((m[name].func, m[name].args)) else None
  }

  /** The `back` parameter: the number of levels. */
  function BackParam(m: map<string, Value>): Option<nat> {
    if "back" in m && m["back"].Index? then Some(m["back"].n) else None
  }

  /** The `block` parameter: the parameters of the block. */
  function BlockParam(m: map<string, Value>): Option<map<string, Value>> {
    if "block" in m && m["block"].Fields? then Some(m["block"].m) else None
  }

  // ---- the kind of an entry ----------------------------------------------------------------

  /** `EntryKindType`: what selecting the entry does. */
  datatype EntryKind =
    | MappedWith(func: Operand, args: seq<Operand>)  // calls a function with a mutable static and arguments
    | Mapped(func: Operand, args: seq<Operand>)      // calls a function with arguments
    | MapWith(func: Operand, args: seq<Operand>)     // calls a function with a mutable static
    | Map(func: Operand)                             // calls a function
    | Parent(path: Operand)                          // opens the menu of the type at `path`
    | Back(levels: nat)                              // goes back `levels` menus
    | Quit                                           // leaves the menu

  /**
   * The kind of a regular entry (`EntryField::new`): `mapped`, else `map`,
   * else `back`, else `map_with`, else `mapped_with`, else `parent` (whose
   * path defaults to the variant), else `Quit`.
   */
  function EntryKindOf(m: map<string, Value>, ident: string): EntryKind {
    if CallParam(m, "mapped").Some? then Mapped(CallParam(m, "mapped").value.0, CallParam(m, "mapped").value.1)
    else if SyntaxParam(m, "map").Some? then Map(SyntaxParam(m, "map").value)
    else if BackParam(m).Some? then Back(BackParam(m).value)
    else if CallParam(m, "map_with").Some? then MapWith(CallParam(m, "map_with").value.0, CallParam(m, "map_with").value.1)
    else if CallParam(m, "mapped_with").Some? then
      MappedWith(CallParam(m, "mapped_with").value.0, CallParam(m, "mapped_with").value.1)
    else if "parent" in m then Parent(SyntaxParam(m, "path").UnwrapOr(OIdent(ident)))
    else Quit
  }

  /** At most one of `names` is set in `m`. */
  predicate AtMostOne(m: map<string, Value>, names: seq<string>) {
    forall a, b :: a in names && b in names && a != b && a in m ==> b !in m
  }

  /** The kind parameters hold values of the kinds their keywords read. */
  predicate KindValuesFit(m: map<string, Value>) {
    ("mapped" in m ==> m["mapped"].Call?) && ("map" in m ==> m["map"].Syntax?) &&
    ("back" in m ==> m["back"].Index?) && ("map_with" in m ==> m["map_with"].Call?) &&
    ("mapped_with" in m ==> m["mapped_with"].Call?)
  }

  /** The entry is of the kind written, with the value written; `Quit` when no kind is written. */
  predicate KindIsWritten(m: map<string, Value>, ident: string, k: EntryKind)
    requires KindValuesFit(m)
  {
    ("mapped" in m ==> k == Mapped(m["mapped"].func, m["mapped"].args)) &&
    ("map" in m ==> k == Map(m["map"].o)) &&
    ("back" in m ==> k == Back(m["back"].n)) &&
    ("map_with" in m ==> k == MapWith(m["map_with"].func, m["map_with"].args)) &&
    ("mapped_with" in m ==> k == MappedWith(m["mapped_with"].func, m["mapped_with"].args)) &&
    ("parent" in m ==> k == Parent(SyntaxParam(m, "path").UnwrapOr(OIdent(ident)))) &&
    (("mapped" !in m && "map" !in m && "back" !in m && "map_with" !in m && "mapped_with" !in m &&
      "parent" !in m) ==> k == Quit)
  }

  /**
   * On an attribute that sets at most one kind parameter, the priority order
   * never matters: the kind is the one of the parameter given, with the value
   * given, and `Quit` when none is.
   */
  lemma EntryKindSpec(m: map<string, Value>, ident: string)
    requires KindValuesFit(m) && AtMostOne(m, KindNames)
    ensures KindIsWritten(m, ident, EntryKindOf(m, ident))
  {
    assert "mapped" in KindNames && "map" in KindNames && "back" in KindNames && "map_with" in KindNames;
    assert "mapped_with" in KindNames && "parent" in KindNames;
  }

  /** The values the parser gives the kind parameters fit. */
  lemma KindValuesFitParsed(m: map<string, Value>)
    requires WellTyped(m)
    ensures KindValuesFit(m)
  {
    KindKeywords();
  }

  lemma KindKeywords()
    ensures Keywords["mapped"] == MappedKw && Keywords["map"] == ParFunc && Keywords["back"] == BackKw
    ensures Keywords["map_with"] == ParMapWith && Keywords["mapped_with"] == ParMapWith
  {
  }

  // ---- the message of an entry ----------------------------------------------------------------

  /** A unit variant of the enum: its name, whether it has fields, its attributes. */
  datatype MenuVariant = MenuVariant(ident: string, unit: bool, attrs: seq<Attribute>)

  /**
   * The message of a regular entry: `msg`, else the first doc line unless
   * `nodoc`, else the variant's name (verbatim with `raw`, split otherwise),
   * mapped by the entry's case, else the enum's.
   */
  function EntryMessage(v: MenuVariant, m: map<string, Value>, globalCase: Option<Case>): (r: string)
    ensures var c := if CaseParam(m).Some? then CaseParam(m) else globalCase;
            (StrParam(m, "msg").Some? ==> r == MapCase(c, StrParam(m, "msg").value)) &&
            (StrParam(m, "msg").None? && "nodoc" !in m && GetFirstDoc(v.attrs).Some? ==>
               r == MapCase(c, GetFirstDoc(v.attrs).value)) &&
            (MessageOf(StrParam(m, "msg"), "nodoc" in m, v.attrs).None? ==> r == MapCase(c, Label("raw" in m, v.ident)))
  {
    var c := if CaseParam(m).Some? then CaseParam(m) else globalCase;
    MapCase(c, MessageOf(StrParam(m, "msg"), "nodoc" in m, v.attrs).UnwrapOr(Label("raw" in m, v.ident)))
  }

  /** The entry's case makes the enum's irrelevant; with neither, the message is left as it is. */
  lemma EntryCaseWins(v: MenuVariant, m: map<string, Value>, c1: Option<Case>, c2: Option<Case>)
    ensures CaseParam(m).Some? ==> EntryMessage(v, m, c1) == EntryMessage(v, m, c2)
    ensures CaseParam(m).None? && c1.None? ==>
              EntryMessage(v, m, c1) == MessageOf(StrParam(m, "msg"), "nodoc" in m, v.attrs).UnwrapOr(Label("raw" in m, v.ident))
  {
  }

  // ---- the entries --------------------------------------------------------------------------

  /** `EntryField`: the fields of another menu spliced in, or one entry. */
  datatype EntryField = Flattened(name: string) | Regular(msg: string, kind: EntryKind)

  const OnlyUnitEnums := "derive(Menu) supports only unit enums"

  /** `EntryField::new`. */
  function EntryFieldOf(v: MenuVariant, globalCase: Option<Case>, tui: bool): (r: Result<EntryField, Failure>)
    ensures !v.unit ==> r == Err(Aborted(NotSupported(OnlyUnitEnums)))
    ensures r.Ok? <==> v.unit && AttrArgs(v.attrs, "menu", RawEntrySchema, tui).Ok?
    ensures AttrArgs(v.attrs, "menu", RawEntrySchema, tui).Ok? && r.Ok? ==>
                      var m := ArgsOrDefault(AttrArgs(v.attrs, "menu", RawEntrySchema, tui).value);
                      (r.value.Flattened? <==> "flatten" in m) &&
                      (r.value.Flattened? ==> r.value.name == v.ident) &&
                      (r.value.Regular? ==> r.value.msg == EntryMessage(v, m, globalCase) &&
                                            r.value.kind == EntryKindOf(m, v.ident))
  {
    if !v.unit then Err(Aborted(NotSupported(OnlyUnitEnums)))
    else
      match AttrArgs(v.attrs, "menu", RawEntrySchema, tui)
      case Err(e) => Err(e)
      case Ok(args) =>
        var m := ArgsOrDefault(args);
        if "flatten" in m then Ok(Flattened(v.ident))
        else Ok(Regular(EntryMessage(v, m, globalCase), EntryKindOf(m, v.ident)))
  }

  /** The entries of the variants, in order; the first refused variant stops the expansion. */
  function EntryFieldsOf(variants: seq<MenuVariant>, globalCase: Option<Case>, tui: bool)
    : (r: Result<seq<EntryField>, Failure>)
    ensures r.Ok? ==> |r.value| == |variants|
    decreases |variants|
  {
    if variants == [] then Ok([])
    else
      match EntryFieldsOf(variants[..|variants| - 1], globalCase, tui)
      case Err(e) => Err(e)
      case Ok(fs) =>
        match EntryFieldOf(variants[|variants| - 1], globalCase, tui)
        case Err(e) => Err(e)
        case Ok(f) => Ok(fs + [f])
  }

  lemma EntryFieldsSnoc(variants: seq<MenuVariant>, globalCase: Option<Case>, tui: bool)
    requires variants != [] && EntryFieldsOf(variants, globalCase, tui).Ok?
    ensures var prefix := variants[..|variants| - 1];
            EntryFieldsOf(prefix, globalCase, tui).Ok? &&
            EntryFieldOf(variants[|variants| - 1], globalCase, tui).Ok? &&
            EntryFieldsOf(variants, globalCase, tui).value ==
              EntryFieldsOf(prefix, globalCase, tui).value + [EntryFieldOf(variants[|variants| - 1], globalCase, tui).value]
  {
  }

  /** The `k`th field chained is the entry of the `k`th variant. */
  lemma {:induction false} EntryFieldAt(variants: seq<MenuVariant>, k: nat, globalCase: Option<Case>, tui: bool)
    requires EntryFieldsOf(variants, globalCase, tui).Ok? && k < |variants|
    ensures EntryFieldOf(variants[k], globalCase, tui).Ok?
    ensures EntryFieldsOf(variants, globalCase, tui).value[k] == EntryFieldOf(variants[k], globalCase, tui).value
    decreases |variants|
  {
    EntryFieldsSnoc(variants, globalCase, tui);
    var prefix := variants[..|variants| - 1];
    if k < |variants| - 1 {
      EntryFieldAt(prefix, k, globalCase, tui);
      assert prefix[k] == variants[k];
    }
  }

  /** A variant with fields makes the whole expansion fail. */
  lemma {:induction false} EntryFieldsNeedUnits(variants: seq<MenuVariant>, k: nat, globalCase: Option<Case>, tui: bool)
    requires k < |variants| && !variants[k].unit
    ensures EntryFieldsOf(variants, globalCase, tui).Err?
  {
    if EntryFieldsOf(variants, globalCase, tui).Ok? {
      EntryFieldAt(variants, k, globalCase, tui);
    }
  }

  /** The expansion of the variants succeeds exactly when every variant's entry does. */
  lemma {:induction false} EntryFieldsAccepts(variants: seq<MenuVariant>, globalCase: Option<Case>, tui: bool)
    ensures EntryFieldsOf(variants, globalCase, tui).Ok? <==>
              forall k :: 0 <= k < |variants| ==> EntryFieldOf(variants[k], globalCase, tui).Ok?
    decreases |variants|
  {
    if variants != [] {
      var prefix := variants[..|variants| - 1];
      EntryFieldsAccepts(prefix, globalCase, tui);
      assert forall k :: 0 <= k < |prefix| ==> prefix[k] == variants[k];
      if EntryFieldsOf(variants, globalCase, tui).Ok? {
        forall k | 0 <= k < |variants|
          ensures EntryFieldOf(variants[k], globalCase, tui).Ok?
        {
          EntryFieldAt(variants, k, globalCase, tui);
        }
      }
    }
  }

  // ---- the title --------------------------------------------------------------------------

  /**
   * `get_title`: nothing with `no_title`; otherwise the given title, else the
   * first doc line unless `nodoc`, else the name (verbatim with `raw`, split
   * otherwise).
   */
  function GetTitle(title: Option<string>, noTitle: bool, nodoc: bool, attrs: seq<Attribute>, raw: bool, name: string)
    : (r: Option<string>)
    ensures r.None? <==> noTitle
    ensures r.Some? && title.Some? ==> r.value == title.value
    ensures r.Some? && title.None? && !nodoc && GetFirstDoc(attrs).Some? ==> r.value == GetFirstDoc(attrs).value
    ensures r.Some? && MessageOf(title, nodoc, attrs).None? ==> r.value == Label(raw, name)
  {
    if noTitle then None else Some(MessageOf(title, nodoc, attrs).UnwrapOr(Label(raw, name)))
  }

  /** `MenuTitle`: the title of a menu, or the block of a `tui` menu. */
  datatype MenuTitle = RegularTitle(text: string) | TuiBlock(block: map<string, Value>) | TuiTitle(text: string)

  /** `RootData`: the title, the case of the entries, the format, `once`, and whether the menu is a `tui` one. */
  datatype MenuRoot = MenuRoot(title: Option<MenuTitle>, case_: Option<Case>, fmt: Option<Format>, once: bool, tui: bool)

  const BlockWithoutTui := "cannot provide the `block` parameter without the `tui` parameter"

  /** `RootData::new`; `tuiFeature` tells whether the `tui` feature is enabled. */
  function MenuRootOf(name: string, attrs: seq<Attribute>, tuiFeature: bool): (r: Result<MenuRoot, Failure>)
    ensures AttrArgs(attrs, "menu", RootMenuSchema, tuiFeature).Err? ==> r.Err?
    ensures AttrArgs(attrs, "menu", RootMenuSchema, tuiFeature).Ok? && r.Ok? ==>
                      var m := ArgsOrDefault(AttrArgs(attrs, "menu", RootMenuSchema, tuiFeature).value);
                      var t := GetTitle(StrParam(m, "title"), "no_title" in m, "nodoc" in m, attrs, "raw" in m, name);
                      r.value.tui == ("tui" in m) && r.value.once == ("once" in m) &&
                      r.value.case_ == CaseParam(m) && r.value.fmt == FormatParam(m) &&
                      (!r.value.tui ==> "block" !in m && r.value.title == (if t.Some? then Some(RegularTitle(t.value)) else None)) &&
                      (r.value.tui && BlockParam(m).Some? ==> r.value.title == Some(TuiBlock(BlockParam(m).value))) &&
                      (r.value.tui && BlockParam(m).None? ==> r.value.title == (if t.Some? then Some(TuiTitle(t.value)) else None))
    ensures AttrArgs(attrs, "menu", RootMenuSchema, tuiFeature).Ok? ==>
              var m := ArgsOrDefault(AttrArgs(attrs, "menu", RootMenuSchema, tuiFeature).value);
              (r.Err? <==> "block" in m && "tui" !in m) &&
              (r.Err? ==> r.error == Aborted(Rejected(BlockWithoutTui)))
  {
    match AttrArgs(attrs, "menu", RootMenuSchema, tuiFeature)
    case Err(e) => Err(e)
    case Ok(args) =>
      var m := ArgsOrDefault(args);
      var t := GetTitle(StrParam(m, "title"), "no_title" in m, "nodoc" in m, attrs, "raw" in m, name);
      if "tui" in m then
        var title := if BlockParam(m).Some? then Some(TuiBlock(BlockParam(m).value))
                     else if t.Some? then Some(TuiTitle(t.value)) else None;
        Ok(MenuRoot(title, CaseParam(m), FormatParam(m), "once" in m, true))
      else if "block" in m then Err(Aborted(Rejected(BlockWithoutTui)))
      else Ok(MenuRoot(if t.Some? then Some(RegularTitle(t.value)) else None, CaseParam(m), FormatParam(m), "once" in m, false))
  }

  // ---- the menu expression -----------------------------------------------------------------

  /** A builder call on the menu: `.format(..)`, `.title(..)` or `.block(..)`, `.once()`. */
  datatype MenuCall = FormatCall(fmt: Format) | TitleCall(title: MenuTitle) | OnceCall

  /**
   * The menu expression (`get_reg_menu_ts`, or `TuiMenu::new` for a `tui`
   * menu): the builder calls after the constructor, in order.
   */
  function MenuCallsOf(root: MenuRoot): (r: seq<MenuCall>)
    ensures OnceCall in r <==> root.once && !root.tui
    ensures root.title.Some? ==> TitleCall(root.title.value) in r
    ensures root.fmt.Some? ==> FormatCall(root.fmt.value) in r
    ensures forall c :: c in r && c.TitleCall? ==> root.title == Some(c.title)
    ensures forall c :: c in r && c.FormatCall? ==> root.fmt == Some(c.fmt)
    ensures forall i, j :: 0 <= i < j < |r| ==> r[i].FormatCall? || (r[i].TitleCall? && r[j].OnceCall?)
  {
    var fmt := if root.fmt.Some? then [FormatCall(root.fmt.value)] else [];
    var title := if root.title.Some? then [TitleCall(root.title.value)] else [];
    var once := if root.once && !root.tui then [OnceCall] else [];
    var r := fmt + title + once;
    assert forall k :: 0 <= k < |r| ==> (r[k].FormatCall? <==> k < |fmt|) && (r[k].OnceCall? <==> |fmt| + |title| <= k);
    assert root.title.Some? ==> r[|fmt|] == TitleCall(root.title.value);
    assert root.fmt.Some? ==> r[0] == FormatCall(root.fmt.value);
    assert root.once && !root.tui ==> r[|r| - 1] == OnceCall;
    r
  }

  // ---- the expansion ---------------------------------------------------------------------------

  /** The `Menu` implementation: `tui` or not, the entries chained in `fields`, and the menu's builder calls. */
  datatype MenuImpl = MenuImpl(tui: bool, fields: seq<EntryField>, calls: seq<MenuCall>)

  /** `build_menu`; `variants` is `None` when the input is not an enum. */
  function BuildMenuOf(name: string, attrs: seq<Attribute>, variants: Option<seq<MenuVariant>>, tuiFeature: bool)
    : Result<MenuImpl, Failure>
  {
    match MenuRootOf(name, attrs, tuiFeature)
    case Err(e) => Err(e)
    case Ok(root) =>
      match variants
      case None => Err(Aborted(NotSupported(OnlyUnitEnums)))
      case Some(vs) =>
        match EntryFieldsOf(vs, root.case_, tuiFeature)
        case Err(e) => Err(e)
        case Ok(fields) => Ok(MenuImpl(root.tui, fields, MenuCallsOf(root)))
  }

  /** The enum's attribute is read first; then anything but an enum aborts. */
  lemma BuildMenuNotEnum(name: string, attrs: seq<Attribute>, tuiFeature: bool)
    ensures MenuRootOf(name, attrs, tuiFeature).Err? ==>
              BuildMenuOf(name, attrs, None, tuiFeature) == Err(MenuRootOf(name, attrs, tuiFeature).error)
    ensures MenuRootOf(name, attrs, tuiFeature).Ok? ==>
              BuildMenuOf(name, attrs, None, tuiFeature) == Err(Aborted(NotSupported(OnlyUnitEnums)))
  {
  }

  /**
   * The derive expands exactly when the enum's attribute reads and every
   * variant is a unit variant whose own attribute reads.
   */
  lemma BuildMenuAccepts(name: string, attrs: seq<Attribute>, variants: seq<MenuVariant>, tuiFeature: bool)
    ensures BuildMenuOf(name, attrs, Some(variants), tuiFeature).Ok? <==>
              MenuRootOf(name, attrs, tuiFeature).Ok? &&
              forall k :: 0 <= k < |variants| ==>
                variants[k].unit && AttrArgs(variants[k].attrs, "menu", RawEntrySchema, tuiFeature).Ok?
  {
    if MenuRootOf(name, attrs, tuiFeature).Ok? {
      EntryFieldsAccepts(variants, MenuRootOf(name, attrs, tuiFeature).value.case_, tuiFeature);
    }
  }

  /**
   * Every variant gives the entry at its own position, messages mapped by the
   * enum's case unless the entry has its own; one variant with fields makes
   * the derive abort; the menu's builder calls follow the enum's attribute.
   */
  lemma BuildMenuSpec(name: string, attrs: seq<Attribute>, root: MenuRoot, variants: seq<MenuVariant>, tuiFeature: bool, k: nat)
    requires MenuRootOf(name, attrs, tuiFeature) == Ok(root) && k < |variants|
    ensures !variants[k].unit ==> BuildMenuOf(name, attrs, Some(variants), tuiFeature).Err?
    ensures var r := BuildMenuOf(name, attrs, Some(variants), tuiFeature);
            r.Ok? ==> r.value.tui == root.tui && r.value.calls == MenuCallsOf(root) &&
                      |r.value.fields| == |variants| && EntryFieldOf(variants[k], root.case_, tuiFeature).Ok? &&
                      r.value.fields[k] == EntryFieldOf(variants[k], root.case_, tuiFeature).value
    ensures (forall j :: 0 <= j < |variants| ==>
               variants[j].unit && AttrArgs(variants[j].attrs, "menu", RawEntrySchema, tuiFeature).Ok?) ==>
              BuildMenuOf(name, attrs, Some(variants), tuiFeature).Ok?
  {
    BuildMenuAccepts(name, attrs, variants, tuiFeature);
    if !variants[k].unit {
      EntryFieldsNeedUnits(variants, k, root.case_, tuiFeature);
    }
    if EntryFieldsOf(variants, root.case_, tuiFeature).Ok? {
      EntryFieldAt(variants, k, root.case_, tuiFeature);
    }
  }

  // ---- the kind parameters exclude each other ----------------------------------------------------

  /** The names the entry schema declares, in order. */
  const EntryParamNames: seq<string> :=
    ["msg", "case", "raw", "nodoc", "path", "flatten", "mapped_with", "mapped", "map_with", "map", "parent", "back", "quit"]

  lemma EntryParamNamesKeywords()
    ensures AllKeywords(EntryParamNames)
  {
    var names := EntryParamNames;
    CaseKeyword();
    MsgKeyword();
    assert AllKeywords(names[..4]);
    assert AllKeywords(names[4..8]);
    assert AllKeywords(names[8..]);
    assert names[4..][..4] == names[4..8];
    assert names[4..][4..] == names[8..];
    AllKeywordsSplit(names[4..], 4);
    AllKeywordsSplit(names, 4);
  }

  lemma CaseKeyword()
    ensures "case" in Keywords
  {
  }

  lemma MsgKeyword()
    ensures "msg" in Keywords
  {
  }

  /** The entry schema lists keywords only. */
  lemma EntrySchemaOk()
    ensures SchemaOk(RawEntrySchema)
  {
    EntryParamNamesKeywords();
    assert forall k :: 0 <= k < |RawEntrySchema| ==> RawEntrySchema[k].name == EntryParamNames[k];
  }

  /** Every name of `names` is declared and excludes every other one. */
  predicate PairwiseExclusive(schema: seq<Decl>, names: seq<string>) {
    forall a, b :: a in names && b in names && a != b ==>
      Declared(schema, a).Some? && b in Declared(schema, a).value.without
  }

  // Each kind parameter is declared once, at its own position.
  lemma FlattenDeclared()
    ensures Declared(RawEntrySchema, KindNames[0]) == Some(RawEntrySchema[5])
  {
    DeclaredAt(RawEntrySchema, KindNames[0], 5);
  }

  lemma MappedWithDeclared()
    ensures Declared(RawEntrySchema, KindNames[1]) == Some(RawEntrySchema[6])
  {
    DeclaredAt(RawEntrySchema, KindNames[1], 6);
  }

  lemma MappedDeclared()
    ensures Declared(RawEntrySchema, KindNames[2]) == Some(RawEntrySchema[7])
  {
    DeclaredAt(RawEntrySchema, KindNames[2], 7);
  }

  lemma MapWithDeclared()
    ensures Declared(RawEntrySchema, KindNames[3]) == Some(RawEntrySchema[8])
  {
    DeclaredAt(RawEntrySchema, KindNames[3], 8);
  }

  lemma MapDeclared()
    ensures Declared(RawEntrySchema, KindNames[4]) == Some(RawEntrySchema[9])
  {
    DeclaredAt(RawEntrySchema, KindNames[4], 9);
  }

  lemma ParentDeclared()
    ensures Declared(RawEntrySchema, KindNames[5]) == Some(RawEntrySchema[10])
  {
    DeclaredAt(RawEntrySchema, KindNames[5], 10);
  }

  lemma BackDeclared()
    ensures Declared(RawEntrySchema, KindNames[6]) == Some(RawEntrySchema[11])
  {
    DeclaredAt(RawEntrySchema, KindNames[6], 11);
  }

  lemma QuitDeclared()
    ensures Declared(RawEntrySchema, KindNames[7]) == Some(RawEntrySchema[12])
  {
    DeclaredAt(RawEntrySchema, KindNames[7], 12);
  }

  /** The declaration of the kind parameter `i` excludes the seven others. */
  lemma KindWithout(i: nat)
    requires i < |KindNames|
    ensures forall j :: 0 <= j < |KindNames| && j != i ==> KindNames[j] in RawEntrySchema[i + 5].without
  {
  }

  /** Each kind parameter excludes the seven others. */
  lemma KindsExclude()
    ensures PairwiseExclusive(RawEntrySchema, KindNames)
  {
    forall a, b | a in KindNames && b in KindNames && a != b
      ensures Declared(RawEntrySchema, a).Some? && b in Declared(RawEntrySchema, a).value.without
    {
      var i :| 0 <= i < |KindNames| && KindNames[i] == a;
      KindWithout(i);
      if i == 0 {
        FlattenDeclared();
      } else if i == 1 {
        MappedWithDeclared();
      } else if i == 2 {
        MappedDeclared();
      } else if i == 3 {
        MapWithDeclared();
      } else if i == 4 {
        MapDeclared();
      } else if i == 5 {
        ParentDeclared();
      } else if i == 6 {
        BackDeclared();
      } else {
        QuitDeclared();
      }
    }
  }

  /** A parse that succeeds sets at most one of names that exclude each other pairwise. */
  lemma ParsedAtMostOne(schema: seq<Decl>, names: seq<string>, items: seq<Item>, tui: bool)
    requires SchemaOk(schema) && PairwiseExclusive(schema, names)
    requires ParseItems(schema, items, tui, map[]).Ok?
    ensures AtMostOne(ParseItems(schema, items, tui, map[]).value, names)
  {
    var m := ParseItems(schema, items, tui, map[]).value;
    forall a, b | a in names && b in names && a != b && a in m
      ensures b !in m
    {
      ExclusivePair(schema, items, tui, a, b);
    }
  }

  /**
   * Whatever a variant's attribute says, it sets at most one kind: the
   * priority order of `EntryField::new` never has to choose, and the entry is
   * of the kind written.
   */
  lemma EntryKindIsWritten(v: MenuVariant, tui: bool)
    requires AttrArgs(v.attrs, "menu", RawEntrySchema, tui).Ok?
    ensures var m := ArgsOrDefault(AttrArgs(v.attrs, "menu", RawEntrySchema, tui).value);
            AtMostOne(m, KindNames) && KindValuesFit(m) && KindIsWritten(m, v.ident, EntryKindOf(m, v.ident))
  {
    var args := AttrArgs(v.attrs, "menu", RawEntrySchema, tui).value;
    if args.Some? {
      var items := GetAttr(v.attrs, "menu").value.body.items;
      EntrySchemaOk();
      KindsExclude();
      ParsedAtMostOne(RawEntrySchema, KindNames, items, tui);
      ParsedWellTyped(RawEntrySchema, items, tui);
      KindValuesFitParsed(args.value);
      EntryKindSpec(args.value, v.ident);
    }
  }
}
