// ezmenu-macros/src/prompted.rs: `derive(Prompted)` on a struct. The prompt
// attribute of each field chooses the `Values` method called (the prompt
// kind), the promptable passed to it and the message shown, and may add a
// trait bound to the struct's generics; a unit struct gets a case-insensitive
// `FromStr`. Types are known by their path segments, and the token streams the
// macro emits are records of the decisions taken.
module PromptedMacro {
  import opened Wrappers
  import opened Text
  import opened MacroUtils
  import opened Kw
  import opened FormatMacro
  import opened GenericsMacro
  import opened PromptableMacro
  import opened PromptedSelect

  // ---- types -------------------------------------------------------------------

  /** A field type: a path, by its segments, or any other type. */
  datatype Ty = PathTy(segs: seq<TySeg>) | OtherTy

  /** A path segment, with its angle-bracketed arguments if it has any. */
  datatype TySeg = TySeg(ident: string, args: Option<seq<TyArg>>)

  /** A generic argument: a type, or a lifetime, constant or binding. */
  datatype TyArg = TypeArg(ty: Ty) | OtherGenericArg

  /** `get_last_seg_of_ty`. */
  function LastSeg(ty: Ty): Option<TySeg> {
    if ty.PathTy? && ty.segs != [] then Some(ty.segs[|ty.segs| - 1]) else None
  }

  /** `is_ty`: the last segment of the type's path is `name`. */
  predicate IsTy(ty: Ty, name: string) {
    LastSeg(ty).Some? && LastSeg(ty).value.ident == name
  }

  /** `get_ty_ident`: the identifier of a type written as one bare segment, such as a type parameter. */
  function TyIdent(ty: Ty): Option<string> {
    if ty.PathTy? && |ty.segs| == 1 && ty.segs[0].args.None? then Some(ty.segs[0].ident) else None
  }

  /** The type `Option<t>`. */
  function OptionOf(t: Ty): Ty {
    PathTy([TySeg("Option", Some([TypeArg(t)]))])
  }

  /** `try_get_nested_type`: the first argument of an `Option<...>`, the type itself otherwise. */
  function TryGetNestedType(ty: Ty): (r: Ty)
    ensures r == ty || (IsTy(ty, "Option") && LastSeg(ty).value.args.Some? &&
                        LastSeg(ty).value.args.value != [] && LastSeg(ty).value.args.value[0] == TypeArg(r))
  {
    match LastSeg(ty)
    case Some(seg) =>
      if seg.ident == "Option" && seg.args.Some? && seg.args.value != [] && seg.args.value[0].TypeArg? then
        seg.args.value[0].ty
      else ty
    case None => ty
  }

  /** `Option<T>` gives `T`; a type that is not an `Option` is left as it is. */
  lemma NestedTypeSpec(t: Ty, ty: Ty)
    ensures TryGetNestedType(OptionOf(t)) == t
    ensures !IsTy(ty, "Option") ==> TryGetNestedType(ty) == ty
  {
  }

  // ---- the attributes ------------------------------------------------------------

  /** `RootFieldsAttr`, the attribute of a struct with fields. */
  const RootFieldsSchema: seq<Decl> := [
    Decl("case", []), Decl("fmt", []), Decl("title", []), Decl("nodoc", []),
    Decl("raw", ["title"]), Decl("no_title", ["title"])
  ]

  /** `RootUnitAttr`, the attribute of a unit struct. */
  const RootUnitSchema: seq<Decl> := [Decl("raw", [])]

  /** The parameters a flattened field may not follow. */
  const FlattenWithout: seq<string> := [
    "msg", "fmt", "optional", "or_default", "case", "nodoc", "raw", "select", "example",
    "or_val", "or_env", "until", "sep", "or_env_with", "basic_example", "password"
  ]

  /** The parameters a `select` may not follow. */
  const SelectWithout: seq<string> := [
    "msg", "nodoc", "raw", "example", "or_val", "or_env", "sep", "or_env_with", "basic_example", "password", "until"
  ]

  /** `RawFieldAttr`, the attribute of a field, as declared: only `or_default` excludes `optional`. */
  const RawFieldSchema: seq<Decl> := [
    Decl("msg", []), Decl("fmt", []), Decl("optional", []), Decl("or_default", ["optional"]),
    Decl("case", []), Decl("nodoc", []), Decl("raw", ["msg"]),
    Decl("flatten", FlattenWithout), Decl("select", SelectWithout),
    Decl("example", []), Decl("or_val", []), Decl("or_env", []), Decl("until", []),
    Decl("sep", []), Decl("or_env_with", []),
    Decl("basic_example", ["sep", "or_env_with", "until"]),
    Decl("password", ["example", "or_val", "or_env", "sep", "or_env_with", "basic_example"])
  ]

  /** `RawFieldAttr` with the exclusion declared both ways. */
  const RawFieldSchemaCorrected: seq<Decl> := [
    Decl("msg", []), Decl("fmt", []), Decl("optional", ["or_default"]), Decl("or_default", ["optional"]),
    Decl("case", []), Decl("nodoc", []), Decl("raw", ["msg"]),
    Decl("flatten", FlattenWithout), Decl("select", SelectWithout),
    Decl("example", []), Decl("or_val", []), Decl("or_env", []), Decl("until", []),
    Decl("sep", []), Decl("or_env_with", []),
    Decl("basic_example", ["sep", "or_env_with", "until"]),
    Decl("password", ["example", "or_val", "or_env", "sep", "or_env_with", "basic_example"])
  ]

  // ---- the prompt kind -----------------------------------------------------------

  /** The `Values` method a field is read with. */
  datatype PromptKind = Next | NextOrDefault | NextOptional

  /**
   * The `match (optional, or_default)` of `FieldPrompt::new`: both flags reach
   * the `unreachable!` arm, `or_default` on an `Option` aborts, and an `Option`
   * field or the `optional` flag reads an optional value.
   */
  function Kind(optional: bool, orDefault: bool, ty: Ty): (r: Result<PromptKind, Abort>)
    ensures r == Err(Unreachable) <==> optional && orDefault
    ensures r == Err(OptionalOrDefault) <==> !optional && orDefault && IsTy(ty, "Option")
    ensures r == Ok(NextOptional) <==> !orDefault && (optional || IsTy(ty, "Option"))
    ensures r == Ok(NextOrDefault) <==> !optional && orDefault && !IsTy(ty, "Option")
    ensures r == Ok(Next) <==> !optional && !orDefault && !IsTy(ty, "Option")
  {
    if optional && orDefault then Err(Unreachable)
    else if optional then Ok(NextOptional)
    else if orDefault then (if IsTy(ty, "Option") then Err(OptionalOrDefault) else Ok(NextOrDefault))
    else if IsTy(ty, "Option") then Ok(NextOptional)
    else Ok(Next)
  }

  /** The call `.method::<ty, _>(arg)`, followed by `?` when `question` holds. */
  datatype MethodCall = MethodCall(name: string, outTy: Ty, arg: Promptable, question: bool)

  function MethodName(kind: PromptKind): string {
    match kind
    case Next => "next"
    case NextOrDefault => "next_or_default"
    case NextOptional => "next_optional"
  }

  /** `PromptKind::call_for`. */
  function CallFor(kind: PromptKind, ty: Ty, val: Promptable): (r: MethodCall)
    ensures r.name == MethodName(kind) && r.arg == val
    ensures r.question <==> !kind.NextOrDefault?
    ensures !kind.NextOptional? ==> r.outTy == ty
  {
    MethodCall(MethodName(kind), if kind.NextOptional? then TryGetNestedType(ty) else ty, val, !kind.NextOrDefault?)
  }

  /**
   * A field of type `Option<T>` without flags is read by `next_optional::<T, _>(...)?`;
   * with `or_default` it is refused.
   */
  lemma OptionFieldCall(t: Ty, val: Promptable)
    ensures Kind(false, false, OptionOf(t)) == Ok(NextOptional)
    ensures CallFor(NextOptional, OptionOf(t), val) == MethodCall("next_optional", t, val, true)
    ensures Kind(false, true, OptionOf(t)) == Err(OptionalOrDefault)
  {
  }

  // ---- the promptable ------------------------------------------------------------

  /** The `select(...)` entries of a field attribute. */
  function RawsOf(ops: seq<Operand>): (r: seq<RawSelectedField>)
    ensures |r| == |ops|
    ensures forall k :: 0 <= k < |ops| && ops[k].OEntry? ==>
              r[k] == RawSelectedField(ops[k].isDefault, ops[k].caption, ops[k].value)
  {
    seq(|ops|, k requires 0 <= k < |ops| =>
      if ops[k].OEntry? then RawSelectedField(ops[k].isDefault, ops[k].caption, ops[k].value)
      else RawSelectedField(false, "", ""))
  }

  function SelectParam(m: map<string, Value>): Option<seq<RawSelectedField>> {
    if "select" in m && m["select"].Entries? then Some(RawsOf(m["select"].entries)) else None
  }

  function EnvSepParam(m: map<string, Value>): Option<(string, string)> {
    if "or_env_with" in m && m["or_env_with"].EnvWith? then Some((m["or_env_with"].variable, m["or_env_with"].sep))
    else None
  }

  /** The `Written` holding the field's message and the optional settings of its attribute. */
  function WrittenOf(msg: string, m: map<string, Value>): Written {
    Written(msg, FormatParam(m), StrParam(m, "example"), StrParam(m, "or_val"), StrParam(m, "or_env"))
  }

  /** The promptable `Promptable::from_not_until` chooses, by priority: select, password, bool, sep, written. */
  function PromptableFor(ty: Ty, w: Written, m: map<string, Value>): (r: Result<Promptable, Abort>)
    ensures r.Err? <==> SelectParam(m).Some? && DefaultCount(MarksOf(SelectParam(m).value)) >= 2
    ensures r.Err? ==> r.error == ExtraDefault
    ensures r.Ok? ==> !r.value.UntilP?
    ensures r.Ok? ==> (r.value.SelectedP? <==> SelectParam(m).Some?)
    ensures r.Ok? ==> (r.value.PasswordP? <==> SelectParam(m).None? && "password" in m)
    ensures r.Ok? ==> (r.value.BoolP? <==> SelectParam(m).None? && "password" !in m && IsTy(ty, "bool"))
    ensures r.Ok? ==> (r.value.SeparatedP? <==> SelectParam(m).None? && "password" !in m && !IsTy(ty, "bool") &&
                                                StrParam(m, "sep").Some?)
  {
    match SelectParam(m)
    case Some(raws) =>
      SelectedOfSpec(w.msg, w.fmt, raws);
      (match SelectedOf(w.msg, w.fmt, raws)
       case Ok(s) => Ok(SelectedP(s))
       case Err(e) => Err(e))
    case None =>
      if "password" in m then Ok(PasswordP(w.msg, w.fmt))
      else if IsTy(ty, "bool") then Ok(BoolP(w, "basic_example" in m))
      else
        match StrParam(m, "sep")
        case Some(sep) => Ok(SeparatedP(w, sep, EnvSepParam(m)))
        case None => Ok(WrittenP(w))
  }

  /** A written or separated field of a bare type parameter needs `FromStr`; a flattened one needs `Prompted`. */
  function BoundFor(ty: Ty, m: map<string, Value>): Option<(string, string)> {
    match TyIdent(ty)
    case None => None
    case Some(id) =>
      if "flatten" in m then Some((id, "Prompted"))
      else if SelectParam(m).None? && "password" !in m && !IsTy(ty, "bool") then Some((id, "FromStr"))
      else None
  }

  /** The generics after the bound is added, if one is. */
  function ParamsAfter(params: seq<Param>, bound: Option<(string, string)>): seq<Param> {
    match bound
    case None => params
    case Some((id, tr)) => WithBound(params, id, tr)
  }

  /** `Promptable::from_not_until`, which may add `FromStr` to the field's type parameter. */
  method FromNotUntil(ty: Ty, w: Written, m: map<string, Value>, gens: Generics) returns (r: Result<Promptable, Abort>)
    requires "flatten" !in m
    modifies gens
    ensures r == PromptableFor(ty, w, m)
    ensures gens.params == ParamsAfter(old(gens.params), BoundFor(ty, m))
  {
    var select := SelectParam(m);
    if select.Some? {
      var s := SelectedNew(w.msg, w.fmt, select.value);
      if s.Err? {
        return Err(s.error);
      }
      return Ok(SelectedP(s.value));
    } else if "password" in m {
      return Ok(PasswordP(w.msg, w.fmt));
    } else if IsTy(ty, "bool") {
      return Ok(BoolP(w, "basic_example" in m));
    }
    var id := TyIdent(ty);
    if id.Some? {
      gens.CheckForBound(id.value, "FromStr");
    }
    var sep := StrParam(m, "sep");
    if sep.Some? {
      return Ok(SeparatedP(w, sep.value, EnvSepParam(m)));
    }
    return Ok(WrittenP(w));
  }

  // ---- the field prompt ------------------------------------------------------------

  /** How a field is read: `Prompted::from_values` for a flattened field, otherwise a `Values` call. */
  datatype FieldPrompt = Flatten | Regular(call: MethodCall)

  /** What `FieldPrompt::new` builds from the parsed attribute `m` and the message. */
  function FieldPromptOf(ty: Ty, msg: string, m: map<string, Value>): (r: Result<FieldPrompt, Abort>)
    ensures r == Err(Unreachable) <==> "optional" in m && "or_default" in m
    ensures r.Ok? ==> Kind("optional" in m, "or_default" in m, ty).Ok?
    ensures r.Ok? ==> (r.value.Flatten? <==> "flatten" in m)
    ensures r.Ok? && r.value.Regular? ==>
              var kind := Kind("optional" in m, "or_default" in m, ty).value;
              var p := PromptableFor(ty, WrittenOf(msg, m), m);
              p.Ok? && r.value.call.name == MethodName(kind) &&
              r.value.call.arg == (if SyntaxParam(m, "until").Some? then UntilP(p.value, SyntaxParam(m, "until").value)
                                   else p.value)
  {
    match Kind("optional" in m, "or_default" in m, ty)
    case Err(e) => Err(e)
    case Ok(kind) =>
      if "flatten" in m then Ok(Flatten)
      else
        match PromptableFor(ty, WrittenOf(msg, m), m)
        case Err(e) => Err(e)
        case Ok(p) =>
          var arg := if SyntaxParam(m, "until").Some? then UntilP(p, SyntaxParam(m, "until").value) else p;
          Ok(Regular(CallFor(kind, ty, arg)))
  }

  /** The generics after `FieldPrompt::new`: a bound is added only when the prompt is built. */
  function FieldParamsAfter(params: seq<Param>, ty: Ty, msg: string, m: map<string, Value>): seq<Param> {
    if FieldPromptOf(ty, msg, m).Ok? then ParamsAfter(params, BoundFor(ty, m)) else params
  }

  /** `FieldPrompt::new`. */
  method FieldPromptNew(ty: Ty, msg: string, m: map<string, Value>, gens: Generics) returns (r: Result<FieldPrompt, Abort>)
    modifies gens
    ensures r == FieldPromptOf(ty, msg, m)
    ensures gens.params == FieldParamsAfter(old(gens.params), ty, msg, m)
  {
    var kind := Kind("optional" in m, "or_default" in m, ty);
    if kind.Err? {
      return Err(kind.error);
    }
    if "flatten" in m {
      var id := TyIdent(ty);
      if id.Some? {
        gens.CheckForBound(id.value, "Prompted");
      }
      return Ok(Flatten);
    }
    var p := FromNotUntil(ty, WrittenOf(msg, m), m, gens);
    if p.Err? {
      return Err(p.error);
    }
    var til := SyntaxParam(m, "until");
    var arg := if til.Some? then UntilP(p.value, til.value) else p.value;
    return Ok(Regular(CallFor(kind.value, ty, arg)));
  }

  // ---- the field message -------------------------------------------------------------

  /** A struct field: its name (none in a tuple struct), its type and its attributes. */
  datatype Field = Field(ident: Option<string>, ty: Ty, attrs: seq<Attribute>)

  /**
   * The message of `get_field_prompt`: `msg`, else the first doc line unless
   * `nodoc`, else the field name (verbatim with `raw`, otherwise passed to
   * `snake`, the `split_ident_snake_case` helper); an unnamed field with none
   * of these aborts. The field's case wins over the struct's.
   */
  function FieldMessage(f: Field, m: map<string, Value>, structCase: Option<Case>, snake: string -> string)
    : (r: Result<string, Abort>)
    ensures r.Err? <==> MessageOf(StrParam(m, "msg"), "nodoc" in m, f.attrs).None? && f.ident.None?
    ensures r.Err? ==> r.error == MissingMessage
    ensures var c := if CaseParam(m).Some? then CaseParam(m) else structCase;
            (StrParam(m, "msg").Some? ==> r == Ok(MapCase(c, StrParam(m, "msg").value))) &&
            (StrParam(m, "msg").None? && "nodoc" !in m && GetFirstDoc(f.attrs).Some? ==>
               r == Ok(MapCase(c, GetFirstDoc(f.attrs).value))) &&
            (MessageOf(StrParam(m, "msg"), "nodoc" in m, f.attrs).None? && f.ident.Some? ==>
               r == Ok(MapCase(c, if "raw" in m then f.ident.value else snake(f.ident.value))))
  {
    var c := if CaseParam(m).Some? then CaseParam(m) else structCase;
    match MessageOf(StrParam(m, "msg"), "nodoc" in m, f.attrs)
    case Some(msg) => Ok(MapCase(c, msg))
    case None =>
      match f.ident
      case Some(name) => Ok(MapCase(c, if "raw" in m then name else snake(name)))
      case None => Err(MissingMessage)
  }

  /** A case given on the field makes the struct's case irrelevant. */
  lemma FieldCaseWins(f: Field, m: map<string, Value>, c1: Option<Case>, c2: Option<Case>, snake: string -> string)
    requires CaseParam(m).Some?
    ensures FieldMessage(f, m, c1, snake) == FieldMessage(f, m, c2, snake)
  {
  }

  /**
   * The parsed attribute of a field; a field without one has every parameter at
   * its default. It is read with the exclusion declared both ways, so that
   * `or_default, optional` is refused like `optional, or_default`.
   */
  function FieldAttr(f: Field, tui: bool): Result<map<string, Value>, Failure> {
    match AttrArgs(f.attrs, "prompt", RawFieldSchemaCorrected, tui)
    case Err(e) => Err(e)
    case Ok(args) => Ok(ArgsOrDefault(args))
  }

  /** What `get_field_prompt` builds: the attribute, then the message, then the prompt. */
  function FieldPromptSpec(f: Field, structCase: Option<Case>, snake: string -> string, tui: bool)
    : Result<FieldPrompt, Failure>
  {
    match FieldAttr(f, tui)
    case Err(e) => Err(e)
    case Ok(m) =>
      match FieldMessage(f, m, structCase, snake)
      case Err(e) => Err(Aborted(e))
      case Ok(msg) =>
        match FieldPromptOf(f.ty, msg, m)
        case Err(e) => Err(Aborted(e))
        case Ok(p) => Ok(p)
  }

  /** The generics after `get_field_prompt`. */
  function FieldParams(params: seq<Param>, f: Field, structCase: Option<Case>, snake: string -> string, tui: bool)
    : seq<Param>
  {
    match FieldAttr(f, tui)
    case Err(_) => params
    case Ok(m) =>
      match FieldMessage(f, m, structCase, snake)
      case Err(_) => params
      case Ok(msg) => FieldParamsAfter(params, f.ty, msg, m)
  }

  /** `get_field_prompt`. */
  method GetFieldPrompt(f: Field, structCase: Option<Case>, gens: Generics, snake: string -> string, tui: bool)
    returns (r: Result<FieldPrompt, Failure>)
    modifies gens
    ensures r == FieldPromptSpec(f, structCase, snake, tui)
    ensures gens.params == FieldParams(old(gens.params), f, structCase, snake, tui)
  {
    var m := FieldAttr(f, tui);
    if m.Err? {
      return Err(m.error);
    }
    var msg := FieldMessage(f, m.value, structCase, snake);
    if msg.Err? {
      return Err(Aborted(msg.error));
    }
    var p := FieldPromptNew(f.ty, msg.value, m.value, gens);
    if p.Err? {
      return Err(Aborted(p.error));
    }
    return Ok(p.value);
  }

  // ---- the struct with fields ----------------------------------------------------------

  /** The `Prompted` implementation of a struct with fields: format, title, one prompt per field. */
  datatype FieldsImpl = FieldsImpl(fmt: Option<Format>, title: Option<string>, prompts: seq<FieldPrompt>)

  /** `RootFieldsAttr::from`: a struct without an attribute has every parameter at its default. */
  function RootAttr(attrs: seq<Attribute>, tui: bool): Result<map<string, Value>, Failure> {
    match AttrArgs(attrs, "prompt", RootFieldsSchema, tui)
    case Err(e) => Err(e)
    case Ok(args) => Ok(ArgsOrDefault(args))
  }

  /**
   * The title written before the fields (`disp_title_ts`): none with
   * `no_title`; otherwise `title`, else the first doc line unless `nodoc`,
   * else the struct name (verbatim with `raw`, split otherwise), mapped by the
   * struct's case.
   */
  function TitleOf(m: map<string, Value>, attrs: seq<Attribute>, name: string): (r: Option<string>)
    ensures r.None? <==> "no_title" in m
    ensures r.Some? && StrParam(m, "title").Some? ==> r.value == MapCase(CaseParam(m), StrParam(m, "title").value)
    ensures r.Some? && StrParam(m, "title").None? && "nodoc" !in m && GetFirstDoc(attrs).Some? ==>
              r.value == MapCase(CaseParam(m), GetFirstDoc(attrs).value)
    ensures r.Some? && MessageOf(StrParam(m, "title"), "nodoc" in m, attrs).None? ==>
              r.value == MapCase(CaseParam(m), Label("raw" in m, name))
  {
    if "no_title" in m then None
    else Some(MapCase(CaseParam(m), MessageOf(StrParam(m, "title"), "nodoc" in m, attrs).UnwrapOr(Label("raw" in m, name))))
  }

  /** The prompts of `fields` built one by one with `spec`, in order; the first refused field stops the expansion. */
  function PromptsWith(fields: seq<Field>, spec: Field -> Result<FieldPrompt, Failure>): (r: Result<seq<FieldPrompt>, Failure>)
    ensures r.Ok? ==> |r.value| == |fields|
    decreases |fields|
  {
    if fields == [] then Ok([])
    else
      match PromptsWith(fields[..|fields| - 1], spec)
      case Err(e) => Err(e)
      case Ok(ps) =>
        match spec(fields[|fields| - 1])
        case Err(e) => Err(e)
        case Ok(p) => Ok(ps + [p])
  }

  /** `get_field_prompt` as a function of the field alone. */
  function PromptSpec(structCase: Option<Case>, snake: string -> string, tui: bool): Field -> Result<FieldPrompt, Failure> {
    f => FieldPromptSpec(f, structCase, snake, tui)
  }

  /** The prompts of the fields of a struct. */
  function PromptsOf(fields: seq<Field>, structCase: Option<Case>, snake: string -> string, tui: bool)
    : Result<seq<FieldPrompt>, Failure>
  {
    PromptsWith(fields, PromptSpec(structCase, snake, tui))
  }

  /** The generics after the prompts of `fields` are built, one field after the other. */
  function ParamsAfterFields(params: seq<Param>, fields: seq<Field>, structCase: Option<Case>,
                             snake: string -> string, tui: bool): seq<Param>
    decreases |fields|
  {
    if fields == [] then params
    else FieldParams(ParamsAfterFields(params, fields[..|fields| - 1], structCase, snake, tui),
                     fields[|fields| - 1], structCase, snake, tui)
  }

  /** What `build_fields_struct` expands to, or why it aborts. */
  function FieldsStructOf(attrs: seq<Attribute>, name: string, fields: seq<Field>, snake: string -> string, tui: bool)
    : Result<FieldsImpl, Failure>
  {
    match RootAttr(attrs, tui)
    case Err(e) => Err(e)
    case Ok(m) =>
      match PromptsOf(fields, CaseParam(m), snake, tui)
      case Err(e) => Err(e)
      case Ok(ps) => Ok(FieldsImpl(FormatParam(m), TitleOf(m, attrs, name), ps))
  }

  /** `build_fields_struct`: the fields are prompted in declaration order, each possibly adding a bound. */
  method BuildFieldsStruct(attrs: seq<Attribute>, name: string, gens: Generics, fields: seq<Field>,
                           snake: string -> string, tui: bool)
    returns (r: Result<FieldsImpl, Failure>)
    modifies gens
    ensures r == FieldsStructOf(attrs, name, fields, snake, tui)
    ensures r.Ok? ==> gens.params == ParamsAfterFields(old(gens.params), fields, CaseParam(RootAttr(attrs, tui).value), snake, tui)
  {
    var data := RootAttr(attrs, tui);
    if data.Err? {
      return Err(data.error);
    }
    var m := data.value;
    var title := TitleOf(m, attrs, name);
    var prompts := PromptFields(fields, CaseParam(m), gens, snake, tui);
    if prompts.Err? {
      return Err(prompts.error);
    }
    return Ok(FieldsImpl(FormatParam(m), title, prompts.value));
  }

  /** The loop of `build_fields_struct`: one `get_field_prompt` per field, stopping at the first refusal. */
  method PromptFields(fields: seq<Field>, structCase: Option<Case>, gens: Generics, snake: string -> string, tui: bool)
    returns (r: Result<seq<FieldPrompt>, Failure>)
    modifies gens
    ensures r == PromptsOf(fields, structCase, snake, tui)
    ensures r.Ok? ==> gens.params == ParamsAfterFields(old(gens.params), fields, structCase, snake, tui)
  {
    ghost var spec := PromptSpec(structCase, snake, tui);
    ghost var params0 := gens.params;
    var prompts: seq<FieldPrompt> := [];
    for i := 0 to |fields|
      invariant PromptsWith(fields[..i], spec) == Ok(prompts)
      invariant gens.params == ParamsAfterFields(params0, fields[..i], structCase, snake, tui)
    {
      ParamsExtend(params0, fields, i, structCase, snake, tui);
      var p := GetFieldPrompt(fields[i], structCase, gens, snake, tui);
      assert spec(fields[i]) == p;
      if p.Err? {
        PromptsStop(fields, i, spec);
        return Err(p.error);
      }
      PromptsExtend(fields, i, spec);
      prompts := prompts + [p.value];
    }
    assert fields[..|fields|] == fields;
    return Ok(prompts);
  }

  /** One more field updates the generics once more. */
  lemma ParamsExtend(params: seq<Param>, fields: seq<Field>, i: nat, structCase: Option<Case>, snake: string -> string, tui: bool)
    requires i < |fields|
    ensures ParamsAfterFields(params, fields[..i + 1], structCase, snake, tui)
            == FieldParams(ParamsAfterFields(params, fields[..i], structCase, snake, tui), fields[i], structCase, snake, tui)
  {
    assert fields[..i + 1][..i] == fields[..i];
  }

  /** A field refused after accepted ones refuses the whole struct, with its own reason. */
  lemma {:induction false} PromptsStop(fields: seq<Field>, i: nat, spec: Field -> Result<FieldPrompt, Failure>)
    requires i < |fields| && PromptsWith(fields[..i], spec).Ok? && spec(fields[i]).Err?
    ensures PromptsWith(fields, spec) == Err(spec(fields[i]).error)
  {
    assert fields[..i + 1][..i] == fields[..i];
    if i + 1 < |fields| {
      PromptsStopLater(fields, i + 1, spec, spec(fields[i]).error);
    } else {
      assert fields[..i + 1] == fields;
    }
  }

  lemma {:induction false} PromptsStopLater(fields: seq<Field>, j: nat, spec: Field -> Result<FieldPrompt, Failure>, e: Failure)
    requires 0 < j <= |fields| && PromptsWith(fields[..j], spec) == Err(e)
    ensures PromptsWith(fields, spec) == Err(e)
    decreases |fields| - j
  {
    if j < |fields| {
      assert fields[..j + 1][..j] == fields[..j];
      PromptsStopLater(fields, j + 1, spec, e);
    } else {
      assert fields[..j] == fields;
    }
  }

  /** An accepted field after accepted ones adds its prompt at the end. */
  lemma PromptsExtend(fields: seq<Field>, i: nat, spec: Field -> Result<FieldPrompt, Failure>)
    requires i < |fields| && PromptsWith(fields[..i], spec).Ok? && spec(fields[i]).Ok?
    ensures PromptsWith(fields[..i + 1], spec) == Ok(PromptsWith(fields[..i], spec).value + [spec(fields[i]).value])
  {
    assert fields[..i + 1][..i] == fields[..i];
  }

  /** The prompts of all fields are those of all but the last, then the last one's. */
  lemma PromptsSnoc(fields: seq<Field>, spec: Field -> Result<FieldPrompt, Failure>)
    requires fields != [] && PromptsWith(fields, spec).Ok?
    ensures var init := PromptsWith(fields[..|fields| - 1], spec);
            var last := spec(fields[|fields| - 1]);
            init.Ok? && last.Ok? && PromptsWith(fields, spec).value == init.value + [last.value]
  {
  }

  /** The prompt at position `k` is the one built from field `k` alone. */
  lemma {:induction false} PromptAt(fields: seq<Field>, k: nat, spec: Field -> Result<FieldPrompt, Failure>)
    requires k < |fields| && PromptsWith(fields, spec).Ok?
    ensures spec(fields[k]) == Ok(PromptsWith(fields, spec).value[k])
    decreases |fields|
  {
    var init := fields[..|fields| - 1];
    PromptsSnoc(fields, spec);
    if k < |init| {
      PromptAt(init, k, spec);
      assert fields[k] == init[k];
    }
  }

  /** Each field's prompt is the one built from that field alone, at its own position. */
  lemma PromptsInOrder(fields: seq<Field>, structCase: Option<Case>, snake: string -> string, tui: bool)
    requires PromptsOf(fields, structCase, snake, tui).Ok?
    ensures |PromptsOf(fields, structCase, snake, tui).value| == |fields|
    ensures forall k :: 0 <= k < |fields| ==>
              FieldPromptSpec(fields[k], structCase, snake, tui) == Ok(PromptsOf(fields, structCase, snake, tui).value[k])
  {
    var spec := PromptSpec(structCase, snake, tui);
    forall k | 0 <= k < |fields|
      ensures FieldPromptSpec(fields[k], structCase, snake, tui) == Ok(PromptsOf(fields, structCase, snake, tui).value[k])
    {
      PromptAt(fields, k, spec);
      assert spec(fields[k]) == FieldPromptSpec(fields[k], structCase, snake, tui);
    }
  }

  /**
   * Building the prompts only ever adds trait bounds: the generics keep their
   * number and order, and every parameter keeps its identifier and its
   * existing bounds.
   */
  lemma {:induction false} BoundsOnlyGrow(params: seq<Param>, fields: seq<Field>, structCase: Option<Case>,
                                          snake: string -> string, tui: bool)
    ensures var after := ParamsAfterFields(params, fields, structCase, snake, tui);
            |after| == |params| &&
            forall k :: 0 <= k < |params| ==> Extends(params[k], after[k])
    decreases |fields|
  {
    if fields != [] {
      var init := fields[..|fields| - 1];
      BoundsOnlyGrow(params, init, structCase, snake, tui);
      var mid := ParamsAfterFields(params, init, structCase, snake, tui);
      var f := fields[|fields| - 1];
      FieldParamsExtend(mid, f, structCase, snake, tui);
      var after := ParamsAfterFields(params, fields, structCase, snake, tui);
      forall k | 0 <= k < |params|
        ensures Extends(params[k], after[k])
      {
        ExtendsTransitive(params[k], mid[k], after[k]);
      }
    }
  }

  /** `q` is `p` with possibly more bounds at the end. */
  predicate Extends(p: Param, q: Param) {
    p == q || (p.TypeParam? && q.TypeParam? && p.ident == q.ident && |p.bounds| <= |q.bounds| &&
               q.bounds[..|p.bounds|] == p.bounds)
  }

  lemma ExtendsTransitive(p: Param, q: Param, s: Param)
    requires Extends(p, q) && Extends(q, s)
    ensures Extends(p, s)
  {
    if p != q && q != s {
      assert s.bounds[..|p.bounds|] == s.bounds[..|q.bounds|][..|p.bounds|];
    }
  }

  lemma FieldParamsExtend(params: seq<Param>, f: Field, structCase: Option<Case>, snake: string -> string, tui: bool)
    ensures var after := FieldParams(params, f, structCase, snake, tui);
            |after| == |params| && forall k :: 0 <= k < |params| ==> Extends(params[k], after[k])
  {
    var after := FieldParams(params, f, structCase, snake, tui);
    if after != params {
      var m := FieldAttr(f, tui).value;
      var b := BoundFor(f.ty, m).value;
      WithBoundChangesOne(params, b.0, b.1);
      forall k | 0 <= k < |params|
        ensures Extends(params[k], after[k])
      {
        if after[k] != params[k] {
          assert after[k].bounds[..|params[k].bounds|] == params[k].bounds;
        }
      }
    }
  }

  // ---- the unit struct -------------------------------------------------------------

  /** `map_unit_ident`: the name the generated `from_str` accepts, lowercased. */
  function MapUnitIdent(attrs: seq<Attribute>, name: string, tui: bool): Result<string, Failure> {
    match AttrArgs(attrs, "prompt", RootUnitSchema, tui)
    case Err(e) => Err(e)
    case Ok(args) => Ok(ToLower(Label(args.Some? && "raw" in args.value, name)))
  }

  /** The generated `FromStr::from_str` of a unit struct whose lowered name is `low`. */
  function UnitFromStr(low: string, name: string, s: string): Result<(), string> {
    if ToLower(s) == low then Ok(()) else Err("failed to parse to " + name + " struct")
  }

  /**
   * A unit struct parses from its displayed name in any letter case, and
   * from nothing else.
   */
  lemma UnitFromStrSpec(attrs: seq<Attribute>, name: string, tui: bool, s: string)
    requires MapUnitIdent(attrs, name, tui).Ok?
    ensures var args := AttrArgs(attrs, "prompt", RootUnitSchema, tui).value;
            var shown := Label(args.Some? && "raw" in args.value, name);
            var low := MapUnitIdent(attrs, name, tui).value;
            (UnitFromStr(low, name, s).Ok? <==> ToLower(s) == ToLower(shown)) &&
            UnitFromStr(low, name, shown).Ok? &&
            UnitFromStr(low, name, Upper.Map(shown)).Ok? &&
            UnitFromStr(low, name, Lower.Map(shown)).Ok?
  {
    var args := AttrArgs(attrs, "prompt", RootUnitSchema, tui).value;
    var shown := Label(args.Some? && "raw" in args.value, name);
    MapsCompose(shown);
    ToLowerIdempotent(shown);
  }

  // ---- dispatch ----------------------------------------------------------------------

  /** The fields of a struct: none, or named or unnamed fields. */
  datatype StructFields = UnitStruct | NamedStruct(named: seq<Field>) | UnnamedStruct(unnamed: seq<Field>)

  /** The item `derive(Prompted)` is applied to. */
  datatype Data = EnumData(variants: seq<Variant>) | StructData(fields: StructFields) | UnionData

  /** What `derive(Prompted)` expands to. */
  datatype Expansion =
    | SelectExpansion(select: SelectImpl)            // an enum: `Selectable` and `Prompted`
    | UnitExpansion(low: string, err: string)        // a unit struct: `FromStr`
    | FieldsExpansion(fieldsImpl: FieldsImpl)        // a struct with fields: `Prompted`

  const UnsupportedMessage := "derive(Prompted) only supports enums and structs"

  /** `build_prompted`: the expansion for an enum, a unit struct or a struct with fields; a union aborts. */
  method BuildPrompted(attrs: seq<Attribute>, name: string, gens: Generics, data: Data, snake: string -> string, tui: bool)
    returns (r: Result<Expansion, Failure>)
    modifies gens
    ensures data.UnionData? ==> r == Err(Aborted(NotSupported(UnsupportedMessage)))
    ensures data.EnumData? ==>
              r == (match BuildSelectOf(attrs, name, old(gens.params) != [], data.variants, tui)
                    case Ok(s) => Ok(SelectExpansion(s))
                    case Err(e) => Err(e))
    ensures data.StructData? && data.fields.UnitStruct? ==>
              r == (match MapUnitIdent(attrs, name, tui)
                    case Ok(low) => Ok(UnitExpansion(low, "failed to parse to " + name + " struct"))
                    case Err(e) => Err(e))
    ensures data.StructData? && !data.fields.UnitStruct? ==>
              var fields := if data.fields.NamedStruct? then data.fields.named else data.fields.unnamed;
              r == (match FieldsStructOf(attrs, name, fields, snake, tui)
                    case Ok(f) => Ok(FieldsExpansion(f))
                    case Err(e) => Err(e))
    ensures !(data.StructData? && !data.fields.UnitStruct?) ==> gens.params == old(gens.params)
  {
    match data
    case UnionData =>
      return Err(Aborted(NotSupported(UnsupportedMessage)));
    case EnumData(variants) =>
      var s := BuildSelect(attrs, name, gens.params != [], variants, tui);
      if s.Err? {
        return Err(s.error);
      }
      return Ok(SelectExpansion(s.value));
    case StructData(fields) =>
      match fields
      case UnitStruct =>
        var low := MapUnitIdent(attrs, name, tui);
        if low.Err? {
          return Err(low.error);
        }
        return Ok(UnitExpansion(low.value, "failed to parse to " + name + " struct"));
      case NamedStruct(named) =>
        var f := BuildFieldsStruct(attrs, name, gens, named, snake, tui);
        if f.Err? {
          return Err(f.error);
        }
        return Ok(FieldsExpansion(f.value));
      case UnnamedStruct(unnamed) =>
        var f := BuildFieldsStruct(attrs, name, gens, unnamed, snake, tui);
        if f.Err? {
          return Err(f.error);
        }
        return Ok(FieldsExpansion(f.value));
  }

  // ---- `optional` after `or_default` ---------------------------------------------------

  /** The attribute `#[prompt(or_default, optional)]`. */
  const OrDefaultThenOptional: seq<Item> := [Param("or_default", Bare), Comma, Param("optional", Bare)]

  /** `optional` is declared third, with no exclusion. */
  lemma OptionalDeclared()
    ensures Declared(RawFieldSchema, "optional") == Some(Decl("optional", []))
  {
    DeclaredAt(RawFieldSchema, "optional", 2);
  }

  /** `or_default` is declared fourth, excluding `optional`. */
  lemma OrDefaultDeclared()
    ensures Declared(RawFieldSchema, "or_default") == Some(Decl("or_default", ["optional"]))
  {
    DeclaredAt(RawFieldSchema, "or_default", 3);
  }

  /** In the corrected schema `optional` excludes `or_default`. */
  lemma OptionalDeclaredCorrected()
    ensures Declared(RawFieldSchemaCorrected, "optional") == Some(Decl("optional", ["or_default"]))
  {
    DeclaredAt(RawFieldSchemaCorrected, "optional", 2);
  }

  /** In the corrected schema `or_default` still excludes `optional`. */
  lemma OrDefaultDeclaredCorrected()
    ensures Declared(RawFieldSchemaCorrected, "or_default") == Some(Decl("or_default", ["optional"]))
  {
    DeclaredAt(RawFieldSchemaCorrected, "or_default", 3);
  }

  /** The names the field schemas declare, in order. */
  const FieldParamNames: seq<string> := [
    "msg", "fmt", "optional", "or_default", "case", "nodoc", "raw", "flatten", "select",
    "example", "or_val", "or_env", "until", "sep", "or_env_with", "basic_example", "password"
  ]

  // The membership of a key of the keyword table is proved a few keys at a time.
  lemma CaseIsKeyword()
    ensures "case" in Keywords
  {
  }

  lemma FlagsAreKeywords()
    ensures "nodoc" in Keywords && "raw" in Keywords && "flatten" in Keywords
  {
  }

  lemma FieldNamesKeywordsA()
    ensures AllKeywords(FieldParamNames[..4])
  {
  }

  lemma FieldNamesKeywordsB()
    ensures AllKeywords(FieldParamNames[4..8])
  {
    CaseIsKeyword();
    FlagsAreKeywords();
  }

  lemma FieldNamesKeywordsC()
    ensures AllKeywords(FieldParamNames[8..12])
  {
  }

  lemma FieldNamesKeywordsD()
    ensures AllKeywords(FieldParamNames[12..])
  {
  }

  lemma FieldParamNamesKeywords()
    ensures AllKeywords(FieldParamNames)
  {
    var names := FieldParamNames;
    FieldNamesKeywordsA();
    FieldNamesKeywordsB();
    FieldNamesKeywordsC();
    FieldNamesKeywordsD();
    assert names[4..][..4] == names[4..8];
    assert names[8..][..4] == names[8..12];
    assert names[8..][4..] == names[12..];
    assert names[4..][4..] == names[8..];
    AllKeywordsSplit(names[8..], 4);
    AllKeywordsSplit(names[4..], 4);
    AllKeywordsSplit(names, 4);
  }

  /** The field schema as declared lists keywords only. */
  lemma FieldSchemaOk()
    ensures SchemaOk(RawFieldSchema)
  {
    FieldParamNamesKeywords();
    assert forall k :: 0 <= k < |RawFieldSchema| ==> RawFieldSchema[k].name == FieldParamNames[k];
  }

  /** The corrected field schema lists keywords only. */
  lemma FieldSchemaCorrectedOk()
    ensures SchemaOk(RawFieldSchemaCorrected)
  {
    FieldParamNamesKeywords();
    assert forall k :: 0 <= k < |RawFieldSchemaCorrected| ==> RawFieldSchemaCorrected[k].name == FieldParamNames[k];
  }

  /** A unit keyword that is declared, not yet set and not in conflict is recorded as set. */
  lemma FlagStep(schema: seq<Decl>, name: string, rest: seq<Item>, tui: bool, set_: map<string, Value>)
    requires Declared(schema, name).Some? && name !in set_ && FirstSet(Declared(schema, name).value.without, set_).None?
    requires name in Keywords && Keywords[name] == Unit
    ensures ParseItems(schema, [Param(name, Bare)] + rest, tui, set_) == ParseItems(schema, rest, tui, set_[name := Flag])
  {
    assert ([Param(name, Bare)] + rest)[1..] == rest;
  }

  /** Any schema declaring the two flags as `RawFieldAttr` does accepts `or_default, optional`. */
  lemma {:induction false} OrDefaultThenOptionalAccepted(schema: seq<Decl>, tui: bool)
    requires Declared(schema, "optional") == Some(Decl("optional", []))
    requires Declared(schema, "or_default") == Some(Decl("or_default", ["optional"]))
    requires "optional" in Keywords && Keywords["optional"] == Unit
    requires "or_default" in Keywords && Keywords["or_default"] == Unit
    ensures ParseItems(schema, OrDefaultThenOptional, tui, map[]) == Ok(map["or_default" := Flag, "optional" := Flag])
  {
    var empty: map<string, Value> := map[];
    var one := empty["or_default" := Flag];
    assert FirstSet(["optional"], empty) == None;
    assert FirstSet([], one) == None;
    assert OrDefaultThenOptional == [Param("or_default", Bare)] + [Comma, Param("optional", Bare)];
    FlagStep(schema, "or_default", [Comma, Param("optional", Bare)], tui, empty);
    assert [Comma, Param("optional", Bare)][1..] == [Param("optional", Bare)] + [];
    FlagStep(schema, "optional", [], tui, one);
    assert one["optional" := Flag] == map["or_default" := Flag, "optional" := Flag];
  }

  lemma FlagsAreUnitKeywords()
    ensures "optional" in Keywords && Keywords["optional"] == Unit
    ensures "or_default" in Keywords && Keywords["or_default"] == Unit
  {
  }

  /**
   * As declared, `or_default, optional` is accepted: only `or_default` names
   * `optional` as a conflict, and the check looks backwards. Both flags are
   * then set, and `FieldPrompt::new` reaches its `unreachable!` arm.
   */
  lemma OrDefaultThenOptionalPanics(ty: Ty, msg: string, tui: bool)
    ensures ParseItems(RawFieldSchema, OrDefaultThenOptional, tui, map[]) == Ok(map["or_default" := Flag, "optional" := Flag])
    ensures FieldPromptOf(ty, msg, map["or_default" := Flag, "optional" := Flag]) == Err(Unreachable)
  {
    OptionalDeclared();
    OrDefaultDeclared();
    FlagsAreUnitKeywords();
    OrDefaultThenOptionalAccepted(RawFieldSchema, tui);
  }

  /** A schema where the two flags exclude each other never leads `FieldPrompt::new` to `unreachable!`. */
  lemma ExclusiveFlagsReachable(schema: seq<Decl>, ty: Ty, msg: string, items: seq<Item>, tui: bool)
    requires SchemaOk(schema)
    requires Declared(schema, "optional").Some? && "or_default" in Declared(schema, "optional").value.without
    requires Declared(schema, "or_default").Some? && "optional" in Declared(schema, "or_default").value.without
    requires ParseItems(schema, items, tui, map[]).Ok?
    ensures FieldPromptOf(ty, msg, ParseItems(schema, items, tui, map[]).value) != Err(Unreachable)
  {
    ExclusivePair(schema, items, tui, "optional", "or_default");
  }

  /**
   * With `optional` declared to exclude `or_default` as well, no attribute the
   * parser accepts sets both, so `FieldPrompt::new` never reaches its
   * `unreachable!` arm.
   */
  lemma CorrectedNeverUnreachable(ty: Ty, msg: string, items: seq<Item>, tui: bool)
    requires ParseItems(RawFieldSchemaCorrected, items, tui, map[]).Ok?
    ensures FieldPromptOf(ty, msg, ParseItems(RawFieldSchemaCorrected, items, tui, map[]).value) != Err(Unreachable)
  {
    FieldSchemaCorrectedOk();
    OptionalDeclaredCorrected();
    OrDefaultDeclaredCorrected();
    ExclusiveFlagsReachable(RawFieldSchemaCorrected, ty, msg, items, tui);
  }
}
