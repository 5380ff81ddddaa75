// ezmenu-macros/src/kw.rs: the keywords the macro attributes understand and
// the parameter-list parser every attribute struct gets from `define_attr!`.
// An attribute struct is a list of declared parameters, each with the
// parameters it excludes; its parsed form maps each parameter given to its
// value, and a parameter missing from the map keeps its `Default` value.
module Kw {
  import opened Wrappers
  import opened MacroUtils

  /** How the tokens after a keyword are read (`define_keywords!`). */
  datatype Shape =
    | EqStr | EqBool | EqCase | EqPath | EqExpr       // `kw = value`
    | ParStr | ParFunc | ParMapWith | ParFormat       // `kw(value)`
    | Unit                                            // `kw`
    | TuiKw                                           // `tui`, only with the `tui` feature
    | BlockKw | BackKw | OrEnvWithKw | SelectKw | DefaultKw | MappedKw // custom parsers

  /** The keyword table of kw.rs, lines 114 and 128-189. */
  const Keywords: map<string, Shape> := map[
    "case" := EqCase, "title" := EqStr, "msg" := EqStr, "example" := EqStr, "sep" := EqStr,
    "prefix" := EqStr, "left_sur" := EqStr, "right_sur" := EqStr, "chip" := EqStr,
    "show_default" := EqBool, "suffix" := EqStr, "line_brk" := EqBool, "path" := EqPath,
    "styled_title" := EqExpr, "title_alignment" := EqExpr, "border_style" := EqExpr,
    "style" := EqExpr, "borders" := EqExpr, "border_type" := EqExpr,
    "fmt" := ParFormat, "until" := ParFunc, "or_val" := ParStr, "or_env" := ParStr,
    "map" := ParFunc, "mapped_with" := ParMapWith, "map_with" := ParMapWith,
    "no_title" := Unit, "nodoc" := Unit, "raw" := Unit, "optional" := Unit,
    "or_default" := Unit, "flatten" := Unit, "basic_example" := Unit, "password" := Unit,
    "parent" := Unit, "quit" := Unit, "once" := Unit,
    "tui" := TuiKw,
    "block" := BlockKw, "back" := BackKw, "or_env_with" := OrEnvWithKw, "select" := SelectKw,
    "default" := DefaultKw, "mapped" := MappedKw
  ]

  /** A parameter of an attribute struct and the parameters it may not follow. */
  datatype Decl = Decl(name: string, without: seq<string>)

  /** Every parameter of an attribute struct is a keyword of the table (Rust checks this when it compiles). */
  predicate SchemaOk(schema: seq<Decl>) {
    forall k :: 0 <= k < |schema| ==> schema[k].name in Keywords
  }

  /** The parsed value of one parameter. */
  datatype Value =
    | Flag                                       // a unit keyword, `true`
    | Str(s: string)                             // a string literal
    | Bool(b: bool)                              // a boolean literal
    | CaseOf(c: Case)                            // a case name
    | Syntax(o: Operand)                         // a path, expression or function
    | Fields(m: map<string, Value>)              // a nested parameter list (`fmt`, `block`)
    | Index(n: nat)                              // `back`
    | EnvWith(variable: string, sep: string)     // `or_env_with`
    | Entries(entries: seq<Operand>)             // `select`
    | Call(func: Operand, args: seq<Operand>)    // `mapped`, `mapped_with`, `map_with`

  /** Why a parameter list is refused: a `syn` parse error, or an abort. */
  datatype Failure = SynError | Aborted(reason: Abort)

  /** The seven parameters of a `fmt(...)` argument (ezmenu-macros/src/format.rs:60-68). */
  const FormatParams: seq<Decl> := [
    Decl("prefix", []), Decl("left_sur", []), Decl("right_sur", []), Decl("chip", []),
    Decl("show_default", []), Decl("suffix", []), Decl("line_brk", [])
  ]

  /** The parameters of a `block(...)` argument (`RawBlockAttr`, ezmenu-macros/src/menu.rs:319-328). */
  const BlockParams: seq<Decl> := [
    Decl("styled_title", []), Decl("title_alignment", []), Decl("border_style", []),
    Decl("style", []), Decl("borders", []), Decl("border_type", [])
  ]

  /** The operands between parentheses; `()` reads as an empty operand or item list alike. */
  function OperandsOf(arg: Arg): Option<seq<Operand>> {
    match arg
    case Group(ops) => Some(ops)
    case Nested(items) => if items == [] then Some([]) else None
    case _ => None
  }

  function ItemsOf(arg: Arg): Option<seq<Item>> {
    match arg
    case Nested(items) => Some(items)
    case Group(ops) => if ops == [] then Some([]) else None
    case _ => None
  }

  predicate IsPathLike(o: Operand) {
    o.OIdent? || o.OOther?
  }

  /** The first declaration of `name`, the one `lookahead1().peek` selects. */
  function Declared(schema: seq<Decl>, name: string): (r: Option<Decl>)
    ensures r.Some? ==> r.value in schema && r.value.name == name
    ensures r.None? <==> forall k :: 0 <= k < |schema| ==> schema[k].name != name
  {
    if schema == [] then None
    else if schema[0].name == name then Some(schema[0])
    else Declared(schema[1..], name)
  }

  /** The declaration found for `name` is its first one. */
  lemma {:induction false} DeclaredAt(schema: seq<Decl>, name: string, i: nat)
    requires i < |schema| && schema[i].name == name
    requires forall k :: 0 <= k < i ==> schema[k].name != name
    ensures Declared(schema, name) == Some(schema[i])
    decreases i
  {
    if i > 0 {
      DeclaredAt(schema[1..], name, i - 1);
    }
  }

  /** Every name of `names` is a keyword. */
  predicate AllKeywords(names: seq<string>) {
    forall k :: 0 <= k < |names| ==> names[k] in Keywords
  }

  lemma AllKeywordsSplit(names: seq<string>, i: nat)
    requires i <= |names| && AllKeywords(names[..i]) && AllKeywords(names[i..])
    ensures AllKeywords(names)
  {
    forall k | 0 <= k < |names|
      ensures names[k] in Keywords
    {
      if k < i {
        assert names[k] == names[..i][k];
      } else {
        assert names[k] == names[i..][k - i];
      }
    }
  }

  /** The first parameter of `without` that is already set, the conflict the guard chain reports. */
  function FirstSet(without: seq<string>, set_: map<string, Value>): (r: Option<string>)
    ensures r.Some? ==> r.value in without && r.value in set_
    ensures r.None? <==> forall k :: 0 <= k < |without| ==> without[k] !in set_
  {
    if without == [] then None
    else if without[0] in set_ then Some(without[0])
    else FirstSet(without[1..], set_)
  }

  /** A value of the kind a keyword of that shape reads; the nested lists keep to their own parameters. */
  predicate Fits(shape: Shape, v: Value) {
    match shape
    case EqStr => v.Str?
    case ParStr => v.Str?
    case EqBool => v.Bool?
    case EqCase => v.CaseOf?
    case EqPath => v.Syntax? && IsPathLike(v.o)
    case ParFunc => v.Syntax? && IsPathLike(v.o)
    case EqExpr => v.Syntax?
    case ParMapWith => v.Call?
    case MappedKw => v.Call? && IsPathLike(v.func)
    case ParFormat => v.Fields? && forall key :: key in v.m ==> Declared(FormatParams, key).Some?
    case BlockKw => v.Fields? && forall key :: key in v.m ==> Declared(BlockParams, key).Some?
    case Unit => v.Flag?
    case TuiKw => v.Flag?
    case DefaultKw => v.Flag?
    case BackKw => v.Index?
    case OrEnvWithKw => v.EnvWith?
    case SelectKw => v.Entries? && forall k :: 0 <= k < |v.entries| ==> v.entries[k].OEntry?
  }

  /**
   * Reads the tokens after a keyword. `tui` and `block` abort first when the
   * `tui` feature is off; `back` alone means `back(1)`; `or_env_with` needs
   * exactly two string literals; the nested lists of `fmt` and `block` are
   * parameter lists of their own.
   */
  function ParseArg(shape: Shape, arg: Arg, tui: bool): (r: Result<Value, Failure>)
    ensures r.Ok? ==> Fits(shape, r.value)
    ensures (shape.TuiKw? || shape.BlockKw?) && !tui ==> r == Err(Aborted(TuiFeature))
    decreases arg, 1
  {
    match shape
    case EqStr => if arg.Assign? && arg.value.OStr? then Ok(Str(arg.value.s)) else Err(SynError)
    case EqBool => if arg.Assign? && arg.value.OBool? then Ok(Bool(arg.value.b)) else Err(SynError)
    case EqCase =>
      if arg.Assign? && arg.value.OIdent? then
        (match ParseCase(arg.value.id)
         case Ok(c) => Ok(CaseOf(c))
         case Err(a) => Err(Aborted(a)))
      else Err(SynError)
    case EqPath => if arg.Assign? && IsPathLike(arg.value) then Ok(Syntax(arg.value)) else Err(SynError)
    case EqExpr => if arg.Assign? then Ok(Syntax(arg.value)) else Err(SynError)
    case ParStr =>
      var ops := OperandsOf(arg);
      if ops.Some? && |ops.value| == 1 && ops.value[0].OStr? then Ok(Str(ops.value[0].s)) else Err(SynError)
    case ParFunc =>
      var ops := OperandsOf(arg);
      if ops.Some? && |ops.value| == 1 && IsPathLike(ops.value[0]) then Ok(Syntax(ops.value[0])) else Err(SynError)
    case ParMapWith =>
      var ops := OperandsOf(arg);
      if ops.Some? && |ops.value| >= 1 then Ok(Call(ops.value[0], ops.value[1..])) else Err(SynError)
    case ParFormat =>
      ParseNested(FormatParams, arg, tui)
    case Unit => if arg.Bare? then Ok(Flag) else Err(SynError)
    case TuiKw => if !tui then Err(Aborted(TuiFeature)) else if arg.Bare? then Ok(Flag) else Err(SynError)
    case BlockKw =>
      if !tui then Err(Aborted(TuiFeature))
      else
        ParseNested(BlockParams, arg, tui)
    case BackKw =>
      if arg.Bare? then Ok(Index(1))
      else
        var ops := OperandsOf(arg);
        if ops.Some? && |ops.value| == 1 && ops.value[0].OInt? then Ok(Index(ops.value[0].n)) else Err(SynError)
    case OrEnvWithKw =>
      var ops := OperandsOf(arg);
      if ops.Some? && |ops.value| == 2 && ops.value[0].OStr? && ops.value[1].OStr? then
        Ok(EnvWith(ops.value[0].s, ops.value[1].s))
      else Err(SynError)
    case SelectKw =>
      var ops := OperandsOf(arg);
      if ops.Some? && forall k :: 0 <= k < |ops.value| ==> ops.value[k].OEntry? then Ok(Entries(ops.value))
      else Err(SynError)
    case DefaultKw => if arg.Bare? then Ok(Flag) else Err(SynError)
    case MappedKw =>
      var ops := OperandsOf(arg);
      if ops.Some? && |ops.value| >= 1 && IsPathLike(ops.value[0]) then Ok(Call(ops.value[0], ops.value[1..]))
      else Err(SynError)
  }

  /** A nested parameter list, as `fmt(...)` and `block(...)` take: parsed with its own parameters. */
  function ParseNested(schema: seq<Decl>, arg: Arg, tui: bool): (r: Result<Value, Failure>)
    ensures r.Ok? ==> r.value.Fields? && forall key :: key in r.value.m ==> Declared(schema, key).Some?
    decreases arg, 0
  {
    match ItemsOf(arg)
    case Some(items) =>
      (match ParseItems(schema, items, tui, map[])
       case Ok(m) => Ok(Fields(m))
       case Err(e) => Err(e))
    case None => Err(SynError)
  }

  /**
   * The `define_attr!` parser from item `items[0]` on, with the parameters
   * already set in `set_`: a comma is skipped; a declared parameter aborts when
   * it is already set, then when one of its `without` parameters is already
   * set, and is otherwise read and recorded; anything else is a parse error.
   */
  function ParseItems(schema: seq<Decl>, items: seq<Item>, tui: bool, set_: map<string, Value>)
    : (r: Result<map<string, Value>, Failure>)
    ensures r.Ok? ==> forall key :: key in r.value ==> key in set_ || Declared(schema, key).Some?
    decreases items, 1
  {
    if items == [] then Ok(set_)
    else
      match items[0]
      case Comma => ParseItems(schema, items[1..], tui, set_)
      case Stray => Err(SynError)
      case Param(name, arg) =>
        match Declared(schema, name)
        case None => Err(SynError)
        case Some(d) =>
          if name in set_ then Err(Aborted(DuplicateParam(name)))
          else
            match FirstSet(d.without, set_)
            case Some(w) => Err(Aborted(ConflictParam(name, w)))
            case None =>
              if name !in Keywords then Err(SynError)
              else
                match ParseArg(Keywords[name], arg, tui)
                case Ok(v) => ParseItems(schema, items[1..], tui, set_[name := v])
                case Err(e) => Err(e)
  }

  /** `Parse for $Attr`: the `while !input.is_empty()` loop over a fresh, all-default struct. */
  method ParseAttr(schema: seq<Decl>, items: seq<Item>, tui: bool) returns (r: Result<map<string, Value>, Failure>)
    requires SchemaOk(schema)
    ensures r == ParseItems(schema, items, tui, map[])
  {
    var ret: map<string, Value> := map[];
    var pos := 0;
    while pos < |items|
      invariant pos <= |items|
      invariant ParseItems(schema, items[pos..], tui, ret) == ParseItems(schema, items, tui, map[])
    {
      assert items[pos..][1..] == items[pos + 1..];
      var next := items[pos];
      match next {
        case Param(name, arg) =>
          var d := Declared(schema, name);
          if d.None? {
            return Err(SynError);
          }
          if name in ret {
            return Err(Aborted(DuplicateParam(name)));
          }
          var conflict := FirstSet(d.value.without, ret);
          if conflict.Some? {
            return Err(Aborted(ConflictParam(name, conflict.value)));
          }
          var v := ParseArg(Keywords[name], arg, tui);
          if v.Err? {
            return Err(v.error);
          }
          ret := ret[name := v.value];
        case Comma =>
        case Stray =>
          return Err(SynError);
      }
      pos := pos + 1;
    }
    return Ok(ret);
  }

  /**
   * `get_attr_with_args` (ezmenu-macros/src/utils.rs:36-41) followed by
   * `take_val`: the parameters of the first attribute marked `ident`, `None`
   * without one; arguments that do not parse abort.
   */
  function AttrArgs(attrs: seq<Attribute>, ident: string, schema: seq<Decl>, tui: bool)
    : (r: Result<Option<map<string, Value>>, Failure>)
    ensures r == Ok(None) <==> GetAttr(attrs, ident).None?
    ensures r.Ok? && r.value.Some? ==>
              GetAttr(attrs, ident).Some? && GetAttr(attrs, ident).value.body.Args? &&
              ParseItems(schema, GetAttr(attrs, ident).value.body.items, tui, map[]) == Ok(r.value.value)
  {
    match GetAttr(attrs, ident)
    case None => Ok(None)
    case Some(a) =>
      if a.body.Args? then
        (match ParseItems(schema, a.body.items, tui, map[])
         case Ok(m) => Ok(Some(m))
         case Err(e) => Err(e))
      else Err(SynError)
  }

  /** The parameters of an attribute that may be absent: `unwrap_or_default()`, nothing set. */
  function ArgsOrDefault(args: Option<map<string, Value>>): map<string, Value> {
    match args
    case Some(m) => m
    case None => map[]
  }

  // ---- what the parser accepts -------------------------------------------------

  /** The parameter names written in `items`. */
  function Names(items: seq<Item>): set<string>
    decreases |items|
  {
    if items == [] then {} else (if items[0].Param? then {items[0].name} else {}) + Names(items[1..])
  }

  /**
   * One item is acceptable after the parameters in `seen`: a comma, or a
   * declared parameter not yet given, none of whose excluded parameters was
   * given, and whose argument reads.
   */
  predicate ItemOk(schema: seq<Decl>, it: Item, tui: bool, seen: set<string>)
    requires SchemaOk(schema)
  {
    it.Comma? ||
    (it.Param? && Declared(schema, it.name).Some? && it.name !in seen &&
     (forall w :: w in Declared(schema, it.name).value.without ==> w !in seen) &&
     ParseArg(Keywords[it.name], it.arg, tui).Ok?)
  }

  /** Every item is acceptable after the parameters set before the list and those before it in the list. */
  predicate Accepted(schema: seq<Decl>, items: seq<Item>, tui: bool, seen: set<string>)
    requires SchemaOk(schema)
  {
    forall k :: 0 <= k < |items| ==> ItemOk(schema, items[k], tui, seen + Names(items[..k]))
  }

  lemma {:induction false} AcceptedCons(schema: seq<Decl>, items: seq<Item>, tui: bool, seen: set<string>)
    requires SchemaOk(schema) && items != []
    ensures Accepted(schema, items, tui, seen) <==>
            ItemOk(schema, items[0], tui, seen) && Accepted(schema, items[1..], tui, seen + Names(items[..1]))
  {
    var head := Names(items[..1]);
    assert Names(items[..0]) == {} by { assert items[..0] == []; }
    assert items[..1][1..] == [];
    forall k | 0 <= k < |items| - 1
      ensures Names(items[..k + 1]) == head + Names(items[1..][..k])
    {
      assert items[..k + 1][0] == items[0] && items[..k + 1][1..] == items[1..][..k];
    }
    if Accepted(schema, items[1..], tui, seen + head) && ItemOk(schema, items[0], tui, seen) {
      forall k | 0 <= k < |items|
        ensures ItemOk(schema, items[k], tui, seen + Names(items[..k]))
      {
        if k > 0 {
          assert items[k] == items[1..][k - 1];
          assert seen + Names(items[..k]) == seen + head + Names(items[1..][..k - 1]);
        }
      }
    }
    if Accepted(schema, items, tui, seen) {
      forall k | 0 <= k < |items| - 1
        ensures ItemOk(schema, items[1..][k], tui, seen + head + Names(items[1..][..k]))
      {
        assert items[1..][k] == items[k + 1];
        assert seen + Names(items[..k + 1]) == seen + head + Names(items[1..][..k]);
      }
    }
  }

  /** The parser succeeds exactly on acceptable lists. */
  lemma {:induction false} ParseItemsAccepts(schema: seq<Decl>, items: seq<Item>, tui: bool, set_: map<string, Value>)
    requires SchemaOk(schema)
    ensures ParseItems(schema, items, tui, set_).Ok? <==> Accepted(schema, items, tui, set_.Keys)
    decreases |items|
  {
    if items != [] {
      AcceptedCons(schema, items, tui, set_.Keys);
      if ItemOk(schema, items[0], tui, set_.Keys) {
        var next := AcceptedStep(schema, items, tui, set_);
        ParseItemsAccepts(schema, items[1..], tui, next);
      } else {
        RefusedFirst(schema, items, tui, set_);
      }
    }
  }

  /** A list whose first item is not acceptable is refused. */
  lemma RefusedFirst(schema: seq<Decl>, items: seq<Item>, tui: bool, set_: map<string, Value>)
    requires SchemaOk(schema) && items != [] && !ItemOk(schema, items[0], tui, set_.Keys)
    ensures ParseItems(schema, items, tui, set_).Err?
  {
    if items[0].Param? {
      var d := Declared(schema, items[0].name);
      if d.Some? && items[0].name !in set_ && FirstSet(d.value.without, set_).None? {
        forall w | w in d.value.without
          ensures w !in set_.Keys
        {
          var k :| 0 <= k < |d.value.without| && d.value.without[k] == w;
        }
      }
    }
  }

  /** On success the parser has set exactly the parameters set before and those written. */
  lemma {:induction false} ParseItemsKeys(schema: seq<Decl>, items: seq<Item>, tui: bool, set_: map<string, Value>)
    requires SchemaOk(schema)
    ensures ParseItems(schema, items, tui, set_).Ok? ==>
              ParseItems(schema, items, tui, set_).value.Keys == set_.Keys + Names(items)
    decreases |items|
  {
    if items != [] {
      match items[0]
      case Comma =>
        ParseItemsKeys(schema, items[1..], tui, set_);
      case Stray =>
      case Param(name, arg) =>
        var d := Declared(schema, name);
        if d.Some? && name !in set_ && FirstSet(d.value.without, set_).None? &&
           ParseArg(Keywords[name], arg, tui).Ok? {
          ParseItemsKeys(schema, items[1..], tui, set_[name := ParseArg(Keywords[name], arg, tui).value]);
        }
    }
  }

  /** Each parameter written in `items` holds, in `m`, the value its own argument reads as. */
  predicate ArgsReadAs(items: seq<Item>, tui: bool, m: map<string, Value>) {
    forall k :: 0 <= k < |items| && items[k].Param? ==>
      items[k].name in Keywords && items[k].name in m &&
      ParseArg(Keywords[items[k].name], items[k].arg, tui) == Ok(m[items[k].name])
  }

  lemma ArgsReadAsCons(items: seq<Item>, tui: bool, m: map<string, Value>)
    requires items != [] && ArgsReadAs(items[1..], tui, m)
    requires items[0].Param? ==>
               items[0].name in Keywords && items[0].name in m &&
               ParseArg(Keywords[items[0].name], items[0].arg, tui) == Ok(m[items[0].name])
    ensures ArgsReadAs(items, tui, m)
  {
    forall k | 0 < k < |items|
      ensures items[k] == items[1..][k - 1]
    {
    }
  }

  /** On success each parameter written holds the value its own argument reads as. */
  lemma {:induction false} ParseItemsValues(schema: seq<Decl>, items: seq<Item>, tui: bool, set_: map<string, Value>)
    requires SchemaOk(schema)
    ensures ParseItems(schema, items, tui, set_).Ok? ==> ArgsReadAs(items, tui, ParseItems(schema, items, tui, set_).value)
    decreases |items|
  {
    var r := ParseItems(schema, items, tui, set_);
    if items != [] && r.Ok? {
      var rest := items[1..];
      match items[0]
      case Comma =>
        ParseItemsValues(schema, rest, tui, set_);
        ArgsReadAsCons(items, tui, r.value);
      case Param(name, arg) =>
        var next := set_[name := ParseArg(Keywords[name], arg, tui).value];
        assert r == ParseItems(schema, rest, tui, next);
        ParseItemsValues(schema, rest, tui, next);
        ParamKept(schema, items, tui, next);
        ArgsReadAsCons(items, tui, r.value);
    }
  }

  /** The parameter the first item sets keeps its value to the end of a successful parse. */
  lemma ParamKept(schema: seq<Decl>, items: seq<Item>, tui: bool, next: map<string, Value>)
    requires SchemaOk(schema) && items != [] && items[0].Param?
    requires items[0].name in Keywords && ParseArg(Keywords[items[0].name], items[0].arg, tui).Ok?
    requires items[0].name in next && next[items[0].name] == ParseArg(Keywords[items[0].name], items[0].arg, tui).value
    requires ParseItems(schema, items[1..], tui, next).Ok?
    ensures items[0].name in ParseItems(schema, items[1..], tui, next).value
    ensures ParseArg(Keywords[items[0].name], items[0].arg, tui) ==
              Ok(ParseItems(schema, items[1..], tui, next).value[items[0].name])
  {
    var name := items[0].name;
    ParseItemsAccepts(schema, items[1..], tui, next);
    AcceptedFresh(schema, items[1..], tui, next.Keys, name);
    KeptUnlessRewritten(schema, items[1..], tui, next, name);
  }

  /** An accepted list writes none of the parameters already seen. */
  lemma {:induction false} AcceptedFresh(schema: seq<Decl>, items: seq<Item>, tui: bool, seen: set<string>, name: string)
    requires SchemaOk(schema) && Accepted(schema, items, tui, seen) && name in seen
    ensures name !in Names(items)
  {
    forall j | 0 <= j < |items| && items[j].Param?
      ensures items[j].name != name
    {
      assert ItemOk(schema, items[j], tui, seen + Names(items[..j]));
    }
    NotWritten(items, name);
  }

  lemma {:induction false} NotWritten(items: seq<Item>, name: string)
    requires forall j :: 0 <= j < |items| && items[j].Param? ==> items[j].name != name
    ensures name !in Names(items)
    decreases |items|
  {
    if items != [] {
      forall j | 0 <= j < |items[1..]| && items[1..][j].Param?
        ensures items[1..][j].name != name
      {
        assert items[1..][j] == items[j + 1];
      }
      NotWritten(items[1..], name);
    }
  }

  /** A name in `Names(items)` is written at some position. */
  lemma {:induction false} NameAt(items: seq<Item>, name: string) returns (j: nat)
    requires name in Names(items)
    ensures j < |items| && items[j].Param? && items[j].name == name && name !in Names(items[..j])
    decreases |items|
  {
    assert items != [];
    if items[0].Param? && items[0].name == name {
      j := 0;
      assert items[..0] == [];
    } else {
      var i := NameAt(items[1..], name);
      j := i + 1;
      assert items[..j][1..] == items[1..][..i];
    }
  }

  /** A parameter the rest of the list does not write keeps the value it had. */
  lemma {:induction false} KeptUnlessRewritten(schema: seq<Decl>, items: seq<Item>, tui: bool,
                                               set_: map<string, Value>, name: string)
    requires SchemaOk(schema) && name in set_ && name !in Names(items)
    ensures ParseItems(schema, items, tui, set_).Ok? ==>
              name in ParseItems(schema, items, tui, set_).value &&
              ParseItems(schema, items, tui, set_).value[name] == set_[name]
    decreases |items|
  {
    if items != [] {
      match items[0]
      case Comma =>
        KeptUnlessRewritten(schema, items[1..], tui, set_, name);
      case Stray =>
      case Param(n, arg) =>
        var d := Declared(schema, n);
        if d.Some? && n !in set_ && FirstSet(d.value.without, set_).None? && ParseArg(Keywords[n], arg, tui).Ok? {
          KeptUnlessRewritten(schema, items[1..], tui, set_[n := ParseArg(Keywords[n], arg, tui).value], name);
        }
    }
  }

  // ---- which refusal is reported -----------------------------------------------

  /** An acceptable first item is recorded and parsing goes on with the rest. */
  lemma AcceptedStep(schema: seq<Decl>, items: seq<Item>, tui: bool, set_: map<string, Value>)
    returns (next: map<string, Value>)
    requires SchemaOk(schema) && items != [] && ItemOk(schema, items[0], tui, set_.Keys)
    ensures next.Keys == set_.Keys + Names(items[..1])
    ensures ParseItems(schema, items, tui, set_) == ParseItems(schema, items[1..], tui, next)
  {
    assert items[..1] == [items[0]] && [items[0]][1..] == [];
    if items[0].Comma? {
      next := set_;
    } else {
      next := set_[items[0].name := ParseArg(Keywords[items[0].name], items[0].arg, tui).value];
    }
  }

  /** An acceptable non-empty prefix is an acceptable first item followed by an acceptable shorter prefix. */
  lemma AcceptedPrefixTail(schema: seq<Decl>, items: seq<Item>, tui: bool, seen: set<string>, j: nat)
    requires SchemaOk(schema) && 0 < j <= |items| && Accepted(schema, items[..j], tui, seen)
    ensures ItemOk(schema, items[0], tui, seen)
    ensures Accepted(schema, items[1..][..j - 1], tui, seen + Names(items[..1]))
    ensures Names(items[..j]) == Names(items[..1]) + Names(items[1..][..j - 1])
  {
    var p := items[..j];
    AcceptedCons(schema, p, tui, seen);
    assert p[0] == items[0] && p[1..] == items[1..][..j - 1] && p[..1] == items[..1];
    assert items[..1] == [items[0]] && [items[0]][1..] == [];
  }

  /** Parsing an acceptable prefix only records it: the rest is parsed with those parameters set. */
  lemma {:induction false} AcceptedPrefix(schema: seq<Decl>, items: seq<Item>, tui: bool, set_: map<string, Value>, j: nat)
    returns (m: map<string, Value>)
    requires SchemaOk(schema) && j <= |items| && Accepted(schema, items[..j], tui, set_.Keys)
    ensures m.Keys == set_.Keys + Names(items[..j])
    ensures ParseItems(schema, items, tui, set_) == ParseItems(schema, items[j..], tui, m)
    decreases j
  {
    if j == 0 {
      m := set_;
      assert items[..0] == [] && items[0..] == items;
    } else {
      AcceptedPrefixTail(schema, items, tui, set_.Keys, j);
      var next := AcceptedStep(schema, items, tui, set_);
      var rest := items[1..];
      m := AcceptedPrefix(schema, rest, tui, next, j - 1);
      assert rest[j - 1..] == items[j..];
      assert m.Keys == set_.Keys + Names(items[..1]) + Names(rest[..j - 1]);
    }
  }

  /**
   * A parameter written a second time, after an acceptable prefix, is reported
   * as a duplicate.
   */
  lemma DuplicateReported(schema: seq<Decl>, items: seq<Item>, tui: bool, j: nat)
    requires SchemaOk(schema) && j < |items| && Accepted(schema, items[..j], tui, {})
    requires items[j].Param? && Declared(schema, items[j].name).Some? && items[j].name in Names(items[..j])
    ensures ParseItems(schema, items, tui, map[]) == Err(Aborted(DuplicateParam(items[j].name)))
  {
    var m := AcceptedPrefix(schema, items, tui, map[], j);
    assert items[j..][0] == items[j];
  }

  /**
   * A new parameter written after one it excludes, after an acceptable prefix,
   * is reported as a conflict with one of the excluded parameters already written.
   */
  lemma ConflictReported(schema: seq<Decl>, items: seq<Item>, tui: bool, j: nat, w: string)
    requires SchemaOk(schema) && j < |items| && Accepted(schema, items[..j], tui, {})
    requires items[j].Param? && Declared(schema, items[j].name).Some? && items[j].name !in Names(items[..j])
    requires w in Declared(schema, items[j].name).value.without && w in Names(items[..j])
    ensures var r := ParseItems(schema, items, tui, map[]);
            r.Err? && r.error.Aborted? && r.error.reason.ConflictParam? &&
            r.error.reason.param == items[j].name &&
            r.error.reason.with in Declared(schema, items[j].name).value.without &&
            r.error.reason.with in Names(items[..j])
  {
    var m := AcceptedPrefix(schema, items, tui, map[], j);
    assert items[j..][0] == items[j];
    var without := Declared(schema, items[j].name).value.without;
    var k :| 0 <= k < |without| && without[k] == w;
    assert without[k] in m;
  }

  // ---- commas ------------------------------------------------------------------

  /** The list without its separating commas. */
  function NoCommas(items: seq<Item>): (r: seq<Item>)
    ensures |r| <= |items|
    ensures forall k :: 0 <= k < |r| ==> !r[k].Comma? && r[k] in items
    decreases |items|
  {
    if items == [] then []
    else if items[0].Comma? then NoCommas(items[1..])
    else [items[0]] + NoCommas(items[1..])
  }

  /** Commas separate parameters and carry nothing: where they stand, and how many, changes nothing. */
  lemma {:induction false} CommasIgnored(schema: seq<Decl>, items: seq<Item>, tui: bool, set_: map<string, Value>)
    ensures ParseItems(schema, items, tui, set_) == ParseItems(schema, NoCommas(items), tui, set_)
    decreases |items|
  {
    if items != [] {
      CommasIgnored(schema, items[1..], tui, set_);
      if !items[0].Comma? {
        var n := NoCommas(items);
        assert n[0] == items[0] && n[1..] == NoCommas(items[1..]);
        if items[0].Param? {
          var name := items[0].name;
          match Declared(schema, name)
          case None =>
          case Some(d) =>
            if name !in set_ && FirstSet(d.without, set_).None? && name in Keywords &&
               ParseArg(Keywords[name], items[0].arg, tui).Ok? {
              CommasIgnored(schema, items[1..], tui, set_[name := ParseArg(Keywords[name], items[0].arg, tui).value]);
            }
        }
      }
    }
  }

  // ---- reading the parsed parameters -------------------------------------------

  /** A string parameter's literal, `None` when it was not given. */
  function StrParam(m: map<string, Value>, name: string): Option<string> {
    if name in m && m[name].Str? then Some(m[name].s) else None
  }

  /** The `case` parameter. */
  function CaseParam(m: map<string, Value>): Option<Case> {
    if "case" in m && m["case"].CaseOf? then Some(m["case"].c) else None
  }

  /** A path, expression or function parameter. */
  function SyntaxParam(m: map<string, Value>, name: string): Option<Operand> {
    if name in m && m[name].Syntax? then Some(m[name].o) else None
  }

  /** Every value has the kind its keyword reads. */
  predicate WellTyped(m: map<string, Value>) {
    forall key :: key in m ==> key in Keywords && Fits(Keywords[key], m[key])
  }

  /** What the parser returns is well typed. */
  lemma ParsedWellTyped(schema: seq<Decl>, items: seq<Item>, tui: bool)
    requires SchemaOk(schema) && ParseItems(schema, items, tui, map[]).Ok?
    ensures WellTyped(ParseItems(schema, items, tui, map[]).value)
  {
    var m := ParseItems(schema, items, tui, map[]).value;
    ParseItemsKeys(schema, items, tui, map[]);
    ParseItemsValues(schema, items, tui, map[]);
    forall key | key in m
      ensures key in Keywords && Fits(Keywords[key], m[key])
    {
      var j := NameAt(items, key);
    }
  }

  /** A parameter written at position `i` is among those seen by every later position. */
  lemma {:induction false} NameInPrefix(items: seq<Item>, i: nat, j: nat)
    requires i < j <= |items| && items[i].Param?
    ensures items[i].name in Names(items[..j])
    decreases i
  {
    var p := items[..j];
    if i > 0 {
      NameInPrefix(items[1..], i - 1, j - 1);
      assert p[1..] == items[1..][..j - 1];
    }
  }

  /**
   * Two parameters that exclude each other are never both set by a successful
   * parse, whichever one is written first.
   */
  lemma ExclusivePair(schema: seq<Decl>, items: seq<Item>, tui: bool, a: string, b: string)
    requires SchemaOk(schema) && a != b
    requires Declared(schema, a).Some? && b in Declared(schema, a).value.without
    requires Declared(schema, b).Some? && a in Declared(schema, b).value.without
    requires ParseItems(schema, items, tui, map[]).Ok?
    ensures a in ParseItems(schema, items, tui, map[]).value ==> b !in ParseItems(schema, items, tui, map[]).value
  {
    var m := ParseItems(schema, items, tui, map[]).value;
    ParseItemsAccepts(schema, items, tui, map[]);
    ParseItemsKeys(schema, items, tui, map[]);
    assert m.Keys == Names(items);
    if a in m {
      var ja := NameAt(items, a);
      assert ItemOk(schema, items[ja], tui, {} + Names(items[..ja]));
      forall k | 0 <= k < |items| && items[k].Param?
        ensures items[k].name != b
      {
        if k < ja {
          NameInPrefix(items, k, ja);
        } else if k > ja {
          NameInPrefix(items, ja, k);
          assert ItemOk(schema, items[k], tui, {} + Names(items[..k]));
        }
      }
      NotWritten(items, b);
    }
  }
}
