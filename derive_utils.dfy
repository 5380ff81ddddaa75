// ezmenu-derive/src/utils.rs (and the helpers of ezmenu-derive/src/lib.rs it
// shares): the `menu` attribute read as a `syn::Meta`, the dispatcher that
// walks its nested items, and the setters that store one literal each.
module DeriveUtils {
  import opened Wrappers

  /** A literal as `syn::Lit` sees it. */
  datatype Lit =
    | LStr(s: string)                        // "text"
    | LBool(b: bool)                         // true / false
    | LInt(digits: string)                   // 42
    | LOther(text: string)                   // a float, a char, a byte string...

  /** `syn::Meta`: a bare path, `path(nested, ...)` or `path = lit`. */
  datatype Meta =
    | MPath(path: seq<string>)
    | MList(path: seq<string>, nested: seq<NestedMeta>)
    | MNameValue(path: seq<string>, lit: Lit)

  /** `syn::NestedMeta`: an inner meta or a literal. */
  datatype NestedMeta = NMeta(meta: Meta) | NLit(lit: Lit)

  /**
   * An attribute: its path segments and what `parse_meta` makes of its
   * tokens, `None` when they do not form a meta.
   */
  datatype SynAttr = SynAttr(path: seq<string>, meta: Option<Meta>)

  /** Why the derive stops compiling the item. */
  datatype DeriveAbort =
    | ExpectedValue                          // a nested item that is neither `a(..)` nor `a = ..`
    | ValueMissing                           // `a()` with nothing inside
    | InvalidType(arg: string)               // a literal of the wrong kind for `arg`
    | InvalidArgName(arg: string)            // an argument name the struct does not know
    | IncorrectDef                           // a field attribute that is not a list
    | IncorrectMenuAttr                      // a `menu` attribute `parse_meta` rejects
    | NotAnIdent                             // `get_ident().unwrap()` on a multi-segment path
    | NotAnEnum                              // `#[parsed]` on something other than an enum
    | NotANamedStruct                        // `derive(Menu)` on a tuple or unit struct, or a union
    | EnumNotYet                             // `derive(Menu)` on an enum reaches `todo!`

  /** The text each abort reports (the parser error `syn` appends is not modelled). */
  function Message(a: DeriveAbort): (s: string) {
    match a
    case ExpectedValue => "expected value definition"
    case ValueMissing => "value definition missing"
    case InvalidType(arg) => "invalid literal type for `" + arg + "` attribute"
    case InvalidArgName(arg) => "invalid argument name: `" + arg + "`"
    case IncorrectDef => "incorrect definition of field attribute"
    case IncorrectMenuAttr => "incorrect definition of menu attribute: "
    case NotAnIdent => "called `Option::unwrap()` on a `None` value"
    case NotAnEnum => "ezmenu::parsed macro attribute only works on unit-like enums."
    case NotANamedStruct => "Menu derive supports only non-tuple structs and unit-like enums."
    case EnumNotYet => "not yet implemented: derive on enum soon"
  }

  /** `path_to_string`: the path's only identifier; `unwrap` panics on any other path. */
  function PathToString(path: seq<string>): (r: Result<string, DeriveAbort>)
    ensures r.Ok? <==> |path| == 1
    ensures r.Ok? ==> [r.value] == path
    ensures r.Err? ==> r.error == NotAnIdent
  {
    if |path| == 1 then Ok(path[0]) else Err(NotAnIdent)
  }

  /** `get_first_nested`: the first item inside the parentheses; none aborts. */
  function GetFirstNested(nested: seq<NestedMeta>): (r: Result<NestedMeta, DeriveAbort>)
    ensures r.Ok? <==> nested != []
    ensures r.Ok? ==> r.value == nested[0]
    ensures r.Err? ==> r.error == ValueMissing
  {
    if nested == [] then Err(ValueMissing) else Ok(nested[0])
  }

  /** An item the dispatcher hands on: `name(first, ...)` or `name = lit`, `name` one identifier. */
  predicate WellShaped(nm: NestedMeta) {
    match nm
    case NMeta(MList(path, nested)) => |path| == 1 && nested != []
    case NMeta(MNameValue(path, _)) => |path| == 1
    case _ => false
  }

  /**
   * One turn of the `for` loop of `parse`: a list item goes to `onNested` with
   * its first inner item, a name-value item to `onValue`, anything else aborts.
   */
  function Dispatch<T>(desc: T, onNested: (T, string, NestedMeta) -> Result<T, DeriveAbort>,
                       onValue: (T, string, Lit) -> Result<T, DeriveAbort>, nm: NestedMeta): (r: Result<T, DeriveAbort>)
    ensures !WellShaped(nm) ==> r.Err?
    ensures nm.NMeta? && nm.meta.MList? && nm.meta.nested != [] && |nm.meta.path| == 1 ==>
              r == onNested(desc, nm.meta.path[0], nm.meta.nested[0])
    ensures nm.NMeta? && nm.meta.MNameValue? && |nm.meta.path| == 1 ==>
              r == onValue(desc, nm.meta.path[0], nm.meta.lit)
  {
    match nm
    case NMeta(MList(path, nested)) =>
      var first := GetFirstNested(nested);
      if first.Err? then Err(first.error)
      else
        var name := PathToString(path);
        if name.Err? then Err(name.error) else onNested(desc, name.value, first.value)
    case NMeta(MNameValue(path, lit)) =>
      var name := PathToString(path);
      if name.Err? then Err(name.error) else onValue(desc, name.value, lit)
    case _ => Err(ExpectedValue)
  }

  /** The items of a list meta dispatched in order, stopping at the first abort. */
  function DispatchAll<T>(desc: T, onNested: (T, string, NestedMeta) -> Result<T, DeriveAbort>,
                          onValue: (T, string, Lit) -> Result<T, DeriveAbort>, items: seq<NestedMeta>): (r: Result<T, DeriveAbort>)
    ensures items == [] ==> r == Ok(desc)
    decreases |items|
  {
    if items == [] then Ok(desc)
    else
      var before := DispatchAll(desc, onNested, onValue, items[..|items| - 1]);
      if before.Err? then before else Dispatch(before.value, onNested, onValue, items[|items| - 1])
  }

  /** What `parse` computes: only a list meta is walked; anything else aborts. */
  function ParseSpec<T>(desc: T, onNested: (T, string, NestedMeta) -> Result<T, DeriveAbort>,
                        onValue: (T, string, Lit) -> Result<T, DeriveAbort>, input: Meta): (r: Result<T, DeriveAbort>)
    ensures !input.MList? ==> r == Err(IncorrectDef)
  {
    if input.MList? then DispatchAll(desc, onNested, onValue, input.nested) else Err(IncorrectDef)
  }

  /** `parse`: the `for` loop over the nested items, updating `desc` as it goes. */
  method Parse<T>(desc: T, onNested: (T, string, NestedMeta) -> Result<T, DeriveAbort>,
                  onValue: (T, string, Lit) -> Result<T, DeriveAbort>, input: Meta) returns (r: Result<T, DeriveAbort>)
    ensures r == ParseSpec(desc, onNested, onValue, input)
  {
    if !input.MList? {
      return Err(IncorrectDef);
    }
    var items := input.nested;
    var current := desc;
    var i := 0;
    while i < |items|
      invariant 0 <= i <= |items|
      invariant DispatchAll(desc, onNested, onValue, items[..i]) == Ok(current)
    {
      assert items[..i + 1][..i] == items[..i];
      var step := Dispatch(current, onNested, onValue, items[i]);
      if step.Err? {
        DispatchStops(desc, onNested, onValue, items, i + 1);
        return step;
      }
      current := step.value;
      i := i + 1;
    }
    assert items[..i] == items;
    r := Ok(current);
  }

  /** An abort among the first `k` items is the abort of the whole list. */
  lemma {:induction false} DispatchStops<T>(desc: T, onNested: (T, string, NestedMeta) -> Result<T, DeriveAbort>,
                                            onValue: (T, string, Lit) -> Result<T, DeriveAbort>,
                                            items: seq<NestedMeta>, k: nat)
    requires k <= |items|
    requires DispatchAll(desc, onNested, onValue, items[..k]).Err?
    ensures DispatchAll(desc, onNested, onValue, items) == DispatchAll(desc, onNested, onValue, items[..k])
    decreases |items| - k
  {
    if k < |items| {
      assert items[..k + 1][..k] == items[..k];
      DispatchStops(desc, onNested, onValue, items, k + 1);
    } else {
      assert items[..k] == items;
    }
  }

  /** A walk that succeeds saw only well-shaped items, and succeeded on every prefix. */
  lemma {:induction false} DispatchOkShapes<T>(desc: T, onNested: (T, string, NestedMeta) -> Result<T, DeriveAbort>,
                                               onValue: (T, string, Lit) -> Result<T, DeriveAbort>, items: seq<NestedMeta>)
    requires DispatchAll(desc, onNested, onValue, items).Ok?
    ensures forall k :: 0 <= k < |items| ==> WellShaped(items[k])
    ensures forall k :: 0 <= k <= |items| ==> DispatchAll(desc, onNested, onValue, items[..k]).Ok?
    decreases |items|
  {
    if items != [] {
      var front := items[..|items| - 1];
      DispatchOkShapes(desc, onNested, onValue, front);
      forall k | 0 <= k <= |items|
        ensures DispatchAll(desc, onNested, onValue, items[..k]).Ok?
      {
        if k < |items| {
          assert items[..k] == front[..k];
        } else {
          assert items[..k] == items;
        }
      }
      forall k | 0 <= k < |items|
        ensures WellShaped(items[k])
      {
        if k < |items| - 1 {
          assert items[k] == front[k];
        }
      }
    }
  }

  /** The first badly shaped item, reached after a successful prefix, aborts the whole walk. */
  lemma FirstBadItemAborts<T>(desc: T, onNested: (T, string, NestedMeta) -> Result<T, DeriveAbort>,
                              onValue: (T, string, Lit) -> Result<T, DeriveAbort>, items: seq<NestedMeta>, k: nat)
    requires k < |items| && !WellShaped(items[k])
    requires DispatchAll(desc, onNested, onValue, items[..k]).Ok?
    ensures DispatchAll(desc, onNested, onValue, items).Err?
  {
    assert items[..k + 1][..k] == items[..k];
    DispatchStops(desc, onNested, onValue, items, k + 1);
  }

  // ---- the setters: each stores one literal of the kind it expects ----------

  /** `run_nv_bool`: `arg = true`. */
  function RunNvBool(arg: string, lit: Lit): (r: Result<bool, DeriveAbort>)
    ensures r.Ok? <==> lit.LBool?
    ensures r.Ok? ==> lit == LBool(r.value)
    ensures r.Err? ==> r.error == InvalidType(arg)
  {
    if lit.LBool? then Ok(lit.b) else Err(InvalidType(arg))
  }

  /** `run_nv_str`: `arg = "text"`. */
  function RunNvStr(arg: string, lit: Lit): (r: Result<string, DeriveAbort>)
    ensures r.Ok? <==> lit.LStr?
    ensures r.Ok? ==> lit == LStr(r.value)
    ensures r.Err? ==> r.error == InvalidType(arg)
  {
    if lit.LStr? then Ok(lit.s) else Err(InvalidType(arg))
  }

  /** `run_nested`: `arg(lit)`, any literal. */
  function RunNested(arg: string, nm: NestedMeta): (r: Result<Lit, DeriveAbort>)
    ensures r.Ok? <==> nm.NLit?
    ensures r.Ok? ==> nm == NLit(r.value)
    ensures r.Err? ==> r.error == InvalidType(arg)
  {
    if nm.NLit? then Ok(nm.lit) else Err(InvalidType(arg))
  }

  /** `run_nested_bool`: `arg(true)`. */
  function RunNestedBool(arg: string, nm: NestedMeta): (r: Result<bool, DeriveAbort>)
    ensures r.Ok? <==> nm.NLit? && nm.lit.LBool?
    ensures r.Ok? ==> nm == NLit(LBool(r.value))
    ensures r.Err? ==> r.error == InvalidType(arg)
  {
    if nm.NLit? && nm.lit.LBool? then Ok(nm.lit.b) else Err(InvalidType(arg))
  }

  /** `run_nested_path`: `arg(some::path)`. */
  function RunNestedPath(arg: string, nm: NestedMeta): (r: Result<seq<string>, DeriveAbort>)
    ensures r.Ok? <==> nm.NMeta? && nm.meta.MPath?
    ensures r.Ok? ==> nm == NMeta(MPath(r.value))
    ensures r.Err? ==> r.error == InvalidType(arg)
  {
    if nm.NMeta? && nm.meta.MPath? then Ok(nm.meta.path) else Err(InvalidType(arg))
  }

  /** `run_nested_str`: `arg("text")`. */
  function RunNestedStr(arg: string, nm: NestedMeta): (r: Result<string, DeriveAbort>)
    ensures r.Ok? <==> nm.NLit? && nm.lit.LStr?
    ensures r.Ok? ==> nm == NLit(LStr(r.value))
    ensures r.Err? ==> r.error == InvalidType(arg)
  {
    if nm.NLit? && nm.lit.LStr? then Ok(nm.lit.s) else Err(InvalidType(arg))
  }

  /** Every bool setter accepts exactly what its name-value twin accepts, in list form. */
  lemma NestedBoolMatchesNv(arg: string, lit: Lit)
    ensures RunNestedBool(arg, NLit(lit)) == RunNvBool(arg, lit)
    ensures RunNestedStr(arg, NLit(lit)) == RunNvStr(arg, lit)
  {
  }

  // ---- finding the `menu` attribute -------------------------------------------

  /** utils.rs's test: the path's first segment is `menu`. */
  predicate FirstSegmentMenu(path: seq<string>) {
    |path| > 0 && path[0] == "menu"
  }

  /** lib.rs's test: the path is the single identifier `menu`. */
  predicate IsIdentMenu(path: seq<string>) {
    path == ["menu"]
  }

  /** The position of the first attribute whose path passes `isMenu`. */
  function FirstMenu(attrs: seq<SynAttr>, isMenu: seq<string> -> bool): (r: Option<nat>)
    ensures r.Some? ==> r.value < |attrs| && isMenu(attrs[r.value].path)
    ensures r.Some? ==> forall j :: 0 <= j < r.value ==> !isMenu(attrs[j].path)
    ensures r.None? ==> forall j :: 0 <= j < |attrs| ==> !isMenu(attrs[j].path)
  {
    if attrs == [] then None
    else if isMenu(attrs[0].path) then Some(0)
    else
      var rest := FirstMenu(attrs[1..], isMenu);
      if rest.None? then None else Some(rest.value + 1)
  }

  /**
   * `find_map` over the attributes: the first `menu` attribute parsed to a
   * meta, or `None`; a first `menu` attribute that does not parse aborts
   * with `failure` (later ones are never looked at).
   */
  function MetaOfFirst(attrs: seq<SynAttr>, isMenu: seq<string> -> bool, failure: DeriveAbort): (r: Result<Option<Meta>, DeriveAbort>)
    ensures r == Ok(None) <==> FirstMenu(attrs, isMenu).None?
    ensures r.Ok? && r.value.Some? ==>
              (FirstMenu(attrs, isMenu).Some? && attrs[FirstMenu(attrs, isMenu).value].meta == r.value)
    ensures r.Err? ==> r.error == failure && attrs[FirstMenu(attrs, isMenu).value].meta.None?
  {
    var k := FirstMenu(attrs, isMenu);
    if k.None? then Ok(None)
    else if attrs[k.value].meta.None? then Err(failure)
    else Ok(attrs[k.value].meta)
  }

  /** utils.rs `get_meta_attr`. */
  function GetMetaAttr(attrs: seq<SynAttr>): (r: Result<Option<Meta>, DeriveAbort>)
    ensures r.Err? ==> r.error == IncorrectDef
    ensures r == Ok(None) <==> forall j :: 0 <= j < |attrs| ==> !FirstSegmentMenu(attrs[j].path)
  {
    MetaOfFirst(attrs, FirstSegmentMenu, IncorrectDef)
  }

  /** lib.rs `get_meta_attr`. */
  function GetMenuMeta(attrs: seq<SynAttr>): (r: Result<Option<Meta>, DeriveAbort>)
    ensures r.Err? ==> r.error == IncorrectMenuAttr
    ensures r == Ok(None) <==> forall j :: 0 <= j < |attrs| ==> !IsIdentMenu(attrs[j].path)
  {
    MetaOfFirst(attrs, IsIdentMenu, IncorrectMenuAttr)
  }

  /**
   * The two lookups pick the same attribute unless some path starts with
   * `menu` and goes on (`menu::x`), which only the utils.rs test accepts.
   */
  lemma {:induction false} LookupsAgree(attrs: seq<SynAttr>)
    requires forall j :: 0 <= j < |attrs| ==> (FirstSegmentMenu(attrs[j].path) ==> IsIdentMenu(attrs[j].path))
    ensures FirstMenu(attrs, FirstSegmentMenu) == FirstMenu(attrs, IsIdentMenu)
    ensures GetMetaAttr(attrs).Ok? <==> GetMenuMeta(attrs).Ok?
    ensures GetMetaAttr(attrs).Ok? ==> GetMetaAttr(attrs) == GetMenuMeta(attrs)
  {
    if attrs != [] {
      assert FirstSegmentMenu(attrs[0].path) == IsIdentMenu(attrs[0].path);
      LookupsAgree(attrs[1..]);
    }
  }

  /** A `menu::x` attribute is found by the utils.rs lookup only. */
  lemma LookupsDiffer()
    ensures GetMetaAttr([SynAttr(["menu", "x"], Some(MPath(["menu", "x"])))]) == Ok(Some(MPath(["menu", "x"])))
    ensures GetMenuMeta([SynAttr(["menu", "x"], Some(MPath(["menu", "x"])))]) == Ok(None)
  {
    var attrs := [SynAttr(["menu", "x"], Some(MPath(["menu", "x"])))];
    assert FirstSegmentMenu(attrs[0].path);
    assert !IsIdentMenu(attrs[0].path);
  }
}
