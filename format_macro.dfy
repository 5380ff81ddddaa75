// ezmenu-macros/src/format.rs: the `fmt(...)` argument of the macro
// attributes. Its parameters are parsed by the `define_attr!` parser into
// `FormatInner`; `Format` also records whether some parameter was left out,
// so that the emitted struct literal ends with `..Default::default()` only
// when there is something left to default.
module FormatMacro {
  import opened Wrappers
  import opened MacroUtils
  import opened Kw

  /** The seven format parameters, in declaration (and emission) order. */
  const FieldNames: seq<string> :=
    ["prefix", "left_sur", "right_sur", "chip", "show_default", "suffix", "line_brk"]

  /** `Format`: the parameters given, and whether one of the seven is missing. */
  datatype Format = Format(inner: map<string, Value>, someOmitted: bool)

  /** A parameter is missing from `inner`. */
  predicate SomeMissing(inner: map<string, Value>) {
    exists k :: 0 <= k < |FieldNames| && FieldNames[k] !in inner
  }

  /** The `||` chain of `is_none()` over `names`, left to right. */
  function AnyNone(names: seq<string>, inner: map<string, Value>): (r: bool)
    ensures r <==> exists k :: 0 <= k < |names| && names[k] !in inner
  {
    if names == [] then false
    else if names[0] !in inner then true
    else
      var rest := AnyNone(names[1..], inner);
      assert forall k :: 1 <= k < |names| ==> names[k] == names[1..][k - 1];
      rest
  }

  /** `impl Default for Format`: nothing set, so something is omitted. */
  function Default(): (f: Format)
    ensures f.someOmitted && SomeMissing(f.inner)
  {
    var nothing: map<string, Value> := map[];
    assert FieldNames[0] !in nothing;
    Format(nothing, true)
  }

  /** `impl Parse for Format`: the parameter list, then the `some_omitted` flag. */
  function Parse(items: seq<Item>, tui: bool): (r: Result<Format, Failure>)
    ensures r.Ok? <==> ParseItems(FormatParams, items, tui, map[]).Ok?
    ensures r.Ok? ==> r.value.inner == ParseItems(FormatParams, items, tui, map[]).value
    ensures r.Ok? ==> (r.value.someOmitted <==> SomeMissing(r.value.inner))
  {
    match ParseItems(FormatParams, items, tui, map[])
    case Ok(inner) => Ok(Format(inner, AnyNone(FieldNames, inner)))
    case Err(e) => Err(e)
  }

  /** The `Format` a parsed `fmt(...)` argument holds. */
  function OfFields(inner: map<string, Value>): (f: Format)
    ensures f.inner == inner && Consistent(f)
  {
    Format(inner, AnyNone(FieldNames, inner))
  }

  /** The `fmt` parameter of an attribute, when given. */
  function FormatParam(m: map<string, Value>): Option<Format> {
    if "fmt" in m && m["fmt"].Fields? then Some(OfFields(m["fmt"].m)) else None
  }

  /** The well-formed states: a `Format` that `Default` or `Parse` can produce. */
  predicate Consistent(f: Format) {
    f.someOmitted == SomeMissing(f.inner)
  }

  /**
   * The struct literal `field::Format { f: v, ..., ..Default::default() }`:
   * the fields set, in declaration order, and whether the base struct follows.
   */
  datatype Literal = Literal(fields: seq<(string, Value)>, base: bool)

  function SetFields(names: seq<string>, inner: map<string, Value>): (r: seq<(string, Value)>)
    ensures |r| <= |names|
    ensures forall p :: p in r ==> p.0 in names && p.0 in inner && p.1 == inner[p.0]
    ensures forall k :: 0 <= k < |names| && names[k] in inner ==> (names[k], inner[names[k]]) in r
  {
    if names == [] then []
    else
      var rest := SetFields(names[1..], inner);
      assert forall k :: 1 <= k < |names| ==> names[k] == names[1..][k - 1];
      (if names[0] in inner then [(names[0], inner[names[0]])] else []) + rest
  }

  /** `impl ToTokens for Format`. */
  function Emit(f: Format): (r: Literal)
    ensures r.base == f.someOmitted
    ensures forall p :: p in r.fields ==> p.0 in FieldNames && p.0 in f.inner && p.1 == f.inner[p.0]
    ensures forall k :: 0 <= k < |FieldNames| && FieldNames[k] in f.inner ==>
              (FieldNames[k], f.inner[FieldNames[k]]) in r.fields
  {
    Literal(SetFields(FieldNames, f.inner), f.someOmitted)
  }

  /** No name occurs twice. */
  predicate Distinct(names: seq<string>) {
    forall i, j :: 0 <= i < j < |names| ==> names[i] != names[j]
  }

  /** Each field of a list of distinct names is emitted at most once. */
  lemma {:induction false} SetFieldsOnce(names: seq<string>, inner: map<string, Value>)
    requires Distinct(names)
    ensures forall i, j :: 0 <= i < j < |SetFields(names, inner)| ==>
              SetFields(names, inner)[i].0 != SetFields(names, inner)[j].0
  {
    if names != [] {
      var rest := SetFields(names[1..], inner);
      SetFieldsOnce(names[1..], inner);
      forall p | p in rest
        ensures p.0 != names[0]
      {
        var k :| 0 <= k < |names[1..]| && names[1..][k] == p.0;
        assert names[k + 1] == p.0;
      }
    }
  }

  /**
   * The emitted literal names each set parameter exactly once, and defaults
   * the rest exactly when one is missing: it is never a `needless_update`,
   * and never an incomplete struct literal.
   */
  lemma EmitComplete(f: Format)
    requires Consistent(f)
    ensures forall i, j :: 0 <= i < j < |Emit(f).fields| ==> Emit(f).fields[i].0 != Emit(f).fields[j].0
    ensures !Emit(f).base <==> forall k :: 0 <= k < |FieldNames| ==> FieldNames[k] in f.inner
  {
    SetFieldsOnce(FieldNames, f.inner);
  }

  /** Writing all seven parameters leaves nothing to default; leaving one out adds the base struct. */
  lemma ParseThenEmit(items: seq<Item>, tui: bool)
    requires Parse(items, tui).Ok?
    ensures Consistent(Parse(items, tui).value)
    ensures Emit(Parse(items, tui).value).base <==>
              exists k :: 0 <= k < |FieldNames| && FieldNames[k] !in Names(items)
  {
    FormatSchemaOk();
    ParseItemsKeys(FormatParams, items, tui, map[]);
  }

  /** The seven format parameters are keywords, declared in the order of `FieldNames`. */
  lemma FormatSchemaOk()
    ensures SchemaOk(FormatParams)
    ensures forall k :: 0 <= k < |FormatParams| ==> FormatParams[k].name == FieldNames[k]
  {
  }

  /** The default `Format` emits only `..Default::default()`. */
  lemma DefaultEmitsBase()
    ensures Emit(Default()) == Literal([], true)
  {
  }
}
