// ezmenu-derive/src/lib.rs: the `#[parsed]` attribute (a case-insensitive
// `FromStr` for unit enums) and `derive(Menu)` on structs with named fields,
// which collects the field initialisations and emits `from_menu`.
module DeriveLib {
  import opened Wrappers
  import opened Text
  import opened Errors
  import opened DeriveUtils
  import opened DeriveField
  import opened DeriveImpl

  /** A named field: its identifier and attributes. */
  datatype NamedField = NamedField(ident: string, attrs: seq<SynAttr>)

  /** What the derive input holds: an enum (its variant names), a struct with named fields, or anything else. */
  datatype Data = EnumData(variants: seq<string>) | NamedStruct(fields: seq<NamedField>) | OtherData

  datatype DeriveInput = DeriveInput(ident: string, attrs: seq<SynAttr>, data: Data)

  // ---- #[parsed] --------------------------------------------------------------------

  /** The generated `from_str`: its match arms, lowercased variant name to variant, in declaration order. */
  datatype FromStrImpl = FromStrImpl(name: string, arms: seq<(string, string)>)

  function Arms(variants: seq<string>): (r: seq<(string, string)>)
    ensures |r| == |variants|
    ensures forall k :: 0 <= k < |variants| ==> r[k] == (ToLower(variants[k]), variants[k])
  {
    if variants == [] then [] else [(ToLower(variants[0]), variants[0])] + Arms(variants[1..])
  }

  /** `parsed`: only an enum gets an implementation; the item itself is emitted unchanged. */
  function ParsedOf(input: DeriveInput): (r: Result<FromStrImpl, DeriveAbort>)
    ensures r.Ok? <==> input.data.EnumData?
    ensures r.Ok? ==> r.value.name == input.ident && r.value.arms == Arms(input.data.variants)
    ensures r.Err? ==> r.error == NotAnEnum
  {
    if input.data.EnumData? then Ok(FromStrImpl(input.ident, Arms(input.data.variants))) else Err(NotAnEnum)
  }

  /** The first arm whose pattern is `key`: a `match` tries its arms top to bottom. */
  function FirstArm(arms: seq<(string, string)>, key: string): (r: Option<nat>)
    ensures r.Some? ==> r.value < |arms| && arms[r.value].0 == key
    ensures r.Some? ==> forall j :: 0 <= j < r.value ==> arms[j].0 != key
    ensures r.None? ==> forall j :: 0 <= j < |arms| ==> arms[j].0 != key
  {
    if arms == [] then None
    else if arms[0].0 == key then Some(0)
    else
      var rest := FirstArm(arms[1..], key);
      if rest.None? then None else Some(rest.value + 1)
  }

  /** The generated `from_str`: match the lowercased input; no arm gives `MenuError::Other`. */
  function FromStr(impl: FromStrImpl, s: string): (r: Result<string, MenuError>)
    ensures r.Err? ==> r.error == Other("unrecognized input for `" + s + "`")
  {
    var k := FirstArm(impl.arms, ToLower(s));
    if k.None? then Err(Other("unrecognized input for `" + s + "`")) else Ok(impl.arms[k.value].1)
  }

  /**
   * `from_str` answers the first variant, in declaration order, whose name
   * equals the input up to ASCII case, and fails exactly when there is none.
   */
  lemma FromStrSpec(name: string, variants: seq<string>, s: string)
    ensures var r := FromStr(FromStrImpl(name, Arms(variants)), s);
            (r.Err? <==> forall j :: 0 <= j < |variants| ==> ToLower(variants[j]) != ToLower(s))
            && (r.Ok? ==> exists k :: 0 <= k < |variants| && r.value == variants[k]
                                      && ToLower(variants[k]) == ToLower(s)
                                      && forall j :: 0 <= j < k ==> ToLower(variants[j]) != ToLower(s))
  {
    var arms := Arms(variants);
    var i := FirstArm(arms, ToLower(s));
    if i.None? {
      forall j | 0 <= j < |variants|
        ensures ToLower(variants[j]) != ToLower(s)
      {
        assert arms[j].0 == ToLower(variants[j]);
      }
    } else {
      var k := i.value;
      assert arms[k] == (ToLower(variants[k]), variants[k]);
      forall j | 0 <= j < k
        ensures ToLower(variants[j]) != ToLower(s)
      {
        assert arms[j].0 == ToLower(variants[j]);
      }
    }
  }

  /** Inputs equal up to ASCII case are answered alike. */
  lemma FromStrIgnoresCase(impl: FromStrImpl, s: string, t: string)
    requires ToLower(s) == ToLower(t)
    ensures FromStr(impl, s).Ok? <==> FromStr(impl, t).Ok?
    ensures FromStr(impl, s).Ok? ==> FromStr(impl, s).value == FromStr(impl, t).value
  {
  }

  /** Typing a variant's name gives it back when no earlier variant shares its lowercase form. */
  lemma FromStrRoundTrip(name: string, variants: seq<string>, k: nat)
    requires k < |variants|
    requires forall j :: 0 <= j < k ==> ToLower(variants[j]) != ToLower(variants[k])
    ensures FromStr(FromStrImpl(name, Arms(variants)), variants[k]) == Ok(variants[k])
  {
    var s := variants[k];
    FromStrSpec(name, variants, s);
    var r := FromStr(FromStrImpl(name, Arms(variants)), s);
    assert r.Ok?;
    var i :| 0 <= i < |variants| && r.value == variants[i] && ToLower(variants[i]) == ToLower(s)
             && forall j :: 0 <= j < i ==> ToLower(variants[j]) != ToLower(s);
    assert !(i < k);
    assert !(k < i);
  }

  /** The same holds for the name typed in capitals. */
  lemma FromStrUpperRoundTrip(name: string, variants: seq<string>, k: nat)
    requires k < |variants|
    requires forall j :: 0 <= j < k ==> ToLower(variants[j]) != ToLower(variants[k])
    ensures FromStr(FromStrImpl(name, Arms(variants)), ToUpper(variants[k])) == Ok(variants[k])
  {
    FromStrRoundTrip(name, variants, k);
    ToLowerOfUpper(variants[k]);
    FromStrIgnoresCase(FromStrImpl(name, Arms(variants)), ToUpper(variants[k]), variants[k]);
  }

  /** Of two variants equal up to case, the later one can never be produced. */
  lemma ShadowedVariant()
    ensures FromStr(FromStrImpl("Answer", Arms(["Yes", "YES"])), "YES") == Ok("Yes")
  {
    ToLowerOfUpper("Yes");
    assert ToLower("YES") == "yes";
    assert ToLower("Yes") == "yes";
    assert Arms(["Yes", "YES"])[0] == ("yes", "Yes");
  }

  // ---- derive(Menu) -----------------------------------------------------------------------

  /** One field's initialisation (`FieldMenuInit::from`). */
  function InitOf(f: NamedField): Result<FieldMenuInit, DeriveAbort> {
    FieldMenuInitOf(f.ident, f.attrs)
  }

  /** `k` is the first field whose initialisation aborts, with `e`. */
  ghost predicate FirstAbort(fields: seq<NamedField>, k: int, e: DeriveAbort) {
    0 <= k < |fields| && InitOf(fields[k]) == Err(e) && forall j :: 0 <= j < k ==> InitOf(fields[j]).Ok?
  }

  /** The first abort among the fields after a successful head is the first abort of the whole list. */
  lemma FirstAbortShift(fields: seq<NamedField>, k: int, e: DeriveAbort)
    requires fields != [] && InitOf(fields[0]).Ok? && FirstAbort(fields[1..], k, e)
    ensures FirstAbort(fields, k + 1, e)
  {
    forall j | 0 <= j < k + 1
      ensures InitOf(fields[j]).Ok?
    {
      if j > 0 {
        assert fields[j] == fields[1..][j - 1];
      }
    }
  }

  /** Each field's initialisation in declaration order; the first field that aborts stops the derive. */
  function FieldInits(fields: seq<NamedField>): (r: Result<seq<FieldMenuInit>, DeriveAbort>)
    ensures r.Ok? <==> forall k :: 0 <= k < |fields| ==> InitOf(fields[k]).Ok?
    ensures r.Ok? ==> |r.value| == |fields|
    ensures r.Ok? ==> forall k :: 0 <= k < |fields| ==> r.value[k] == InitOf(fields[k]).value
    ensures r.Err? ==> exists k :: FirstAbort(fields, k, r.error)
  {
    if fields == [] then Ok([])
    else
      var first := InitOf(fields[0]);
      if first.Err? then
        assert FirstAbort(fields, 0, first.error);
        Err(first.error)
      else
        var rest := FieldInits(fields[1..]);
        assert forall k :: 1 <= k < |fields| ==> fields[k] == fields[1..][k - 1];
        if rest.Err? then
          assert exists k :: FirstAbort(fields, k, rest.error) by {
            var k :| FirstAbort(fields[1..], k, rest.error);
            FirstAbortShift(fields, k, rest.error);
          }
          Err(rest.error)
        else Ok([first.value] + rest.value)
  }

  /** The emitted `from_menu`: the builder chain, then `Self { field: menu.next()?, ... }`. */
  datatype FromMenuImpl = FromMenuImpl(name: string, chain: seq<MenuCall>, kinds: seq<FieldInitKind>)

  function Kinds(inits: seq<FieldMenuInit>): (r: seq<FieldInitKind>)
    ensures |r| == |inits| && forall k :: 0 <= k < |inits| ==> r[k] == inits[k].kind
  {
    if inits == [] then [] else [inits[0].kind] + Kinds(inits[1..])
  }

  /** `def_init`. */
  function DefInit(name: string, m: MenuInit): FromMenuImpl {
    FromMenuImpl(name, MenuChain(m), Kinds(m.fields))
  }

  /**
   * `build_struct`: the struct's `menu` attribute is looked up first, the
   * fields are initialised next, and the struct attribute's content is read
   * last, inside `MenuInit::new`.
   */
  function BuildStruct(name: string, attrs: seq<SynAttr>, fields: seq<NamedField>): (r: Result<FromMenuImpl, DeriveAbort>)
    ensures GetMenuMeta(attrs).Err? ==> r == Err(GetMenuMeta(attrs).error)
    ensures GetMenuMeta(attrs).Ok? && FieldInits(fields).Err? ==> r == Err(FieldInits(fields).error)
  {
    var structAttr := GetMenuMeta(attrs);
    if structAttr.Err? then Err(structAttr.error)
    else
      var inits := FieldInits(fields);
      if inits.Err? then Err(inits.error)
      else
        var m := MenuInitNew(structAttr.value, inits.value);
        if m.Err? then Err(m.error) else Ok(DefInit(name, m.value))
  }

  /** `build_menu`: named structs only; an enum reaches `todo!`, anything else aborts. */
  function BuildMenu(input: DeriveInput): (r: Result<FromMenuImpl, DeriveAbort>)
    ensures input.data.EnumData? ==> r == Err(EnumNotYet)
    ensures input.data.OtherData? ==> r == Err(NotANamedStruct)
    ensures input.data.NamedStruct? ==> r == BuildStruct(input.ident, input.attrs, input.data.fields)
  {
    match input.data
    case EnumData(_) => Err(EnumNotYet)
    case NamedStruct(fields) => BuildStruct(input.ident, input.attrs, fields)
    case OtherData => Err(NotANamedStruct)
  }

  /**
   * A successful derive fills every field in declaration order, each with
   * `next` or, when it has `then`, `next_map`; adds one `.with_field(..)` per
   * field after at most a title and a format; and emits `.title(..)` exactly
   * when the struct attribute gives one.
   */
  lemma {:induction false} BuildStructSpec(name: string, attrs: seq<SynAttr>, fields: seq<NamedField>)
    requires BuildStruct(name, attrs, fields).Ok?
    ensures FieldInits(fields).Ok? && GetMenuMeta(attrs).Ok?
    ensures var impl := BuildStruct(name, attrs, fields).value;
            0 <= |impl.chain| - |fields| <= 2 && |impl.kinds| == |fields|
    ensures var impl := BuildStruct(name, attrs, fields).value;
            forall k :: 0 <= k < |fields| ==> impl.kinds[k].ident == fields[k].ident
    ensures var impl := BuildStruct(name, attrs, fields).value;
            impl.chain[|impl.chain| - |fields|..] == WithFields(FieldInits(fields).value)
    ensures GetMenuMeta(attrs).value.None? ==>
              BuildStruct(name, attrs, fields).value.chain == WithFields(FieldInits(fields).value)
    ensures CountTitles(BuildStruct(name, attrs, fields).value.chain) == 1 <==>
              GetMenuMeta(attrs).value.Some? && MenuDescOf(GetMenuMeta(attrs).value.value).value.title.Some?
  {
    var meta := GetMenuMeta(attrs);
    var fi := FieldInits(fields);
    BuildStructParts(name, attrs, fields);
    var m := MenuInitNew(meta.value, fi.value);
    DefInitShape(name, m.value);
    InitIdents(fields);
    if meta.value.Some? {
      MenuInitTitle(meta.value.value, fi.value);
    }
  }

  /** Each field's initialisation keeps the field's name. */
  lemma InitIdents(fields: seq<NamedField>)
    requires FieldInits(fields).Ok?
    ensures forall k :: 0 <= k < |fields| ==> FieldInits(fields).value[k].kind.ident == fields[k].ident
  {
    forall k | 0 <= k < |fields|
      ensures FieldInits(fields).value[k].kind.ident == fields[k].ident
    {
      assert FieldInits(fields).value[k] == InitOf(fields[k]).value;
    }
  }

  /** With a struct attribute, the title is the one the attribute gives. */
  lemma MenuInitTitle(attr: Meta, inits: seq<FieldMenuInit>)
    requires MenuInitNew(Some(attr), inits).Ok?
    ensures MenuDescOf(attr).Ok? && MenuInitNew(Some(attr), inits).value.all.Some?
    ensures MenuInitNew(Some(attr), inits).value.all.value.title == MenuDescOf(attr).value.title
  {
  }


  /** A successful derive is `def_init` on the `MenuInit` built from the attribute and the fields. */
  lemma BuildStructParts(name: string, attrs: seq<SynAttr>, fields: seq<NamedField>)
    requires BuildStruct(name, attrs, fields).Ok?
    ensures GetMenuMeta(attrs).Ok? && FieldInits(fields).Ok?
    ensures var m := MenuInitNew(GetMenuMeta(attrs).value, FieldInits(fields).value);
            m.Ok? && m.value.fields == FieldInits(fields).value &&
            BuildStruct(name, attrs, fields).value == DefInit(name, m.value)
  {
  }

  /** The shape of `def_init`'s output, in terms of the `MenuInit` it is built from. */
  lemma {:induction false} DefInitShape(name: string, m: MenuInit)
    requires m.all.Some? ==> FlagsAgree(m.all.value.fmt)
    ensures 0 <= |DefInit(name, m).chain| - |m.fields| <= 2
    ensures |DefInit(name, m).kinds| == |m.fields|
    ensures forall k :: 0 <= k < |m.fields| ==> DefInit(name, m).kinds[k] == m.fields[k].kind
    ensures DefInit(name, m).chain[|DefInit(name, m).chain| - |m.fields|..] == WithFields(m.fields)
    ensures m.all.None? ==> DefInit(name, m).chain == WithFields(m.fields)
    ensures CountTitles(DefInit(name, m).chain) == 1 <==> m.all.Some? && m.all.value.title.Some?
  {
    var c := MenuChain(m);
    assert DefInit(name, m).chain == c && DefInit(name, m).kinds == Kinds(m.fields);
    assert |c| == |ChainHead(m)| + |m.fields|;
    ChainTitles(m);
    ChainFields(m);
    if m.all.None? {
      NoAttrJustFields(m.fields);
    }
  }

  /** A field that aborts wins over a struct attribute that would abort: the fields are read first. */
  lemma FieldAbortComesFirst()
    ensures BuildStruct("Person", [SynAttr(["menu"], Some(MList(["menu"], [NMeta(MNameValue(["bogus"], LStr("x")))])))],
                        [NamedField("age", [SynAttr(["menu"], Some(MPath(["menu"])))])])
            == Err(IncorrectDef)
  {
    var field := NamedField("age", [SynAttr(["menu"], Some(MPath(["menu"])))]);
    assert FieldMenuInitOf(field.ident, field.attrs) == Err(IncorrectDef);
  }
}
