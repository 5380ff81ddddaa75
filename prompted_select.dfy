// ezmenu-macros/src/prompted/select.rs: `derive(Prompted)` on an enum, which
// implements `Selectable`. A unit variant gives one entry; a variant with
// fields gives one entry per `("label", bindings...)` its attribute lists; the
// entries are flattened in declaration order and at most one is the default.
module PromptedSelect {
  import opened Wrappers
  import opened Text
  import opened MacroUtils
  import opened Kw
  import opened FormatMacro
  import opened PromptableMacro

  /** `UnitAttr`, the attribute of a unit variant. */
  const UnitSchema: seq<Decl> :=
    [Decl("msg", []), Decl("default", []), Decl("case", []), Decl("nodoc", ["msg"]), Decl("raw", ["msg"])]

  /** `RootAttr`, the attribute of the enum. */
  const RootSchema: seq<Decl> :=
    [Decl("msg", []), Decl("fmt", []), Decl("case", []), Decl("nodoc", ["msg"]), Decl("raw", ["msg"])]

  /** The fields of a variant: none, named (by their names) or unnamed (by their number). */
  datatype VariantFields = UnitFields | NamedFields(names: seq<string>) | UnnamedFields(count: nat)

  datatype Variant = Variant(ident: string, attrs: seq<Attribute>, fields: VariantFields)

  /** A selectable entry: the variant it builds, its label, the values bound to the variant's fields. */
  datatype Entry = Entry(id: string, lit: string, named: bool, bounds: seq<Binding>, isDefault: bool)

  // ---- the entries of one variant ---------------------------------------------

  /** `SelectedField::parse` followed by `Entry::new`: one listed entry of variant `id`. */
  function EntryOf(e: BoundEntry, id: string, named: bool): (r: Result<Entry, Failure>)
    ensures r.Ok? <==> (e.marker.None? || e.marker == Some("default")) &&
                       forall k :: 0 <= k < |e.bindings| ==> e.bindings[k].id.Some? == named
    ensures r.Ok? ==> r.value == Entry(id, e.lit, named, e.bindings, e.marker.Some?)
  {
    if e.marker.Some? && e.marker.value != "default" then Err(Aborted(Rejected("unexpected identifier")))
    else if named && exists k :: 0 <= k < |e.bindings| && e.bindings[k].id.None? then
      Err(Aborted(Rejected("expected an identifier")))
    else if !named && exists k :: 0 <= k < |e.bindings| && e.bindings[k].id.Some? then Err(SynError)
    else Ok(Entry(id, e.lit, named, e.bindings, e.marker.Some?))
  }

  /** `parse_terminated` over the listed entries, then `Select::new`: the first refused entry stops the expansion. */
  function EntriesOfList(es: seq<BoundEntry>, id: string, named: bool): (r: Result<seq<Entry>, Failure>)
    ensures r.Ok? <==> forall k :: 0 <= k < |es| ==> EntryOf(es[k], id, named).Ok?
    ensures r.Ok? ==> |r.value| == |es| && forall k :: 0 <= k < |es| ==> r.value[k] == EntryOf(es[k], id, named).value
  {
    if es == [] then Ok([])
    else
      match EntryOf(es[0], id, named)
      case Err(e) => Err(e)
      case Ok(first) =>
        var rest := EntriesOfList(es[1..], id, named);
        assert forall k :: 1 <= k < |es| ==> es[k] == es[1..][k - 1];
        match rest
        case Err(e) => Err(e)
        case Ok(tail) => Ok([first] + tail)
  }

  /** The list of entries of a `prompt` attribute on a variant with fields; `()` lists none. */
  function ListOf(body: AttrBody): Option<seq<BoundEntry>> {
    match body
    case BoundEntries(es) => Some(es)
    case Args(items) => if items == [] then Some([]) else None
    case Terms(ts) => if ts == [] then Some([]) else None
    case _ => None
  }

  /** The entries `a, b, ...` joined by `", "`. */
  function JoinComma(parts: seq<string>): string {
    if parts == [] then []
    else if |parts| == 1 then parts[0]
    else parts[0] + ", " + JoinComma(parts[1..])
  }

  /** The bindings `abort_unbounds_fields` suggests in its help message. */
  function ValuesSample(fields: VariantFields): string {
    match fields
    case UnitFields => ""
    case NamedFields(names) =>
      if |names| == 1 then names[0] + ": value"
      else JoinComma(seq(|names|, i requires 0 <= i < |names| => names[i] + ": value" + NatToString(i)))
    case UnnamedFields(n) =>
      if n == 1 then "value"
      else JoinComma(seq(n, i requires 0 <= i < n => "value" + NatToString(i)))
  }

  /** The label of a unit variant, before any case is applied, as the attribute `m` gives it. */
  function UnitLabel(v: Variant, m: map<string, Value>): string {
    MessageOf(StrParam(m, "msg"), "nodoc" in m, v.attrs).UnwrapOr(Label("raw" in m, v.ident))
  }

  /** `Select::from_variant_with`: the entries of one variant, with the enum's case. */
  function FromVariantWith(v: Variant, globalCase: Option<Case>, tui: bool): (r: Result<seq<Entry>, Failure>)
    ensures v.fields.UnitFields? && r.Ok? ==>
              |r.value| == 1 && r.value[0].id == v.ident && r.value[0].bounds == [] && !r.value[0].named
    ensures !v.fields.UnitFields? && GetAttr(v.attrs, "prompt").None? ==>
              r == Err(Aborted(UnboundFields(ValuesSample(v.fields))))
    ensures !v.fields.UnitFields? && r.Ok? ==>
              GetAttr(v.attrs, "prompt").Some? && ListOf(GetAttr(v.attrs, "prompt").value.body).Some? &&
              r == EntriesOfList(ListOf(GetAttr(v.attrs, "prompt").value.body).value, v.ident, v.fields.NamedFields?)
  {
    match v.fields
    case UnitFields =>
      (match AttrArgs(v.attrs, "prompt", UnitSchema, tui)
       case Err(e) => Err(e)
       case Ok(Some(m)) =>
         var c := if CaseParam(m).Some? then CaseParam(m) else globalCase;
         Ok([Entry(v.ident, MapCase(c, UnitLabel(v, m)), false, [], "default" in m)])
       case Ok(None) =>
         Ok([Entry(v.ident, MapCase(globalCase, GetFirstDoc(v.attrs).UnwrapOr(CamelSplit(v.ident))), false, [], false)]))
    case _ =>
      match GetAttr(v.attrs, "prompt")
      case None => Err(Aborted(UnboundFields(ValuesSample(v.fields))))
      case Some(a) =>
        match ListOf(a.body)
        case None => Err(SynError)
        case Some(es) => EntriesOfList(es, v.ident, v.fields.NamedFields?)
  }

  // ---- the enum ----------------------------------------------------------------

  /** `RootData`: the enum's case, its message and its format. */
  datatype RootData = RootData(case_: Option<Case>, msg: string, fmt: Option<Format>)

  /** `RootData::new`. */
  function RootDataOf(name: string, attrs: seq<Attribute>, tui: bool): Result<RootData, Failure> {
    match AttrArgs(attrs, "prompt", RootSchema, tui)
    case Err(e) => Err(e)
    case Ok(Some(m)) =>
      var msg := MessageOf(StrParam(m, "msg"), "nodoc" in m, attrs).UnwrapOr(Label("raw" in m, name));
      Ok(RootData(CaseParam(m), MapCase(CaseParam(m), msg), FormatParam(m)))
    case Ok(None) => Ok(RootData(None, GetFirstDoc(attrs).UnwrapOr(CamelSplit(name)), None))
  }

  /**
   * The `flat_map` of the variants into the entries `sel` gives each, in
   * declaration order; the first refused variant stops it.
   */
  function EntriesWith(variants: seq<Variant>, sel: Variant -> Result<seq<Entry>, Failure>): Result<seq<Entry>, Failure>
    decreases |variants|
  {
    if variants == [] then Ok([])
    else
      match EntriesWith(variants[..|variants| - 1], sel)
      case Err(e) => Err(e)
      case Ok(before) =>
        match sel(variants[|variants| - 1])
        case Err(e) => Err(e)
        case Ok(last) => Ok(before + last)
  }

  /** The entries of all variants are those of all but the last, then the last one's. */
  lemma EntriesWithSnoc(variants: seq<Variant>, sel: Variant -> Result<seq<Entry>, Failure>)
    requires EntriesWith(variants, sel).Ok? && variants != []
    ensures var prefix := variants[..|variants| - 1];
            EntriesWith(prefix, sel).Ok? && sel(variants[|variants| - 1]).Ok? &&
            EntriesWith(variants, sel).value == EntriesWith(prefix, sel).value + sel(variants[|variants| - 1]).value
  {
  }

  lemma SliceOfFront<T>(a: seq<T>, b: seq<T>, lo: nat, hi: nat)
    requires lo <= hi <= |a|
    ensures (a + b)[lo..hi] == a[lo..hi]
  {
  }

  /** Variant `i`'s entries come right after the entries of the variants before it. */
  lemma {:induction false} EntriesWithAt(variants: seq<Variant>, i: nat, sel: Variant -> Result<seq<Entry>, Failure>)
    requires EntriesWith(variants, sel).Ok? && i < |variants|
    ensures EntriesWith(variants[..i], sel).Ok? && sel(variants[i]).Ok?
    ensures var off := |EntriesWith(variants[..i], sel).value|;
            var es := sel(variants[i]).value;
            off + |es| <= |EntriesWith(variants, sel).value| && EntriesWith(variants, sel).value[off..off + |es|] == es
    decreases |variants|
  {
    var prefix := variants[..|variants| - 1];
    EntriesWithSnoc(variants, sel);
    var before := EntriesWith(prefix, sel).value;
    var last := sel(variants[|variants| - 1]).value;
    if i == |variants| - 1 {
      assert variants[..i] == prefix;
      assert (before + last)[|before|..|before| + |last|] == last;
    } else {
      EntriesWithAt(prefix, i, sel);
      assert prefix[..i] == variants[..i];
      var off := |EntriesWith(variants[..i], sel).value|;
      SliceOfFront(before, last, off, off + |sel(variants[i]).value|);
    }
  }

  /** The entries of the variants of a `#[derive(Prompted)]` enum, in order. */
  function EntriesOf(variants: seq<Variant>, globalCase: Option<Case>, tui: bool): (r: Result<seq<Entry>, Failure>)
  {
    EntriesWith(variants, v => FromVariantWith(v, globalCase, tui))
  }


  /** The `default` markers of the entries. */
  function EntryMarks(entries: seq<Entry>): (r: seq<bool>)
    ensures |r| == |entries| && forall k :: 0 <= k < |entries| ==> r[k] == entries[k].isDefault
  {
    seq(|entries|, k requires 0 <= k < |entries| => entries[k].isDefault)
  }

  /** `get_default_fn`: the position of the default entry in the flattened list, if there is one. */
  method GetDefaultFn(entries: seq<Entry>) returns (r: Result<Option<nat>, Abort>)
    ensures r == DefaultScan(EntryMarks(entries), 0, None)
  {
    var default: Option<nat> := None;
    for i := 0 to |entries|
      invariant DefaultScan(EntryMarks(entries), i, default) == DefaultScan(EntryMarks(entries), 0, None)
    {
      if entries[i].isDefault {
        if default.None? {
          default := Some(i);
        } else {
          return Err(ExtraDefault);
        }
      }
    }
    return Ok(default);
  }

  /** The `Selectable<n>` implementation: message, format, entries, their number and the default. */
  datatype SelectImpl = SelectImpl(msg: string, fmt: Option<Format>, entries: seq<Entry>, n: nat, default: Option<nat>)

  const GenericEnumMessage := "derive(Prompted) only supports non-generic enums."

  /** What `build_select` expands to, or why it aborts. */
  function BuildSelectOf(attrs: seq<Attribute>, name: string, generic: bool, variants: seq<Variant>, tui: bool)
    : Result<SelectImpl, Failure>
  {
    if generic then Err(Aborted(NotSupported(GenericEnumMessage)))
    else
      match RootDataOf(name, attrs, tui)
      case Err(e) => Err(e)
      case Ok(data) =>
        match EntriesOf(variants, data.case_, tui)
        case Err(e) => Err(e)
        case Ok(entries) =>
          match DefaultScan(EntryMarks(entries), 0, None)
          case Err(e) => Err(Aborted(e))
          case Ok(d) => Ok(SelectImpl(data.msg, data.fmt, entries, |entries|, d))
  }

  /** `build_select`. */
  method BuildSelect(attrs: seq<Attribute>, name: string, generic: bool, variants: seq<Variant>, tui: bool)
    returns (r: Result<SelectImpl, Failure>)
    ensures r == BuildSelectOf(attrs, name, generic, variants, tui)
  {
    if generic {
      return Err(Aborted(NotSupported(GenericEnumMessage)));
    }
    var data := RootDataOf(name, attrs, tui);
    if data.Err? {
      return Err(data.error);
    }
    var entries := EntriesOf(variants, data.value.case_, tui);
    if entries.Err? {
      return Err(entries.error);
    }
    var default := GetDefaultFn(entries.value);
    if default.Err? {
      return Err(Aborted(default.error));
    }
    return Ok(SelectImpl(data.value.msg, data.value.fmt, entries.value, |entries.value|, default.value));
  }

  // ---- properties ----------------------------------------------------------------

  /**
   * A unit variant's label is its message, else its first doc line unless
   * `nodoc`, else its identifier (split unless `raw`); the variant's case
   * applies, else the enum's.
   */
  lemma UnitLabelChain(v: Variant, globalCase: Option<Case>, tui: bool)
    requires v.fields.UnitFields?
    requires AttrArgs(v.attrs, "prompt", UnitSchema, tui).Ok?
    ensures var r := FromVariantWith(v, globalCase, tui);
            var m := ArgsOrDefault(AttrArgs(v.attrs, "prompt", UnitSchema, tui).value);
            var c := if CaseParam(m).Some? then CaseParam(m) else globalCase;
            r.Ok? && r.value[0].isDefault == ("default" in m) &&
            (StrParam(m, "msg").Some? ==> r.value[0].lit == MapCase(c, StrParam(m, "msg").value)) &&
            (StrParam(m, "msg").None? && "nodoc" !in m && GetFirstDoc(v.attrs).Some? ==>
               r.value[0].lit == MapCase(c, GetFirstDoc(v.attrs).value)) &&
            (StrParam(m, "msg").None? && ("nodoc" in m || GetFirstDoc(v.attrs).None?) ==>
               r.value[0].lit == MapCase(c, Label("raw" in m, v.ident)))
  {
  }

  /** A unit variant without an attribute is labelled as one with an empty `#[prompt()]`. */
  lemma UnitNoAttrIsEmptyAttr(v: Variant, globalCase: Option<Case>, tui: bool)
    requires v.fields.UnitFields? && GetAttr(v.attrs, "prompt").None?
    ensures var empty: map<string, Value> := map[];
            FromVariantWith(v, globalCase, tui) ==
              Ok([Entry(v.ident, MapCase(globalCase, UnitLabel(v, empty)), false, [], false)])
  {
  }

  /**
   * With an attribute the enum message follows the same chain, mapped by the
   * enum's case; without one it is the doc line or the split name, unmapped.
   */
  lemma RootMessageChain(name: string, attrs: seq<Attribute>, tui: bool)
    requires AttrArgs(attrs, "prompt", RootSchema, tui).Ok?
    ensures var r := RootDataOf(name, attrs, tui);
            var a := AttrArgs(attrs, "prompt", RootSchema, tui).value;
            r.Ok? &&
            (a.None? ==> r.value.case_.None? && r.value.fmt.None? &&
                         r.value.msg == GetFirstDoc(attrs).UnwrapOr(CamelSplit(name))) &&
            (a.Some? ==> r.value.case_ == CaseParam(a.value) && r.value.fmt == FormatParam(a.value) &&
                         r.value.msg == MapCase(CaseParam(a.value),
                                                MessageOf(StrParam(a.value, "msg"), "nodoc" in a.value, attrs)
                                                  .UnwrapOr(Label("raw" in a.value, name))))
  {
  }

  /** Entries are flattened in order: the entries of `vs + [v]` are those of `vs` followed by those of `v`. */
  lemma {:induction false} EntriesOfAppend(variants: seq<Variant>, v: Variant, globalCase: Option<Case>, tui: bool)
    requires EntriesOf(variants + [v], globalCase, tui).Ok?
    ensures EntriesOf(variants, globalCase, tui).Ok? && FromVariantWith(v, globalCase, tui).Ok?
    ensures EntriesOf(variants + [v], globalCase, tui).value ==
              EntriesOf(variants, globalCase, tui).value + FromVariantWith(v, globalCase, tui).value
  {
    assert (variants + [v])[..|variants|] == variants;
    EntriesWithSnoc(variants + [v], w => FromVariantWith(w, globalCase, tui));
  }

  /** The number of entries of each variant: one for a unit variant, one per listed entry otherwise. */
  function EntryCount(v: Variant, marker: string): nat {
    if v.fields.UnitFields? then 1
    else
      match GetAttr(v.attrs, marker)
      case Some(a) => if ListOf(a.body).Some? then |ListOf(a.body).value| else 0
      case None => 0
  }

  function TotalCount(variants: seq<Variant>, marker: string): nat
    decreases |variants|
  {
    if variants == [] then 0 else TotalCount(variants[..|variants| - 1], marker) + EntryCount(variants[|variants| - 1], marker)
  }

  /** The flattened list has exactly the entries the variants declare. */
  lemma {:induction false} EntriesOfCount(variants: seq<Variant>, globalCase: Option<Case>, tui: bool)
    requires EntriesOf(variants, globalCase, tui).Ok?
    ensures |EntriesOf(variants, globalCase, tui).value| == TotalCount(variants, "prompt")
    decreases |variants|
  {
    if variants != [] {
      var init := variants[..|variants| - 1];
      var v := variants[|variants| - 1];
      assert variants == init + [v];
      EntriesOfAppend(init, v, globalCase, tui);
      EntriesOfCount(init, globalCase, tui);
      VariantEntryCount(v, globalCase, tui);
    }
  }

  /** One variant gives exactly the entries it declares. */
  lemma VariantEntryCount(v: Variant, globalCase: Option<Case>, tui: bool)
    requires FromVariantWith(v, globalCase, tui).Ok?
    ensures |FromVariantWith(v, globalCase, tui).value| == EntryCount(v, "prompt")
  {
  }

  /** What `get_default_fn` gives for a flattened list, in terms of its entries. */
  lemma DefaultOfEntries(entries: seq<Entry>)
    ensures var d := DefaultScan(EntryMarks(entries), 0, None);
            (d.Ok? <==> DefaultCount(EntryMarks(entries)) <= 1) &&
            (d.Err? ==> d.error == ExtraDefault) &&
            (d.Ok? ==> (d.value.None? <==> forall k :: 0 <= k < |entries| ==> !entries[k].isDefault)) &&
            (d.Ok? && d.value.Some? ==> d.value.value < |entries| && entries[d.value.value].isDefault)
  {
    var marks := EntryMarks(entries);
    DefaultScanSpec(marks, 0, None);
    if DefaultScan(marks, 0, None) == Ok(None) {
      forall k | 0 <= k < |entries|
        ensures !entries[k].isDefault
      {
        DefaultCountPrefix(marks, k);
        DefaultCountMono(marks, k + 1);
      }
    }
    if forall k :: 0 <= k < |entries| ==> !entries[k].isDefault {
      DefaultCountNone(marks, |marks|);
      assert marks[..|marks|] == marks;
    }
  }

  /**
   * A generic enum is refused. Otherwise, once the enum's attribute and
   * every variant are accepted, the expansion succeeds iff at most one entry
   * is the default: `n` counts the flattened entries, and the default is the
   * position of the marked one in that list.
   */
  lemma BuildSelectSpec(attrs: seq<Attribute>, name: string, generic: bool, variants: seq<Variant>, tui: bool)
    ensures generic ==> BuildSelectOf(attrs, name, generic, variants, tui).Err?
    ensures var r := BuildSelectOf(attrs, name, generic, variants, tui);
            r.Ok? ==>
              r.value.n == |r.value.entries| == TotalCount(variants, "prompt") &&
              DefaultCount(EntryMarks(r.value.entries)) <= 1 &&
              (r.value.default.None? <==> forall k :: 0 <= k < r.value.n ==> !r.value.entries[k].isDefault) &&
              (r.value.default.Some? ==> r.value.default.value < r.value.n &&
                                         r.value.entries[r.value.default.value].isDefault)
    ensures !generic && RootDataOf(name, attrs, tui).Ok? &&
            EntriesOf(variants, RootDataOf(name, attrs, tui).value.case_, tui).Ok? ==>
              var entries := EntriesOf(variants, RootDataOf(name, attrs, tui).value.case_, tui).value;
              (BuildSelectOf(attrs, name, generic, variants, tui).Ok? <==> DefaultCount(EntryMarks(entries)) <= 1) &&
              (BuildSelectOf(attrs, name, generic, variants, tui).Err? ==>
                 BuildSelectOf(attrs, name, generic, variants, tui) == Err(Aborted(ExtraDefault)))
  {
    if !generic && RootDataOf(name, attrs, tui).Ok? {
      var data := RootDataOf(name, attrs, tui).value;
      if EntriesOf(variants, data.case_, tui).Ok? {
        DefaultOfEntries(EntriesOf(variants, data.case_, tui).value);
        EntriesOfCount(variants, data.case_, tui);
      }
    }
  }

  // ---- the help sample -----------------------------------------------------------

  lemma {:induction false} DigitsNoComma(s: string)
    requires AllDigits(s)
    ensures Count(s, ',') == 0
    decreases |s|
  {
    if s != [] {
      assert AllDigits(s[1..]);
      DigitsNoComma(s[1..]);
    }
  }

  lemma {:induction false} JoinCommaCount(parts: seq<string>)
    requires parts != [] && forall k :: 0 <= k < |parts| ==> Count(parts[k], ',') == 0
    ensures Count(JoinComma(parts), ',') == |parts| - 1
    decreases |parts|
  {
    if |parts| > 1 {
      JoinCommaCount(parts[1..]);
      CountConcat(parts[0], ", ", ',');
      CountConcat(parts[0] + ", ", JoinComma(parts[1..]), ',');
      assert Count(", ", ',') == 1;
    }
  }

  /**
   * The help sample binds every field once: for `n >= 1` fields whose names
   * hold no comma it has exactly `n - 1` separating commas.
   */
  lemma ValuesSampleCommas(fields: VariantFields)
    requires fields.NamedFields? ==> |fields.names| >= 1 && forall k :: 0 <= k < |fields.names| ==> Count(fields.names[k], ',') == 0
    requires fields.UnnamedFields? ==> fields.count >= 1
    ensures fields.NamedFields? ==> Count(ValuesSample(fields), ',') == |fields.names| - 1
    ensures fields.UnnamedFields? ==> Count(ValuesSample(fields), ',') == fields.count - 1
  {
    match fields
    case UnitFields =>
    case NamedFields(names) =>
      CountConcat(names[0], ": value", ',');
      assert Count(": value", ',') == 0;
      if |names| > 1 {
        var parts := seq(|names|, i requires 0 <= i < |names| => names[i] + ": value" + NatToString(i));
        forall k | 0 <= k < |parts|
          ensures Count(parts[k], ',') == 0
        {
          DigitsNoComma(NatToString(k));
          CountConcat(names[k], ": value", ',');
          CountConcat(names[k] + ": value", NatToString(k), ',');
        }
        JoinCommaCount(parts);
      }
    case UnnamedFields(n) =>
      assert Count("value", ',') == 0;
      if n > 1 {
        var parts := seq(n, i requires 0 <= i < n => "value" + NatToString(i));
        forall k | 0 <= k < |parts|
          ensures Count(parts[k], ',') == 0
        {
          DigitsNoComma(NatToString(k));
          CountConcat("value", NatToString(k), ',');
        }
        JoinCommaCount(parts);
      }
  }
}
