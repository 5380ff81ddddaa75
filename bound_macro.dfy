// ezmenu-macros/src/bound.rs: the `#[bound]` attribute turns a function into
// one a menu can call, by making sure its first parameter is the handle
// (`&mut H` with `H: Handle`) or, for a tui menu, the terminal
// (`&mut Terminal<B>` with `B: Backend`), inserting it when missing.
module BoundMacro {
  import opened Wrappers
  import opened GenericsMacro

  /** A generic argument between angle brackets: a type that is a bare identifier, or anything else. */
  datatype GenericArg = TypeIdent(name: string) | OtherArg

  /** The last segment of a type path, with its angle-bracketed arguments if it has any. */
  datatype Segment = Segment(ident: string, args: Option<seq<GenericArg>>)

  /** The type of a parameter, as far as `needs_insert` looks: `&mut` to a path (by its last segment), or another type. */
  datatype ArgType = MutRefTo(last: Option<Segment>) | OtherType

  /** A parameter: a `self` receiver, or a pattern with a type. */
  datatype FnArg = Receiver | Typed(identPattern: bool, ty: ArgType)

  /** The trait a bound function's handle type is bound by. */
  function TraitFor(tui: bool): string {
    if tui then "Backend" else "Handle"
  }

  /** `check_sig`: the first reason the signature cannot be bound, in the order the source checks them. */
  function CheckSig(unsafety: bool, asyncness: bool, inputs: seq<FnArg>): (r: Option<string>)
    ensures r == None <==> !unsafety && !asyncness && (inputs == [] || !inputs[0].Receiver?)
    ensures r == Some("unsafe") <==> unsafety
    ensures r == Some("async") <==> !unsafety && asyncness
    ensures r == Some("associated") <==> !unsafety && !asyncness && inputs != [] && inputs[0].Receiver?
  {
    if unsafety then Some("unsafe")
    else if asyncness then Some("async")
    else if inputs != [] && inputs[0].Receiver? then Some("associated")
    else None
  }

  /** A type parameter bound by `tr`. */
  predicate BoundBy(p: Param, tr: string) {
    p.TypeParam? && exists k :: 0 <= k < |p.bounds| && p.bounds[k] == TraitBound(tr)
  }

  /** `get_h_gen`: the first type parameter bound by `Handle` (`Backend` for tui). */
  function HandleGen(tui: bool, params: seq<Param>): (r: Option<string>)
    ensures r.None? <==> forall k :: 0 <= k < |params| ==> !BoundBy(params[k], TraitFor(tui))
    ensures r.Some? ==> exists k :: 0 <= k < |params| && BoundBy(params[k], TraitFor(tui)) &&
                          params[k].ident == r.value &&
                          forall j :: 0 <= j < k ==> !BoundBy(params[j], TraitFor(tui))
  {
    if params == [] then None
    else if BoundBy(params[0], TraitFor(tui)) then Some(params[0].ident)
    else
      var rest := HandleGen(tui, params[1..]);
      assert forall j :: 1 <= j < |params| ==> params[j] == params[1..][j - 1];
      if rest.Some? then
        var k :| 0 <= k < |params[1..]| && BoundBy(params[1..][k], TraitFor(tui)) &&
                 params[1..][k].ident == rest.value &&
                 forall j :: 0 <= j < k ==> !BoundBy(params[1..][j], TraitFor(tui));
        assert BoundBy(params[k + 1], TraitFor(tui));
        rest
      else rest
  }

  /** The parameter `get_or_push_h_gen` pushes when there is none. */
  function NewHandleParam(tui: bool): Param {
    if tui then TypeParam("__Backend", [TraitBound("Backend")]) else TypeParam("__Handle", [TraitBound("Handle")])
  }

  /** `is_tui_seg`: the segment reads `Terminal<id>`. */
  predicate IsTuiSeg(id: string, seg: Segment) {
    seg.args.Some? && |seg.args.value| == 1 && seg.args.value[0] == TypeIdent(id) && seg.ident == "Terminal"
  }

  /** `is_reg_seg`: the segment reads `id`. */
  predicate IsRegSeg(id: string, seg: Segment) {
    seg.ident == id
  }

  /** `needs_insert`: the first parameter is not already `ident: &mut id` (`&mut Terminal<id>` for tui). */
  predicate NeedsInsert(tui: bool, id: string, inputs: seq<FnArg>) {
    if inputs == [] then true
    else
      match inputs[0]
      case Receiver => true
      case Typed(identPattern, ty) =>
        !(identPattern && ty.MutRefTo? && ty.last.Some? &&
          (if tui then IsTuiSeg(id, ty.last.value) else IsRegSeg(id, ty.last.value)))
  }

  /** The parameter `append_handle` inserts: `__handle: &mut id` (`&mut Terminal<id>` for tui). */
  function HandleArg(tui: bool, id: string): FnArg {
    Typed(true, MutRefTo(Some(if tui then Segment("Terminal", Some([TypeIdent(id)])) else Segment(id, None))))
  }

  /** The function signature `#[bound]` rewrites. */
  class Signature {
    var unsafety: bool
    var asyncness: bool
    var inputs: seq<FnArg>
    const generics: Generics

    constructor (unsafety: bool, asyncness: bool, inputs: seq<FnArg>, generics: Generics)
      ensures this.unsafety == unsafety && this.asyncness == asyncness
      ensures this.inputs == inputs && this.generics == generics
    {
      this.unsafety := unsafety;
      this.asyncness := asyncness;
      this.inputs := inputs;
      this.generics := generics;
    }

    /** `get_or_push_h_gen`: the handle parameter, pushed at the end of the generics when missing. */
    method GetOrPushHandleGen(tui: bool) returns (id: string)
      modifies generics
      ensures HandleGen(tui, old(generics.params)).Some? ==>
                id == HandleGen(tui, old(generics.params)).value && generics.params == old(generics.params)
      ensures HandleGen(tui, old(generics.params)).None? ==>
                generics.params == old(generics.params) + [NewHandleParam(tui)] && id == NewHandleParam(tui).ident
    {
      var found := HandleGen(tui, generics.params);
      if found.Some? {
        id := found.value;
      } else {
        var p := NewHandleParam(tui);
        generics.params := generics.params + [p];
        id := p.ident;
      }
    }

    /** `append_handle`: aborts on an invalid signature, otherwise makes the handle the first parameter. */
    method AppendHandle(tui: bool) returns (r: Option<string>)
      modifies this, generics
      ensures r == CheckSig(old(unsafety), old(asyncness), old(inputs))
      ensures r.Some? ==> inputs == old(inputs) && generics.params == old(generics.params)
      ensures r.None? ==>
                var id := HandleId(tui, old(generics.params));
                generics.params == WithHandleGen(tui, old(generics.params)) &&
                inputs == (if NeedsInsert(tui, id, old(inputs)) then [HandleArg(tui, id)] + old(inputs) else old(inputs))
      ensures unsafety == old(unsafety) && asyncness == old(asyncness)
    {
      r := CheckSig(unsafety, asyncness, inputs);
      if r.Some? {
        return;
      }
      var id := GetOrPushHandleGen(tui);
      if NeedsInsert(tui, id, inputs) {
        inputs := [HandleArg(tui, id)] + inputs;
      }
    }
  }

  /** The identifier `get_or_push_h_gen` returns. */
  function HandleId(tui: bool, params: seq<Param>): string {
    match HandleGen(tui, params)
    case Some(id) => id
    case None => NewHandleParam(tui).ident
  }

  /** The generics after `get_or_push_h_gen`. */
  function WithHandleGen(tui: bool, params: seq<Param>): seq<Param> {
    if HandleGen(tui, params).Some? then params else params + [NewHandleParam(tui)]
  }

  /** After `get_or_push_h_gen` the generics have a handle parameter, and it is the identifier returned. */
  lemma {:induction false} HandleGenPushed(tui: bool, params: seq<Param>)
    ensures HandleGen(tui, WithHandleGen(tui, params)) == Some(HandleId(tui, params))
  {
    if HandleGen(tui, params).None? {
      var after := params + [NewHandleParam(tui)];
      assert BoundBy(after[|params|], TraitFor(tui)) by {
        assert after[|params|].bounds[0] == TraitBound(TraitFor(tui));
      }
      assert forall j :: 0 <= j < |params| ==> after[j] == params[j];
      HandleGenFirst(tui, after, |params|);
    }
  }

  lemma {:induction false} HandleGenFirst(tui: bool, params: seq<Param>, k: nat)
    requires k < |params| && BoundBy(params[k], TraitFor(tui))
    requires forall j :: 0 <= j < k ==> !BoundBy(params[j], TraitFor(tui))
    ensures HandleGen(tui, params) == Some(params[k].ident)
  {
    if k > 0 {
      assert forall j :: 0 <= j < k - 1 ==> params[1..][j] == params[j + 1];
      HandleGenFirst(tui, params[1..], k - 1);
    }
  }

  /** After the handle is inserted, the first parameter is the handle: no second insert is needed. */
  lemma InsertedHandleSuffices(tui: bool, id: string, inputs: seq<FnArg>)
    ensures !NeedsInsert(tui, id, [HandleArg(tui, id)] + inputs)
  {
  }

  /**
   * Binding is idempotent: binding an already bound function (same flag)
   * changes neither its parameters nor its generics.
   */
  lemma {:induction false} BindTwice(tui: bool, params: seq<Param>, inputs: seq<FnArg>)
    requires CheckSig(false, false, inputs).None?
    ensures var id := HandleId(tui, params);
            var once := if NeedsInsert(tui, id, inputs) then [HandleArg(tui, id)] + inputs else inputs;
            var params1 := WithHandleGen(tui, params);
            CheckSig(false, false, once).None? &&
            WithHandleGen(tui, params1) == params1 &&
            !NeedsInsert(tui, HandleId(tui, params1), once)
  {
    HandleGenPushed(tui, params);
  }
}
