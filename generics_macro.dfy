// ezmenu-macros/src/generics.rs: adding a trait bound to one type parameter
// of an item's generics, unless it already has it. A trait bound is known by
// the last segment of its path, the one `is_path` compares.
module GenericsMacro {
  import opened Wrappers

  /** A bound of a type parameter: a trait path, by its last segment, or a lifetime. */
  datatype Bound = TraitBound(last: string) | LifetimeBound

  /** A generic parameter: a type parameter with its bounds, or a lifetime or const parameter. */
  datatype Param = TypeParam(ident: string, bounds: seq<Bound>) | OtherParam

  /** `path_not_in`: no trait bound of `bounds` ends with `traitLast`. */
  predicate PathNotIn(traitLast: string, bounds: seq<Bound>) {
    forall k :: 0 <= k < |bounds| ==> bounds[k] != TraitBound(traitLast)
  }

  /** The parameter `check_for_bound` selects: type parameter `id` still without the bound. */
  predicate Candidate(p: Param, id: string, traitLast: string) {
    p.TypeParam? && p.ident == id && PathNotIn(traitLast, p.bounds)
  }

  /** The position of the first candidate, the one `find_map` stops at. */
  function FirstCandidate(params: seq<Param>, id: string, traitLast: string): (r: Option<nat>)
    ensures r.Some? ==> r.value < |params| && Candidate(params[r.value], id, traitLast) &&
                        forall j :: 0 <= j < r.value ==> !Candidate(params[j], id, traitLast)
    ensures r.None? <==> forall j :: 0 <= j < |params| ==> !Candidate(params[j], id, traitLast)
  {
    if params == [] then None
    else if Candidate(params[0], id, traitLast) then Some(0)
    else
      var rest := FirstCandidate(params[1..], id, traitLast);
      assert forall j :: 1 <= j < |params| ==> params[j] == params[1..][j - 1];
      match rest
      case None => None
      case Some(i) => Some(i + 1)
  }

  /** The parameters after `check_for_bound(generics, id, trait_path)`. */
  function WithBound(params: seq<Param>, id: string, traitLast: string): seq<Param> {
    match FirstCandidate(params, id, traitLast)
    case None => params
    case Some(i) => params[i := TypeParam(id, params[i].bounds + [TraitBound(traitLast)])]
  }

  /** `syn::Generics`, as far as bounds go: its parameters, in order. */
  class Generics {
    var params: seq<Param>

    constructor (params: seq<Param>)
      ensures this.params == params
    {
      this.params := params;
    }

    /** `check_for_bound`. */
    method CheckForBound(id: string, traitLast: string)
      modifies this
      ensures params == WithBound(old(params), id, traitLast)
    {
      var i := 0;
      while i < |params| && !Candidate(params[i], id, traitLast)
        invariant i <= |params|
        invariant forall j :: 0 <= j < i ==> !Candidate(params[j], id, traitLast)
      {
        i := i + 1;
      }
      if i < |params| {
        params := params[i := TypeParam(id, params[i].bounds + [TraitBound(traitLast)])];
      }
    }
  }

  /** No two type parameters share an identifier (rustc rejects such generics). */
  predicate DistinctIdents(params: seq<Param>) {
    forall i, j :: 0 <= i < j < |params| && params[i].TypeParam? && params[j].TypeParam? ==>
      params[i].ident != params[j].ident
  }

  /** Parameter `id` carries the trait. */
  predicate HasBound(params: seq<Param>, id: string, traitLast: string) {
    exists k :: 0 <= k < |params| && params[k].TypeParam? && params[k].ident == id &&
      !PathNotIn(traitLast, params[k].bounds)
  }

  /**
   * Only type parameter `id` can gain the bound, by exactly one trait bound at
   * the end of its list; every other parameter and every existing bound stays.
   */
  lemma WithBoundChangesOne(params: seq<Param>, id: string, traitLast: string)
    ensures |WithBound(params, id, traitLast)| == |params|
    ensures forall k :: 0 <= k < |params| && WithBound(params, id, traitLast)[k] != params[k] ==>
              params[k].TypeParam? && params[k].ident == id && PathNotIn(traitLast, params[k].bounds) &&
              WithBound(params, id, traitLast)[k] == TypeParam(id, params[k].bounds + [TraitBound(traitLast)])
    ensures forall i, j :: 0 <= i < j < |params| ==>
              WithBound(params, id, traitLast)[i] == params[i] || WithBound(params, id, traitLast)[j] == params[j]
  {
  }

  /** Nothing changes when no type parameter is called `id`, or when it already has the bound. */
  lemma WithBoundUnchanged(params: seq<Param>, id: string, traitLast: string)
    requires forall k :: 0 <= k < |params| && params[k].TypeParam? && params[k].ident == id ==>
               !PathNotIn(traitLast, params[k].bounds)
    ensures WithBound(params, id, traitLast) == params
  {
  }

  /** With distinct identifiers, type parameter `id` has the bound afterwards, and a second call changes nothing. */
  lemma {:induction false} WithBoundIdempotent(params: seq<Param>, id: string, traitLast: string)
    requires DistinctIdents(params)
    requires exists k :: 0 <= k < |params| && params[k].TypeParam? && params[k].ident == id
    ensures HasBound(WithBound(params, id, traitLast), id, traitLast)
    ensures WithBound(WithBound(params, id, traitLast), id, traitLast) == WithBound(params, id, traitLast)
  {
    var after := WithBound(params, id, traitLast);
    var k :| 0 <= k < |params| && params[k].TypeParam? && params[k].ident == id;
    match FirstCandidate(params, id, traitLast)
    case None =>
      assert !Candidate(params[k], id, traitLast);
      assert after[k] == params[k];
    case Some(i) =>
      assert after[i].bounds[|after[i].bounds| - 1] == TraitBound(traitLast);
      assert !PathNotIn(traitLast, after[i].bounds);
      forall j | 0 <= j < |after| && after[j].TypeParam? && after[j].ident == id
        ensures !PathNotIn(traitLast, after[j].bounds)
      {
        assert j == i;
      }
      WithBoundUnchanged(after, id, traitLast);
  }
}
