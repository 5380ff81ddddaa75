// src/query.rs: the control value of one prompting attempt and its
// conversions to and from results.
module Query {
  import opened Wrappers
  import opened Errors

  datatype Query<T> =
    | Continue            // the user typed something that did not parse
    | Finished(value: T)  // a value was obtained
    | Fail(error: MenuError)

  /** `then`: continues with `op` only after a finished attempt. */
  function Then<T, U>(q: Query<T>, op: T -> Query<U>): (r: Query<U>)
    ensures q.Finished? ==> r == op(q.value)
    ensures q.Fail? ==> r == Fail(q.error)
    ensures q.Continue? ==> r == Continue
  {
    match q
    case Finished(t) => op(t)
    case Fail(e) => Fail(e)
    case Continue => Continue
  }

  /** `or_default`: the finished value, else the type's default. */
  function OrDefault<T>(q: Query<T>, default: T): (r: T)
    ensures q.Finished? ==> r == q.value
    ensures !q.Finished? ==> r == default
  {
    match q
    case Finished(out) => out
    case _ => default
  }

  /** `From<MenuResult<MenuResult<T>>>`: the inner result is the parse, the outer one any other failure. */
  function FromNested<T>(res: Result<Result<T, MenuError>, MenuError>): (q: Query<T>)
    ensures q.Finished? <==> res.Ok? && res.value.Ok?
    ensures q.Finished? ==> q.value == res.value.value
    ensures q.Continue? <==> res.Ok? && res.value.Err?
    ensures q.Fail? ==> res.Err? && q.error == res.error
  {
    match res
    case Ok(Ok(out)) => Finished(out)
    case Ok(Err(_)) => Continue
    case Err(e) => Fail(e)
  }

  /** `From<Result<T, E>>`: `conv` is the `MenuError: From<E>` conversion. */
  function FromResult<T, E>(res: Result<T, E>, conv: E -> MenuError): (q: Query<T>)
    ensures res.Ok? <==> q.Finished?
    ensures res.Ok? ==> q.value == res.value
    ensures res.Err? ==> q == Fail(conv(res.error))
  {
    match res
    case Ok(t) => Finished(t)
    case Err(e) => Fail(conv(e))
  }

  /** `From<Query<T>> for MenuResult<T>`; an unfinished attempt reads as "incorrect input". */
  function IntoResult<T>(q: Query<T>): (r: Result<T, MenuError>)
    ensures q.Finished? <==> r.Ok?
    ensures q.Finished? ==> r.value == q.value
    ensures q.Fail? ==> r == Err(q.error)
    ensures q.Continue? ==> r == Err(Other("incorrect input"))
  {
    match q
    case Finished(out) => Ok(out)
    case Fail(e) => Err(e)
    case Continue => Err(Other("incorrect input"))
  }

  function Identity(e: MenuError): MenuError { e }

  /** A menu result survives the trip through `Query` unchanged. */
  lemma ResultRoundTrip<T>(res: Result<T, MenuError>)
    ensures IntoResult(FromResult(res, Identity)) == res
  {
  }

  /** A query that is not `Continue` survives the trip through a result unchanged. */
  lemma QueryRoundTrip<T>(q: Query<T>)
    requires !q.Continue?
    ensures FromResult(IntoResult(q), Identity) == q
  {
  }

  /** `Finished` is a left and right unit of `then`, and `then` is associative. */
  lemma ThenUnits<T, U>(t: T, q: Query<T>, op: T -> Query<U>)
    ensures Then(Finished(t), op) == op(t)
    ensures Then(q, x => Finished(x)) == q
  {
  }

  lemma ThenAssociative<T, U, V>(q: Query<T>, f: T -> Query<U>, g: U -> Query<V>)
    ensures Then(Then(q, f), g) == Then(q, x => Then(f(x), g))
  {
  }
}
