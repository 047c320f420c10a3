/** The chaining wrapper of src/pot/monad.py (`PyomoMonad`): a value, an
    effect run when the chain is finally called, and a status that, once
    set by a raising step, makes every later step a no-op. Python's `None`
    is `Option.None`; values and errors are left abstract. */
module Monad {

  import opened Results

  /** What a bound function does on its argument: return or raise. */
  datatype Attempt<V, E> = Returns(result: Option<V>) | Raises(error: E)

  /** The effect slot: none, a function of the value, or the replacement
      installed after a failure, which prints the status it captured and
      returns `None`. */
  datatype Effect<!V, E> = NoEffect | Run(f: Option<V> -> Option<V>) | ShowStatus(shown: Option<E>)

  datatype PyomoMonad<!V, E> = PyomoMonad(value: Option<V>, effect: Effect<V, E>, status: Option<E>)

  /** `bind`: skipped once a status is set; otherwise applies `func` to the
      value, keeping the effect, or records the raised error. The replacement
      effect captures the monad's own status, which is `None` on this path. */
  function Bind<V, E>(m: PyomoMonad<V, E>, func: Option<V> -> Attempt<V, E>): PyomoMonad<V, E> {
    if m.status.Some? then PyomoMonad(None, m.effect, m.status)
    else
      match func(m.value)
      case Returns(r) => PyomoMonad(r, m.effect, m.status)
      case Raises(e) => PyomoMonad(None, ShowStatus(m.status), Some(e))
  }

  /** `__call__`: the effect applied to the value, or the value itself. */
  function Call<V, E>(m: PyomoMonad<V, E>): Option<V> {
    match m.effect
    case NoEffect => m.value
    case Run(f) => f(m.value)
    case ShowStatus(_) => None
  }

  /** `__rshift__`, the `>>` operator. */
  function Shift<V, E>(m: PyomoMonad<V, E>, func: Option<V> -> Attempt<V, E>): PyomoMonad<V, E>
  {
    Bind(m, func)
  }

  /** `m >> f1 >> f2 >> ...`. */
  function Chain<V, E>(m: PyomoMonad<V, E>, funcs: seq<Option<V> -> Attempt<V, E>>): PyomoMonad<V, E>
    decreases |funcs|
  {
    if |funcs| == 0 then m else Chain(Shift(m, funcs[0]), funcs[1..])
  }

  /** On a failed monad `bind` never calls its function: the result is the
      same for any two functions, carries value `None`, and keeps the effect
      and the status. */
  lemma BindSkipsWhenFailed<V, E>(m: PyomoMonad<V, E>, f: Option<V> -> Attempt<V, E>, g: Option<V> -> Attempt<V, E>)
    requires m.status.Some?
    ensures Bind(m, f) == Bind(m, g)
    ensures Bind(m, f).value.None? && Bind(m, f).effect == m.effect && Bind(m, f).status == m.status
  {
  }

  /** A successful step replaces the value by the function's result and
      keeps the effect; the status stays unset. */
  lemma BindOnSuccess<V, E>(m: PyomoMonad<V, E>, f: Option<V> -> Attempt<V, E>)
    requires m.status.None? && f(m.value).Returns?
    ensures Bind(m, f).value == f(m.value).result
    ensures Bind(m, f).effect == m.effect && Bind(m, f).status.None?
  {
  }

  /** A raising step records the error as the status, drops the value and
      swaps the effect for one that prints the old status, `None`, and
      returns `None` when the chain is called. */
  lemma BindOnRaise<V, E>(m: PyomoMonad<V, E>, f: Option<V> -> Attempt<V, E>)
    requires m.status.None? && f(m.value).Raises?
    ensures Bind(m, f).status == Some(f(m.value).error)
    ensures Bind(m, f).value.None? && Bind(m, f).effect == ShowStatus(None)
    ensures Call(Bind(m, f)).None?
  {
  }

  /** Once failed, always failed: any further chain keeps the original
      status and effect, and leaves no value behind. */
  lemma {:induction false} FailureIsSticky<V, E>(m: PyomoMonad<V, E>, funcs: seq<Option<V> -> Attempt<V, E>>)
    requires m.status.Some?
    requires |funcs| > 0
    ensures Chain(m, funcs) == PyomoMonad(None, m.effect, m.status)
    decreases |funcs|
  {
    if |funcs| > 1 {
      FailureIsSticky(Shift(m, funcs[0]), funcs[1..]);
    }
  }

  /** After a step raises, calling the chain, however long it grows, yields
      `None` and the status is that step's error. */
  lemma RaiseThenChainCallsNothing<V, E>(m: PyomoMonad<V, E>, f: Option<V> -> Attempt<V, E>,
                                         funcs: seq<Option<V> -> Attempt<V, E>>)
    requires m.status.None? && f(m.value).Raises?
    ensures Chain(Shift(m, f), funcs).status == Some(f(m.value).error)
    ensures Call(Chain(Shift(m, f), funcs)).None?
  {
    if |funcs| > 0 {
      FailureIsSticky(Shift(m, f), funcs);
    }
  }

  /** `__call__` runs the effect on the value when there is one, and
      otherwise returns the value. */
  lemma CallRunsEffect<V, E>(m: PyomoMonad<V, E>)
    ensures m.effect.Run? ==> Call(m) == m.effect.f(m.value)
    ensures m.effect.NoEffect? ==> Call(m) == m.value
    ensures m.effect.ShowStatus? ==> Call(m).None?
  {
  }

  /** Every step returns when applied, in turn, to the value the previous
      step produced, starting from `w`. */
  predicate AllReturn<V, E>(w: Option<V>, funcs: seq<Option<V> -> Attempt<V, E>>)
    decreases |funcs|
  {
    |funcs| == 0 || (funcs[0](w).Returns? && AllReturn(funcs[0](w).result, funcs[1..]))
  }

  /** The value obtained by applying each step in turn; `None` once a step
      raises. */
  function Thread<V, E>(w: Option<V>, funcs: seq<Option<V> -> Attempt<V, E>>): Option<V>
    decreases |funcs|
  {
    if |funcs| == 0 then w
    else match funcs[0](w)
      case Returns(r) => Thread(r, funcs[1..])
      case Raises(_) => None
  }

  /** A chain whose steps all return threads the value through them in
      order, keeps the effect and never sets the status; a chain in which
      some step raises ends failed. */
  lemma {:induction false} ChainOfSuccesses<V, E>(m: PyomoMonad<V, E>, funcs: seq<Option<V> -> Attempt<V, E>>)
    requires m.status.None?
    ensures Chain(m, funcs).status.None? <==> AllReturn(m.value, funcs)
    ensures AllReturn(m.value, funcs) ==>
              Chain(m, funcs).effect == m.effect && Chain(m, funcs).value == Thread(m.value, funcs)
    decreases |funcs|
  {
    if |funcs| > 0 {
      var next := Shift(m, funcs[0]);
      if funcs[0](m.value).Returns? {
        ChainOfSuccesses(next, funcs[1..]);
      } else if |funcs| > 1 {
        FailureIsSticky(next, funcs[1..]);
      }
    }
  }
}
