/**
 * The environment registry of `src/env.js`. The module keeps one counter `i`
 * and one slot table `envs`, shared by every function `withEnv` creates.
 * `fn.withEnv(env)` stores `env` in slot `i`, moves `i` on by one and returns
 * a closure that always passes that `env`; calling `fn` itself passes
 * `envs[i - 1]`, the latest registration through any such function, or
 * `undefined` (`None`) when nothing was registered.
 */
module Env {
  import opened Wrappers

  /** The function `withEnv(callback)` returns; its state lives in the registry. */
  datatype EnvFn<!E, !A, B> = EnvFn(callback: (Option<E>, A) -> B)

  /** The closure `fn.withEnv(env)` returns, with the `env` it captured. */
  datatype Bound<!E, !A, B> = Bound(callback: (Option<E>, A) -> B, env: E)

  /** The module state: the counter `i` and the slots `envs`. */
  datatype Table<E> = Table(i: nat, envs: map<int, E>)

  /** Exactly the slots below the counter are filled. */
  ghost predicate Dense<E>(t: Table<E>)
  {
    forall k :: k in t.envs <==> 0 <= k < t.i
  }

  /** `envs[k]`, which is `undefined` when slot `k` was never filled. */
  function Slot<E>(t: Table<E>, k: int): Option<E>
  {
    if k in t.envs then Some(t.envs[k]) else None
  }

  /** `envs[i - 1]`, which is `undefined` when that slot was never filled. */
  function Latest<E>(t: Table<E>): Option<E>
  {
    Slot(t, t.i - 1)
  }

  /** `envs[i] = env; i++`. */
  function Push<E>(t: Table<E>, env: E): (r: Table<E>)
    ensures r.i == t.i + 1
    ensures Latest(r) == Some(env)
    ensures forall k :: k in t.envs && k < t.i ==> k in r.envs && r.envs[k] == t.envs[k]
    ensures Dense(t) ==> Dense(r)
  {
    Table(t.i + 1, t.envs[t.i := env])
  }

  /** The registrations `es`, in order. */
  function PushAll<E>(t: Table<E>, es: seq<E>): Table<E>
    decreases |es|
  {
    if |es| == 0 then t else PushAll(Push(t, es[0]), es[1..])
  }

  /** The state before any registration: `i = 0`, `envs = {}`. */
  function Empty<E>(): Table<E>
  {
    Table(0, map[])
  }

  /** Before any registration the unbound function receives `undefined`. */
  lemma InitialHasNoLatest<E>()
    ensures Latest(Empty<E>()) == None
    ensures Dense(Empty<E>())
  {
  }

  /**
   * After a run of registrations the counter has moved on by their number,
   * every slot filled before still holds what it held, the new slots hold the
   * registered envs in order, and the latest is the last one registered.
   */
  lemma {:induction false} PushAllEffect<E>(t: Table<E>, es: seq<E>)
    ensures PushAll(t, es).i == t.i + |es|
    ensures forall k :: k in t.envs && k < t.i ==> k in PushAll(t, es).envs && PushAll(t, es).envs[k] == t.envs[k]
    ensures forall j :: 0 <= j < |es| ==> Slot(PushAll(t, es), t.i + j) == Some(es[j])
    ensures |es| > 0 ==> Latest(PushAll(t, es)) == Some(es[|es| - 1])
    ensures Dense(t) ==> Dense(PushAll(t, es))
    decreases |es|
  {
    if |es| > 0 {
      var t' := Push(t, es[0]);
      PushAllEffect(t', es[1..]);
      var r := PushAll(t, es);
      assert r == PushAll(t', es[1..]);
      forall j | 0 <= j < |es|
        ensures Slot(r, t.i + j) == Some(es[j])
      {
        if j == 0 {
          assert t.i in t'.envs && t.i < t'.i;
        } else {
          assert es[1..][j - 1] == es[j];
          assert t'.i + (j - 1) == t.i + j;
        }
      }
    }
  }

  /** Calling a bound closure: the captured `env` goes to the callback, whatever was registered since. */
  function CallBound<E, A, B>(b: Bound<E, A, B>, args: A): B
  {
    b.callback(Some(b.env), args)
  }

  /**
   * A closure bound to `env` keeps passing `env` however many registrations
   * follow, while the unbound function passes `env` only until the next
   * registration and the last registered env after that.
   */
  lemma {:induction false} BoundVersusLatest<E, A, B>(t: Table<E>, f: EnvFn<E, A, B>, env: E, es: seq<E>, args: A)
    ensures CallBound(Bound(f.callback, env), args) == f.callback(Some(env), args)
    ensures Latest(PushAll(Push(t, env), es)) == if |es| == 0 then Some(env) else Some(es[|es| - 1])
  {
    PushAllEffect(Push(t, env), es);
  }

  class EnvRegistry<E> {
    var i: nat
    var envs: map<int, E>

    function State(): Table<E>
      reads this
    {
      Table(i, envs)
    }

    /** `let i = 0; let envs = {}`. */
    constructor ()
      ensures State() == Empty() && Dense(State())
    {
      i := 0;
      envs := map[];
    }

    /** `fn.withEnv(env)`: store `env` in slot `i`, advance `i`, return the closure bound to `env`. */
    method Register<A, B>(f: EnvFn<E, A, B>, env: E) returns (b: Bound<E, A, B>)
      modifies this
      ensures State() == Push(old(State()), env)
      ensures i == old(i) + 1 && envs == old(envs)[old(i) := env]
      ensures b.callback == f.callback && b.env == env
    {
      envs := envs[i := env];
      i := i + 1;
      b := Bound(f.callback, env);
    }

    /** Calling `fn(...args)`: the callback receives `envs[i - 1]`. */
    method Call<A, B>(f: EnvFn<E, A, B>, args: A) returns (r: B)
      ensures r == f.callback(Latest(State()), args)
      ensures i == 0 && Dense(State()) ==> r == f.callback(None, args)
    {
      r := f.callback(if i - 1 in envs then Some(envs[i - 1]) else None, args);
    }
  }

  /**
   * Two functions made by `withEnv` share one registry: a registration through
   * the second is what the first's unbound call sees, while a closure bound
   * through the first keeps its own env.
   */
  method SharedRegistry<E, A, B>(first: (Option<E>, A) -> B, second: (Option<E>, A) -> B, x: E, y: E, args: A)
    returns (before: B, boundToX: B, latest: B)
    ensures before == first(None, args)
    ensures boundToX == first(Some(x), args)
    ensures latest == first(Some(y), args)
  {
    var registry := new EnvRegistry<E>();
    var f := EnvFn(first);
    var g := EnvFn(second);
    before := registry.Call(f, args);
    var bx := registry.Register(f, x);
    var _ := registry.Register(g, y);
    boundToX := CallBound(bx, args);
    latest := registry.Call(f, args);
  }
}
