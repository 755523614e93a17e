/**
 * The get-or-insert helpers of `HashMapExtras` and `BTreeMapExtras`
 * (src/misc.rs). Both traits have the same three methods with the same
 * bodies; neither body depends on the iteration order of the map, so one
 * definition over Dafny's finite `map` stands for both.
 *
 * Each Rust helper takes `&mut self` and returns a mutable reference into
 * the map. Here a helper takes the map before the call and returns the map
 * after it together with the value the returned reference points at; a
 * caller that writes through the reference writes that key of the
 * returned map.
 *
 * The `FnMut` closures of `get_mut_or_else` and `get_mut_or_else_with_error`
 * are modelled as state-passing functions `S -> (value, S)`: the closure's
 * captured state comes in as `env` and leaves as `env'`, so "the closure was
 * not called" reads as `env' == env`.
 */
module MapExtras {
  import opened Wrappers

  /** `get_mut_or_create`: the entry for `key`, inserting `val` first if there is none. */
  method GetMutOrCreate<K, V>(m: map<K, V>, key: K, val: V) returns (m': map<K, V>, v: V)
    ensures key in m' && m'[key] == v
    ensures m'.Keys == m.Keys + {key}
    ensures forall k :: k in m && k != key ==> m'[k] == m[k]
    ensures key in m ==> m' == m && v == m[key]
    ensures key !in m ==> m' == m[key := val] && v == val
  {
    if key in m {
      m', v := m, m[key];
    } else {
      m' := m[key := val];
      v := m'[key];
    }
  }

  /** `get_mut_or_else`: like `GetMutOrCreate`, but the value to insert comes from calling `func`, only when needed. */
  method GetMutOrElse<K, V, S>(m: map<K, V>, key: K, func: S -> (V, S), env: S)
    returns (m': map<K, V>, v: V, env': S)
    ensures key in m' && m'[key] == v
    ensures m'.Keys == m.Keys + {key}
    ensures forall k :: k in m && k != key ==> m'[k] == m[k]
    ensures key in m ==> m' == m && v == m[key] && env' == env
    ensures key !in m ==> m' == m[key := func(env).0] && v == func(env).0 && env' == func(env).1
  {
    if key in m {
      m', v, env' := m, m[key], env;
    } else {
      var (x, env1) := func(env);
      m' := m[key := x];
      v, env' := m'[key], env1;
    }
  }

  /**
   * `get_mut_or_else_with_error`: like `GetMutOrElse`, but `func` may fail;
   * its error is returned and, because the insertion comes after the call,
   * the map is then left as it was.
   */
  method GetMutOrElseWithError<K, V, E, S>(m: map<K, V>, key: K, func: S -> (Result<V, E>, S), env: S)
    returns (r: Result<V, E>, m': map<K, V>, env': S)
    ensures r.Ok? ==> key in m' && m'[key] == r.value
    ensures r.Ok? ==> m'.Keys == m.Keys + {key} && forall k :: k in m && k != key ==> m'[k] == m[k]
    ensures key in m ==> r == Ok(m[key]) && m' == m && env' == env
    ensures key !in m ==> env' == func(env).1
    ensures key !in m && func(env).0.Err? ==> r == Err(func(env).0.error) && m' == m
    ensures key !in m && func(env).0.Ok? ==> r == func(env).0 && m' == m[key := func(env).0.value]
  {
    if key in m {
      r, m', env' := Ok(m[key]), m, env;
    } else {
      var (res, env1) := func(env);
      env' := env1;
      match res {
        case Err(e) =>
          r, m' := Err(e), m;
        case Ok(x) =>
          m' := m[key := x];
          r := Ok(m'[key]);
      }
    }
  }

  /**
   * Two `get_mut_or_create` calls with the same key: the second leaves the
   * map as the first left it and returns the value the first one stored,
   * whatever it is offered.
   */
  method GetMutOrCreateTwice<K, V>(m: map<K, V>, key: K, first: V, second: V)
    returns (once: map<K, V>, v1: V, twice: map<K, V>, v2: V)
    ensures twice == once && v2 == v1
    ensures once == (if key in m then m else m[key := first])
    ensures v1 == (if key in m then m[key] else first)
  {
    once, v1 := GetMutOrCreate(m, key, first);
    twice, v2 := GetMutOrCreate(once, key, second);
  }
}
