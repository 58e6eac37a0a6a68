/** JavaScript values, as far as the wrapping machinery of synchronize-bdd can observe them. */
module JsValues {

  /** The identity of an object or closure: two references are `===` exactly when their ids agree. */
  type Ref = nat

  /** What a function does when it is called, as far as index.js can tell. */
  datatype Code =
    | Foreign                 // defined outside index.js: a host registration function, a user body, ...
    | Registrar(input: Value) // the `output` closure that wrapFn builds around `input`
    | Synced(input: Value)    // the `body` closure that wrapBody builds around `input`

  /** A value as `typeof` and truthiness see it. A function records whether it owns a callable
      `.only` and a callable `.skip` property. */
  datatype Value =
    | Undefined
    | Null
    | Bool(b: bool)
    | Num(n: int)
    | Str(s: string)
    | Obj(id: Ref, props: map<string, Value>)
    | Fn(id: Ref, code: Code, hasOnly: bool, hasSkip: bool)

  /** `if (v)` in JavaScript. */
  predicate Truthy(v: Value) {
    match v
    case Undefined => false
    case Null => false
    case Bool(b) => b
    case Num(n) => n != 0
    case Str(s) => s != ""
    case Obj(_, _) => true
    case Fn(_, _, _, _) => true
  }

  /** `v.__syncit === fakeContext`: only a closure made by wrapBody carries the marker, because
      the marker object is private to index.js. */
  predicate Marked(v: Value) {
    v.Fn? && v.code.Synced?
  }

  /** Every reference reachable from `v` was allocated before `bound`. */
  ghost predicate Below(v: Value, bound: Ref) {
    match v
    case Obj(id, props) => id < bound && forall k :: k in props ==> Below(props[k], bound)
    case Fn(id, code, _, _) =>
      id < bound && (match code
                     case Foreign => true
                     case Registrar(input) => Below(input, bound)
                     case Synced(input) => Below(input, bound))
    case _ => true
  }

  /** The reference `ref` is `v` itself or is reachable from it. */
  ghost predicate Mentions(v: Value, ref: Ref) {
    match v
    case Obj(id, props) => id == ref || exists k :: k in props && Mentions(props[k], ref)
    case Fn(id, code, _, _) => id == ref || (!code.Foreign? && Mentions(code.input, ref))
    case _ => false
  }

  /** A reference handed out from `bound` on is new to a value allocated below `bound`. */
  lemma {:induction false} BelowExcludes(v: Value, bound: Ref, ref: Ref)
    requires Below(v, bound) && bound <= ref
    ensures !Mentions(v, ref)
  {
    match v
    case Obj(id, props) =>
      forall k | k in props
        ensures !Mentions(props[k], ref)
      {
        BelowExcludes(props[k], bound, ref);
      }
    case Fn(id, code, _, _) =>
      if !code.Foreign? {
        BelowExcludes(code.input, bound, ref);
      }
    case _ =>
  }

  ghost predicate AllBelow(m: map<string, Value>, bound: Ref) {
    forall k :: k in m ==> Below(m[k], bound)
  }

  /** Allocating more references never invalidates an existing one. */
  lemma {:induction false} BelowMono(v: Value, bound: Ref, bound': Ref)
    requires Below(v, bound) && bound <= bound'
    ensures Below(v, bound')
  {
    match v
    case Obj(id, props) =>
      forall k | k in props
        ensures Below(props[k], bound')
      {
        BelowMono(props[k], bound, bound');
      }
    case Fn(id, code, _, _) =>
      if !code.Foreign? {
        BelowMono(code.input, bound, bound');
      }
    case _ =>
  }

  lemma AllBelowMono(m: map<string, Value>, bound: Ref, bound': Ref)
    requires AllBelow(m, bound) && bound <= bound'
    ensures AllBelow(m, bound')
  {
    forall k | k in m
      ensures Below(m[k], bound')
    {
      BelowMono(m[k], bound, bound');
    }
  }
}
