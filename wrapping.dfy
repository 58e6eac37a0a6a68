/** The Body Adapter (wrapBody), the Function Wrapper (wrapFn) and the Completion Adapter
    (wrapDone) of index.js. The fiber runtime that runs a body is external: a body's run is
    summarised by its Outcome. */
module Wrapping {
  import opened JsValues

  /** The user code a registered body stands for: the original of a marked closure, or the value itself. */
  function Original(v: Value): (u: Value) {
    if Marked(v) then v.code.input else v
  }

  /** `b` is what the host framework may receive in place of the body `f`: a function becomes a
      marked closure running the same user code, anything else is handed over as it is. */
  ghost predicate Adapts(b: Value, f: Value) {
    (f.Fn? ==> Marked(b)) && (!f.Fn? ==> b == f) && Original(b) == Original(f)
  }

  /** wrapBody: `id` is the reference a new closure receives, if one is made. */
  function WrapBody(input: Value, id: Ref): (r: Value)
    ensures Adapts(r, input)
    ensures Marked(input) || !input.Fn? ==> r == input
    ensures r != input ==> r.Fn? && r.id == id && !r.hasOnly && !r.hasSkip
  {
    if !input.Fn? then input
    else if Marked(input) then input
    else Fn(id, Synced(input), false, false)
  }

  /** Wrapping a body twice yields the very same reference as wrapping it once. */
  lemma WrapBodyIdempotent(input: Value, id: Ref, id': Ref)
    ensures WrapBody(WrapBody(input, id), id') == WrapBody(input, id)
  {
  }

  /** wrapFn: the new registration function `output`, with reference `id`. */
  function WrapFn(input: Value, id: Ref): (r: Value)
    requires input.Fn?
    ensures r.Fn? && r.id == id && !Marked(r)
    ensures r.hasOnly == input.hasOnly && r.hasSkip == input.hasSkip
    ensures r != input
  {
    var r := Fn(id, Registrar(input), input.hasOnly, input.hasSkip);
    assert input < r.code;
    r
  }

  /** Which of a registration function's entry points is called. */
  datatype Member = Direct | Only | Skip

  /** A call that a wrapper makes on the function it wraps. */
  datatype Delegation = Delegation(target: Value, member: Member, args: seq<Value>)

  /** Calling the wrapper `output` itself, its `.only` or its `.skip` with the arguments `name`
      and `fn` (Undefined when absent). `bodyId` is the reference a new body closure receives. */
  function Invoke(output: Value, member: Member, name: Value, fn: Value, bodyId: Ref): (d: Delegation)
    requires output.Fn? && output.code.Registrar?
    requires member == Only ==> output.hasOnly
    requires member == Skip ==> output.hasSkip
    ensures d.target == output.code.input && d.member == member
    ensures member == Skip ==> d.args == [name]
    ensures member == Direct && name.Fn? ==> |d.args| == 1 && Adapts(d.args[0], name)
    ensures member != Skip && !(member == Direct && name.Fn?) ==>
              |d.args| == 2 && d.args[0] == name && Adapts(d.args[1], fn)
  {
    var input := output.code.input;
    match member
    case Direct =>
      if name.Fn? then Delegation(input, Direct, [WrapBody(name, bodyId)])
      else Delegation(input, Direct, [name, WrapBody(fn, bodyId)])
    case Only => Delegation(input, Only, [name, WrapBody(fn, bodyId)])
    case Skip => Delegation(input, Skip, [name])
  }

  /** How one run of a body inside its fiber ended. */
  datatype Outcome = Returned | Raised(error: Value)

  /** A completion callback: one the host framework supplied (`hasFail` when it owns a callable
      `.fail`), or the closure that wrapDone builds around the host callback `done`. */
  datatype Completion = Callback(id: Ref, hasFail: bool) | FailForwarder(done: Ref)

  /** What can be observed of a body's run: the user code entered with a receiver, and calls
      on the host's completion callback. */
  datatype Effect =
    | Entered(fn: Value, receiver: Value)
    | DoneCalled(done: Ref, args: seq<Value>)
    | FailCalled(done: Ref, error: Value)

  predicate HasFail(c: Completion) {
    c.Callback? && c.hasFail
  }

  /** The host callback that a completion finally reaches. */
  function Target(c: Completion): (ref: Ref) {
    match c
    case Callback(id, _) => id
    case FailForwarder(done) => done
  }

  /** wrapDone. */
  function WrapDone(done: Completion): (r: Completion)
    ensures !HasFail(done) ==> r == done
    ensures HasFail(done) ==> r.FailForwarder? && Target(r) == Target(done)
  {
    if HasFail(done) then FailForwarder(done.id) else done
  }

  /** Calling the completion `c` with `args`: a host callback receives the arguments as they
      are; the adapter calls `done.fail(err)` for a truthy first argument and `done()` otherwise.
      Either way the host callback is reached exactly once. */
  function Notify(c: Completion, args: seq<Value>): (effects: seq<Effect>)
    ensures |effects| == 1
    ensures effects[0].FailCalled? <==> c.FailForwarder? && |args| > 0 && Truthy(args[0])
    ensures effects[0].FailCalled? ==> effects[0] == FailCalled(Target(c), args[0])
    ensures c.FailForwarder? && !effects[0].FailCalled? ==> effects[0] == DoneCalled(Target(c), [])
    ensures c.Callback? ==> effects[0] == DoneCalled(Target(c), args)
  {
    match c
    case Callback(id, _) => [DoneCalled(id, args)]
    case FailForwarder(done) =>
      if |args| > 0 && Truthy(args[0]) then [FailCalled(done, args[0])] else [DoneCalled(done, [])]
  }

  /** The arguments the fiber runtime passes to its completion callback. */
  function FiberArgs(outcome: Outcome): (args: seq<Value>) {
    match outcome
    case Returned => []
    case Raised(error) => [error]
  }

  /** Calling a marked body with the host's own completion callback `done` and receiver `receiver`:
      the user code runs once with that receiver, and the host hears of the outcome exactly once,
      a truthy error through `.fail` when it has one. */
  function RunBody(body: Value, receiver: Value, done: Completion, outcome: Outcome): (effects: seq<Effect>)
    requires Marked(body) && done.Callback?
    ensures |effects| == 2 && effects[0] == Entered(Original(body), receiver)
    ensures outcome.Returned? ==> effects[1] == DoneCalled(Target(done), [])
    ensures outcome.Raised? && !HasFail(done) ==> effects[1] == DoneCalled(Target(done), [outcome.error])
    ensures outcome.Raised? && HasFail(done) && Truthy(outcome.error) ==>
              effects[1] == FailCalled(Target(done), outcome.error)
    ensures outcome.Raised? && HasFail(done) && !Truthy(outcome.error) ==>
              effects[1] == DoneCalled(Target(done), [])
  {
    [Entered(body.code.input, receiver)] + Notify(WrapDone(done), FiberArgs(outcome))
  }

  /** Registering `fn` through a wrapper and then running what the host received runs the user's
      own code `fn`; through `.skip` no body reaches the host at all. */
  lemma RegisteredBodyRunsUserCode(f: Value, id: Ref, name: Value, fn: Value, bodyId: Ref)
    requires f.Fn? && fn.Fn? && !name.Fn?
    ensures var d := Invoke(WrapFn(f, id), Direct, name, fn, bodyId);
            d.target == f && Marked(d.args[1]) &&
            forall receiver, done: Completion, outcome {:trigger RunBody(d.args[1], receiver, done, outcome)} ::
              done.Callback? ==> RunBody(d.args[1], receiver, done, outcome)[0] == Entered(Original(fn), receiver)
    ensures f.hasSkip ==> Invoke(WrapFn(f, id), Skip, name, fn, bodyId).args == [name]
  {
  }
}
