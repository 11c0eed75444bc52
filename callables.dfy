/** User-supplied callables (watch functions, listeners, queued tasks, post-digest
    callbacks) represented as data that the model interprets.

    A callable performs a list of actions on the scope, in order, and then returns the
    value of an expression. `Throw` raises an exception: the actions before it keep
    their effect, the ones after it do not run. The actions are the scope operations a
    callable in the test suite performs: assigning an ad-hoc property, registering or
    deregistering a watcher, and queueing work. */
module Callables {
  import opened Values
  import opened Wrappers

  datatype Expr =
    | Const(v: Value)
    | Read(key: string)          // `scope.key`; a missing property reads as undefined
    | Arg(index: nat)            // the callable's positional argument (undefined if absent)
    | Incremented(e: Expr)       // the value `x++` stores into `x`
    | Element(e: Expr, index: nat)  // `e[index]` on an array; anything else reads as undefined

  datatype Action =
    | Assign(key: string, value: Expr)                              // scope.key = value
    | Watch(watchFn: Fn, listener: Option<Fn>, byValue: bool)       // scope.$watch(...)
    | Deregister(registration: nat)     // call the remover returned by the given $watch registration
    | WatchGroup(watchFns: seq<Fn>, groupListener: Fn)              // scope.$watchGroup(...)
    | DeregisterGroup(group: nat)       // call the deregistrar returned by the given $watchGroup
    | EvalAsync(task: Fn)                                           // scope.$evalAsync(task)
    | ApplyAsync(task: Fn)                                          // scope.$applyAsync(task)
    | PostDigest(callback: Fn)                                      // scope.$$postDigest(callback)
    | Throw                                                         // throw ...

  datatype Fn = Fn(body: seq<Action>, result: Expr)

  /** `function() {}`: the listener `$watch` substitutes when none is given. */
  const NoOp := Fn([], Const(Undefined))

  /** `x++` applied to the value of `x`: ToNumber, then add one. Strings and arrays
      become NaN here (numeric strings are not modelled). */
  function Increment(v: Value): (r: Value)
    ensures r.IsNumber()
    ensures v.Num? ==> r == Num(v.n + 1)
  {
    match v
    case Num(n) => Num(n + 1)
    case Null => Num(1)
    case Bool(b) => Num(if b then 2 else 1)
    case _ => NaN
  }

  function EvalExpr(vars: map<string, Value>, e: Expr, args: seq<Value>): Value
  {
    match e
    case Const(v) => v
    case Read(k) => if k in vars then vars[k] else Undefined
    case Arg(i) => if i < |args| then args[i] else Undefined
    case Incremented(x) => Increment(EvalExpr(vars, x, args))
    case Element(x, i) => var a := EvalExpr(vars, x, args); if a.Arr? && i < |a.items| then a.items[i] else Undefined
  }

  /** A size that bounds the work a callable can queue. Every action counts one, and an
      action that queues a callable (or registers a group whose listener it queues)
      counts that callable's size as well; so running a callable queues strictly less
      than its own size on each queue. This is the measure by which the queue drains of
      scope.js terminate. */
  function Size(f: Fn): (n: nat)
    decreases f, 1
    ensures n >= 1
  {
    1 + BodySize(f.body)
  }

  function BodySize(body: seq<Action>): nat
    decreases body, 0
  {
    if body == [] then 0 else ActionSize(body[0]) + BodySize(body[1..])
  }

  function ActionSize(a: Action): (n: nat)
    decreases a, 2
    ensures n >= 1
  {
    match a
    case EvalAsync(t) => 1 + Size(t)
    case ApplyAsync(t) => 1 + Size(t)
    case PostDigest(c) => 1 + Size(c)
    case WatchGroup(_, l) => 1 + Size(l)
    case _ => 1
  }
}
