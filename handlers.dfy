/**
 * Route handlers as data, and how their parameters are bound.
 *
 * A PHP closure is replaced by its reflected parameter list and a function from the bound
 * arguments to what the call does: the registrations it makes on the route it is given
 * (`$route['pattern'] = ...`, `$route->get = ...`, `unset($route['pattern'])`), whether it
 * calls `$route->abort()`, which Module it hands to `$route->delegate(new X())`, and the
 * value it returns. Closures defined inside closures are referred to by number through a
 * handler table, so no datatype is recursive.
 *
 * Three binding rules occur in the source; all produce one argument per declared
 * parameter, in declaration order, and fail on the first parameter nothing can fill.
 */
module Handlers {
  import opened Wrappers
  import opened Values
  import opened PhpStrings
  import opened OrderedMaps

  /** The number of a closure in the handler table. */
  type HandlerId = nat

  /** A registration a closure makes on the route it is handed. */
  datatype Registration =
    | Define(pattern: string, handler: HandlerId)   // $route[$pattern] = $init
    | Undefine(pattern: string)                     // unset($route[$pattern])
    | DefineMethod(name: string, handler: HandlerId) // $route->$name = $func

  /** A Module subclass: the registrations its `init` makes after `parent::init()`. */
  datatype ModuleDef = ModuleDef(regs: seq<Registration>)

  /** One thing a closure does to the route it is handed. */
  datatype Effect =
    | Register(reg: Registration)
    | CallAbort                      // $route->abort()
    | CallDelegate(def: ModuleDef) // $route->delegate(new X())

  /** What one call of a closure does, and the value it returns (`Null` for no return). */
  datatype Outcome = Outcome(effects: seq<Effect>, result: Value)

  /** A closure: its declared parameters and its behaviour on the bound arguments. */
  datatype Handler = Handler(params: seq<Param>, run: seq<Value> -> Outcome)

  /** Every closure of the application, by number. */
  type HandlerTable = HandlerId -> Handler

  // ---------------------------------------------------------------------------------------
  // The registries a route keeps

  /** One registration's effect on the pattern registry: PHP array assignment keeps a key's place. */
  function ApplyPattern(pats: OrderedMap<string, HandlerId>, reg: Registration): OrderedMap<string, HandlerId> {
    match reg
    case Define(p, h) => Set(pats, p, h)
    case Undefine(p) => Remove(pats, p)
    case DefineMethod(_, _) => pats
  }

  /** One registration's effect on the method registry: names are stored lower-cased. */
  function ApplyMethod(methods: map<string, HandlerId>, reg: Registration): map<string, HandlerId> {
    match reg
    case DefineMethod(n, h) => methods[LowerAscii(n) := h]
    case _ => methods
  }

  /** The pattern registry after some registrations, in order. */
  function ApplyPatterns(pats: OrderedMap<string, HandlerId>, regs: seq<Registration>): OrderedMap<string, HandlerId>
    decreases |regs|
  {
    if regs == [] then pats else ApplyPattern(ApplyPatterns(pats, regs[..|regs| - 1]), regs[|regs| - 1])
  }

  /** The method registry after some registrations, in order. */
  function ApplyMethods(methods: map<string, HandlerId>, regs: seq<Registration>): map<string, HandlerId>
    decreases |regs|
  {
    if regs == [] then methods else ApplyMethod(ApplyMethods(methods, regs[..|regs| - 1]), regs[|regs| - 1])
  }

  /** `__get($name)`: the handler stored under the lower-cased name, if any. */
  function LookupMethod(methods: map<string, HandlerId>, name: string): (r: Option<HandlerId>)
    ensures r.Some? <==> LowerAscii(name) in methods
    ensures r.Some? ==> r.value == methods[LowerAscii(name)]
  {
    var key := LowerAscii(name);
    if key in methods then Some(methods[key]) else None
  }

  /**
   * Method names are case-insensitive: a handler set under one spelling is found under every
   * spelling with the same lower case, and other names are unaffected.
   */
  lemma MethodLookupAfterDefine(methods: map<string, HandlerId>, name: string, h: HandlerId, name': string)
    ensures LowerAscii(name') == LowerAscii(name) ==>
      LookupMethod(ApplyMethods(methods, [DefineMethod(name, h)]), name') == Some(h)
    ensures LowerAscii(name') != LowerAscii(name) ==>
      LookupMethod(ApplyMethods(methods, [DefineMethod(name, h)]), name') == LookupMethod(methods, name')
  {
    assert [DefineMethod(name, h)][..0] == [];
  }

  /** Pattern definitions and removals leave the method registry as it was. */
  lemma {:induction false} PatternRegistrationsKeepMethods(methods: map<string, HandlerId>, regs: seq<Registration>)
    requires forall i :: 0 <= i < |regs| ==> !regs[i].DefineMethod?
    ensures ApplyMethods(methods, regs) == methods
    decreases |regs|
  {
    if regs != [] {
      PatternRegistrationsKeepMethods(methods, regs[..|regs| - 1]);
    }
  }

  // ---------------------------------------------------------------------------------------
  // Reading the effects of one call

  /** The registrations among the effects, in order. */
  function Registrations(effects: seq<Effect>): (regs: seq<Registration>)
    ensures |regs| <= |effects|
    decreases |effects|
  {
    if effects == [] then []
    else
      var front := Registrations(effects[..|effects| - 1]);
      var e := effects[|effects| - 1];
      if e.Register? then front + [e.reg] else front
  }

  /** Some effect called `abort()`. */
  predicate Aborts(effects: seq<Effect>)
    decreases |effects|
  {
    effects != [] && (effects[|effects| - 1].CallAbort? || Aborts(effects[..|effects| - 1]))
  }

  /** The Module of the last `delegate()` call; each call replaces the one before. */
  function LastDelegate(effects: seq<Effect>): Option<ModuleDef>
    decreases |effects|
  {
    if effects == [] then None
    else
      var e := effects[|effects| - 1];
      if e.CallDelegate? then Some(e.def) else LastDelegate(effects[..|effects| - 1])
  }

  /**
   * `abort()` was called exactly when some effect is an abort, and the delegate is the
   * Module of the last `delegate()` call, if there was one.
   */
  lemma {:induction false} EffectsRead(effects: seq<Effect>)
    ensures Aborts(effects) <==> exists i :: 0 <= i < |effects| && effects[i].CallAbort?
    ensures LastDelegate(effects).Some? <==> exists i :: 0 <= i < |effects| && effects[i].CallDelegate?
    ensures LastDelegate(effects).Some? ==> exists i :: (0 <= i < |effects| && effects[i] == CallDelegate(LastDelegate(effects).value)
      && forall j :: i < j < |effects| ==> !effects[j].CallDelegate?)
    decreases |effects|
  {
    if effects != [] {
      var front := effects[..|effects| - 1];
      EffectsRead(front);
      assert forall i :: 0 <= i < |front| ==> front[i] == effects[i];
      if LastDelegate(effects).Some? && !effects[|effects| - 1].CallDelegate? {
        var i :| 0 <= i < |front| && front[i] == CallDelegate(LastDelegate(front).value)
          && forall j :: i < j < |front| ==> !front[j].CallDelegate?;
        assert effects[i] == CallDelegate(LastDelegate(effects).value);
      }
    }
  }

  /** Reading the effects one more effect at a time. */
  lemma EffectsSnoc(effects: seq<Effect>, e: Effect)
    ensures Registrations(effects + [e]) == Registrations(effects) + (if e.Register? then [e.reg] else [])
    ensures Aborts(effects + [e]) <==> Aborts(effects) || e.CallAbort?
    ensures LastDelegate(effects + [e]) == if e.CallDelegate? then Some(e.def) else LastDelegate(effects)
  {
    var all := effects + [e];
    assert all[..|all| - 1] == effects;
  }

  /** Applying registrations one more at a time. */
  lemma RegistrationsSnoc(pats: OrderedMap<string, HandlerId>, methods: map<string, HandlerId>, regs: seq<Registration>, more: seq<Registration>)
    requires |more| <= 1
    ensures ApplyPatterns(pats, regs + more) == if more == [] then ApplyPatterns(pats, regs) else ApplyPattern(ApplyPatterns(pats, regs), more[0])
    ensures ApplyMethods(methods, regs + more) == if more == [] then ApplyMethods(methods, regs) else ApplyMethod(ApplyMethods(methods, regs), more[0])
  {
    if more == [] {
      assert regs + more == regs;
    } else {
      assert (regs + more)[..|regs|] == regs;
    }
  }

  // ---------------------------------------------------------------------------------------
  // Binding parameters

  /** A dependency-injection container, reduced to `has($id)` and `get($id)`. */
  datatype Container = Container(has: string -> bool, get: string -> Value)

  /** Where the arguments of a call come from. */
  datatype Strategy =
    | Reserved(route: Value, owner: Value) // Route::invoke: `route`, `module`, then the route's vars
    | Defaults                              // Invoker: the given values, then defaults
    | Interop(container: Container)         // InteropInvoker: given values, container by class, defaults

  /** The argument one parameter receives, or `None` when nothing can fill it. */
  function Binding(via: Strategy, given: map<string, Value>, p: Param): (r: Option<Value>)
  {
    match via
    case Reserved(route, owner) =>
      if p.name == "route" then Some(route)
      else if p.name == "module" then Some(owner)
      else if p.name in given then Some(given[p.name])
      else None
    case Defaults =>
      if p.name in given then Some(given[p.name]) else p.default
    case Interop(c) =>
      if p.name in given then Some(given[p.name])
      else if p.classType.Some? && c.has(p.classType.value) then Some(c.get(p.classType.value))
      else p.default
  }

  /**
   * The argument list: one argument per parameter, in order, or the InvocationException
   * that names the first parameter that cannot be filled.
   */
  function Arguments(ps: seq<Param>, via: Strategy, given: map<string, Value>): Result<seq<Value>, Error>
    decreases |ps|
  {
    if ps == [] then Ok([])
    else
      var front := ps[..|ps| - 1];
      var p := ps[|ps| - 1];
      match Arguments(front, via, given)
      case Err(e) => Err(e)
      case Ok(args) =>
        match Binding(via, given, p)
        case None => Err(MissingParameter(p.name))
        case Some(v) => Ok(args + [v])
  }

  /**
   * Binding succeeds exactly when every parameter can be filled, and then gives each
   * parameter its binding, in order; otherwise the error names the first parameter that
   * cannot be filled.
   */
  lemma {:induction false} ArgumentsRead(ps: seq<Param>, via: Strategy, given: map<string, Value>)
    ensures var r := Arguments(ps, via, given);
      && (r.Ok? <==> forall i :: 0 <= i < |ps| ==> Binding(via, given, ps[i]).Some?)
      && (r.Ok? ==> |r.value| == |ps| && forall i :: 0 <= i < |ps| ==> Some(r.value[i]) == Binding(via, given, ps[i]))
      && (r.Err? ==> exists k :: (0 <= k < |ps| && r.error == MissingParameter(ps[k].name)
            && Binding(via, given, ps[k]).None? && forall i :: 0 <= i < k ==> Binding(via, given, ps[i]).Some?))
    decreases |ps|
  {
    if ps != [] {
      var front := ps[..|ps| - 1];
      ArgumentsRead(front, via, given);
      assert forall i :: 0 <= i < |front| ==> front[i] == ps[i];
    }
  }

  /** Calling a closure on its bound arguments, or the binding error. */
  function Call(h: Handler, args: Result<seq<Value>, Error>): (r: Result<Outcome, Error>)
    ensures r.Err? <==> args.Err?
    ensures r.Err? ==> r.error == args.error
  {
    match args
    case Err(e) => Err(e)
    case Ok(vs) => Ok(h.run(vs))
  }

  /** Once a prefix of the parameters fails to bind, the whole list fails with the same error. */
  lemma {:induction false} ArgumentsKeepFailing(ps: seq<Param>, k: nat, via: Strategy, given: map<string, Value>)
    requires k <= |ps| && Arguments(ps[..k], via, given).Err?
    ensures Arguments(ps, via, given) == Arguments(ps[..k], via, given)
    decreases |ps| - k
  {
    if k < |ps| {
      assert ps[..k + 1][..k] == ps[..k];
      ArgumentsKeepFailing(ps, k + 1, via, given);
    } else {
      assert ps[..k] == ps;
    }
  }

  /**
   * Values given under names no parameter has make no difference: two value maps that
   * agree on the parameters' names give the same arguments.
   */
  lemma {:induction false} ArgumentsIgnoreUnusedValues(ps: seq<Param>, via: Strategy, given: map<string, Value>, given': map<string, Value>)
    requires forall i :: 0 <= i < |ps| ==> (ps[i].name in given <==> ps[i].name in given')
    requires forall i :: 0 <= i < |ps| && ps[i].name in given ==> given[ps[i].name] == given'[ps[i].name]
    ensures Arguments(ps, via, given) == Arguments(ps, via, given')
    decreases |ps|
  {
    if ps != [] {
      var front := ps[..|ps| - 1];
      assert forall i :: 0 <= i < |front| ==> front[i] == ps[i];
      ArgumentsIgnoreUnusedValues(front, via, given, given');
    }
  }

  /**
   * The container only ever fills class-typed parameters it has: when it has none of the
   * parameters' classes, the interop rule binds exactly as the default rule does.
   */
  lemma {:induction false} InteropFallsBackToDefaults(ps: seq<Param>, c: Container, given: map<string, Value>)
    requires forall i :: 0 <= i < |ps| ==> ps[i].classType.None? || !c.has(ps[i].classType.value)
    ensures Arguments(ps, Interop(c), given) == Arguments(ps, Defaults, given)
    decreases |ps|
  {
    if ps != [] {
      var front := ps[..|ps| - 1];
      assert forall i :: 0 <= i < |front| ==> front[i] == ps[i];
      InteropFallsBackToDefaults(front, c, given);
    }
  }

  /**
   * The container is asked before the default: a class-typed parameter that is not given
   * and whose class the container has is filled from the container even when it has a default.
   */
  lemma ContainerBeforeDefault(c: Container, given: map<string, Value>, p: Param)
    requires p.name !in given && p.classType.Some? && c.has(p.classType.value) && p.default.Some?
    ensures Binding(Interop(c), given, p) == Some(c.get(p.classType.value))
    ensures Binding(Defaults, given, p) == p.default
  {
  }
}
