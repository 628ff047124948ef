/**
 * The legacy generation of the router (`mindplay\walkway`): `Route` and its subclass `Module`.
 *
 * It differs from the current generation in three ways. A route's constructor builds its
 * own path and variables (`route` and `module` are ordinary variables). A pattern's
 * closure is switched to a Module subclass when one of its parameters is type-hinted with
 * one, and a closure that returns exactly `false` aborts the walk. Capture groups may all
 * be named or all be nameless; nameless values fill, in order, the parameters that no
 * variable names, and every one of them must be used.
 */
module WalkwayLegacy {
  import opened Wrappers
  import opened Values
  import opened PhpStrings
  import opened OrderedMaps
  import opened Substitutions
  import opened Matching
  import opened Handlers

  /** What one call of a legacy closure does: its registrations, and the value it returns. */
  datatype LegacyOutcome = LegacyOutcome(regs: seq<Registration>, result: Value)

  /** A legacy closure: its declared parameters and its behaviour on the bound arguments. */
  datatype LegacyHandler = LegacyHandler(params: seq<Param>, run: seq<Value> -> LegacyOutcome)

  /** Every closure of the application, by number. */
  type LegacyTable = HandlerId -> LegacyHandler

  /** The class of the Module base itself, which `isSubClassOf` does not count. */
  const ModuleClass: string := "mindplay\\walkway\\Module"

  /** The declared classes, by name, whose registrations are those of a Module subclass's `init`. */
  type ModuleClasses = map<string, ModuleDef>

  /** The parameter is type-hinted with a strict subclass of Module. */
  predicate SwitchesModule(classes: ModuleClasses, p: Param) {
    p.classType.Some? && p.classType.value in classes && p.classType.value != ModuleClass
  }

  /** The first parameter from position `i` on that is type-hinted with a Module subclass. */
  function ModuleParamFrom(ps: seq<Param>, classes: ModuleClasses, i: nat): (r: Option<nat>)
    ensures r.Some? ==> i <= r.value < |ps| && SwitchesModule(classes, ps[r.value])
    ensures r.Some? ==> forall j :: i <= j < r.value ==> !SwitchesModule(classes, ps[j])
    ensures r.None? <==> forall j :: i <= j < |ps| ==> !SwitchesModule(classes, ps[j])
    decreases |ps| - i
  {
    if i >= |ps| then None
    else if SwitchesModule(classes, ps[i]) then Some(i)
    else ModuleParamFrom(ps, classes, i + 1)
  }

  /** The parameter `resolve` switches on (`$mod_param`), if any. */
  function ModuleParam(ps: seq<Param>, classes: ModuleClasses): Option<nat> {
    ModuleParamFrom(ps, classes, 0)
  }

  /** The loop over the closure's parameters that stops at the first Module type-hint. */
  method FindModuleParam(ps: seq<Param>, classes: ModuleClasses) returns (r: Option<nat>)
    ensures r == ModuleParam(ps, classes)
  {
    var i := 0;
    while i < |ps|
      invariant 0 <= i <= |ps|
      invariant ModuleParamFrom(ps, classes, i) == ModuleParam(ps, classes)
    {
      if SwitchesModule(classes, ps[i]) {
        return Some(i);
      }
      i := i + 1;
    }
    return None;
  }

  // ---------------------------------------------------------------------------------------
  // Positional filling of parameters

  /**
   * The state of `invoke`'s `foreach` after some parameters: the arguments so far, the
   * variables (nameless values used are recorded under the parameter's name), how many
   * nameless values were used, and whether the values ran out.
   */
  datatype Fill = Fill(ok: bool, args: seq<Value>, vars: map<string, Value>, used: nat)

  /** `invoke`'s filling of the parameters `ps` from the variables and the nameless `values`. */
  function Filled(ps: seq<Param>, vars: map<string, Value>, values: seq<string>): (f: Fill)
    ensures f.used <= |values|
    ensures f.ok ==> |f.args| == |ps|
    decreases |ps|
  {
    if ps == [] then Fill(true, [], vars, 0)
    else
      var f := Filled(ps[..|ps| - 1], vars, values);
      var p := ps[|ps| - 1];
      if !f.ok then f
      else if p.name in f.vars then f.(args := f.args + [f.vars[p.name]])
      else if f.used >= |values| then f.(ok := false)
      else f.(args := f.args + [Str(values[f.used])], vars := f.vars[p.name := Str(values[f.used])], used := f.used + 1)
  }

  /** The arguments `invoke` calls the closure with, or the InvocationException it raises. */
  function Invocation(ps: seq<Param>, vars: map<string, Value>, values: seq<string>): Result<seq<Value>, Error> {
    var f := Filled(ps, vars, values);
    if !f.ok then Err(InsufficientValues)
    else if f.used != |values| then Err(WrongParameterCount(f.used - |values|))
    else Ok(f.args)
  }

  /** The number of parameters whose names are not among the variables. */
  function Missing(ps: seq<Param>, vars: map<string, Value>): (n: nat)
    ensures n <= |ps|
    decreases |ps|
  {
    if ps == [] then 0 else Missing(ps[..|ps| - 1], vars) + (if ps[|ps| - 1].name in vars then 0 else 1)
  }

  /** No two parameters share a name, as PHP requires of a closure. */
  predicate DistinctNames(ps: seq<Param>) {
    forall i, j :: 0 <= i < j < |ps| ==> ps[i].name != ps[j].name
  }

  /**
   * With distinct parameter names, filling succeeds exactly when there are at least as many
   * nameless values as parameters without a variable, and then uses one value for each.
   */
  lemma {:induction false} FilledCounts(ps: seq<Param>, vars: map<string, Value>, values: seq<string>)
    requires DistinctNames(ps)
    ensures Filled(ps, vars, values).ok <==> Missing(ps, vars) <= |values|
    ensures Filled(ps, vars, values).ok ==> Filled(ps, vars, values).used == Missing(ps, vars)
    ensures forall n :: n !in Names(ps) ==> (n in Filled(ps, vars, values).vars <==> n in vars)
    decreases |ps|
  {
    if ps != [] {
      var front := ps[..|ps| - 1];
      var p := ps[|ps| - 1];
      assert DistinctNames(front);
      FilledCounts(front, vars, values);
      assert p.name !in Names(front) by {
        forall j | 0 <= j < |front| ensures Names(front)[j] != p.name {
          assert front[j] == ps[j];
        }
      }
      forall n | n !in Names(ps) ensures n !in Names(front) && n != p.name {
        assert Names(ps) == Names(front) + [p.name];
      }
    }
  }

  /** The legacy generation's invocation succeeds exactly when every nameless value fills a parameter. */
  lemma InvocationSucceeds(ps: seq<Param>, vars: map<string, Value>, values: seq<string>)
    requires DistinctNames(ps)
    ensures Invocation(ps, vars, values).Ok? <==> Missing(ps, vars) == |values|
    ensures Invocation(ps, vars, values) == Err(InsufficientValues) <==> |values| < Missing(ps, vars)
  {
    FilledCounts(ps, vars, values);
  }

  /**
   * Without nameless values (the `execute` call), the closure gets exactly the variables
   * under its parameters' names, or the call fails for lack of values.
   */
  lemma {:induction false} FilledWithoutValues(ps: seq<Param>, vars: map<string, Value>)
    ensures Filled(ps, vars, []).ok <==> forall i :: 0 <= i < |ps| ==> ps[i].name in vars
    ensures Filled(ps, vars, []).vars == vars && Filled(ps, vars, []).used == 0
    ensures Filled(ps, vars, []).ok ==> forall i :: 0 <= i < |ps| ==> Filled(ps, vars, []).args[i] == vars[ps[i].name]
    decreases |ps|
  {
    if ps != [] {
      var front := ps[..|ps| - 1];
      FilledWithoutValues(front, vars);
      assert forall i :: 0 <= i < |front| ==> front[i] == ps[i];
    }
  }

  /**
   * The nameless values a match hands to the closure: none when its groups are named, all
   * of them when its groups are nameless.
   */
  function NamelessValues(gs: seq<Group>): seq<string> {
    if NamedCount(gs) > 0 then [] else GroupValues(gs)
  }

  /** How one pass over a route's patterns ends when nothing failed. */
  datatype Step =
    | Missed                               // no pattern matched
    | Aborted                              // the closure returned false
    | Descended(next: Route, token: string) // the walk continues at `next`

  /**
   * One iteration of `resolve`'s `while`: the route it stood at, the partial path it tried,
   * the route built for a match (if there was one), how its pass over the patterns ended,
   * and `$token` after it.
   */
  datatype Visit = Visit(at: Route, part: string, child: Route?, step: Result<Step, Error>, token: Option<string>)

  /** `$token` after a pass that ended in `step`, when it held `prev` before. */
  function TokenAfter(step: Result<Step, Error>, prev: Option<string>): Option<string> {
    if step.Ok? && step.value.Descended? then Some(step.value.token) else prev
  }

  /** The route the walk stands at after a pass from `at` that ended in `step`. */
  function RouteAfter(at: Route, step: Result<Step, Error>): Route {
    if step.Ok? && step.value.Descended? then step.value.next else at
  }

  /** The routes some iterations involve: where they stood and the routes they built. */
  function Routes(trace: seq<Visit>): set<Route?> {
    (set k | 0 <= k < |trace| :: trace[k].at) + (set k | 0 <= k < |trace| :: trace[k].child)
  }

  /**
   * The `while` goes on after iteration `v`: its route had patterns, its closure neither
   * failed nor returned `false`, and some token has been matched.
   */
  ghost predicate GoesOn(v: Visit)
    reads v.at
  {
    |v.at.patterns| > 0 && v.step.Ok? && !v.step.value.Aborted? && v.token.Some?
  }

  /**
   * Iteration `w` follows iteration `v`: it stands at the route `v` reached, tries the path
   * with `strlen($token) + 1` characters dropped, and updates `$token` from its own pass.
   */
  predicate Follows(v: Visit, w: Visit) {
    && v.token.Some?
    && w.at == RouteAfter(v.at, v.step)
    && w.part == Substr(v.part, |v.token.value| + 1)
    && w.token == TokenAfter(w.step, v.token)
  }

  /** Every iteration of `trace` after the first follows the one before it. */
  predicate Linked(trace: seq<Visit>) {
    forall k | 0 <= k < |trace| - 1 :: Follows(trace[k], trace[k + 1])
  }

  /** Linked iterations stay linked when one more follows the last. */
  lemma LinkedSnoc(trace: seq<Visit>, v: Visit)
    requires Linked(trace)
    requires trace != [] ==> Follows(trace[|trace| - 1], v)
    ensures Linked(trace + [v])
  {
    var t := trace + [v];
    forall k | 0 <= k < |t| - 1
      ensures Follows(t[k], t[k + 1])
    {
      assert t[k] == trace[k] && t[k + 1] == if k + 1 < |trace| then trace[k + 1] else v;
    }
  }

  /**
   * What `resolve` returns after the iterations `trace`: null when the last route had no
   * patterns, the error of a failing pass, the route reached by a last pass that matched,
   * and null after a `false` result or a miss.
   */
  ghost function Resolved(trace: seq<Visit>): Result<Option<Route>, Error>
    requires trace != []
    reads trace[|trace| - 1].at
  {
    var v := trace[|trace| - 1];
    if |v.at.patterns| == 0 then Ok(None)
    else if v.step.Err? then Err(v.step.error)
    else if v.step.value.Descended? then Ok(Some(v.step.value.next))
    else Ok(None)
  }

  class Route {
    /** Parameter names to values collected during traversal (PHP null reads as empty). */
    var vars: map<string, Value>
    /** The Module this route belongs to (`$module`). */
    var owner: Route?
    var parent: Route?
    /** The token matched when this route was constructed; `None` for a Module. */
    var token: Option<string>
    /** The (partial) path of this route; `None` for a Module, which leaves it unset. */
    var path: Option<string>
    /** Patterns to closures, in registration order. */
    var patterns: OrderedMap<string, HandlerId>
    /** Lower-cased method names to closures. */
    var methods: map<string, HandlerId>
    /** Module only: the ordered pattern substitutions. */
    var substitutions: seq<Subst>
    /** Module only: the symbols of the placeholder rule. */
    var symbols: map<string, string>

    /**
     * `new Route($module, $parent, $token, $vars)`: the path is the token under no parent or
     * under an empty path, `"{parent}/{token}"` otherwise; the variables are the given ones
     * with `route` bound to the new route and `module` to its Module.
     */
    constructor (m: Route, p: Route?, t: string, vs: map<string, Value>)
      ensures owner == m && parent == p && token == Some(t)
      ensures path == Some(if p == null then t else JoinPath(p.path, t))
      ensures vars == vs["route" := Node(this)]["module" := Node(m)]
      ensures vars["route"] == Node(this) && vars["module"] == Node(m)
      ensures forall n :: n in vs && n != "route" && n != "module" ==> n in vars && vars[n] == vs[n]
      ensures patterns == [] && methods == map[] && substitutions == [] && symbols == map[]
    {
      owner, parent, token := m, p, Some(t);
      path := Some(if p == null then t else JoinPath(p.path, t));
      patterns, methods, substitutions, symbols := [], map[], [], map[];
      new;
      vars := vs["route" := Node(this)]["module" := Node(m)];
    }

    /** The state of a Module of class `def` after its constructor. */
    ghost predicate ModuleState(def: ModuleDef)
      reads this
    {
      && owner == this && parent == null && token == None && path == None && vars == map[]
      && substitutions == [(PlaceholderPattern, Placeholder)] && symbols == DefaultSymbols
      && patterns == ApplyPatterns([], def.regs) && methods == ApplyMethods(map[], def.regs)
    }

    /**
     * `new M()` for a Module subclass `M` whose `init` registers `def` after the inherited
     * one: the Module is its own owner and installs the placeholder rule with the standard
     * symbols. The Route constructor is not run, so no variables, parent, token or path.
     */
    constructor Module(def: ModuleDef)
      ensures ModuleState(def)
    {
      parent, token, path, vars := null, None, None, map[];
      substitutions := [(PlaceholderPattern, Placeholder)];
      symbols := DefaultSymbols;
      patterns := ApplyPatterns([], def.regs);
      methods := ApplyMethods(map[], def.regs);
      new;
      owner := this;
    }

    /** `isset($route[$pattern])`. */
    function OffsetExists(pattern: string): bool
      reads this`patterns
    {
      Has(patterns, pattern)
    }

    /** `$route[$pattern]`; `None` where PHP reads an undefined index. */
    function OffsetGet(pattern: string): Option<HandlerId>
      reads this`patterns
    {
      Get(patterns, pattern)
    }

    /** `$route[$pattern] = $init`: defined, readable, and no other pattern changes. */
    method OffsetSet(pattern: string, h: HandlerId)
      modifies this`patterns
      ensures patterns == Set(old(patterns), pattern, h)
      ensures OffsetExists(pattern) && OffsetGet(pattern) == Some(h)
      ensures forall q :: q != pattern ==> OffsetGet(q) == old(OffsetGet(q))
    {
      ghost var before := patterns;
      patterns := Set(patterns, pattern, h);
      GetAfterSet(before, pattern, h);
      forall q | q != pattern
        ensures Get(patterns, q) == Get(before, q)
      {
        GetOtherAfterSet(before, pattern, h, q);
      }
    }

    /** `unset($route[$pattern])`: gone, and no other pattern changes. */
    method OffsetUnset(pattern: string)
      modifies this`patterns
      ensures patterns == Remove(old(patterns), pattern)
      ensures !OffsetExists(pattern)
      ensures forall q :: q != pattern ==> OffsetGet(q) == old(OffsetGet(q))
    {
      ghost var before := patterns;
      patterns := Remove(patterns, pattern);
      GetAfterRemove(before, pattern, pattern);
      forall q | q != pattern
        ensures Get(patterns, q) == Get(before, q)
      {
        GetAfterRemove(before, pattern, q);
      }
    }

    /** `$route->$name`: the closure under the lower-cased name, or null. */
    function GetMethod(name: string): Option<HandlerId>
      reads this`methods
    {
      LookupMethod(methods, name)
    }

    /** `$route->$name = $func`: stored under the lower-cased name. */
    method SetMethod(name: string, h: HandlerId)
      modifies this`methods
      ensures methods == old(methods)[LowerAscii(name) := h]
      ensures forall n :: LowerAscii(n) == LowerAscii(name) ==> GetMethod(n) == Some(h)
    {
      methods := methods[LowerAscii(name) := h];
    }

    /**
     * `preparePattern($pattern)` (and the same loop inlined in `resolve`): the substitutions
     * applied in order, the first failing step raising a RoutingException.
     */
    method PreparePattern(pattern: string) returns (r: Result<string, Error>)
      ensures r == Prepared(substitutions, symbols, pattern)
    {
      var p := pattern;
      var i := 0;
      while i < |substitutions|
        invariant 0 <= i <= |substitutions|
        invariant Prepared(substitutions[..i], symbols, pattern) == Ok(p)
      {
        var (subpattern, rule) := substitutions[i];
        assert substitutions[..i + 1][..i] == substitutions[..i];
        match Apply(rule, symbols, p) {
          case None =>
            PreparedKeepsFailing(substitutions, i + 1, symbols, pattern);
            return Err(InvalidSubstitution(subpattern));
          case Some(q) =>
            p := q;
        }
        i := i + 1;
      }
      assert substitutions[..i] == substitutions;
      return Ok(p);
    }

    /** The registrations of one closure call, carried out on this route in order. */
    method Register(regs: seq<Registration>)
      modifies this`patterns, this`methods
      ensures patterns == ApplyPatterns(old(patterns), regs)
      ensures methods == ApplyMethods(old(methods), regs)
    {
      var i := 0;
      while i < |regs|
        invariant 0 <= i <= |regs|
        invariant patterns == ApplyPatterns(old(patterns), regs[..i])
        invariant methods == ApplyMethods(old(methods), regs[..i])
      {
        var g := regs[i];
        assert regs[..i + 1] == regs[..i] + [g];
        RegistrationsSnoc(old(patterns), old(methods), regs[..i], [g]);
        patterns := ApplyPattern(patterns, g);
        methods := ApplyMethod(methods, g);
        i := i + 1;
      }
      assert regs[..i] == regs;
    }

    /**
     * `invoke($func, $values)`: each parameter is filled from the variables when one has
     * its name, and otherwise from the next nameless value, which is then recorded under
     * that name. Running out of values, or leaving some unused, is an InvocationException.
     */
    method Invoke(handlers: LegacyTable, id: HandlerId, values: seq<string>) returns (r: Result<Value, Error>)
      modifies this`vars, this`patterns, this`methods
      ensures vars == Filled(handlers(id).params, old(vars), values).vars
      ensures var c := Invocation(handlers(id).params, old(vars), values);
        && (c.Err? ==> r == Err(c.error) && patterns == old(patterns) && methods == old(methods))
        && (c.Ok? ==> r == Ok(handlers(id).run(c.value).result)
                      && patterns == ApplyPatterns(old(patterns), handlers(id).run(c.value).regs)
                      && methods == ApplyMethods(old(methods), handlers(id).run(c.value).regs))
    {
      var h := handlers(id);
      ghost var v0 := vars;
      var args: seq<Value> := [];
      var used := 0;
      var i := 0;
      while i < |h.params|
        invariant 0 <= i <= |h.params|
        invariant Filled(h.params[..i], v0, values) == Fill(true, args, vars, used)
        invariant patterns == old(patterns) && methods == old(methods)
      {
        var p := h.params[i];
        assert h.params[..i + 1][..i] == h.params[..i];
        if p.name in vars {
          args := args + [vars[p.name]];
        } else {
          if used >= |values| {
            FilledKeepsFailing(h.params, i + 1, v0, values);
            return Err(InsufficientValues);
          }
          args := args + [Str(values[used])];
          vars := vars[p.name := Str(values[used])];
          used := used + 1;
        }
        i := i + 1;
      }
      assert h.params[..i] == h.params;
      if used != |values| {
        return Err(WrongParameterCount(used - |values|));
      }
      var out := h.run(args);
      Register(out.regs);
      return Ok(out.result);
    }

    /**
     * `execute($method)`: `false` without a closure, `true` when the closure returns null,
     * and otherwise what it returns; the closure is invoked without nameless values.
     */
    method Execute(handlers: LegacyTable, name: string) returns (r: Result<Value, Error>)
      modifies this`vars, this`patterns, this`methods
      ensures old(GetMethod(name)).None? ==>
        r == Ok(Bool(false)) && vars == old(vars) && patterns == old(patterns) && methods == old(methods)
      ensures old(GetMethod(name)).Some? ==>
        var h := handlers(old(GetMethod(name)).value);
        && vars == Filled(h.params, old(vars), []).vars
        && ((exists i :: 0 <= i < |h.params| && h.params[i].name !in old(vars)) ==>
              r == Err(InsufficientValues) && patterns == old(patterns) && methods == old(methods))
        && ((forall i :: 0 <= i < |h.params| ==> h.params[i].name in old(vars)) ==>
              var out := h.run(Filled(h.params, old(vars), []).args);
              && r == Ok(if out.result == Null then Bool(true) else out.result)
              && patterns == ApplyPatterns(old(patterns), out.regs)
              && methods == ApplyMethods(old(methods), out.regs))
    {
      var f := GetMethod(name);
      if f.None? {
        return Ok(Bool(false));
      }
      FilledWithoutValues(handlers(f.value).params, vars);
      var result := Invoke(handlers, f.value, []);
      match result {
        case Err(e) => return Err(e);
        case Ok(v) => return Ok(if v == Null then Bool(true) else v);
      }
    }

    /**
     * The variables a route built for a match starts with: those of a fresh Module bound
     * under the type-hinted parameter's name, or the parent's with `route` and `module`.
     */
    ghost function StartVars(cur: Route, k: Option<nat>, ps: seq<Param>, child: Route): map<string, Value>
      reads cur`vars, cur`owner
    {
      if k.Some? && k.value < |ps| then map[ps[k.value].name := Node(child)]
      else
        var mv := if cur.owner == null then Null else Node(cur.owner);
        cur.vars["route" := Node(child)]["module" := mv]
    }

    /** The patterns a route built for a match starts with: those of a fresh Module's `init`, or none. */
    static function StartPatterns(k: Option<nat>, ps: seq<Param>, classes: ModuleClasses): OrderedMap<string, HandlerId> {
      if k.Some? && k.value < |ps| && SwitchesModule(classes, ps[k.value])
      then ApplyPatterns([], classes[ps[k.value].classType.value].regs)
      else []
    }

    /**
     * The route a match leads to before its captures: a fresh instance of the Module class
     * the closure's first Module-typed parameter names, bound under that parameter's name,
     * or else a nested route under `cur` with `cur`'s Module and variables.
     */
    method Spawn(cur: Route, t: string, ps: seq<Param>, classes: ModuleClasses) returns (route: Route)
      requires cur.owner != null
      ensures fresh(route)
      ensures var k := ModuleParam(ps, classes);
        && route.vars == StartVars(cur, k, ps, route)
        && route.patterns == StartPatterns(k, ps, classes)
        && (k.Some? ==> route.owner == route && route.parent == null && route.token == None && route.path == None
                        && route.substitutions == [(PlaceholderPattern, Placeholder)] && route.symbols == DefaultSymbols)
        && (k.None? ==> route.owner == cur.owner && route.parent == cur && route.token == Some(t)
                        && route.path == Some(JoinPath(cur.path, t)))
    {
      var k := FindModuleParam(ps, classes);
      if k.Some? {
        var param := ps[k.value];
        route := new Route.Module(classes[param.classType.value]);
        route.vars := route.vars[param.name := Node(route)];
      } else {
        route := new Route(cur.owner, cur, t, cur.vars);
      }
    }

    /**
     * The body of the pattern `foreach` once pattern `p` (already prepared) has matched
     * `t` with the groups `gs`: the Module switch or the nested route, the capture step,
     * the mixed-capture test, and the invocation with its abort-by-`false`.
     */
    method Enter(cur: Route, p: string, id: HandlerId, t: string, gs: seq<Group>,
                 handlers: LegacyTable, classes: ModuleClasses)
      returns (r: Result<Step, Error>, ghost child: Route)
      requires cur.owner != null
      ensures fresh(child)
      ensures var k := ModuleParam(handlers(id).params, classes);
        && (k.Some? ==> child.owner == child && child.parent == null && child.token == None && child.path == None
                        && child.substitutions == [(PlaceholderPattern, Placeholder)] && child.symbols == DefaultSymbols)
        && (k.None? ==> child.owner == cur.owner && child.parent == cur && child.token == Some(t)
                        && child.path == Some(JoinPath(cur.path, t)))
      ensures !NoneNamed(gs) && !AllNamed(gs) ==> r == Err(MixedCaptures(p))
      ensures NoneNamed(gs) || AllNamed(gs) ==>
        var h := handlers(id);
        var k := ModuleParam(h.params, classes);
        var captured := Captured(StartVars(cur, k, h.params, child), gs);
        var c := Invocation(h.params, captured, NamelessValues(gs));
        && child.vars == Filled(h.params, captured, NamelessValues(gs)).vars
        && (c.Err? ==> r == Err(c.error))
        && (c.Ok? ==>
              var out := h.run(c.value);
              && child.patterns == ApplyPatterns(StartPatterns(k, h.params, classes), out.regs)
              && (out.result == Bool(false) ==> r == Ok(Aborted))
              && (out.result != Bool(false) ==> r == Ok(Descended(child, t))))
      ensures r.Ok? && r.value.Descended? ==> r.value.next == child
    {
      var h := handlers(id);
      var route := Spawn(cur, t, h.params, classes);
      child := route;
      var values := route.Capture(gs, p);
      if values.Err? {
        return Err(values.error), child;
      }
      r := Proceed(route, t, id, values.value, handlers);
    }

    /**
     * The capture step on this new route: the named groups are written into the variables
     * and the nameless ones collected; a match mixing both is a RoutingException, and the
     * nameless values are dropped when the groups are named.
     */
    method Capture(gs: seq<Group>, p: string) returns (r: Result<seq<string>, Error>)
      modifies this`vars
      ensures vars == Captured(old(vars), gs)
      ensures !NoneNamed(gs) && !AllNamed(gs) ==> r == Err(MixedCaptures(p))
      ensures NoneNamed(gs) || AllNamed(gs) ==> r == Ok(NamelessValues(gs))
    {
      ghost var start := vars;
      var vars', values, named := IdentifyLegacy(vars, PhpMatches(gs));
      vars := vars';
      NamedWritesAreCaptures(start, gs);
      NamedCountBounds(gs);
      if named > 0 {
        if named != |values| {
          return Err(MixedCaptures(p));
        }
        values := [];
      }
      return Ok(values);
    }

    /**
     * The end of the `foreach` body: the pattern's closure is invoked on `route` with the
     * nameless values; a result of exactly `false` aborts the walk, and otherwise the walk
     * goes on at `route`.
     */
    method Proceed(route: Route, t: string, id: HandlerId, values: seq<string>, handlers: LegacyTable)
      returns (r: Result<Step, Error>)
      modifies route`vars, route`patterns, route`methods
      ensures route.vars == Filled(handlers(id).params, old(route.vars), values).vars
      ensures var c := Invocation(handlers(id).params, old(route.vars), values);
        && (c.Err? ==> r == Err(c.error))
        && (c.Ok? ==>
              var out := handlers(id).run(c.value);
              && route.patterns == ApplyPatterns(old(route.patterns), out.regs)
              && (out.result == Bool(false) ==> r == Ok(Aborted))
              && (out.result != Bool(false) ==> r == Ok(Descended(route, t))))
    {
      var result := route.Invoke(handlers, id, values);
      if result.Err? {
        return Err(result.error);
      }
      if result.value == Bool(false) {
        return Ok(Aborted);
      }
      return Ok(Descended(route, t));
    }

    /**
     * How one pass over the patterns of `cur` against `part` ends, every pattern prepared
     * by this route's Module, with `child` the route built for a match: a miss, the first
     * failure, a mixed-capture error, or the new route with its captures, on which the
     * closure's invocation error, its `false` result, or the walk moving on at the new route
     * follow.
     */
    ghost predicate Passed(cur: Route, part: string, child: Route?, r: Result<Step, Error>,
                           matcher: Matcher, handlers: LegacyTable, classes: ModuleClasses)
      reads this, owner, cur, child
    {
      && owner != null
      && var s := Scan(owner.substitutions, owner.symbols, cur.patterns, part, matcher);
        && (s.NoneMatched? ==> r == Ok(Missed))
        && (s.Stopped? ==> r == Err(s.error))
        && (s.Found? && !NoneNamed(s.groups) && !AllNamed(s.groups) ==>
              r == Err(MixedCaptures(Prepared(owner.substitutions, owner.symbols, cur.patterns[s.index].0).value)))
        && (s.Found? ==> child != null)
        && (s.Found? && (NoneNamed(s.groups) || AllNamed(s.groups)) && child != null ==>
              var h := handlers(cur.patterns[s.index].1);
              var k := ModuleParam(h.params, classes);
              var captured := Captured(StartVars(cur, k, h.params, child), s.groups);
              var c := Invocation(h.params, captured, NamelessValues(s.groups));
              && child.vars == Filled(h.params, captured, NamelessValues(s.groups)).vars
              && (c.Err? ==> r == Err(c.error))
              && (c.Ok? ==>
                    var out := h.run(c.value);
                    && child.patterns == ApplyPatterns(StartPatterns(k, h.params, classes), out.regs)
                    && (out.result == Bool(false) ==> r == Ok(Aborted))
                    && (out.result != Bool(false) ==> r == Ok(Descended(child, s.token)))))
    }

    /**
     * One pass of the `foreach` over the patterns of `cur` against the partial path `part`,
     * every pattern prepared by this route's Module: the first pattern that matches leads
     * to a new route, its closure is invoked there, and a `false` result aborts.
     */
    method Descend(cur: Route, part: string, matcher: Matcher, handlers: LegacyTable, classes: ModuleClasses)
      returns (r: Result<Step, Error>, ghost child: Route?)
      requires owner != null && cur.owner != null
      ensures Passed(cur, part, child, r, matcher, handlers, classes)
      ensures child != null ==> fresh(child)
      ensures r.Ok? && r.value.Descended? ==>
        var n := r.value.next;
        && fresh(n)
        && ((n.owner == n && n.parent == null && n.token == None && n.path == None)
            || (n.owner == cur.owner && n.parent == cur && n.token == Some(r.value.token)
                && n.path == Some(JoinPath(cur.path, r.value.token))))
    {
      child := null;
      var i := 0;
      while i < |cur.patterns|
        invariant 0 <= i <= |cur.patterns|
        invariant Scan(owner.substitutions, owner.symbols, cur.patterns, part, matcher)
               == ScanFrom(owner.substitutions, owner.symbols, cur.patterns, part, matcher, i)
      {
        var pattern := cur.patterns[i].0;
        var prepared := owner.PreparePattern(pattern);
        if prepared.Err? {
          return Err(prepared.error), null;
        }
        var p := prepared.value;
        var m := matcher(p, part);
        if m.Malformed? {
          return Err(MalformedPattern(p)), null;
        }
        if m.Matched? {
          r, child := Enter(cur, p, cur.patterns[i].1, m.token, m.groups, handlers, classes);
          return;
        }
        i := i + 1;
      }
      return Ok(Missed), null;
    }

    /**
     * Iteration `k` of `trace` tried a truthy partial path, and its pass over its route is
     * what `Passed` describes. Naming this keeps the description of every earlier pass out
     * of sight until a proof asks for iteration `k`.
     */
    ghost predicate PassedAt(trace: seq<Visit>, k: nat, matcher: Matcher, handlers: LegacyTable, classes: ModuleClasses)
      requires k < |trace|
      reads this, owner, Routes(trace)
    {
      Truthy(trace[k].part) && Passed(trace[k].at, trace[k].part, trace[k].child, trace[k].step, matcher, handlers, classes)
    }

    /**
     * The iterations `trace` of `resolve`'s `while` from this route on the trimmed path
     * `part0`, as far as they go: the first stands at this route on `part0`; each one tries
     * a truthy partial path, and its pass is what `Passed` describes; each one but the last
     * lets the loop go on, and the next one follows it.
     */
    ghost predicate Iterations(trace: seq<Visit>, part0: string, matcher: Matcher, handlers: LegacyTable,
                               classes: ModuleClasses)
      reads this, owner, Routes(trace)
    {
      && (trace != [] ==> trace[0].at == this && trace[0].part == part0 && trace[0].token == TokenAfter(trace[0].step, None))
      && (forall k: nat | k < |trace| :: PassedAt(trace, k, matcher, handlers, classes))
      && (forall k | 0 <= k < |trace| - 1 :: GoesOn(trace[k]))
      && Linked(trace)
    }

    /** The iterations so far, extended by one more that follows the last. */
    lemma IterationsSnoc(trace: seq<Visit>, v: Visit, part0: string, matcher: Matcher, handlers: LegacyTable,
                         classes: ModuleClasses)
      requires Iterations(trace, part0, matcher, handlers, classes)
      requires Truthy(v.part) && Passed(v.at, v.part, v.child, v.step, matcher, handlers, classes)
      requires trace == [] ==> v.at == this && v.part == part0 && v.token == TokenAfter(v.step, None)
      requires trace != [] ==> GoesOn(trace[|trace| - 1]) && Follows(trace[|trace| - 1], v)
      ensures Iterations(trace + [v], part0, matcher, handlers, classes)
    {
      var t := trace + [v];
      forall k: nat | k < |t|
        ensures PassedAt(t, k, matcher, handlers, classes)
      {
        if k < |trace| {
          assert t[k] == trace[k] && PassedAt(trace, k, matcher, handlers, classes);
        } else {
          assert t[k] == v;
        }
      }
      forall k | 0 <= k < |t| - 1
        ensures GoesOn(t[k])
      {
        assert t[k] == trace[k];
      }
      LinkedSnoc(trace, v);
    }

    /** Whatever an iteration leaves of its partial path for the next one is truthy. */
    lemma LinkedPartsTruthy(trace: seq<Visit>, part0: string, matcher: Matcher, handlers: LegacyTable,
                              classes: ModuleClasses)
      requires Iterations(trace, part0, matcher, handlers, classes)
      ensures forall k | 0 <= k < |trace| - 1 ::
                GoesOn(trace[k]) && Truthy(Substr(trace[k].part, |trace[k].token.value| + 1))
    {
      forall k | 0 <= k < |trace| - 1
        ensures GoesOn(trace[k]) && Truthy(Substr(trace[k].part, |trace[k].token.value| + 1))
      {
        assert Follows(trace[k], trace[k + 1]) && PassedAt(trace, k + 1, matcher, handlers, classes);
      }
    }

    /** Every route some iterations involve is allocated. */
    lemma RoutesAllocated(trace: seq<Visit>)
      ensures forall o | o in Routes(trace) :: allocated(o)
    {
    }

    /**
     * One iteration of the `while` at route `cur` on the partial path `part`, after the
     * iterations `trace`: the pass over `cur`'s patterns, recorded as one more iteration.
     */
    method Iterate(cur: Route, part: string, token: Option<string>, ghost trace: seq<Visit>, ghost part0: string,
                   matcher: Matcher, handlers: LegacyTable, classes: ModuleClasses)
      returns (step: Result<Step, Error>, ghost trace': seq<Visit>)
      requires owner != null && cur.owner != null && Truthy(part)
      requires Iterations(trace, part0, matcher, handlers, classes)
      requires trace == [] ==> cur == this && part == part0 && token.None?
      requires trace != [] ==>
        var v := trace[|trace| - 1];
        GoesOn(v) && cur == RouteAfter(v.at, v.step) && token == v.token && part == Substr(v.part, |v.token.value| + 1)
      ensures Iterations(trace', part0, matcher, handlers, classes)
      ensures |trace'| == |trace| + 1 && trace'[..|trace|] == trace
      ensures trace'[|trace|].at == cur && trace'[|trace|].part == part && trace'[|trace|].step == step
      ensures trace'[|trace|].token == TokenAfter(step, token)
      ensures step.Ok? && step.value.Descended? ==>
        var n := step.value.next;
        && fresh(n)
        && ((n.owner == n && n.parent == null && n.token == None && n.path == None)
            || (n.owner == cur.owner && n.parent == cur && n.token == Some(step.value.token)
                && n.path == Some(JoinPath(cur.path, step.value.token))))
    {
      ghost var child;
      RoutesAllocated(trace);
      step, child := Descend(cur, part, matcher, handlers, classes);
      ghost var v := Visit(cur, part, child, step, TokenAfter(step, token));
      IterationsSnoc(trace, v, part0, matcher, handlers, classes);
      trace' := trace + [v];
      assert trace'[..|trace|] == trace;
    }

    /**
     * The whole walk of `resolve` on the trimmed path `part0`: no iteration at all exactly
     * when the path is empty or `"0"`, and after the last one the loop ends, because it
     * stopped or because the shortened path is no longer truthy.
     */
    ghost predicate Walk(trace: seq<Visit>, part0: string, matcher: Matcher, handlers: LegacyTable, classes: ModuleClasses)
      reads this, owner, Routes(trace)
    {
      && Iterations(trace, part0, matcher, handlers, classes)
      && (trace == [] <==> !Truthy(part0))
      && (trace != [] ==>
            var v := trace[|trace| - 1];
            GoesOn(v) ==> !Truthy(Substr(v.part, |v.token.value| + 1)))
    }

    /** A `false` result ends the walk: that iteration is the last, and the walk resolves to null. */
    lemma AbortEndsWalk(trace: seq<Visit>, part0: string, matcher: Matcher, handlers: LegacyTable,
                        classes: ModuleClasses, k: nat)
      requires Walk(trace, part0, matcher, handlers, classes)
      requires k < |trace| && trace[k].step == Ok(Aborted)
      ensures k == |trace| - 1 && Resolved(trace) == Ok(None)
    {
      assert !GoesOn(trace[k]);
    }

    /**
     * A first match whose token leaves nothing truthy of the path ends the walk at the
     * route it reached: the switched-to Module or the nested route.
     */
    lemma MatchEndsWalk(trace: seq<Visit>, part0: string, matcher: Matcher, handlers: LegacyTable, classes: ModuleClasses)
      requires Walk(trace, part0, matcher, handlers, classes)
      requires trace != [] && trace[0].step.Ok? && trace[0].step.value.Descended?
      requires !Truthy(Substr(part0, |trace[0].step.value.token| + 1))
      ensures |trace| == 1 && Resolved(trace) == Ok(Some(trace[0].step.value.next))
    {
      var v := trace[0];
      assert PassedAt(trace, 0, matcher, handlers, classes);
      LinkedPartsTruthy(trace, part0, matcher, handlers, classes);
    }

    /**
     * The first iteration decides the walk when it does not let the loop go on: this route
     * without patterns, a miss on the first token, a failing pattern or a match mixing named
     * and nameless groups give the walk's result.
     */
    lemma FirstPass(trace: seq<Visit>, part0: string, matcher: Matcher, handlers: LegacyTable, classes: ModuleClasses)
      requires owner != null && Truthy(part0)
      requires Walk(trace, part0, matcher, handlers, classes)
      ensures trace != []
      ensures patterns == [] ==> Resolved(trace) == Ok(None)
      ensures var s := Scan(owner.substitutions, owner.symbols, patterns, part0, matcher);
        && (s.NoneMatched? ==> Resolved(trace) == Ok(None))
        && (s.Stopped? ==> Resolved(trace) == Err(s.error))
        && (s.Found? && !NoneNamed(s.groups) && !AllNamed(s.groups) ==>
              Resolved(trace) == Err(MixedCaptures(Prepared(owner.substitutions, owner.symbols, patterns[s.index].0).value)))
    {
      var s := Scan(owner.substitutions, owner.symbols, patterns, part0, matcher);
      var v := trace[0];
      assert PassedAt(trace, 0, matcher, handlers, classes);
      if s.NoneMatched? || s.Stopped? || (s.Found? && !NoneNamed(s.groups) && !AllNamed(s.groups)) || patterns == [] {
        assert !GoesOn(v);
        assert |trace| == 1;
      }
    }

    /**
     * `resolve($path)`: the walk from this route along the path with its leading and
     * trailing slashes trimmed, iteration by iteration as `trace` records it. An empty (or
     * `"0"`) path resolves to this route itself; otherwise the result is that of the last
     * iteration: null when its route has no patterns, after a closure returned `false` or
     * after a miss, the error of a failing pass, and the route a matching pass reached. So
     * the first iteration alone decides a walk without patterns, a miss on the first token,
     * a failing pattern and a mixed capture. Every route the walk reaches is new: a Module
     * switched to, or a route placed under its parent with the matched token.
     */
    method Resolve(path: string, matcher: Matcher, handlers: LegacyTable, classes: ModuleClasses)
      returns (r: Result<Option<Route>, Error>, ghost trace: seq<Visit>)
      requires owner != null
      ensures Walk(trace, TrimSlashes(path), matcher, handlers, classes)
      ensures r == if trace == [] then Ok(Some(this)) else Resolved(trace)
      ensures !Truthy(TrimSlashes(path)) <==> r == Ok(Some(this))
      ensures Truthy(TrimSlashes(path)) && patterns == [] ==> r == Ok(None)
      ensures Truthy(TrimSlashes(path)) ==>
        var s := Scan(owner.substitutions, owner.symbols, patterns, TrimSlashes(path), matcher);
        && (s.NoneMatched? ==> r == Ok(None))
        && (s.Stopped? ==> r == Err(s.error))
        && (s.Found? && !NoneNamed(s.groups) && !AllNamed(s.groups) ==>
              r == Err(MixedCaptures(Prepared(owner.substitutions, owner.symbols, patterns[s.index].0).value)))
      ensures r.Ok? && r.value.Some? && r.value.value != this ==>
        var rt := r.value.value;
        && fresh(rt)
        && ((rt.owner == rt && rt.parent == null && rt.token == None && rt.path == None)
            || (rt.parent != null && rt.owner == rt.parent.owner && rt.token.Some?
                && rt.path == Some(JoinPath(rt.parent.path, rt.token.value))))
    {
      r, trace := Follow(TrimSlashes(path), matcher, handlers, classes);
      if Truthy(TrimSlashes(path)) {
        FirstPass(trace, TrimSlashes(path), matcher, handlers, classes);
      }
    }

    /**
     * The `while` of `resolve` from this route on the trimmed path `part0`, iteration by
     * iteration as `trace` records it.
     */
    method Follow(part0: string, matcher: Matcher, handlers: LegacyTable, classes: ModuleClasses)
      returns (r: Result<Option<Route>, Error>, ghost trace: seq<Visit>)
      requires owner != null
      ensures Walk(trace, part0, matcher, handlers, classes)
      ensures r == if trace == [] then Ok(Some(this)) else Resolved(trace)
      ensures trace != [] ==> r != Ok(Some(this))
      ensures r.Ok? && r.value.Some? && r.value.value != this ==>
        var rt := r.value.value;
        && fresh(rt)
        && ((rt.owner == rt && rt.parent == null && rt.token == None && rt.path == None)
            || (rt.parent != null && rt.owner == rt.parent.owner && rt.token.Some?
                && rt.path == Some(JoinPath(rt.parent.path, rt.token.value))))
    {
      var part := part0;
      var matched := true;
      var route := this;
      var token: Option<string> := None;
      trace := [];
      while Truthy(part)
        invariant route.owner != null
        invariant route == this || (fresh(route)
          && ((route.owner == route && route.parent == null && route.token == None && route.path == None)
              || (route.parent != null && route.owner == route.parent.owner && route.token.Some?
                  && route.path == Some(JoinPath(route.parent.path, route.token.value)))))
        invariant token.None? ==> route == this && part == part0 && matched
        invariant token.Some? ==> route != this
        invariant Iterations(trace, part0, matcher, handlers, classes)
        invariant trace == [] <==> token.None?
        invariant trace != [] ==> Truthy(part0)
        invariant trace != [] ==>
          var v := trace[|trace| - 1];
          && GoesOn(v) && route == RouteAfter(v.at, v.step) && token == v.token
          && part == Substr(v.part, |v.token.value| + 1) && matched == v.step.value.Descended?
        decreases |part|
      {
        if |route.patterns| == 0 {
          ghost var v := Visit(route, part, null, Ok(Missed), token);
          IterationsSnoc(trace, v, part0, matcher, handlers, classes);
          trace := trace + [v];
          return Ok(None), trace;
        }
        matched := false;
        var step;
        step, trace := Iterate(route, part, token, trace, part0, matcher, handlers, classes);
        if step.Err? {
          return Err(step.error), trace;
        }
        if step.value.Aborted? {
          return Ok(None), trace;
        }
        if step.value.Descended? {
          matched := true;
          route := step.value.next;
          token := Some(step.value.token);
        }
        if token.Some? {
          part := Substr(part, |token.value| + 1);
        } else {
          break;
        }
      }
      return Ok(if matched then Some(route) else None), trace;
    }
  }

  /** Once the values run out for some parameter, filling fails for the whole list. */
  lemma {:induction false} FilledKeepsFailing(ps: seq<Param>, k: nat, vars: map<string, Value>, values: seq<string>)
    requires k <= |ps| && !Filled(ps[..k], vars, values).ok
    ensures Filled(ps, vars, values) == Filled(ps[..k], vars, values)
    decreases |ps| - k
  {
    if k < |ps| {
      assert ps[..k + 1][..k] == ps[..k];
      FilledKeepsFailing(ps, k + 1, vars, values);
    } else {
      assert ps[..k] == ps;
    }
  }
}
