/**
 * The current generation of the router: `Route` and its subclass `Module`.
 *
 * A route keeps an insertion-ordered registry of patterns and a case-insensitive registry
 * of method handlers. `Resolve` walks a path from the receiver: it tries the current
 * route's patterns in order, builds a child route for the first match, captures the named
 * groups into the child's variables, runs the pattern's handler on the child and then
 * honours `abort()` and `delegate()`, before dropping the matched token from the path.
 *
 * A Module is a route that is the root of its own tree (its `owner` is itself) and also
 * holds the pattern substitutions, the placeholder symbols and an invoker. Both classes
 * are one Dafny class here; a plain route leaves the Module-only fields empty.
 */
module Walkway {
  import opened Wrappers
  import opened Values
  import opened PhpStrings
  import opened OrderedMaps
  import opened Substitutions
  import opened Matching
  import opened Handlers
  import opened Invokers

  /** How one pass over a route's patterns ends when nothing failed. */
  datatype Step =
    | Missed                               // no pattern matched
    | Aborted                              // the handler called abort()
    | Descended(next: Route, token: string) // the walk continues at `next`

  /**
   * One iteration of `resolve`'s `while`: the route it stood at, the partial path it tried,
   * the route built for a match (if there was one), how its pass over the patterns ended,
   * and `$token` after it.
   */
  datatype Visit = Visit(at: Route, part: string, child: Route?, step: Result<Step, Error>, token: Option<string>)

  /** `$token` after a pass that ended in `step`, when it held `prev` before. */
  function TokenAfter(step: Result<Step, Error>, prev: Option<string>): Option<string> {
    if step.Ok? && step.value.Descended? then Some(step.value.token) else prev
  }

  /** The route the walk stands at after a pass from `at` that ended in `step`. */
  function RouteAfter(at: Route, step: Result<Step, Error>): Route {
    if step.Ok? && step.value.Descended? then step.value.next else at
  }

  /** The routes some iterations involve: where they stood, the routes they built, and where they went. */
  function Routes(trace: seq<Visit>): set<Route?> {
    (set k | 0 <= k < |trace| :: trace[k].at)
    + (set k | 0 <= k < |trace| :: trace[k].child)
    + (set k | 0 <= k < |trace| && trace[k].step.Ok? && trace[k].step.value.Descended? :: trace[k].step.value.next)
  }

  /**
   * The `while` goes on after iteration `v`: its route had patterns, its pass neither failed
   * nor aborted, and some token has been matched, so the path is shortened rather than the
   * loop left by `break`.
   */
  ghost predicate GoesOn(v: Visit)
    reads v.at
  {
    |v.at.patterns| > 0 && v.step.Ok? && !v.step.value.Aborted? && v.token.Some?
  }

  /**
   * Iteration `w` follows iteration `v`: it stands at the route `v` reached, tries the path
   * with `strlen($token) + 1` characters dropped, and updates `$token` from its own pass.
   */
  predicate Follows(v: Visit, w: Visit) {
    && v.token.Some?
    && w.at == RouteAfter(v.at, v.step)
    && w.part == Substr(v.part, |v.token.value| + 1)
    && w.token == TokenAfter(w.step, v.token)
  }

  /** Every iteration of `trace` after the first follows the one before it. */
  predicate Linked(trace: seq<Visit>) {
    forall k | 0 <= k < |trace| - 1 :: Follows(trace[k], trace[k + 1])
  }

  /** Linked iterations stay linked when one more follows the last. */
  lemma LinkedSnoc(trace: seq<Visit>, v: Visit)
    requires Linked(trace)
    requires trace != [] ==> Follows(trace[|trace| - 1], v)
    ensures Linked(trace + [v])
  {
    var t := trace + [v];
    forall k | 0 <= k < |t| - 1
      ensures Follows(t[k], t[k + 1])
    {
      assert t[k] == trace[k] && t[k + 1] == if k + 1 < |trace| then trace[k + 1] else v;
    }
  }

  /**
   * What `resolve` returns after the iterations `trace`: null when the last route had no
   * patterns, the error of a failing pass, the route reached by a last pass that matched,
   * and null after an abort or a miss.
   */
  ghost function Resolved(trace: seq<Visit>): Result<Option<Route>, Error>
    requires trace != []
    reads trace[|trace| - 1].at
  {
    var v := trace[|trace| - 1];
    if |v.at.patterns| == 0 then Ok(None)
    else if v.step.Err? then Err(v.step.error)
    else if v.step.value.Descended? then Ok(Some(v.step.value.next))
    else Ok(None)
  }

  class Route {
    /** Parameter names to values collected during traversal. */
    var vars: map<string, Value>
    /** The Module this route belongs to (`$module`). */
    var owner: Route?
    var parent: Route?
    /** The token matched when this route was reached; `None` for a root. */
    var token: Option<string>
    /** The (partial) path of this route; `None` where PHP leaves it null. */
    var path: Option<string>
    var aborted: bool
    /** Patterns to handlers, in registration order. */
    var patterns: OrderedMap<string, HandlerId>
    /** Lower-cased method names to handlers. */
    var methods: map<string, HandlerId>
    /** The Module being delegated to (`$_delegate`). */
    var delegated: Route?
    /** Module only: the ordered pattern substitutions. */
    var substitutions: seq<Subst>
    /** Module only: the symbols of the placeholder rule. */
    var symbols: map<string, string>
    /** Module only: the invoker (`None` on a plain route, which has no such property). */
    var invoker: Option<AnyInvoker>

    /** `new Route()`: every property at its declared default. */
    constructor ()
      ensures vars == map[] && owner == null && parent == null && token == None && path == None
      ensures !aborted && patterns == [] && methods == map[] && delegated == null
      ensures substitutions == [] && symbols == map[] && invoker == None
    {
      vars, owner, parent, token, path := map[], null, null, None, None;
      aborted, patterns, methods, delegated := false, [], map[], null;
      substitutions, symbols, invoker := [], map[], None;
    }

    /**
     * The state of a Module of class `def` after its constructor, without the three
     * properties `setParent` later assigns.
     */
    ghost predicate ModuleState(def: ModuleDef)
      reads this`owner, this`vars, this`aborted, this`delegated, this`substitutions,
            this`symbols, this`patterns, this`methods, this`invoker
    {
      && owner == this && !aborted && delegated == null
      && vars == map["route" := Node(this), "module" := Node(this)]
      && substitutions == [(PlaceholderPattern, Placeholder)] && symbols == DefaultSymbols
      && patterns == ApplyPatterns([], def.regs) && methods == ApplyMethods(map[], def.regs)
      && invoker.Some?
    }

    /**
     * `new M($invoker)` for a Module subclass `M` whose `init` registers `def` after the
     * inherited `init`: the Module is its own owner, names itself as `route` and `module`,
     * installs the placeholder rule with the standard symbols, and uses the given invoker
     * or else a fresh default one.
     */
    constructor Module(inv: Option<AnyInvoker>, def: ModuleDef)
      ensures ModuleState(def) && parent == null && token == None && path == None
      ensures inv.Some? ==> invoker == inv
      ensures inv.None? ==> invoker.Some? && invoker.value.Plain? && fresh(invoker.value.plain)
    {
      if inv.Some? {
        invoker := inv;
      } else {
        var d := new Invoker();
        invoker := Some(Plain(d));
      }
      parent, token, path := null, None, None;
      aborted, delegated := false, null;
      substitutions := [(PlaceholderPattern, Placeholder)];
      symbols := DefaultSymbols;
      patterns := ApplyPatterns([], def.regs);
      methods := ApplyMethods(map[], def.regs);
      new;
      owner := this;
      vars := map["route" := Node(this), "module" := Node(this)];
    }

    /** The value `$this->module` passes as an argument. */
    function OwnerValue(): Value
      reads this`owner
    {
      if owner == null then Null else Node(owner)
    }

    /** `setParent($parent, $token)`: the path is the token alone under an empty path. */
    method SetParent(p: Route, t: string)
      modifies this`parent, this`token, this`path
      ensures parent == p && token == Some(t)
      ensures path == Some(JoinPath(old(p.path), t))
      ensures old(p.path) == Some("") ==> path == Some(t)
      ensures old(p.path) != Some("") ==> path == Some(Interpolated(old(p.path)) + "/" + t)
    {
      var pp := p.path;
      parent := p;
      token := Some(t);
      path := Some(JoinPath(pp, t));
    }

    /** `isset($route[$pattern])`. */
    function OffsetExists(pattern: string): bool
      reads this`patterns
    {
      Has(patterns, pattern)
    }

    /** `$route[$pattern]`; `None` where PHP reads an undefined index. */
    function OffsetGet(pattern: string): Option<HandlerId>
      reads this`patterns
    {
      Get(patterns, pattern)
    }

    /** `$route[$pattern] = $init`: defined, readable, and no other pattern changes. */
    method OffsetSet(pattern: string, h: HandlerId)
      modifies this`patterns
      ensures patterns == Set(old(patterns), pattern, h)
      ensures OffsetExists(pattern) && OffsetGet(pattern) == Some(h)
      ensures forall q :: q != pattern ==> OffsetGet(q) == old(OffsetGet(q))
      ensures Keys(patterns) == if old(OffsetExists(pattern)) then old(Keys(patterns)) else old(Keys(patterns)) + [pattern]
    {
      ghost var before := patterns;
      patterns := Set(patterns, pattern, h);
      GetAfterSet(before, pattern, h);
      KeysAfterSet(before, pattern, h);
      forall q | q != pattern
        ensures Get(patterns, q) == Get(before, q)
      {
        GetOtherAfterSet(before, pattern, h, q);
      }
    }

    /** `unset($route[$pattern])`: gone, and no other pattern changes. */
    method OffsetUnset(pattern: string)
      modifies this`patterns
      ensures patterns == Remove(old(patterns), pattern)
      ensures !OffsetExists(pattern)
      ensures forall q :: q != pattern ==> OffsetGet(q) == old(OffsetGet(q))
    {
      ghost var before := patterns;
      patterns := Remove(patterns, pattern);
      GetAfterRemove(before, pattern, pattern);
      forall q | q != pattern
        ensures Get(patterns, q) == Get(before, q)
      {
        GetAfterRemove(before, pattern, q);
      }
    }

    /** `$route->$name`: the handler under the lower-cased name, or null. */
    function GetMethod(name: string): Option<HandlerId>
      reads this`methods
    {
      LookupMethod(methods, name)
    }

    /** `$route->$name = $func`: stored under the lower-cased name. */
    method SetMethod(name: string, h: HandlerId)
      modifies this`methods
      ensures methods == old(methods)[LowerAscii(name) := h]
      ensures forall n :: LowerAscii(n) == LowerAscii(name) ==> GetMethod(n) == Some(h)
    {
      methods := methods[LowerAscii(name) := h];
    }

    /** `abort()`. */
    method Abort()
      modifies this`aborted
      ensures aborted
    {
      aborted := true;
    }

    /** `delegate($module)`. */
    method Delegate(m: Route)
      modifies this`delegated
      ensures delegated == m
    {
      delegated := m;
    }

    /**
     * `createRoute($parent, $token, $init)`: a fresh route with the parent's Module and a
     * copy of the parent's variables, placed under the parent; nothing else changes.
     */
    method CreateRoute(p: Route, t: string) returns (route: Route)
      ensures fresh(route)
      ensures route.owner == p.owner && route.vars == p.vars
      ensures route.parent == p && route.token == Some(t) && route.path == Some(JoinPath(p.path, t))
      ensures !route.aborted && route.delegated == null && route.patterns == [] && route.methods == map[]
      ensures route.substitutions == [] && route.symbols == map[] && route.invoker == None
    {
      route := new Route();
      route.owner := p.owner;
      route.vars := p.vars;
      route.SetParent(p, t);
    }

    /**
     * `preparePattern($pattern)`: the substitutions applied in order, each output feeding
     * the next; the first failing step raises a RoutingException naming its subpattern.
     */
    method PreparePattern(pattern: string) returns (r: Result<string, Error>)
      ensures r == Prepared(substitutions, symbols, pattern)
    {
      var p := pattern;
      var i := 0;
      while i < |substitutions|
        invariant 0 <= i <= |substitutions|
        invariant Prepared(substitutions[..i], symbols, pattern) == Ok(p)
      {
        var (subpattern, rule) := substitutions[i];
        assert substitutions[..i + 1][..i] == substitutions[..i];
        match Apply(rule, symbols, p) {
          case None =>
            PreparedKeepsFailing(substitutions, i + 1, symbols, pattern);
            return Err(InvalidSubstitution(subpattern));
          case Some(q) =>
            p := q;
        }
        i := i + 1;
      }
      assert substitutions[..i] == substitutions;
      return Ok(p);
    }

    /**
     * `invoke($func)`: binds `route` to this route, `module` to its Module and every other
     * parameter to the variable of that name, calls the closure, and lets its effects act
     * on this route. A parameter missing from the variables is an InvocationException.
     */
    method Invoke(handlers: HandlerTable, id: HandlerId) returns (r: Result<Value, Error>)
      modifies this`patterns, this`methods, this`aborted, this`delegated
      ensures var args := Arguments(handlers(id).params, Reserved(Node(this), OwnerValue()), vars);
        && (args.Err? ==> r == Err(args.error) && patterns == old(patterns) && methods == old(methods)
                          && aborted == old(aborted) && delegated == old(delegated))
        && (args.Ok? ==> Applied(handlers(id).run(args.value), old(patterns), old(methods), old(aborted), old(delegated))
                         && r == Ok(handlers(id).run(args.value).result)
                         && (LastDelegate(handlers(id).run(args.value).effects).Some? ==> fresh(delegated)))
    {
      var h := handlers(id);
      var args: seq<Value> := [];
      var i := 0;
      while i < |h.params|
        invariant 0 <= i <= |h.params|
        invariant Arguments(h.params[..i], Reserved(Node(this), OwnerValue()), vars) == Ok(args)
      {
        var p := h.params[i];
        assert h.params[..i + 1][..i] == h.params[..i];
        if p.name == "route" {
          args := args + [Node(this)];
        } else if p.name == "module" {
          args := args + [OwnerValue()];
        } else if p.name in vars {
          args := args + [vars[p.name]];
        } else {
          ArgumentsKeepFailing(h.params, i + 1, Reserved(Node(this), OwnerValue()), vars);
          return Err(MissingParameter(p.name));
        }
        i := i + 1;
      }
      assert h.params[..i] == h.params;
      var out := h.run(args);
      ApplyEffects(out.effects);
      return Ok(out.result);
    }

    /**
     * The state after a call's effects acted on this route: its registrations applied to
     * both registries, `aborted` set by any `abort()`, and a fresh Module of the last
     * delegated class installed as the delegate.
     */
    ghost predicate Applied(out: Outcome, pats: OrderedMap<string, HandlerId>, ms: map<string, HandlerId>,
                            wasAborted: bool, wasDelegated: Route?)
      reads this`patterns, this`methods, this`aborted, this`delegated, delegated
    {
      && patterns == ApplyPatterns(pats, Registrations(out.effects))
      && methods == ApplyMethods(ms, Registrations(out.effects))
      && aborted == (wasAborted || Aborts(out.effects))
      && (LastDelegate(out.effects).None? ==> delegated == wasDelegated)
      && (LastDelegate(out.effects).Some? ==>
            (delegated != null && delegated != this
             && delegated.ModuleState(LastDelegate(out.effects).value)
             && delegated.parent == null && delegated.token == None && delegated.path == None))
    }

    /**
     * The effects of one closure call, carried out one after the other on this route. Each
     * `delegate(new X())` replaces the delegate of the call before it; only the Module of
     * the last one remains reachable, and it is the one constructed here.
     */
    method ApplyEffects(effects: seq<Effect>)
      modifies this`patterns, this`methods, this`aborted, this`delegated
      ensures Applied(Outcome(effects, Null), old(patterns), old(methods), old(aborted), old(delegated))
      ensures LastDelegate(effects).Some? ==> fresh(delegated)
    {
      var pending: Option<ModuleDef> := None;
      var i := 0;
      while i < |effects|
        invariant 0 <= i <= |effects|
        invariant patterns == ApplyPatterns(old(patterns), Registrations(effects[..i]))
        invariant methods == ApplyMethods(old(methods), Registrations(effects[..i]))
        invariant aborted == (old(aborted) || Aborts(effects[..i]))
        invariant pending == LastDelegate(effects[..i]) && delegated == old(delegated)
      {
        var e := effects[i];
        assert effects[..i + 1] == effects[..i] + [e];
        EffectsSnoc(effects[..i], e);
        RegistrationsSnoc(old(patterns), old(methods), Registrations(effects[..i]), if e.Register? then [e.reg] else []);
        if e.CallAbort? {
          aborted := true;
        } else if e.CallDelegate? {
          pending := Some(e.def);
        } else {
          patterns := ApplyPattern(patterns, e.reg);
          methods := ApplyMethod(methods, e.reg);
        }
        i := i + 1;
      }
      assert effects[..i] == effects;
      if pending.Some? {
        var m := new Route.Module(None, pending.value);
        delegated := m;
      }
    }

    /**
     * `execute($method)`: `false` without a handler, `true` when the handler returns null,
     * and otherwise what the handler returns.
     */
    method Execute(handlers: HandlerTable, name: string) returns (r: Result<Value, Error>)
      modifies this`patterns, this`methods, this`aborted, this`delegated
      ensures old(GetMethod(name)).None? ==>
        (r == Ok(Bool(false)) && patterns == old(patterns)
         && methods == old(methods) && aborted == old(aborted) && delegated == old(delegated))
      ensures old(GetMethod(name)).Some? ==>
        var h := handlers(old(GetMethod(name)).value);
        var args := Arguments(h.params, Reserved(Node(this), OwnerValue()), vars);
        && (args.Err? ==> r == Err(args.error) && patterns == old(patterns) && methods == old(methods)
                          && aborted == old(aborted) && delegated == old(delegated))
        && (args.Ok? ==>
              && r == Ok(if h.run(args.value).result == Null then Bool(true) else h.run(args.value).result)
              && Applied(h.run(args.value), old(patterns), old(methods), old(aborted), old(delegated))
              && (LastDelegate(h.run(args.value).effects).Some? ==> fresh(delegated)))
    {
      var f := GetMethod(name);
      if f.None? {
        return Ok(Bool(false));
      }
      var result := Invoke(handlers, f.value);
      match result {
        case Err(e) => return Err(e);
        case Ok(v) => return Ok(if v == Null then Bool(true) else v);
      }
    }

    /**
     * How one pass over the patterns of `cur` against `part` ends, every pattern prepared
     * by this route's Module, with `child` the route built for a match: a miss, the first
     * failure, an unnamed-capture error, or the child with its captures, on which the
     * handler's binding error, its `abort()`, or the walk moving on at the child or at the
     * delegate placed under it follow.
     */
    ghost predicate Passed(cur: Route, part: string, child: Route?, r: Result<Step, Error>,
                           matcher: Matcher, handlers: HandlerTable)
      reads this, owner, cur, child, if r.Ok? && r.value.Descended? then {r.value.next} else {}
    {
      && owner != null
      && var s := Scan(owner.substitutions, owner.symbols, cur.patterns, part, matcher);
        && (s.NoneMatched? ==> r == Ok(Missed))
        && (s.Stopped? ==> r == Err(s.error))
        && (s.Found? ==>
              (child != null && child.parent == cur && child.owner == cur.owner
               && child.token == Some(s.token) && child.path == Some(JoinPath(cur.path, s.token))))
        && (s.Found? && !AllNamed(s.groups) ==>
              r == Err(UnnamedCapture(Prepared(owner.substitutions, owner.symbols, cur.patterns[s.index].0).value)))
        && (s.Found? && AllNamed(s.groups) ==> child != null && child.vars == Captured(cur.vars, s.groups))
        && (s.Found? && AllNamed(s.groups) && child != null ==>
              var h := handlers(cur.patterns[s.index].1);
              var args := Arguments(h.params, Reserved(Node(child), cur.OwnerValue()), Captured(cur.vars, s.groups));
              && (args.Err? ==> r == Err(args.error))
              && (args.Ok? ==>
                    var out := h.run(args.value);
                    && child.patterns == ApplyPatterns([], Registrations(out.effects))
                    && child.methods == ApplyMethods(map[], Registrations(out.effects))
                    && (Aborts(out.effects) ==> r == Ok(Aborted))
                    && (!Aborts(out.effects) && LastDelegate(out.effects).None? ==> r == Ok(Descended(child, s.token)))
                    && (!Aborts(out.effects) && LastDelegate(out.effects).Some? ==>
                          (r.Ok? && r.value.Descended? && r.value.token == s.token && r.value.next != child
                           && r.value.next.ModuleState(LastDelegate(out.effects).value)
                           && r.value.next.parent == child && r.value.next.token == Some(s.token)
                           && r.value.next.path == Some(JoinPath(child.path, s.token))))))
    }

    /**
     * One pass of the `foreach` over the patterns of `cur` against the partial path `part`,
     * every pattern prepared by this route's Module: the first pattern that matches gets a
     * child route with the named groups captured, its handler is run on the child, and an
     * `abort()` or a `delegate()` of that handler decides where the walk goes on.
     * `child` is the route built for the match, when there was one.
     */
    method Descend(cur: Route, part: string, matcher: Matcher, handlers: HandlerTable)
      returns (r: Result<Step, Error>, ghost child: Route?)
      requires owner != null
      ensures Passed(cur, part, child, r, matcher, handlers)
      ensures child != null ==> fresh(child)
      ensures r.Ok? && r.value.Descended? ==>
        (fresh(r.value.next) && r.value.next.parent != null && r.value.next.token == Some(r.value.token)
         && r.value.next.path == Some(JoinPath(r.value.next.parent.path, r.value.token))
         && (r.value.next.owner == r.value.next || (r.value.next.parent == cur && r.value.next.owner == cur.owner)))
    {
      child := null;
      var i := 0;
      while i < |cur.patterns|
        invariant 0 <= i <= |cur.patterns|
        invariant Scan(owner.substitutions, owner.symbols, cur.patterns, part, matcher)
               == ScanFrom(owner.substitutions, owner.symbols, cur.patterns, part, matcher, i)
      {
        var pattern := cur.patterns[i].0;
        var prepared := owner.PreparePattern(pattern);
        if prepared.Err? {
          return Err(prepared.error), null;
        }
        var p := prepared.value;
        var m := matcher(p, part);
        if m.Malformed? {
          return Err(MalformedPattern(p)), null;
        }
        if m.Matched? {
          r, child := Enter(cur, p, cur.patterns[i].1, m.token, m.groups, handlers);
          return;
        }
        i := i + 1;
      }
      return Ok(Missed), null;
    }

    /**
     * The body of the `foreach` once pattern `p` (already prepared) has matched `token` with
     * the capture groups `gs`: the child route, the capture step, the handler and the
     * `abort()`/`delegate()` checks.
     */
    method Enter(cur: Route, p: string, id: HandlerId, t: string, gs: seq<Group>, handlers: HandlerTable)
      returns (r: Result<Step, Error>, ghost child: Route)
      ensures fresh(child) && child.parent == cur && child.owner == cur.owner
      ensures child.token == Some(t) && child.path == Some(JoinPath(cur.path, t))
      ensures !AllNamed(gs) ==> r == Err(UnnamedCapture(p))
      ensures AllNamed(gs) ==> child.vars == Captured(cur.vars, gs)
      ensures AllNamed(gs) ==>
        var h := handlers(id);
        var args := Arguments(h.params, Reserved(Node(child), cur.OwnerValue()), Captured(cur.vars, gs));
        && (args.Err? ==> r == Err(args.error))
        && (args.Ok? ==>
              var out := h.run(args.value);
              && child.patterns == ApplyPatterns([], Registrations(out.effects))
              && child.methods == ApplyMethods(map[], Registrations(out.effects))
              && (Aborts(out.effects) ==> r == Ok(Aborted))
              && (!Aborts(out.effects) && LastDelegate(out.effects).None? ==> r == Ok(Descended(child, t)))
              && (!Aborts(out.effects) && LastDelegate(out.effects).Some? ==>
                    (r.Ok? && r.value.Descended? && r.value.token == t && r.value.next != child
                     && r.value.next.ModuleState(LastDelegate(out.effects).value)
                     && r.value.next.parent == child && r.value.next.token == Some(t)
                     && r.value.next.path == Some(JoinPath(child.path, t)))))
      ensures r.Ok? && r.value.Descended? ==>
        (fresh(r.value.next) && r.value.next.parent != null && r.value.next.token == Some(r.value.token)
         && r.value.next.path == Some(JoinPath(r.value.next.parent.path, r.value.token))
         && (r.value.next.owner == r.value.next || (r.value.next.parent == cur && r.value.next.owner == cur.owner)))
    {
      var route := CreateRoute(cur, t);
      child := route;
      var vars', ok := IdentifyNamed(route.vars, PhpMatches(gs));
      route.vars := vars';
      CaptureCheckIffAllNamed(gs);
      NamedWritesAreCaptures(cur.vars, gs);
      if !ok {
        return Err(UnnamedCapture(p)), child;
      }
      assert route.vars == Captured(cur.vars, gs);
      r := Continue(route, t, id, handlers);
    }

    /**
     * The end of the `foreach` body: the pattern's closure runs on the new route `route`;
     * an `abort()` ends the walk, a `delegate()` places the delegate under `route` with
     * the token, and otherwise the walk goes on at `route`.
     */
    method Continue(route: Route, t: string, id: HandlerId, handlers: HandlerTable) returns (r: Result<Step, Error>)
      requires !route.aborted && route.delegated == null
      modifies route`patterns, route`methods, route`aborted, route`delegated
      ensures var h := handlers(id);
        var args := Arguments(h.params, Reserved(Node(route), route.OwnerValue()), route.vars);
        && (args.Err? ==> r == Err(args.error))
        && (args.Ok? ==>
              var out := h.run(args.value);
              && route.patterns == ApplyPatterns(old(route.patterns), Registrations(out.effects))
              && route.methods == ApplyMethods(old(route.methods), Registrations(out.effects))
              && (Aborts(out.effects) ==> r == Ok(Aborted))
              && (!Aborts(out.effects) && LastDelegate(out.effects).None? ==> r == Ok(Descended(route, t)))
              && (!Aborts(out.effects) && LastDelegate(out.effects).Some? ==>
                    (r.Ok? && r.value.Descended? && r.value.token == t && r.value.next != route
                     && r.value.next.ModuleState(LastDelegate(out.effects).value)
                     && r.value.next.parent == route && r.value.next.token == Some(t)
                     && r.value.next.path == Some(JoinPath(route.path, t)))))
      ensures r.Ok? && r.value.Descended? ==>
        && r.value.token == t
        && (r.value.next == route
            || (fresh(r.value.next) && r.value.next.owner == r.value.next && r.value.next.parent == route
                && r.value.next.token == Some(t) && r.value.next.path == Some(JoinPath(route.path, t))))
    {
      var result := route.Invoke(handlers, id);
      if result.Err? {
        return Err(result.error);
      }
      if route.aborted {
        return Ok(Aborted);
      }
      if route.delegated != null {
        var d := route.delegated;
        d.SetParent(route, t);
        return Ok(Descended(d, t));
      }
      return Ok(Descended(route, t));
    }

    /**
     * Iteration `k` of `trace` tried a truthy partial path, and its pass over its route is
     * what `Passed` describes. Naming this keeps the description of every earlier pass out
     * of sight until a proof asks for iteration `k`.
     */
    ghost predicate PassedAt(trace: seq<Visit>, k: nat, matcher: Matcher, handlers: HandlerTable)
      requires k < |trace|
      reads this, owner, Routes(trace)
    {
      Truthy(trace[k].part) && Passed(trace[k].at, trace[k].part, trace[k].child, trace[k].step, matcher, handlers)
    }

    /**
     * The iterations `trace` of `resolve`'s `while` from this route on the trimmed path
     * `part0`, as far as they go: the first stands at this route on `part0`; each one tries
     * a truthy partial path, and its pass is what `Passed` describes; each one but the last
     * lets the loop go on, and the next one follows it.
     */
    ghost predicate Iterations(trace: seq<Visit>, part0: string, matcher: Matcher, handlers: HandlerTable)
      reads this, owner, Routes(trace)
    {
      && (trace != [] ==> trace[0].at == this && trace[0].part == part0 && trace[0].token == TokenAfter(trace[0].step, None))
      && (forall k: nat | k < |trace| :: PassedAt(trace, k, matcher, handlers))
      && (forall k | 0 <= k < |trace| - 1 :: GoesOn(trace[k]))
      && Linked(trace)
    }

    /** The iterations so far, extended by one more that follows the last. */
    lemma IterationsSnoc(trace: seq<Visit>, v: Visit, part0: string, matcher: Matcher, handlers: HandlerTable)
      requires Iterations(trace, part0, matcher, handlers)
      requires Truthy(v.part) && Passed(v.at, v.part, v.child, v.step, matcher, handlers)
      requires trace == [] ==> v.at == this && v.part == part0 && v.token == TokenAfter(v.step, None)
      requires trace != [] ==> GoesOn(trace[|trace| - 1]) && Follows(trace[|trace| - 1], v)
      ensures Iterations(trace + [v], part0, matcher, handlers)
    {
      var t := trace + [v];
      forall k: nat | k < |t|
        ensures PassedAt(t, k, matcher, handlers)
      {
        if k < |trace| {
          assert t[k] == trace[k] && PassedAt(trace, k, matcher, handlers);
        } else {
          assert t[k] == v;
        }
      }
      forall k | 0 <= k < |t| - 1
        ensures GoesOn(t[k])
      {
        assert t[k] == trace[k];
      }
      LinkedSnoc(trace, v);
    }

    /** Whatever an iteration leaves of its partial path for the next one is truthy. */
    lemma LinkedPartsTruthy(trace: seq<Visit>, part0: string, matcher: Matcher, handlers: HandlerTable)
      requires Iterations(trace, part0, matcher, handlers)
      ensures forall k | 0 <= k < |trace| - 1 ::
                GoesOn(trace[k]) && Truthy(Substr(trace[k].part, |trace[k].token.value| + 1))
    {
      forall k | 0 <= k < |trace| - 1
        ensures GoesOn(trace[k]) && Truthy(Substr(trace[k].part, |trace[k].token.value| + 1))
      {
        assert Follows(trace[k], trace[k + 1]) && PassedAt(trace, k + 1, matcher, handlers);
      }
    }

    /** Every route some iterations involve is allocated. */
    lemma RoutesAllocated(trace: seq<Visit>)
      ensures forall o | o in Routes(trace) :: allocated(o)
    {
    }

    /**
     * One iteration of the `while` at route `cur` on the partial path `part`, after the
     * iterations `trace`: the pass over `cur`'s patterns, recorded as one more iteration.
     */
    method Iterate(cur: Route, part: string, token: Option<string>, ghost trace: seq<Visit>, ghost part0: string,
                   matcher: Matcher, handlers: HandlerTable)
      returns (step: Result<Step, Error>, ghost trace': seq<Visit>)
      requires owner != null && Truthy(part)
      requires Iterations(trace, part0, matcher, handlers)
      requires trace == [] ==> cur == this && part == part0 && token.None?
      requires trace != [] ==>
        var v := trace[|trace| - 1];
        GoesOn(v) && cur == RouteAfter(v.at, v.step) && token == v.token && part == Substr(v.part, |v.token.value| + 1)
      ensures Iterations(trace', part0, matcher, handlers)
      ensures |trace'| == |trace| + 1 && trace'[..|trace|] == trace
      ensures trace'[|trace|].at == cur && trace'[|trace|].part == part && trace'[|trace|].step == step
      ensures trace'[|trace|].token == TokenAfter(step, token)
      ensures step.Ok? && step.value.Descended? ==>
        (fresh(step.value.next) && step.value.next.parent != null && step.value.next.token == Some(step.value.token)
         && step.value.next.path == Some(JoinPath(step.value.next.parent.path, step.value.token))
         && (step.value.next.owner == step.value.next || (step.value.next.parent == cur && step.value.next.owner == cur.owner)))
    {
      ghost var child;
      RoutesAllocated(trace);
      step, child := Descend(cur, part, matcher, handlers);
      ghost var v := Visit(cur, part, child, step, TokenAfter(step, token));
      IterationsSnoc(trace, v, part0, matcher, handlers);
      trace' := trace + [v];
      assert trace'[..|trace|] == trace;
    }

    /**
     * The whole walk of `resolve` on the trimmed path `part0`: no iteration at all exactly
     * when the path is empty or `"0"`, and after the last one the loop ends, because it
     * stopped or because the shortened path is no longer truthy.
     */
    ghost predicate Walk(trace: seq<Visit>, part0: string, matcher: Matcher, handlers: HandlerTable)
      reads this, owner, Routes(trace)
    {
      && Iterations(trace, part0, matcher, handlers)
      && (trace == [] <==> !Truthy(part0))
      && (trace != [] ==>
            var v := trace[|trace| - 1];
            GoesOn(v) ==> !Truthy(Substr(v.part, |v.token.value| + 1)))
    }

    /**
     * The first iteration decides the walk when it does not let the loop go on: this route
     * without patterns, a miss on the first token, a failing pattern or a match with an
     * unnamed group give the walk's result.
     */
    lemma FirstPass(trace: seq<Visit>, part0: string, matcher: Matcher, handlers: HandlerTable)
      requires owner != null && Truthy(part0)
      requires Walk(trace, part0, matcher, handlers)
      ensures trace != []
      ensures patterns == [] ==> Resolved(trace) == Ok(None)
      ensures var s := Scan(owner.substitutions, owner.symbols, patterns, part0, matcher);
        && (s.NoneMatched? ==> Resolved(trace) == Ok(None))
        && (s.Stopped? ==> Resolved(trace) == Err(s.error))
        && (s.Found? && !AllNamed(s.groups) ==>
              Resolved(trace) == Err(UnnamedCapture(Prepared(owner.substitutions, owner.symbols, patterns[s.index].0).value)))
    {
      var s := Scan(owner.substitutions, owner.symbols, patterns, part0, matcher);
      var v := trace[0];
      assert PassedAt(trace, 0, matcher, handlers);
      if s.NoneMatched? || s.Stopped? || (s.Found? && !AllNamed(s.groups)) || patterns == [] {
        assert !GoesOn(v);
        assert |trace| == 1;
      }
    }

    /** An `abort()` ends the walk: the iteration that aborted is the last, and the walk resolves to null. */
    lemma AbortEndsWalk(trace: seq<Visit>, part0: string, matcher: Matcher, handlers: HandlerTable, k: nat)
      requires Walk(trace, part0, matcher, handlers)
      requires k < |trace| && trace[k].step == Ok(Aborted)
      ensures k == |trace| - 1 && Resolved(trace) == Ok(None)
    {
      assert !GoesOn(trace[k]);
    }

    /**
     * A first match whose token leaves nothing truthy of the path ends the walk at the
     * route it reached: the child, or the delegate placed under it.
     */
    lemma MatchEndsWalk(trace: seq<Visit>, part0: string, matcher: Matcher, handlers: HandlerTable)
      requires Walk(trace, part0, matcher, handlers)
      requires trace != [] && trace[0].step.Ok? && trace[0].step.value.Descended?
      requires !Truthy(Substr(part0, |trace[0].step.value.token| + 1))
      ensures |trace| == 1 && Resolved(trace) == Ok(Some(trace[0].step.value.next))
    {
      var v := trace[0];
      assert PassedAt(trace, 0, matcher, handlers);
      LinkedPartsTruthy(trace, part0, matcher, handlers);
    }

    /**
     * `resolve($path)`: the walk from this route along the path with its leading and
     * trailing slashes trimmed, iteration by iteration as `trace` records it. An empty (or
     * `"0"`) path resolves to this route itself; otherwise the result is that of the last
     * iteration: null when its route has no patterns, after an `abort()` or after a miss,
     * the error of a failing pass, and the route a matching pass reached. So the first
     * iteration alone decides a walk without patterns, a miss on the first token, a failing
     * pattern and an unnamed group. Every route the walk reaches is new, placed under its
     * parent with the matched token. Nothing that existed before the call is changed.
     */
    method Resolve(path: string, matcher: Matcher, handlers: HandlerTable)
      returns (r: Result<Option<Route>, Error>, ghost trace: seq<Visit>)
      requires owner != null
      ensures Walk(trace, TrimSlashes(path), matcher, handlers)
      ensures r == if trace == [] then Ok(Some(this)) else Resolved(trace)
      ensures !Truthy(TrimSlashes(path)) <==> r == Ok(Some(this))
      ensures Truthy(TrimSlashes(path)) && patterns == [] ==> r == Ok(None)
      ensures Truthy(TrimSlashes(path)) ==>
        var s := Scan(owner.substitutions, owner.symbols, patterns, TrimSlashes(path), matcher);
        && (s.NoneMatched? ==> r == Ok(None))
        && (s.Stopped? ==> r == Err(s.error))
        && (s.Found? && !AllNamed(s.groups) ==>
              r == Err(UnnamedCapture(Prepared(owner.substitutions, owner.symbols, patterns[s.index].0).value)))
      ensures r.Ok? && r.value.Some? && r.value.value != this ==>
        var rt := r.value.value;
        && fresh(rt) && rt.parent != null && rt.token.Some?
        && rt.path == Some(JoinPath(rt.parent.path, rt.token.value))
        && (rt.owner == rt || rt.owner == rt.parent.owner)
    {
      r, trace := Follow(TrimSlashes(path), matcher, handlers);
      if Truthy(TrimSlashes(path)) {
        FirstPass(trace, TrimSlashes(path), matcher, handlers);
      }
    }

    /**
     * The `while` of `resolve` from this route on the trimmed path `part0`, iteration by
     * iteration as `trace` records it.
     */
    method Follow(part0: string, matcher: Matcher, handlers: HandlerTable)
      returns (r: Result<Option<Route>, Error>, ghost trace: seq<Visit>)
      requires owner != null
      ensures Walk(trace, part0, matcher, handlers)
      ensures r == if trace == [] then Ok(Some(this)) else Resolved(trace)
      ensures trace != [] ==> r != Ok(Some(this))
      ensures r.Ok? && r.value.Some? && r.value.value != this ==>
        var rt := r.value.value;
        && fresh(rt) && rt.parent != null && rt.token.Some?
        && rt.path == Some(JoinPath(rt.parent.path, rt.token.value))
        && (rt.owner == rt || rt.owner == rt.parent.owner)
    {
      var part := part0;
      var matched := true;
      var route := this;
      var token: Option<string> := None;
      trace := [];
      while Truthy(part)
        invariant route == this || (fresh(route) && route.parent != null && route.token.Some?
          && route.path == Some(JoinPath(route.parent.path, route.token.value))
          && (route.owner == route || route.owner == route.parent.owner))
        invariant token.None? ==> route == this && part == part0 && matched
        invariant token.Some? ==> route != this
        invariant Iterations(trace, part0, matcher, handlers)
        invariant trace == [] <==> token.None?
        invariant trace != [] ==> Truthy(part0)
        invariant trace != [] ==>
          var v := trace[|trace| - 1];
          && GoesOn(v) && route == RouteAfter(v.at, v.step) && token == v.token
          && part == Substr(v.part, |v.token.value| + 1) && matched == v.step.value.Descended?
        decreases |part|
      {
        if |route.patterns| == 0 {
          ghost var v := Visit(route, part, null, Ok(Missed), token);
          IterationsSnoc(trace, v, part0, matcher, handlers);
          trace := trace + [v];
          return Ok(None), trace;
        }
        matched := false;
        var step;
        step, trace := Iterate(route, part, token, trace, part0, matcher, handlers);
        if step.Err? {
          return Err(step.error), trace;
        }
        if step.value.Aborted? {
          return Ok(None), trace;
        }
        if step.value.Descended? {
          matched := true;
          route := step.value.next;
          token := Some(step.value.token);
        }
        if token.Some? {
          part := Substr(part, |token.value| + 1);
        } else {
          break;
        }
      }
      return Ok(if matched then Some(route) else None), trace;
    }
  }
}
