/**
 * The two invoker implementations: `Invoker`, which binds each declared parameter to the
 * value given under its name or else to its default, and `InteropInvoker`, which asks a
 * dependency-injection container for class-typed parameters before falling back to the
 * default. Both walk the parameter list once, appending one argument per parameter, and
 * raise an InvocationException for the first parameter they cannot fill.
 */
module Invokers {
  import opened Wrappers
  import opened Values
  import opened Handlers

  /** The default invoker, which only knows the values it is given. */
  class Invoker {
    constructor ()
    {
    }

    /** `invoke($func, $params)`: the closure called on its arguments, or the binding error. */
    method Invoke(h: Handler, params: map<string, Value>) returns (r: Result<Outcome, Error>)
      ensures r == Call(h, Arguments(h.params, Defaults, params))
    {
      var args: seq<Value> := [];
      var i := 0;
      while i < |h.params|
        invariant 0 <= i <= |h.params|
        invariant Arguments(h.params[..i], Defaults, params) == Ok(args)
      {
        var p := h.params[i];
        assert h.params[..i + 1][..i] == h.params[..i];
        if p.name in params {
          args := args + [params[p.name]];
        } else if p.default.Some? {
          args := args + [p.default.value];
        } else {
          assert Arguments(h.params[..i + 1], Defaults, params).Err?;
          ArgumentsKeepFailing(h.params, i + 1, Defaults, params);
          return Err(MissingParameter(p.name));
        }
        i := i + 1;
      }
      assert h.params[..i] == h.params;
      return Ok(h.run(args));
    }
  }

  /** The invoker that resolves class-typed parameters through a container. */
  class InteropInvoker {
    const container: Container

    constructor (container: Container)
      ensures this.container == container
    {
      this.container := container;
    }

    /** `invoke($func, $params)` with the container consulted after the given values. */
    method Invoke(h: Handler, params: map<string, Value>) returns (r: Result<Outcome, Error>)
      ensures r == Call(h, Arguments(h.params, Interop(container), params))
    {
      var args: seq<Value> := [];
      var i := 0;
      while i < |h.params|
        invariant 0 <= i <= |h.params|
        invariant Arguments(h.params[..i], Interop(container), params) == Ok(args)
      {
        var p := h.params[i];
        assert h.params[..i + 1][..i] == h.params[..i];
        if p.name in params {
          args := args + [params[p.name]];
        } else if p.classType.Some? && container.has(p.classType.value) {
          args := args + [container.get(p.classType.value)];
        } else if p.default.Some? {
          args := args + [p.default.value];
        } else {
          assert Arguments(h.params[..i + 1], Interop(container), params).Err?;
          ArgumentsKeepFailing(h.params, i + 1, Interop(container), params);
          return Err(MissingParameter(p.name));
        }
        i := i + 1;
      }
      assert h.params[..i] == h.params;
      return Ok(h.run(args));
    }
  }

  /** A Module's invoker: either implementation of the invoker interface. */
  datatype AnyInvoker = Plain(plain: Invoker) | WithContainer(interop: InteropInvoker)
}
