/**
 * The values the router moves around (captured substrings, the reserved `route`/`module`
 * bindings, handler results, default values), handler parameter descriptors standing in
 * for PHP reflection, and the two exception classes as error tags.
 */
module Values {
  import opened Wrappers

  /**
   * A PHP value. `Node` is an object reference (a Route or a Module); `Instance` is an
   * object of some other class, identified by class name and a distinguishing number;
   * `Arr` is a string-keyed array such as the one `compact()` builds.
   */
  datatype Value =
    | Null
    | Bool(b: bool)
    | Int(i: int)
    | Str(s: string)
    | Node(ref: object)
    | Instance(className: string, id: nat)
    | Arr(entries: seq<(string, Value)>)

  /**
   * What `ReflectionParameter` reports about one declared parameter: its name, its default
   * value when `isDefaultValueAvailable()`, and the class of its type hint (`getClass()`).
   */
  datatype Param = Param(name: string, default: Option<Value>, classType: Option<string>)

  /** The names of a parameter list, in declaration order. */
  function Names(ps: seq<Param>): (ns: seq<string>)
    ensures |ns| == |ps| && forall i :: 0 <= i < |ps| ==> ns[i] == ps[i].name
  {
    seq(|ps|, i requires 0 <= i < |ps| => ps[i].name)
  }

  /** `RoutingException` and `InvocationException`, with what their messages identify. */
  datatype Error =
    | InvalidSubstitution(subpattern: string)   // RoutingException: preg_replace_callback returned null
    | MalformedPattern(pattern: string)         // RoutingException: preg_match returned false
    | UnnamedCapture(pattern: string)           // RoutingException: a substring capture without a name
    | MixedCaptures(pattern: string)            // RoutingException (legacy): named and nameless captures mixed
    | MissingParameter(name: string)            // InvocationException: a parameter nothing can fill
    | InsufficientValues                        // InvocationException (legacy): nameless values ran out
    | WrongParameterCount(surplus: int)         // InvocationException (legacy): nameless values left over
  {
    predicate IsRoutingError() {
      InvalidSubstitution? || MalformedPattern? || UnnamedCapture? || MixedCaptures?
    }
  }
}
