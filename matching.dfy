/**
 * Matching one prepared pattern against the remaining path, and reading the result.
 *
 * PCRE itself is an oracle: a `Matcher` receives the prepared pattern and the partial path
 * and stands for `preg_match('#^' . $pattern . '(?=$|/)#i', $part, $matches)`. It reports
 * no match, a malformed expression (`preg_match` returning false), or the matched token
 * with the capture groups in group-number order.
 *
 * The router never looks at the groups directly but at PHP's `$matches` array after
 * `array_shift` has removed the whole-match entry: every named group appears under its
 * name and then under its (re-numbered) index, an unnamed group under its index only.
 * That array is written out here, and so are the two loops that read it.
 */
module Matching {
  import opened Wrappers
  import opened Values
  import opened PhpStrings
  import opened Substitutions

  /** One capture group: its name, if the pattern named it, and the captured text. */
  datatype Group = Group(name: Option<string>, value: string)

  /** What the regular-expression engine reports for one pattern. */
  datatype MatchResult = NoMatch | Malformed | Matched(token: string, groups: seq<Group>)

  /** The engine: prepared pattern and partial path to a result. */
  type Matcher = (string, string) -> MatchResult

  /**
   * What the anchoring `^` and the lookahead `(?=$|/)` promise: a matched token is a
   * prefix of the partial path, followed by the end of the path or by a slash.
   */
  predicate TokenAt(part: string, token: string) {
    |token| <= |part| && token == part[..|token|] && (|token| == |part| || part[|token|] == '/')
  }

  /**
   * Dropping `|token| + 1` characters after a token at the front removes the token and the
   * slash after it: what is left is the rest of the path (empty when the token was all of it).
   */
  lemma TokenConsumed(part: string, token: string)
    requires TokenAt(part, token)
    ensures token == part ==> Substr(part, |token| + 1) == []
    ensures token != part ==> part == token + "/" + Substr(part, |token| + 1)
    ensures |Substr(part, |token| + 1)| < |part| || part == []
  {
    if token != part {
      assert |token| < |part|;
      assert part == part[..|token|] + [part[|token|]] + part[|token| + 1..];
    }
  }

  // ---------------------------------------------------------------------------------------
  // PHP's `$matches` array

  /** A key of a PHP array: an integer index or a string name. */
  datatype Key = Index(i: nat) | Name(n: string)

  /** A PHP array with its entries in iteration order. */
  type PhpArray = seq<(Key, string)>

  /** The entries group number `i + 1` contributes once the whole match has been shifted off. */
  function Entries(g: Group, i: nat): (es: PhpArray)
    ensures |es| > 0 && es[|es| - 1] == (Index(i), g.value)
  {
    match g.name
    case Some(n) => [(Name(n), g.value), (Index(i), g.value)]
    case None => [(Index(i), g.value)]
  }

  /** `$matches` after `array_shift($matches)`: the groups' entries with indexes from zero. */
  function PhpMatches(gs: seq<Group>): (ms: PhpArray)
    ensures |ms| == 0 <==> |gs| == 0
    decreases |gs|
  {
    if gs == [] then [] else PhpMatches(gs[..|gs| - 1]) + Entries(gs[|gs| - 1], |gs| - 1)
  }

  /** The route variables after every string-keyed entry has been written, in order. */
  function NamedWrites(vars: map<string, Value>, ms: PhpArray): map<string, Value>
    decreases |ms|
  {
    if ms == [] then vars
    else
      var w := NamedWrites(vars, ms[..|ms| - 1]);
      var e := ms[|ms| - 1];
      if e.0.Name? then w[e.0.n := Str(e.1)] else w
  }

  /** The number of string-keyed entries (`$total`, `$named_vars`). */
  function NamedTotal(ms: PhpArray): nat
    decreases |ms|
  {
    if ms == [] then 0
    else NamedTotal(ms[..|ms| - 1]) + (if ms[|ms| - 1].0.Name? then 1 else 0)
  }

  /** The last integer key seen (`$last`), zero when there is none. */
  function LastIndex(ms: PhpArray): nat
    decreases |ms|
  {
    if ms == [] then 0
    else if ms[|ms| - 1].0.Index? then ms[|ms| - 1].0.i
    else LastIndex(ms[..|ms| - 1])
  }

  /** The values under integer keys, in order (the legacy `$values`). */
  function IndexedValues(ms: PhpArray): seq<string>
    decreases |ms|
  {
    if ms == [] then []
    else IndexedValues(ms[..|ms| - 1]) + (if ms[|ms| - 1].0.Index? then [ms[|ms| - 1].1] else [])
  }

  /** The test of the current generation: a match with groups needs `$total - 1 === $last`. */
  predicate CaptureCheck(ms: PhpArray) {
    |ms| == 0 || NamedTotal(ms) - 1 == LastIndex(ms)
  }

  /** The test of the legacy generation: named captures, if any, are as many as the values. */
  predicate LegacyCaptureCheck(ms: PhpArray) {
    NamedTotal(ms) == 0 || NamedTotal(ms) == |IndexedValues(ms)|
  }

  // ---------------------------------------------------------------------------------------
  // The same facts stated on the groups

  /** The number of named groups. */
  function NamedCount(gs: seq<Group>): nat
    decreases |gs|
  {
    if gs == [] then 0 else NamedCount(gs[..|gs| - 1]) + (if gs[|gs| - 1].name.Some? then 1 else 0)
  }

  /** Every group of the match was given a name. */
  predicate AllNamed(gs: seq<Group>) {
    forall i :: 0 <= i < |gs| ==> gs[i].name.Some?
  }

  /** No group of the match was given a name. */
  predicate NoneNamed(gs: seq<Group>) {
    forall i :: 0 <= i < |gs| ==> gs[i].name.None?
  }

  /** The route variables after the named groups have been captured, later groups winning. */
  function Captured(vars: map<string, Value>, gs: seq<Group>): map<string, Value>
    decreases |gs|
  {
    if gs == [] then vars
    else
      var w := Captured(vars, gs[..|gs| - 1]);
      var g := gs[|gs| - 1];
      if g.name.Some? then w[g.name.value := Str(g.value)] else w
  }

  /** The captured texts of all groups, in group order. */
  function GroupValues(gs: seq<Group>): (vs: seq<string>)
    ensures |vs| == |gs|
    decreases |gs|
  {
    if gs == [] then [] else GroupValues(gs[..|gs| - 1]) + [gs[|gs| - 1].value]
  }

  /** The named groups are at most all groups, all of them exactly when every group is named. */
  lemma {:induction false} NamedCountBounds(gs: seq<Group>)
    ensures NamedCount(gs) <= |gs|
    ensures NamedCount(gs) == |gs| <==> AllNamed(gs)
    ensures NamedCount(gs) == 0 <==> NoneNamed(gs)
    decreases |gs|
  {
    if gs != [] {
      var front := gs[..|gs| - 1];
      NamedCountBounds(front);
      assert forall i :: 0 <= i < |front| ==> front[i] == gs[i];
    }
  }

  lemma {:induction false} NamedWritesAppend(vars: map<string, Value>, a: PhpArray, b: PhpArray)
    ensures NamedWrites(vars, a + b) == NamedWrites(NamedWrites(vars, a), b)
    ensures NamedTotal(a + b) == NamedTotal(a) + NamedTotal(b)
    ensures IndexedValues(a + b) == IndexedValues(a) + IndexedValues(b)
    decreases |b|
  {
    if b == [] {
      assert a + b == a;
    } else {
      var front := b[..|b| - 1];
      assert (a + b)[..|a + b| - 1] == a + front;
      NamedWritesAppend(vars, a, front);
    }
  }

  /** What the entries of one group contribute to the three readings of `$matches`. */
  lemma EntriesRead(w: map<string, Value>, g: Group, i: nat)
    ensures NamedWrites(w, Entries(g, i)) == if g.name.Some? then w[g.name.value := Str(g.value)] else w
    ensures NamedTotal(Entries(g, i)) == if g.name.Some? then 1 else 0
    ensures IndexedValues(Entries(g, i)) == [g.value]
  {
    var es := Entries(g, i);
    if g.name.Some? {
      var one: PhpArray := [(Name(g.name.value), g.value)];
      assert es[..1] == one && es[..|es| - 1] == one && one[..0] == [];
      assert NamedWrites(w, one) == w[g.name.value := Str(g.value)];
      assert NamedTotal(one) == 1 && IndexedValues(one) == [];
    } else {
      assert es[..0] == [];
    }
  }

  /**
   * Reading `$matches` is reading the groups: writing its string-keyed entries is capturing
   * the named groups, it has one string key per named group, and its integer-keyed values
   * are the groups' texts in order.
   */
  lemma NamedWritesAreCaptures(vars: map<string, Value>, gs: seq<Group>)
    ensures NamedWrites(vars, PhpMatches(gs)) == Captured(vars, gs)
    ensures NamedTotal(PhpMatches(gs)) == NamedCount(gs)
    ensures IndexedValues(PhpMatches(gs)) == GroupValues(gs)
  {
    MatchesRead(vars, gs);
    ValuesRead(gs);
  }

  lemma {:induction false} MatchesRead(vars: map<string, Value>, gs: seq<Group>)
    ensures NamedWrites(vars, PhpMatches(gs)) == Captured(vars, gs)
    ensures NamedTotal(PhpMatches(gs)) == NamedCount(gs)
    decreases |gs|
  {
    if gs != [] {
      var front := gs[..|gs| - 1];
      var g := gs[|gs| - 1];
      MatchesRead(vars, front);
      NamedWritesAppend(vars, PhpMatches(front), Entries(g, |gs| - 1));
      EntriesRead(Captured(vars, front), g, |gs| - 1);
    }
  }

  lemma {:induction false} ValuesRead(gs: seq<Group>)
    ensures IndexedValues(PhpMatches(gs)) == GroupValues(gs)
    decreases |gs|
  {
    if gs != [] {
      var front := gs[..|gs| - 1];
      var g := gs[|gs| - 1];
      ValuesRead(front);
      NamedWritesAppend(map[], PhpMatches(front), Entries(g, |gs| - 1));
      EntriesRead(map[], g, |gs| - 1);
    }
  }

  /** The last integer key of a non-empty `$matches` is the last group's index. */
  lemma LastIndexOfMatches(gs: seq<Group>)
    requires gs != []
    ensures LastIndex(PhpMatches(gs)) == |gs| - 1
  {
    var ms := PhpMatches(gs);
    assert ms[|ms| - 1] == (Index(|gs| - 1), gs[|gs| - 1].value);
  }

  /** The current generation accepts a match exactly when none of its groups is unnamed. */
  lemma CaptureCheckIffAllNamed(gs: seq<Group>)
    ensures CaptureCheck(PhpMatches(gs)) <==> AllNamed(gs)
  {
    NamedCountBounds(gs);
    if gs != [] {
      NamedWritesAreCaptures(map[], gs);
      LastIndexOfMatches(gs);
    }
  }

  /** The legacy generation accepts a match exactly when its groups are all named or all nameless. */
  lemma LegacyCaptureCheckIffUniform(gs: seq<Group>)
    ensures LegacyCaptureCheck(PhpMatches(gs)) <==> NoneNamed(gs) || AllNamed(gs)
  {
    NamedCountBounds(gs);
    NamedWritesAreCaptures(map[], gs);
  }

  /**
   * The loop at the heart of the current generation's capture step: every string key is
   * written into the route variables, the integer keys only remember the last index, and
   * the match is accepted by the count test.
   */
  method IdentifyNamed(vars: map<string, Value>, ms: PhpArray) returns (vars': map<string, Value>, ok: bool)
    ensures vars' == NamedWrites(vars, ms)
    ensures ok == CaptureCheck(ms)
  {
    vars' := vars;
    ok := true;
    if |ms| > 0 {
      var total, last := 0, 0;
      var j := 0;
      while j < |ms|
        invariant 0 <= j <= |ms|
        invariant vars' == NamedWrites(vars, ms[..j])
        invariant total == NamedTotal(ms[..j]) && last == LastIndex(ms[..j])
      {
        assert ms[..j + 1][..j] == ms[..j];
        var (key, value) := ms[j];
        if key.Index? {
          last := key.i;
        } else {
          vars' := vars'[key.n := Str(value)];
          total := total + 1;
        }
        j := j + 1;
      }
      assert ms[..j] == ms;
      ok := total - 1 == last;
    }
  }

  /**
   * The legacy loop: integer keys collect nameless values, string keys are written into the
   * route variables and counted.
   */
  method IdentifyLegacy(vars: map<string, Value>, ms: PhpArray)
    returns (vars': map<string, Value>, values: seq<string>, named: nat)
    ensures vars' == NamedWrites(vars, ms)
    ensures values == IndexedValues(ms) && named == NamedTotal(ms)
  {
    vars', values, named := vars, [], 0;
    var j := 0;
    while j < |ms|
      invariant 0 <= j <= |ms|
      invariant vars' == NamedWrites(vars, ms[..j])
      invariant values == IndexedValues(ms[..j]) && named == NamedTotal(ms[..j])
    {
      assert ms[..j + 1][..j] == ms[..j];
      var (key, value) := ms[j];
      if key.Index? {
        values := values + [value];
      } else {
        vars' := vars'[key.n := Str(value)];
        named := named + 1;
      }
      j := j + 1;
    }
    assert ms[..j] == ms;
  }

  // ---------------------------------------------------------------------------------------
  // Trying the patterns of a route in registration order

  /** The outcome of trying one registered pattern. */
  datatype Attempt = Failure(error: Error) | Miss | Hit(token: string, groups: seq<Group>)

  /**
   * One pattern tried against the partial path: prepared by the Module's substitutions,
   * then matched; a substitution failure or a malformed expression is a RoutingException.
   */
  function Try(substs: seq<Subst>, symbols: map<string, string>, pattern: string, part: string, matcher: Matcher): (r: Attempt)
    ensures r.Failure? ==> r.error.IsRoutingError()
  {
    match Prepared(substs, symbols, pattern)
    case Err(e) =>
      PreparedErrorsAreInvalidSubstitutions(substs, symbols, pattern);
      Failure(e)
    case Ok(p) =>
      match matcher(p, part)
      case Malformed => Failure(MalformedPattern(p))
      case NoMatch => Miss
      case Matched(t, gs) => Hit(t, gs)
  }

  /** The outcome of the `foreach` over a route's patterns. */
  datatype Scanned =
    | NoneMatched
    | Stopped(index: nat, error: Error)
    | Found(index: nat, token: string, groups: seq<Group>)

  /**
   * The patterns from position `i` on, tried in order until one matches or fails; the
   * handlers `H` ride along unexamined.
   */
  function ScanFrom<H>(substs: seq<Subst>, symbols: map<string, string>, pats: seq<(string, H)>,
                       part: string, matcher: Matcher, i: nat): (r: Scanned)
    ensures r.Found? ==> (i <= r.index < |pats|
      && Try(substs, symbols, pats[r.index].0, part, matcher) == Hit(r.token, r.groups))
    ensures r.Stopped? ==> (i <= r.index < |pats|
      && Try(substs, symbols, pats[r.index].0, part, matcher) == Failure(r.error))
    ensures !r.NoneMatched? ==> forall j :: i <= j < r.index ==> Try(substs, symbols, pats[j].0, part, matcher).Miss?
    ensures r.NoneMatched? <==> forall j :: i <= j < |pats| ==> Try(substs, symbols, pats[j].0, part, matcher).Miss?
    decreases |pats| - i
  {
    if i >= |pats| then NoneMatched
    else match Try(substs, symbols, pats[i].0, part, matcher)
      case Failure(e) => Stopped(i, e)
      case Miss => ScanFrom(substs, symbols, pats, part, matcher, i + 1)
      case Hit(t, gs) => Found(i, t, gs)
  }

  /** All of a route's patterns, tried in registration order. */
  function Scan<H>(substs: seq<Subst>, symbols: map<string, string>, pats: seq<(string, H)>,
                   part: string, matcher: Matcher): Scanned
  {
    ScanFrom(substs, symbols, pats, part, matcher, 0)
  }

  /**
   * A pattern registered later never shadows an earlier one: once some pattern matches or
   * fails, appending more patterns leaves the outcome as it was.
   */
  lemma {:induction false} ScanIgnoresLaterPatterns<H>(substs: seq<Subst>, symbols: map<string, string>,
                                                        pats: seq<(string, H)>, more: seq<(string, H)>,
                                                        part: string, matcher: Matcher, i: nat)
    requires !ScanFrom(substs, symbols, pats, part, matcher, i).NoneMatched?
    ensures ScanFrom(substs, symbols, pats + more, part, matcher, i) == ScanFrom(substs, symbols, pats, part, matcher, i)
    decreases |pats| - i
  {
    assert (pats + more)[i] == pats[i];
    if Try(substs, symbols, pats[i].0, part, matcher).Miss? {
      ScanIgnoresLaterPatterns(substs, symbols, pats, more, part, matcher, i + 1);
    }
  }
}
