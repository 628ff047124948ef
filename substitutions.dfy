/**
 * Pattern pre-processing: the ordered list of substitutions a Module applies to every
 * pattern before matching it, and the built-in placeholder rule that rewrites
 * `<name:symbol>` to the named group `(?<name>regex)`.
 *
 * The built-in rule is the PCRE expression `/(?<!\(\?)<([^\:]+)\:([^>]+)>/` applied by
 * `preg_replace_callback`, written out here as a leftmost, non-overlapping scan: a match
 * starts at a `<` not preceded by `(?`, takes one or more characters other than `:` as the
 * name, a `:`, one or more characters other than `>` as the symbol, and a closing `>`.
 * Any other substitution is an opaque step that either rewrites the pattern or fails
 * (PCRE returning null).
 */
module Substitutions {
  import opened Wrappers
  import opened Values

  /** The key under which the built-in rule is installed. */
  const PlaceholderPattern: string := "/(?<!\\(\\?)<([^\\:]+)\\:([^>]+)>/"

  /** The symbol table installed by `init`. */
  const DefaultSymbols: map<string, string> := map["int" := "\\d+", "slug" := "[a-z0-9-]+"]

  /** A substitution callback: the built-in placeholder closure, or a user-supplied step. */
  datatype Rule = Placeholder | Custom(step: string -> Option<string>)

  /** One entry of `$substitutions`: the full regular expression and its callback. */
  type Subst = (string, Rule)

  /** The first position at or after `from` holding `c`. */
  function FirstAt(s: string, c: char, from: nat): (r: Option<nat>)
    decreases |s| - from
    ensures r.Some? ==> from <= r.value < |s|
  {
    if from >= |s| then None
    else if s[from] == c then Some(from)
    else FirstAt(s, c, from + 1)
  }

  /** `FirstAt` finds the first occurrence, or reports that there is none. */
  lemma {:induction false} FirstAtRead(s: string, c: char, from: nat)
    ensures var r := FirstAt(s, c, from);
      && (r.Some? ==> s[r.value] == c && forall k :: from <= k < r.value ==> s[k] != c)
      && (r.None? <==> forall k :: from <= k < |s| ==> s[k] != c)
    decreases |s| - from
  {
    if from < |s| && s[from] != c {
      FirstAtRead(s, c, from + 1);
    }
  }

  /** The negative lookbehind `(?<!\(\?)`: position `i` is preceded by `(?`. */
  predicate Guarded(s: string, i: nat) {
    2 <= i <= |s| && s[i - 2] == '(' && s[i - 1] == '?'
  }

  /**
   * What the regular expression means at position `i`: the placeholder spans `s[i..g+1]`,
   * its name is `s[i+1..c]` and its symbol `s[c+1..g]`.
   */
  ghost predicate PlaceholderSpans(s: string, i: nat, c: nat, g: nat) {
    && i + 2 <= c && c + 2 <= g < |s|
    && s[i] == '<' && !Guarded(s, i)
    && (forall k :: i < k < c ==> s[k] != ':') && s[c] == ':'
    && (forall k :: c < k < g ==> s[k] != '>') && s[g] == '>'
  }

  /** The placeholder starting at `i`, as the colon and closing-bracket positions. */
  function PlaceholderAt(s: string, i: nat): (r: Option<(nat, nat)>)
    ensures r.Some? ==> i + 2 <= r.value.0 && r.value.0 + 2 <= r.value.1 < |s|
  {
    if i < |s| && s[i] == '<' && !Guarded(s, i) then
      match FirstAt(s, ':', i + 1)
      case None => None
      case Some(c) =>
        if c == i + 1 then None
        else match FirstAt(s, '>', c + 1)
          case None => None
          case Some(g) => if g == c + 1 then None else Some((c, g))
    else None
  }

  /** The scan finds exactly the match the regular expression describes at `i`, and no other. */
  lemma PlaceholderAtAgreesWithRegex(s: string, i: nat, c: nat, g: nat)
    ensures PlaceholderAt(s, i) == Some((c, g)) <==> PlaceholderSpans(s, i, c, g)
  {
    if PlaceholderSpans(s, i, c, g) {
      FirstAtOf(s, ':', i + 1, c);
      FirstAtOf(s, '>', c + 1, g);
    }
    if PlaceholderAt(s, i) == Some((c, g)) {
      FirstAtRead(s, ':', i + 1);
      FirstAtRead(s, '>', c + 1);
    }
  }

  /** The first occurrence from `from` on is at `at` when `at` holds one and nothing before it does. */
  lemma {:induction false} FirstAtOf(s: string, c: char, from: nat, at: nat)
    requires from <= at < |s| && s[at] == c
    requires forall k :: from <= k < at ==> s[k] != c
    ensures FirstAt(s, c, from) == Some(at)
    decreases at - from
  {
    if from < at {
      FirstAtOf(s, c, from + 1, at);
    }
  }

  /** The replacement `"(?<{$name}>{$regex})"`, the symbol looked up or else taken literally. */
  function Expand(symbols: map<string, string>, name: string, symbol: string): string {
    "(?<" + name + ">" + (if symbol in symbols then symbols[symbol] else symbol) + ")"
  }

  /** `preg_replace_callback` of the built-in rule on `s[i..]`, with lookbehind into `s[..i]`. */
  function RewriteFrom(symbols: map<string, string>, s: string, i: nat): string
    decreases |s| - i, 1
  {
    if i >= |s| then "" else RewriteStep(symbols, s, i, PlaceholderAt(s, i))
  }

  /** One step of the scan at `i`, given the placeholder found there (if any). */
  function RewriteStep(symbols: map<string, string>, s: string, i: nat, m: Option<(nat, nat)>): string
    requires i < |s|
    requires m.Some? ==> i + 2 <= m.value.0 && m.value.0 + 2 <= m.value.1 < |s|
    decreases |s| - i, 0
  {
    match m
    case None => [s[i]] + RewriteFrom(symbols, s, i + 1)
    case Some((c, g)) => Expand(symbols, s[i + 1..c], s[c + 1..g]) + RewriteFrom(symbols, s, g + 1)
  }

  /** The built-in placeholder rule applied to a whole pattern. */
  function Rewrite(symbols: map<string, string>, s: string): string {
    RewriteFrom(symbols, s, 0)
  }

  /** Text without `<` passes through the built-in rule untouched. */
  lemma {:induction false} RewriteWithoutPlaceholders(symbols: map<string, string>, s: string, i: nat)
    requires i <= |s|
    requires forall k :: i <= k < |s| ==> s[k] != '<'
    ensures RewriteFrom(symbols, s, i) == s[i..]
    decreases |s| - i
  {
    if i < |s| {
      RewriteWithoutPlaceholders(symbols, s, i + 1);
    }
  }

  /** A placeholder at `i` is replaced by its named group and the scan resumes after its `>`. */
  lemma RewriteAtPlaceholder(symbols: map<string, string>, s: string, i: nat, c: nat, g: nat)
    requires PlaceholderSpans(s, i, c, g)
    ensures RewriteFrom(symbols, s, i) == Expand(symbols, s[i + 1..c], s[c + 1..g]) + RewriteFrom(symbols, s, g + 1)
  {
    PlaceholderAtAgreesWithRegex(s, i, c, g);
    RewriteAtMatch(symbols, s, i, c, g);
  }

  lemma RewriteAtMatch(symbols: map<string, string>, s: string, i: nat, c: nat, g: nat)
    requires i < |s| && PlaceholderAt(s, i) == Some((c, g))
    ensures RewriteFrom(symbols, s, i) == Expand(symbols, s[i + 1..c], s[c + 1..g]) + RewriteFrom(symbols, s, g + 1)
  {
    assert RewriteFrom(symbols, s, i) == RewriteStep(symbols, s, i, Some((c, g)));
  }

  /** A `<` right after `(?` (a hand-written named group) never starts a placeholder. */
  lemma RewriteSkipsNamedGroups(symbols: map<string, string>, s: string, i: nat)
    requires i < |s| && Guarded(s, i)
    ensures RewriteFrom(symbols, s, i) == [s[i]] + RewriteFrom(symbols, s, i + 1)
  {
  }

  /** One substitution step; `None` is `preg_replace_callback` returning null. */
  function Apply(rule: Rule, symbols: map<string, string>, pattern: string): Option<string> {
    match rule
    case Placeholder => Some(Rewrite(symbols, pattern))
    case Custom(step) => step(pattern)
  }

  /**
   * `preparePattern`: the substitutions applied in insertion order, each output feeding the
   * next, failing with the subpattern of the first step that fails.
   */
  function Prepared(substs: seq<Subst>, symbols: map<string, string>, pattern: string): Result<string, Error>
    decreases |substs|
  {
    if substs == [] then Ok(pattern)
    else match Prepared(substs[..|substs| - 1], symbols, pattern)
      case Err(e) => Err(e)
      case Ok(p) =>
        var last := substs[|substs| - 1];
        match Apply(last.1, symbols, p)
        case None => Err(InvalidSubstitution(last.0))
        case Some(q) => Ok(q)
  }

  /** Preparing is running the first substitution and then preparing its output with the rest. */
  lemma {:induction false} PreparedFirstThenRest(s: Subst, rest: seq<Subst>, symbols: map<string, string>, pattern: string)
    ensures Prepared([s] + rest, symbols, pattern) ==
      match Apply(s.1, symbols, pattern)
      case None => Err(InvalidSubstitution(s.0))
      case Some(q) => Prepared(rest, symbols, q)
    decreases |rest|
  {
    if rest == [] {
      assert ([s] + rest)[..0] == [];
    } else {
      var front := rest[..|rest| - 1];
      assert ([s] + rest)[..|rest|] == [s] + front;
      PreparedFirstThenRest(s, front, symbols, pattern);
    }
  }

  /** With no substitutions the pattern is returned unchanged. */
  lemma PreparedWithoutSubstitutions(symbols: map<string, string>, pattern: string)
    ensures Prepared([], symbols, pattern) == Ok(pattern)
  {
  }

  /** A failing step anywhere makes the whole preparation fail (with some subpattern). */
  lemma {:induction false} PreparedFailsAfterFailingStep(substs: seq<Subst>, k: nat, symbols: map<string, string>, pattern: string)
    requires k < |substs|
    requires Prepared(substs[..k], symbols, pattern).Ok?
    requires Apply(substs[k].1, symbols, Prepared(substs[..k], symbols, pattern).value).None?
    ensures Prepared(substs, symbols, pattern).Err?
    ensures Prepared(substs, symbols, pattern).error.InvalidSubstitution?
    decreases |substs|
  {
    if k < |substs| - 1 {
      var front := substs[..|substs| - 1];
      assert front[..k] == substs[..k];
      PreparedFailsAfterFailingStep(front, k, symbols, pattern);
    } else {
      assert substs[..|substs| - 1] == substs[..k];
    }
  }

  /** Once a prefix of the substitutions fails, the whole preparation fails with that error. */
  lemma {:induction false} PreparedKeepsFailing(substs: seq<Subst>, k: nat, symbols: map<string, string>, pattern: string)
    requires k <= |substs| && Prepared(substs[..k], symbols, pattern).Err?
    ensures Prepared(substs, symbols, pattern) == Prepared(substs[..k], symbols, pattern)
    decreases |substs| - k
  {
    if k < |substs| {
      assert substs[..k + 1][..k] == substs[..k];
      PreparedKeepsFailing(substs, k + 1, symbols, pattern);
    } else {
      assert substs[..k] == substs;
    }
  }

  /** Every error of preparation is a RoutingException naming a subpattern. */
  lemma {:induction false} PreparedErrorsAreInvalidSubstitutions(substs: seq<Subst>, symbols: map<string, string>, pattern: string)
    requires Prepared(substs, symbols, pattern).Err?
    ensures Prepared(substs, symbols, pattern).error.InvalidSubstitution?
    ensures Prepared(substs, symbols, pattern).error.subpattern in Subpatterns(substs)
    decreases |substs|
  {
    var front := substs[..|substs| - 1];
    if Prepared(front, symbols, pattern).Err? {
      PreparedErrorsAreInvalidSubstitutions(front, symbols, pattern);
      assert forall x :: x in Subpatterns(front) ==> x in Subpatterns(substs);
    } else {
      assert substs[|substs| - 1].0 in Subpatterns(substs);
    }
  }

  /** The keys of a substitution list, for stating which subpattern an error names. */
  function Subpatterns(substs: seq<Subst>): (ks: set<string>)
    ensures forall i :: 0 <= i < |substs| ==> substs[i].0 in ks
    ensures forall k :: k in ks ==> exists i :: 0 <= i < |substs| && substs[i].0 == k
  {
    set i | 0 <= i < |substs| :: substs[i].0
  }

  /** A Module with only the built-in rule never fails to prepare, and just rewrites placeholders. */
  lemma PreparedWithDefaultRule(symbols: map<string, string>, pattern: string)
    ensures Prepared([(PlaceholderPattern, Placeholder)], symbols, pattern) == Ok(Rewrite(symbols, pattern))
  {
    assert [(PlaceholderPattern, Placeholder)][..0] == [];
  }

  /** A character other than `<` is copied and the scan moves on. */
  lemma RewritePlainChar(symbols: map<string, string>, s: string, i: nat)
    requires i < |s| && s[i] != '<'
    ensures RewriteFrom(symbols, s, i) == [s[i]] + RewriteFrom(symbols, s, i + 1)
  {
  }

  /**
   * A pattern that is one placeholder becomes exactly its named group: the symbol's regular
   * expression when the symbol is known, and the symbol itself, taken literally, otherwise.
   */
  lemma RewriteSinglePlaceholder(symbols: map<string, string>, name: string, symbol: string)
    requires name != [] && ':' !in name
    requires symbol != [] && '>' !in symbol
    ensures symbol in symbols ==> Rewrite(symbols, "<" + name + ":" + symbol + ">") == "(?<" + name + ">" + symbols[symbol] + ")"
    ensures symbol !in symbols ==> Rewrite(symbols, "<" + name + ":" + symbol + ">") == "(?<" + name + ">" + symbol + ")"
  {
    var s := "<" + name + ":" + symbol + ">";
    var c, g := |name| + 1, |name| + |symbol| + 2;
    assert s[1..c] == name && s[c + 1..g] == symbol;
    assert forall k :: 0 < k < c ==> s[k] == name[k - 1];
    assert forall k :: c < k < g ==> s[k] == symbol[k - c - 1];
    RewriteAtPlaceholder(symbols, s, 0, c, g);
  }
}
