# Walkway route resolver, modelled in Dafny

Walkway is a PHP router. A `Module` is the root of a tree of `Route` nodes. Each route keeps
an insertion-ordered registry of regular-expression patterns, each pattern tied to a closure,
and a case-insensitive registry of method handlers (`get`, `post`, ...). `resolve($path)`
walks the path from the receiver, one token at a time:

- it tries the current route's patterns in registration order;
- it builds a child route for the first pattern that matches the front of the remaining path;
- it copies the capture groups into the child's variables;
- it runs the pattern's closure on the child, which may register further patterns and
  methods, abort the walk or delegate it to another Module;
- it then drops the matched token and the slash after it from the remaining path.

`execute($method)` runs a method handler on the route that was found. Closures receive their
arguments by parameter name.

The repository holds two generations, and both are modelled:

- **Current (`src/`)**, modules `Walkway`, `Handlers`, `Invokers`:
  - a closure named parameter `route` gets the route, `module` gets its Module, and any other
    parameter gets the route variable of the same name;
  - a closure stops the walk with `$route->abort()` and hands it to a fresh Module with
    `$route->delegate(new X())`;
  - every capture group must be named;
  - `Invoker` and `InteropInvoker` are the two parameter-binding algorithms. `InteropInvoker`
    also looks class-typed parameters up in a dependency-injection container.
- **Legacy (`mindplay/walkway/`)**, module `WalkwayLegacy`:
  - a closure parameter type-hinted with a Module subclass switches the walk to a fresh
    instance of that class;
  - a closure result of exactly `false` aborts the walk;
  - capture groups are either all named or all nameless;
  - nameless values fill, in order, the parameters that no variable names, and the counts
    must agree.

Shared modules:

- `Wrappers`: `Option` and `Result`.
- `Values`: PHP values, reflected parameter descriptors, and the two exception classes as
  error tags.
- `PhpStrings`: `trim`, `substr`, truthiness, `strtolower`, and the path join of
  `setParent`.
- `OrderedMaps`: PHP string-keyed arrays as ordered maps.
- `Substitutions`: `preparePattern` and the built-in `<name:symbol>` rule, written out as a
  leftmost scan that mirrors its regular expression.
- `Matching`: the regular-expression engine as an oracle; PHP's `$matches` array and the two
  loops that read it; trying the patterns in order.

A closure is data: its reflected parameter list, plus a function from the bound arguments to
what the call does (its registrations, `abort()`, `delegate()`, its return value). Closures are
referred to by number through a handler table. A delegated Module subclass, or one switched to
in the legacy generation, is described by the registrations its `init` makes after the
inherited `init`.

The regular-expression engine (PCRE) is a parameter `matcher` of `Resolve`. It is trusted to
report no match, a malformed pattern, or the matched token with the groups in order. The
dependency-injection container is a parameter of `InteropInvoker` (`has`/`get`). Nothing else
in the model is external.

Where the code departs from the router's documented design, the model follows the code:

- **A miss after the first token does not end the walk.** `$token` keeps its value from an
  earlier iteration. So a later iteration in which nothing matches drops the previous token's
  length plus one from the remaining path and tries again at the same route (src/Route.php
  lines 277-282). Only a miss on the first token resolves to null. `Resolve` keeps this
  behaviour.
- **The current generation rejects unnamed capture groups outright.** It rejects a pattern
  with any unnamed capture group, including one whose groups are all unnamed (`UnnamedCapture`,
  src/Route.php lines 232-251). It does not only reject patterns that mix named and unnamed
  groups.
- **The container comes before the default.** `InteropInvoker` asks the container before it
  falls back to a parameter's default (src/InteropInvoker.php lines 44-56).
- **No relative navigation.** Neither generation implements it (`.`, `..`), so there is no
  "no parent" error.

## Model

| member | source | states |
|---|---|---|
| `PhpStrings.TrimSlashes` | src/Route.php:176 | the result is the slice of the path between its leading slashes and its trailing slashes, so only slashes are dropped and only at the two ends; no leading or trailing slash remains, and the result is empty exactly when the path is all slashes |
| `PhpStrings.TrimLeft` | src/Route.php:176 | only slashes were dropped from the front, and the rest does not start with one |
| `PhpStrings.TrimRight` | src/Route.php:176 | only slashes were dropped from the end, and the rest does not end with one |
| `PhpStrings.LowerAscii` | src/Route.php:148 | every character is lower-cased independently, and no upper-case letter remains |
| `OrderedMaps.IndexOf` | src/Route.php:121-124 | the first entry under the key, or none exactly when no entry has the key |
| `OrderedMaps.Get` | src/Route.php:137-140 | a value is read exactly when the key is set, and it is one stored under that key |
| `OrderedMaps.GetAfterSet` | src/Route.php:112-116 | after `$m[$k] = $v` the key is set and reads `$v` |
| `OrderedMaps.GetOtherAfterSet` | src/Route.php:112-116 | assigning one key leaves every other key's value as it was |
| `OrderedMaps.KeysAfterSet` | src/Route.php:112-116 | assigning an existing key keeps the registration order; a new key goes last |
| `OrderedMaps.RemoveRead` | src/Route.php:129-132 | `unset` keeps exactly the entries under other keys |
| `OrderedMaps.GetAfterRemove` | src/Route.php:129-132 | after `unset` the key is not set and every other key reads as before |
| `OrderedMaps.GetOtherAfterRemove` | src/Route.php:129-132 | `unset` of one key leaves every other key's value as it was |
| `OrderedMaps.DistinctKeysPreserved` | src/Route.php:112-132 | both writes keep every key unique, so the registry stays a map |
| `OrderedMaps.RemoveKeepsDistinct` | src/Route.php:129-132 | `unset` keeps every key unique |
| `OrderedMaps.RemoveAt` | src/Route.php:129-132 | in a registry with unique keys, `unset` takes out the one entry under the key and keeps every other entry in its order; an absent key changes nothing |
| `Substitutions.FirstAt` | src/Module.php:113 | a position found for a character class lies in the scanned range |
| `Substitutions.FirstAtRead` | src/Module.php:113 | the scan finds the first occurrence, and finds none exactly when there is none |
| `Substitutions.FirstAtOf` | src/Module.php:113 | the first occurrence is found at the position that holds the character when nothing before it does |
| `Substitutions.PlaceholderAt` | src/Module.php:113 | a placeholder found at `i` has a non-empty name and a non-empty symbol inside the pattern |
| `Substitutions.PlaceholderAtAgreesWithRegex` | src/Module.php:113 | the scan finds a placeholder at a position exactly when the regular expression (with its lookbehind) matches there, with the same name and symbol |
| `Substitutions.RewriteWithoutPlaceholders` | src/Module.php:113-119 | text without `<` passes through the rule unchanged |
| `Substitutions.RewriteAtPlaceholder` | src/Module.php:113-119 | a placeholder is replaced by `(?<name>X)`, and the rewriting resumes after its `>` |
| `Substitutions.RewriteAtMatch` | src/Module.php:113-119 | the same replacement, stated for the placeholder the scan found |
| `Substitutions.RewriteSkipsNamedGroups` | src/Module.php:113 | a `<` that directly follows `(?` (a hand-written named group) is copied and never starts a placeholder |
| `Substitutions.RewritePlainChar` | src/Module.php:113-119 | a character other than `<` is copied |
| `Substitutions.RewriteSinglePlaceholder` | src/Module.php:113-119 | `<name:sym>` becomes `(?<name>symbols[sym])` when the symbol is known, and `(?<name>sym)` with the symbol taken literally otherwise |
| `Substitutions.PreparedFirstThenRest` | src/Module.php:88-99 | preparing applies the first substitution and feeds its output to the rest, in insertion order |
| `Substitutions.PreparedWithoutSubstitutions` | src/Module.php:88-99 | with no substitutions the pattern is returned unchanged |
| `Substitutions.PreparedFailsAfterFailingStep` | src/Module.php:91-95 | a step that returns null anywhere makes the whole preparation raise an invalid-substitution error |
| `Substitutions.PreparedKeepsFailing` | src/Module.php:90-96 | once a prefix of the substitutions fails, the whole preparation fails with that error |
| `Substitutions.PreparedErrorsAreInvalidSubstitutions` | src/Module.php:93-95 | every preparation error is a RoutingException that names one of the Module's subpatterns |
| `Substitutions.PreparedWithDefaultRule` | src/Module.php:88-99 | a Module with only the built-in rule never fails to prepare, and only rewrites placeholders |
| `Matching.TokenConsumed` | src/Route.php:277-279 | dropping `strlen($token) + 1` characters removes the token and its slash: nothing is left when the token was the whole path, and otherwise the path is the token, `/`, and the rest; the path gets shorter |
| `Matching.PhpMatches` | src/Route.php:224 | `$matches` after `array_shift` is empty exactly when there are no groups |
| `Matching.GroupValues` | mindplay/walkway/Route.php:271-274 | one captured text per group |
| `Matching.NamedCountBounds` | mindplay/walkway/Route.php:281-284 | the named groups are at most all groups; all of them exactly when every group is named, and none exactly when none is |
| `Matching.NamedWritesAppend` | src/Route.php:236-247 | reading `$matches` in two parts is reading it whole |
| `Matching.EntriesRead` | src/Route.php:236-247 | what a named or unnamed group's entries write, count and collect |
| `Matching.NamedWritesAreCaptures` | src/Route.php:236-247 | writing the string-keyed entries of `$matches` is capturing the named groups, later ones winning; there is one string key per named group; the integer-keyed values are the groups' texts in order |
| `Matching.MatchesRead` | src/Route.php:236-247 | the string keys of `$matches` write and count exactly the named groups |
| `Matching.ValuesRead` | mindplay/walkway/Route.php:271-274 | the integer-keyed values of `$matches` are the groups' texts in order |
| `Matching.LastIndexOfMatches` | src/Route.php:237-239 | the last integer key is the last group's index |
| `Matching.CaptureCheckIffAllNamed` | src/Route.php:232-251 | the test `$total - 1 !== $last` lets a match through exactly when every group is named |
| `Matching.LegacyCaptureCheckIffUniform` | mindplay/walkway/Route.php:281-287 | the legacy test lets a match through exactly when its groups are all named or all nameless |
| `Matching.IdentifyNamed` | src/Route.php:232-251 | the loop writes every named group into the route variables and accepts exactly by the count test |
| `Matching.IdentifyLegacy` | mindplay/walkway/Route.php:269-279 | the loop writes the named groups into the variables, collects the nameless values in order and counts the named ones |
| `Matching.Try` | src/Route.php:206-219 | a pattern either misses, matches, or fails with a RoutingException (a failed substitution or a malformed pattern) |
| `Matching.ScanFrom` | src/Route.php:198-275 | the first pattern that matches or fails decides; every pattern before it missed; nothing matched exactly when every pattern missed |
| `Matching.ScanIgnoresLaterPatterns` | src/Route.php:198-274 | patterns registered later never change an outcome an earlier pattern decided |
| `Handlers.MethodLookupAfterDefine` | src/Route.php:157-162 | a handler set under one spelling is found under every spelling with the same lower case, and other names are unaffected |
| `Handlers.PatternRegistrationsKeepMethods` | src/Route.php:112-132 | defining and removing patterns leaves the method registry as it was |
| `Handlers.EffectsRead` | src/Route.php:312-323 | the route is aborted exactly when some effect is `abort()`; the delegate is the Module of the last `delegate()` call; there is one exactly when `delegate()` was called |
| `Handlers.EffectsSnoc` | src/Route.php:312-323 | reading the effects one more at a time |
| `Handlers.RegistrationsSnoc` | src/Route.php:112-162 | applying registrations one more at a time |
| `Handlers.ArgumentsRead` | src/Route.php:365-382 | binding succeeds exactly when every parameter can be filled, and then gives one argument per parameter, in order; otherwise it raises an InvocationException for the first unfillable parameter |
| `Handlers.Call` | src/Route.php:384 | the closure runs only when binding succeeded, and a binding error is passed on unchanged |
| `Handlers.ArgumentsKeepFailing` | src/Invoker.php:34 | the first missing parameter decides the error, whatever follows it |
| `Handlers.ArgumentsIgnoreUnusedValues` | src/Invoker.php:21-35 | values under names that no parameter has make no difference |
| `Handlers.InteropFallsBackToDefaults` | src/InteropInvoker.php:37-58 | the container is consulted only for class-typed parameters it has; without those, the interop invoker binds exactly as the default invoker does |
| `Handlers.ContainerBeforeDefault` | src/InteropInvoker.php:44-56 | a class-typed parameter the container has is filled from the container even when it has a default |
| `Invokers.Invoker.Invoke` | src/Invoker.php:14-38 | the closure is called with, for each parameter in order, the given value under its name, else its default; otherwise the first unfillable parameter raises an InvocationException |
| `Invokers.InteropInvoker.constructor` | src/InteropInvoker.php:25-28 | the invoker keeps the container it is given |
| `Invokers.InteropInvoker.Invoke` | src/InteropInvoker.php:30-62 | the same, with the container asked for a class-typed parameter before its default |
| `Walkway.Route.constructor` | src/Route.php:40-82 | a new route has no variables, Module, parent, token, path, patterns, methods or delegate, and is not aborted |
| `Walkway.Route.Module` | src/Module.php:70-76 | a Module is its own Module; `route` and `module` name it; it has the placeholder rule and the symbols `int` and `slug`; its `init` registrations are applied; its invoker is the one supplied, or else a fresh default one |
| `Walkway.Route.SetParent` | src/Route.php:88-96 | the parent and token are set, and the path is the token under `''` and `{parent}/{token}` otherwise |
| `Walkway.Route.OffsetSet` | src/Route.php:112-116 | the pattern is set and reads the handler; every other pattern is unchanged; the registration order is kept |
| `Walkway.Route.OffsetUnset` | src/Route.php:129-132 | the pattern is no longer set, and every other pattern is unchanged |
| `Walkway.Route.SetMethod` | src/Route.php:157-162 | the handler is stored under the lower-cased name, and every spelling of it finds the handler |
| `Walkway.Route.Abort` | src/Route.php:320-323 | the route is marked aborted |
| `Walkway.Route.Delegate` | src/Route.php:312-315 | the given Module becomes the delegate |
| `Walkway.Route.CreateRoute` | src/Route.php:332-342 | a fresh route with the parent's Module and a copy of its variables, placed under the parent with the token and the joined path, and otherwise empty |
| `Walkway.Route.PreparePattern` | src/Module.php:88-99 | the loop returns the substitutions' fold over the pattern, or the error of the first failing step |
| `Walkway.Route.Invoke` | src/Route.php:355-385 | `route` binds to the route, `module` to its Module and other names to its variables; a missing name raises an InvocationException and changes nothing; otherwise the call's effects are applied and its result returned |
| `Walkway.Route.ApplyEffects` | src/Route.php:312-323 | the registrations are applied in order, `aborted` is set by any `abort()`, and a fresh Module of the last delegated class becomes the delegate |
| `Walkway.Route.Execute` | src/Route.php:294-307 | no handler gives `false` and changes nothing; a binding error is returned and changes nothing; otherwise the handler's registrations, `abort()` and `delegate()` are applied to the route, and the result is returned, with null read as `true` |
| `Walkway.Route.Descend` | src/Route.php:198-275 | one pass over the patterns, as `Passed` describes it: a miss, the first failure, an unnamed-capture error, a binding error, an abort, or the walk moving on at the new child with its captures, or at the delegate placed under the child |
| `Walkway.Route.Enter` | src/Route.php:224-272 | a matched pattern yields a fresh child under the current route with the named captures added to the parent's variables; then comes the handler's binding error, an abort, or the next route |
| `Walkway.Route.Continue` | src/Route.php:256-272 | the closure runs on the child; `abort()` ends the walk; a delegate is placed under the child with the token and the joined path; otherwise the walk goes on at the child |
| `Walkway.Route.Resolve` | src/Route.php:173-286 | the walk is recorded iteration by iteration: each iteration passes over its route as `Passed` says, each but the last lets the loop go on, and the next one stands at the route reached with the token and its slash dropped from the path; the result is the receiver exactly when the path trims to nothing (or to `"0"`), and otherwise the last iteration's outcome: null for a route without patterns, a miss or an abort, the error of a failing pass, and the route a match reached; no patterns, a first miss, a failing pattern or an unnamed group on the first token decide the result; every route reached is fresh, placed under its parent with its token and the joined path, and belongs to its parent's Module or is a delegated Module |
| `Walkway.Route.Follow` | src/Route.php:186-285 | the `while` loop: its iterations form a walk from the receiver on the trimmed path, and it returns the receiver when there is no iteration and the last iteration's outcome otherwise |
| `Walkway.Route.Iterate` | src/Route.php:191-282 | one more iteration at the current route on the current partial path, which extends the recorded walk and updates `$token` only on a match |
| `Walkway.Route.IterationsSnoc` | src/Route.php:186-282 | a recorded walk stays one when an iteration that follows its last is added |
| `Walkway.Route.FirstPass` | src/Route.php:191-275 | when the path is truthy there is a first iteration, and its route without patterns, its miss, its failure or its unnamed group is the walk's result |
| `Walkway.Route.AbortEndsWalk` | src/Route.php:258-262 | an iteration whose closure called `abort()` is the last one, and the walk resolves to null |
| `Walkway.Route.MatchEndsWalk` | src/Route.php:264-285 | a first match whose token leaves nothing truthy of the path ends the walk, which resolves to the route the match reached: the child, or the delegate placed under it |
| `Walkway.Route.LinkedPartsTruthy` | src/Route.php:186-279 | every iteration but the last leaves a truthy partial path behind, as the `while` test demands |
| `Walkway.LinkedSnoc` | src/Route.php:277-279 | iterations in which each follows the one before stay so when one more follows the last |
| `WalkwayLegacy.ModuleParamFrom` | mindplay/walkway/Route.php:239-244 | the first parameter type-hinted with a strict Module subclass, and none exactly when no parameter is |
| `WalkwayLegacy.FindModuleParam` | mindplay/walkway/Route.php:237-244 | the loop stops at that first Module-typed parameter |
| `WalkwayLegacy.Filled` | mindplay/walkway/Route.php:358-371 | filling uses at most the nameless values there are, and a complete fill gives one argument per parameter |
| `WalkwayLegacy.Missing` | mindplay/walkway/Route.php:359 | at most every parameter lacks a variable |
| `WalkwayLegacy.FilledCounts` | mindplay/walkway/Route.php:358-371 | with distinct parameter names, filling succeeds exactly when the nameless values are at least the parameters without a variable; it then uses one value for each; other variable names keep their presence |
| `WalkwayLegacy.InvocationSucceeds` | mindplay/walkway/Route.php:356-378 | the call goes ahead exactly when every nameless value fills a parameter; too few values raise the insufficient-values exception |
| `WalkwayLegacy.FilledWithoutValues` | mindplay/walkway/Route.php:324 | without nameless values, the closure gets exactly the variables under its parameters' names, or the call fails |
| `WalkwayLegacy.FilledKeepsFailing` | mindplay/walkway/Route.php:365-367 | once the values run out, filling fails for the whole list |
| `WalkwayLegacy.Route.constructor` | mindplay/walkway/Route.php:80-93 | the Module, parent and token are set; the path is the token with no parent or under `''`, and `{parent}/{token}` otherwise; the variables are the given ones plus `route` and `module` |
| `WalkwayLegacy.Route.Module` | mindplay/walkway/Module.php:42-47 | a Module is its own Module, has the placeholder rule and the standard symbols, and has no variables, parent, token or path, because the Route constructor is not run |
| `WalkwayLegacy.Route.OffsetSet` | mindplay/walkway/Route.php:109-113 | the pattern is set and reads the closure, and every other pattern is unchanged |
| `WalkwayLegacy.Route.OffsetUnset` | mindplay/walkway/Route.php:126-129 | the pattern is no longer set, and every other pattern is unchanged |
| `WalkwayLegacy.Route.SetMethod` | mindplay/walkway/Route.php:154-159 | the closure is stored under the lower-cased name |
| `WalkwayLegacy.Route.PreparePattern` | mindplay/walkway/Module.php:56-67 | the substitutions' fold over the pattern, or the first failing step's error |
| `WalkwayLegacy.Route.Register` | mindplay/walkway/Route.php:109-159 | a closure's registrations are applied in order to both registries |
| `WalkwayLegacy.Route.Invoke` | mindplay/walkway/Route.php:342-381 | parameters are filled from the variables, else from the next nameless value, which is then recorded; too few values raise an exception; unused values raise the wrong-parameter-count exception; otherwise the closure's registrations are applied and its result returned |
| `WalkwayLegacy.Route.Execute` | mindplay/walkway/Route.php:316-329 | no closure gives `false` and changes nothing; the variables become what filling the parameters without nameless values leaves; a parameter with no variable raises an exception and leaves both registries as they were; otherwise the closure's registrations are applied and the result is returned, with null read as `true` |
| `WalkwayLegacy.Route.Spawn` | mindplay/walkway/Route.php:231-261 | a fresh instance of the first strictly Module-typed parameter's class, bound under that parameter's name, or else a nested route under the current one with its Module and variables |
| `WalkwayLegacy.Route.Capture` | mindplay/walkway/Route.php:264-287 | the named groups are written into the variables; mixing named and nameless groups is a RoutingException; the nameless values are dropped when the groups are named |
| `WalkwayLegacy.Route.Proceed` | mindplay/walkway/Route.php:291-297 | the closure is invoked with the nameless values, and a result of exactly `false` aborts |
| `WalkwayLegacy.Route.Enter` | mindplay/walkway/Route.php:227-297 | a matched pattern gives the switched-to Module or the nested route; its captures, its invocation and the abort-by-`false` follow |
| `WalkwayLegacy.Route.Descend` | mindplay/walkway/Route.php:195-298 | one pass over the patterns, as `Passed` describes it, with the first failure or match deciding, as in the current generation but with the legacy capture, switch and abort rules |
| `WalkwayLegacy.Route.Resolve` | mindplay/walkway/Route.php:170-309 | the same recorded walk with the legacy pass: the receiver exactly for a path that trims to nothing (or to `"0"`), and otherwise the last iteration's outcome: null for a route without patterns, a miss or a `false` result, the error of a failing pass, and the route a match reached; no patterns, a first miss, a failing pattern or a mix of named and nameless groups on the first token decide the result; every route reached is fresh and is either a switched-to Module or placed under its parent with its token and joined path |
| `WalkwayLegacy.Route.Follow` | mindplay/walkway/Route.php:183-308 | the `while` loop: its iterations form a walk from the receiver on the trimmed path, and it returns the receiver when there is no iteration and the last iteration's outcome otherwise |
| `WalkwayLegacy.Route.Iterate` | mindplay/walkway/Route.php:188-305 | one more iteration at the current route on the current partial path, which extends the recorded walk and updates `$token` only on a match |
| `WalkwayLegacy.Route.IterationsSnoc` | mindplay/walkway/Route.php:183-305 | a recorded walk stays one when an iteration that follows its last is added |
| `WalkwayLegacy.Route.FirstPass` | mindplay/walkway/Route.php:188-298 | when the path is truthy there is a first iteration, and its route without patterns, its miss, its failure or its mixed groups are the walk's result |
| `WalkwayLegacy.Route.AbortEndsWalk` | mindplay/walkway/Route.php:291-295 | an iteration whose closure returned exactly `false` is the last one, and the walk resolves to null |
| `WalkwayLegacy.Route.MatchEndsWalk` | mindplay/walkway/Route.php:224-308 | a first match whose token leaves nothing truthy of the path ends the walk, which resolves to the route the match reached |
| `WalkwayLegacy.Route.LinkedPartsTruthy` | mindplay/walkway/Route.php:183-302 | every iteration but the last leaves a truthy partial path behind, as the `while` test demands |
| `WalkwayLegacy.LinkedSnoc` | mindplay/walkway/Route.php:300-302 | iterations in which each follows the one before stay so when one more follows the last |

`PhpStrings.Substr`, `PhpStrings.JoinPath`, `OrderedMaps.Keys`, `Substitutions.Subpatterns` and
`Handlers.LookupMethod` are helpers whose meaning the rows above state: `Matching.TokenConsumed`,
`Walkway.Route.SetParent` and `Walkway.Route.CreateRoute`, `OrderedMaps.KeysAfterSet`,
`Substitutions.PreparedErrorsAreInvalidSubstitutions` and `Handlers.MethodLookupAfterDefine`.

## Left out

- Logging (`log`, `onLog`) changes nothing about routing and is not modelled.
- The message that `resolve` logs on delegation reads `$this->_delegate` on the receiver, not on the route; that message is not modelled.
- The PCRE engine is a parameter: the `#i` flag, group numbering and the meaning of user-written patterns stay inside it. Only the built-in placeholder rule is written out. Other substitutions are opaque steps that rewrite the pattern or fail.
- PHP reflection is replaced by parameter descriptors: a name, a default value and a class type hint.
- The effects of a closure act on the route it is invoked on. Registrations a closure makes on `$module` or on some other object are not modelled.
- A subclass `init` is assumed to call `parent::init()` first and then make registrations; other work in `init` is not modelled.
- A delegated Module (`delegate(new X())`) is always built with the default invoker.
- `delegate()` is modelled only with a Module the closure builds on the spot (`delegate(new X())`). Delegating to a Module that already exists, which `setParent` would then move under the route (src/Route.php lines 269 and 312-315), is not modelled. The freshness of every route `Resolve` reaches, and the promise that nothing existing changes, rest on this.
- Method definitions: `$route->$name = $f` reaches `__set` only for names that are not declared properties. The model treats every name as a method name. A closure that assigns `vars`, `module`, `parent`, `token`, `path` or `aborted` (and on a Module `substitutions`, `symbols`, `onLog` or `invoker`) writes that property in PHP, which the model does not capture.
- When a closure calls `delegate()` several times, only the Module of the last call is constructed. The earlier ones can no longer be reached, so their existence is not modelled.
- The DI container is reduced to `has`/`get` functions, without errors of its own.
- A Module's invoker is modelled, but `Route::invoke` in the current generation binds the parameters itself (src/Route.php lines 355-385) and does not use it. The two invokers are modelled as the separate algorithms they are.
- PHP turns integer-like string keys into integers. The model keeps every key a string: names, patterns and method names.
- Walkway.Route.Resolve: requires that the receiver belongs to a Module. A bare `new Route()` would otherwise fail in PHP when it first prepares a pattern, a failure the model does not state.
- Walkway.Route.Descend: it has the same requirement, because patterns are prepared by the receiver's Module.
- WalkwayLegacy.Route.Resolve: requires that the receiver belongs to a Module, for the same reason.
- Module and Route are one Dafny class per generation. A plain route leaves the Module-only fields empty.
- Route variables are an unordered map. A legacy Module's unset (null) variable array reads as empty.
- PHP class names are case-insensitive. The model compares the class names of type hints exactly.
- The legacy `resolve` inlines the substitution loop, and its error message differs; the model uses `PreparePattern` for both.
- The placeholder examples of the tests (`<year:int>-<month:int>` and `page<page:int>`) are not stated as lemmas of their own, because their proofs exceed the solver's resource limit. `Substitutions.RewriteSinglePlaceholder`, `Substitutions.RewriteAtPlaceholder` and `Substitutions.RewritePlainChar` state the rule they instantiate.
- `mindplay/walkway/Request.php` is not part of this model: it prints its results and calls a protected method.
- The exception classes are error tags in `Values.Error`. Their reflection on a closure's file and line is not modelled.
- `test.php` and `test/test.php` are not part of this model.
- The `__destruct` that is commented out in the legacy route is not modelled.
