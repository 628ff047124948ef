/**
 * The few PHP string functions the router relies on, written out over `seq<char>`:
 * `trim($s, '/')`, string truthiness (`while ($part)`), `substr($s, $n)`,
 * ASCII `strtolower` and the path concatenation of `setParent`.
 */
module PhpStrings {
  import opened Wrappers

  /** The number of slashes `s` starts with. */
  function LeadingSlashes(s: string): (n: nat)
    ensures n <= |s|
  {
    if s != [] && s[0] == '/' then 1 + LeadingSlashes(s[1..]) else 0
  }

  /** `ltrim($s, '/')`: the dropped prefix is all slashes and what is left does not start with one. */
  function TrimLeft(s: string): (r: string)
    ensures |r| <= |s| && r == s[|s| - |r|..]
    ensures |s| - |r| == LeadingSlashes(s)
    ensures r == [] || r[0] != '/'
    ensures forall k :: 0 <= k < |s| - |r| ==> s[k] == '/'
  {
    if s != [] && s[0] == '/' then TrimLeft(s[1..]) else s
  }

  /** `rtrim($s, '/')`: the dropped suffix is all slashes and what is left does not end with one. */
  function TrimRight(s: string): (r: string)
    ensures |r| <= |s| && r == s[..|r|]
    ensures r == [] || r[|r| - 1] != '/'
    ensures forall k :: |r| <= k < |s| ==> s[k] == '/'
  {
    if s != [] && s[|s| - 1] == '/' then TrimRight(s[..|s| - 1]) else s
  }

  /** `trim($s, '/')`: strips every leading and every trailing slash. */
  function TrimSlashes(s: string): (r: string)
    ensures r == [] || (r[0] != '/' && r[|r| - 1] != '/')
    ensures r == [] <==> forall k :: 0 <= k < |s| ==> s[k] == '/'
    ensures var a := LeadingSlashes(s);
      && a + |r| <= |s| && r == s[a..a + |r|]
      && (forall k :: 0 <= k < a ==> s[k] == '/')
      && (forall k :: a + |r| <= k < |s| ==> s[k] == '/')
  {
    TrimRight(TrimLeft(s))
  }

  /** PHP's truthiness of a string: both `""` and `"0"` are false. */
  predicate Truthy(s: string) {
    s != "" && s != "0"
  }

  /** `substr($s, $n)` for `$n >= 0`: the empty string once `$n` reaches the length. */
  function Substr(s: string, n: nat): (r: string)
    ensures |r| == if n < |s| then |s| - n else 0
    ensures n < |s| ==> r == s[n..]
  {
    if n < |s| then s[n..] else ""
  }

  /** ASCII `strtolower` of one character. */
  function LowerChar(c: char): char {
    if 'A' <= c <= 'Z' then (c as int + 32) as char else c
  }

  /** ASCII `strtolower`. */
  function LowerAscii(s: string): (r: string)
    ensures |r| == |s|
    ensures forall k :: 0 <= k < |s| ==> r[k] == LowerChar(s[k])
    ensures forall k :: 0 <= k < |s| ==> !('A' <= r[k] <= 'Z')
  {
    seq(|s|, k requires 0 <= k < |s| => LowerChar(s[k]))
  }

  /** Lower-casing twice is lower-casing once, so method names can be looked up under any case. */
  lemma LowerAsciiIdempotent(s: string)
    ensures LowerAscii(LowerAscii(s)) == LowerAscii(s)
  {
  }

  /** The string a possibly-null PHP path interpolates to: `null` becomes `""`. */
  function Interpolated(p: Option<string>): string {
    if p.Some? then p.value else ""
  }

  /**
   * The path of a route reached from a parent with path `parent` by matching `token`:
   * the token alone when the parent's path is exactly `''`, and `"{parent}/{token}"`
   * otherwise, which for a `null` parent path (a Module root) gives `"/" + token`.
   */
  function JoinPath(parent: Option<string>, token: string): (r: string)
    ensures parent == Some("") ==> r == token
    ensures parent != Some("") ==> r == Interpolated(parent) + "/" + token
    ensures |token| <= |r|
  {
    if parent == Some("") then token else Interpolated(parent) + "/" + token
  }
}
