/**
 * The few JavaScript string operations the components rely on:
 * `String.prototype.trim`, `String.prototype.startsWith` and the
 * truthiness of a `string | null` value.
 */
module Text {
  import opened Wrappers

  /**
   * The code points `trim` removes: ECMAScript WhiteSpace (TAB, VT, FF,
   * SPACE, NBSP, ZWNBSP and the Zs category) and LineTerminator (LF, CR,
   * LS, PS).
   */
  predicate IsWhitespace(c: char) {
    var n := c as int;
    n == 0x09 || n == 0x0A || n == 0x0B || n == 0x0C || n == 0x0D || n == 0x20
    || n == 0xA0 || n == 0x1680 || (0x2000 <= n <= 0x200A) || n == 0x2028
    || n == 0x2029 || n == 0x202F || n == 0x205F || n == 0x3000 || n == 0xFEFF
  }

  predicate AllWhitespace(s: string) {
    forall i :: 0 <= i < |s| ==> IsWhitespace(s[i])
  }

  /**
   * The first index at or after `i` that does not hold whitespace (or
   * `|s|`): where `trimStart` lets the string begin.
   */
  function SkipBlanks(s: string, i: nat): (j: nat)
    requires i <= |s|
    ensures i <= j <= |s|
    ensures forall k :: i <= k < j ==> IsWhitespace(s[k])
    ensures j < |s| ==> !IsWhitespace(s[j])
    decreases |s| - i
  {
    if i < |s| && IsWhitespace(s[i]) then SkipBlanks(s, i + 1) else i
  }

  /**
   * The end of `s[lo..j]` once its trailing whitespace is cut off: where
   * `trimEnd` lets the string end.
   */
  function SkipBlanksBack(s: string, lo: nat, j: nat): (e: nat)
    requires lo <= j <= |s|
    ensures lo <= e <= j
    ensures forall k :: e <= k < j ==> IsWhitespace(s[k])
    ensures lo < e ==> !IsWhitespace(s[e - 1])
    decreases j - lo
  {
    if lo < j && IsWhitespace(s[j - 1]) then SkipBlanksBack(s, lo, j - 1) else j
  }

  /**
   * `trim`: `s` without its leading and trailing whitespace. The result
   * neither begins nor ends with whitespace, and it is empty exactly when
   * `s` is blank; `TrimSlice` locates it inside `s`.
   */
  function Trim(s: string): (r: string)
    ensures r == [] || (!IsWhitespace(r[0]) && !IsWhitespace(r[|r| - 1]))
    ensures r == [] <==> AllWhitespace(s)
  {
    var b := SkipBlanks(s, 0);
    var e := SkipBlanksBack(s, b, |s|);
    s[b..e]
  }

  /**
   * The trimmed string is the slice of `s` that starts after its leading
   * whitespace, and the cut-off ends on both sides are all whitespace.
   */
  lemma TrimSlice(s: string)
    ensures var k, r := SkipBlanks(s, 0), Trim(s);
            && k + |r| <= |s| && r == s[k..k + |r|]
            && AllWhitespace(s[..k]) && AllWhitespace(s[k + |r|..])
  {
  }

  /** Trimming twice is trimming once. */
  lemma TrimIdempotent(s: string)
    ensures Trim(Trim(s)) == Trim(s)
  {
  }

  /** JavaScript truthiness of a `string | null`: null and "" are falsy. */
  predicate Truthy(s: Option<string>) {
    s.Some? && s.value != ""
  }

  predicate StartsWith(s: string, prefix: string) {
    |prefix| <= |s| && s[..|prefix|] == prefix
  }
}
