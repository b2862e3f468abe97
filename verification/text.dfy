/** JavaScript string values as the two core functions see them.

    A field read from a JSON body or a user record is either absent
    (`undefined` or `null`) or a string; strings are sequences of characters.
    Upper-casing is restricted to ASCII: `toUpperCase` on other characters,
    and characters that upper-case to more than one character, are not
    modelled.
 */
module Text {

  /** A possibly absent JavaScript string value. */
  datatype Option<+T> = None | Some(value: T)

  /** JavaScript truthiness of a string-or-absent value: `!v` is false exactly
      when `v` is a non-empty string. */
  predicate Truthy(v: Option<string>) {
    v.Some? && v.value != ""
  }

  /** JavaScript's logical or on string-or-absent values: the first operand
      when it is truthy, the second otherwise. */
  function Or(a: Option<string>, b: Option<string>): (r: Option<string>)
    ensures Truthy(r) <==> Truthy(a) || Truthy(b)
    ensures Truthy(a) ==> r == a
    ensures !Truthy(a) ==> r == b
  {
    if Truthy(a) then a else b
  }

  /** The separator of the words of a name. */
  const Space: char := ' '

  predicate IsLower(c: char) {
    'a' <= c <= 'z'
  }

  /** `toUpperCase` of a single character, ASCII only. */
  function UpperChar(c: char): (u: char)
    ensures !IsLower(u)
    ensures u == Space <==> c == Space
    ensures !IsLower(c) ==> u == c
    ensures IsLower(c) ==> 'A' <= u <= 'Z' && u as int + 32 == c as int
  {
    if IsLower(c) then (c as int - 32) as char else c
  }

  /** `toUpperCase` of a string: every character upper-cased in place. */
  function UpperString(s: string): (r: string)
    ensures |r| == |s|
    ensures forall i :: 0 <= i < |s| ==> r[i] == UpperChar(s[i])
    ensures Space in r <==> Space in s
  {
    seq(|s|, i requires 0 <= i < |s| => UpperChar(s[i]))
  }

  /** The first `n` characters of a string: the longest prefix of `s`
      of length at most `n`. */
  function Substring(s: string, n: nat): (r: string)
    ensures |r| <= n && |r| <= |s|
    ensures |r| == n || |r| == |s|
    ensures r <= s
  {
    if |s| <= n then s else s[..n]
  }
}
