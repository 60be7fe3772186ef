/** The string operations the services rely on. Case-insensitive comparison
    (`ToLower`, `StringComparison.OrdinalIgnoreCase`) is modelled as an ASCII
    case fold. */
module Text {

  /** `char.IsWhiteSpace`: the Unicode space separators, the line and paragraph
      separators, U+0009..U+000D and U+0085. */
  predicate IsWhiteSpace(c: char) {
    var n := c as int;
    (0x09 <= n <= 0x0D) || n == 0x20 || n == 0x85 || n == 0xA0 || n == 0x1680
    || (0x2000 <= n <= 0x200A) || n == 0x2028 || n == 0x2029 || n == 0x202F
    || n == 0x205F || n == 0x3000
  }

  /** `string.IsNullOrWhiteSpace` on a non-null string. */
  predicate IsBlank(s: string) {
    forall i :: 0 <= i < |s| ==> IsWhiteSpace(s[i])
  }

  predicate IsUpper(c: char) {
    'A' <= c <= 'Z'
  }

  function LowerChar(c: char): char {
    if IsUpper(c) then (c as int + 32) as char else c
  }

  /** `ToLower` under the ASCII case fold. */
  function Lower(s: string): string {
    seq(|s|, i requires 0 <= i < |s| => LowerChar(s[i]))
  }

  /** `string.Equals(a, b, StringComparison.OrdinalIgnoreCase)`. */
  predicate EqualsIgnoreCase(a: string, b: string) {
    Lower(a) == Lower(b)
  }

  /** `s.Replace(from, to)` for one-character strings. */
  function Replace(s: string, from: char, to: char): string {
    seq(|s|, i requires 0 <= i < |s| => if s[i] == from then to else s[i])
  }

  predicate StartsWith(s: string, prefix: string) {
    |prefix| <= |s| && s[..|prefix|] == prefix
  }

  /** `pattern` occurs in `s` starting at position `i`. */
  predicate OccursAt(s: string, pattern: string, i: int) {
    0 <= i && i + |pattern| <= |s| && s[i..i + |pattern|] == pattern
  }

  /** Ordinal substring search: `s.Contains(pattern)`. */
  function Contains(s: string, pattern: string): (found: bool)
    ensures found <==> exists i :: OccursAt(s, pattern, i)
    decreases |s|
  {
    if StartsWith(s, pattern) then
      assert OccursAt(s, pattern, 0);
      true
    else if |s| <= |pattern| then
      assert forall i :: !OccursAt(s, pattern, i);
      false
    else
      var found := Contains(s[1..], pattern);
      assert found ==> exists i :: OccursAt(s, pattern, i) by {
        if found {
          var j :| OccursAt(s[1..], pattern, j);
          assert s[j + 1..j + 1 + |pattern|] == s[1..][j..j + |pattern|];
          assert OccursAt(s, pattern, j + 1);
        }
      }
      assert (exists i :: OccursAt(s, pattern, i)) ==> found by {
        if i :| OccursAt(s, pattern, i) {
          assert i != 0;
          assert s[1..][i - 1..i - 1 + |pattern|] == s[i..i + |pattern|];
          assert OccursAt(s[1..], pattern, i - 1);
        }
      }
      found
  }

  /** `s.Contains(pattern, StringComparison.OrdinalIgnoreCase)`. */
  predicate ContainsIgnoreCase(s: string, pattern: string) {
    Contains(Lower(s), Lower(pattern))
  }
}
