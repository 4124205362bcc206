/** The string operations the agent relies on (Rust `str::trim`, `is_safe_key`). */
module Text {

  /** The Unicode White_Space property, which `str::trim` strips. */
  predicate IsWhitespace(c: char) {
    var n := c as int;
    || 0x09 <= n <= 0x0D || n == 0x20 || n == 0x85 || n == 0xA0 || n == 0x1680
    || 0x2000 <= n <= 0x200A || n == 0x2028 || n == 0x2029 || n == 0x202F || n == 0x205F || n == 0x3000
  }

  predicate IsTrimmed(s: string) {
    s == "" || (!IsWhitespace(s[0]) && !IsWhitespace(s[|s| - 1]))
  }

  function Trim(s: string): (t: string)
    ensures IsTrimmed(t)
    ensures IsTrimmed(s) ==> t == s
    ensures |t| <= |s|
  {
    if s == "" then ""
    else if IsWhitespace(s[0]) then Trim(s[1..])
    else if IsWhitespace(s[|s| - 1]) then Trim(s[..|s| - 1])
    else s
  }

  /** `s.trim().is_empty()` */
  predicate IsBlank(s: string) {
    forall i :: 0 <= i < |s| ==> IsWhitespace(s[i])
  }

  /** The two predicates say what the sources ask of `trim`. */
  lemma {:induction false} TrimMeaning(s: string)
    ensures Trim(s) == "" <==> IsBlank(s)
    ensures Trim(s) == s <==> IsTrimmed(s)
    decreases |s|
  {
    if s != "" {
      if IsWhitespace(s[0]) {
        TrimMeaning(s[1..]);
        assert IsBlank(s[1..]) ==> IsBlank(s) by {
          assert forall i :: 0 < i < |s| ==> s[i] == s[1..][i - 1];
        }
      } else if IsWhitespace(s[|s| - 1]) {
        TrimMeaning(s[..|s| - 1]);
        assert s[..|s| - 1][0] == s[0];
      }
    }
  }

  predicate IsSafeKeyChar(c: char) {
    'A' <= c <= 'Z' || 'a' <= c <= 'z' || '0' <= c <= '9' || c == '-' || c == '_'
  }

  /** `is_safe_key`: `[A-Za-z0-9_-]+` */
  predicate IsSafeKey(s: string) {
    s != "" && forall i :: 0 <= i < |s| ==> IsSafeKeyChar(s[i])
  }

  lemma SafeKeysAreTrimmed(s: string)
    requires IsSafeKey(s)
    ensures IsTrimmed(s) && !IsBlank(s)
  {
    assert IsSafeKeyChar(s[0]) && IsSafeKeyChar(s[|s| - 1]);
  }
}
