/** Small shared vocabulary: an optional value, and JavaScript's `String.prototype.trim`,
    which Mongoose's `trim: true` setter uses; express-validator's `trim()` sanitizer strips
    the same whitespace set. */
module Common {

  datatype Option<+T> = None | Some(value: T)

  /** The code points JavaScript counts as WhiteSpace or LineTerminator (ECMA-262, section 12.2 and 12.3). */
  predicate IsJsWhitespace(c: char) {
    || c == '\t' || c == '\n' || c == '\U{000B}' || c == '\U{000C}' || c == '\r' || c == ' '
    || c == '\U{00A0}' || c == '\U{1680}' || ('\U{2000}' <= c <= '\U{200A}')
    || c == '\U{2028}' || c == '\U{2029}' || c == '\U{202F}' || c == '\U{205F}'
    || c == '\U{3000}' || c == '\U{FEFF}'
  }

  predicate AllWhitespace(s: string) {
    forall i :: 0 <= i < |s| ==> IsJsWhitespace(s[i])
  }

  /** `s.trim()`: drops one whitespace character from the front, or else from the back, until
      neither end is whitespace. The result is empty exactly when `s` is all whitespace. */
  function Trim(s: string): (r: string)
    ensures |r| <= |s|
    ensures r == [] || (!IsJsWhitespace(r[0]) && !IsJsWhitespace(r[|r| - 1]))
    ensures r == [] <==> AllWhitespace(s)
    decreases |s|
  {
    if s != [] && IsJsWhitespace(s[0]) then
      assert AllWhitespace(s) <==> AllWhitespace(s[1..]) by {
        assert forall i :: 1 <= i < |s| ==> s[i] == s[1..][i - 1];
      }
      Trim(s[1..])
    else if s != [] && IsJsWhitespace(s[|s| - 1]) then
      assert AllWhitespace(s) <==> AllWhitespace(s[..|s| - 1]) by {
        assert forall i :: 0 <= i < |s| - 1 ==> s[i] == s[..|s| - 1][i];
      }
      Trim(s[..|s| - 1])
    else
      s
  }

  /** How many whitespace characters `s` starts with. */
  function Leading(s: string): (n: nat)
    ensures n <= |s| && AllWhitespace(s[..n])
    ensures n < |s| ==> !IsJsWhitespace(s[n])
  {
    if s != [] && IsJsWhitespace(s[0]) then
      var n := 1 + Leading(s[1..]);
      assert s[..n] == [s[0]] + s[1..][..n - 1];
      n
    else
      0
  }

  /** Only the ends are trimmed: the result is the part of `s` after its leading whitespace,
      and what follows it in `s` is all whitespace. */
  lemma {:induction false} TrimKeepsMiddle(s: string)
    ensures Leading(s) + |Trim(s)| <= |s|
    ensures Trim(s) == s[Leading(s)..Leading(s) + |Trim(s)|]
    ensures AllWhitespace(s[Leading(s) + |Trim(s)|..])
    decreases |s|
  {
    if s != [] && IsJsWhitespace(s[0]) {
      TrimKeepsMiddle(s[1..]);
      InfixOfTail(s, Leading(s[1..]), Trim(s[1..]));
    } else if s != [] && IsJsWhitespace(s[|s| - 1]) {
      TrimKeepsMiddle(s[..|s| - 1]);
      assert Leading(s[..|s| - 1]) == 0;
      PrefixOfFront(s, Trim(s[..|s| - 1]));
    } else {
      assert s[|s|..] == [];
    }
  }

  /** A piece of `s[1..]` at offset `k` is the piece of `s` at offset `k + 1`. */
  lemma InfixOfTail(s: string, k: nat, r: string)
    requires s != [] && k + |r| <= |s| - 1
    requires r == s[1..][k..k + |r|] && AllWhitespace(s[1..][k + |r|..])
    ensures r == s[k + 1..k + 1 + |r|] && AllWhitespace(s[k + 1 + |r|..])
  {
    assert s[1..][k + |r|..] == s[k + 1 + |r|..];
  }

  /** A prefix of `s` without its last character, followed there by whitespace only, is a
      prefix of `s` followed by whitespace only when that last character is whitespace. */
  lemma PrefixOfFront(s: string, r: string)
    requires s != [] && IsJsWhitespace(s[|s| - 1]) && |r| <= |s| - 1
    requires r == s[..|s| - 1][0..|r|] && AllWhitespace(s[..|s| - 1][|r|..])
    ensures r == s[0..|r|] && AllWhitespace(s[|r|..])
  {
    assert s[|r|..] == s[..|s| - 1][|r|..] + [s[|s| - 1]];
  }

  /** Trimming twice is trimming once, so a value stored through a trimming setter is a fixed point. */
  lemma TrimIdempotent(s: string)
    ensures Trim(Trim(s)) == Trim(s)
  {
    var r := Trim(s);
    assert r == [] || (!IsJsWhitespace(r[0]) && !IsJsWhitespace(r[|r| - 1]));
  }
}
