/**
 * `OS_StrStartsWith(str, pattern)`: whether the C string `pattern` is a
 * prefix of the C string `str`. Both strings are NUL-terminated char arrays.
 */
module StartsWith {

  const NUL: char := 0 as char

  /** The position of the first NUL at or after `from`. */
  function Terminator(s: seq<char>, from: nat): (i: nat)
    requires from <= |s| && NUL in s[from..]
    ensures from <= i < |s| && s[i] == NUL
    ensures forall j :: from <= j < i ==> s[j] != NUL
    decreases |s| - from
  {
    if s[from] == NUL then from
    else
      assert s[from..] == [s[from]] + s[from + 1..];
      Terminator(s, from + 1)
  }

  /** The text of a C string: the characters before its terminator. */
  function Text(s: seq<char>): (t: seq<char>)
    requires NUL in s
    ensures NUL !in t && t <= s && |t| < |s| && s[|t|] == NUL
  {
    s[..Terminator(s, 0)]
  }

  /**
   * Walk both strings while the pattern lasts; stop at the first character
   * that differs. The terminator of `str` differs from every pattern
   * character, so a pattern longer than `str` fails there.
   */
  method StrStartsWith(str: array<char>, pattern: array<char>) returns (r: bool)
    requires NUL in str[..] && NUL in pattern[..]
    ensures r <==> Text(pattern[..]) <= Text(str[..])
  {
    ghost var s, p := Text(str[..]), Text(pattern[..]);
    var i := 0;
    while pattern[i] != NUL
      invariant i <= |p| && i <= |s|
      invariant s[..i] == p[..i]
      decreases |p| - i
    {
      if pattern[i] != str[i] {
        assert i < |p|;
        assert !(p <= s) by {
          assert str[..][|s|] == NUL;
        }
        return false;
      }
      assert i < |p|;
      assert str[..][|s|] == NUL;
      i := i + 1;
    }
    assert i == |p|;
    assert p == s[..i];
    return true;
  }
}
