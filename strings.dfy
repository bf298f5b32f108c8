/**
 * C string helpers the bootloader relies on: `strnstr` with its BSD
 * meaning (look at no more than `n` bytes, and stop at the first NUL), and
 * the byte form of the ASCII texts it prints.
 */
module Strings {
  import opened Hardware

  /** `find` occurs at `i`, wholly inside the first `n` bytes and before any NUL. */
  predicate MatchAt(s: seq<byte>, find: seq<byte>, n: nat, i: nat)
    requires n <= |s|
  {
    i + |find| <= n && 0 !in s[..i] && s[i..i + |find|] == find
  }

  /**
   * strnstr(s, find, n): the index of the first occurrence of `find` in the
   * C string `s` looked at through at most `n` bytes, or None (NULL).
   * `find` is the C string without its terminator.
   */
  function Strnstr(s: seq<byte>, find: seq<byte>, n: nat): (r: Option<nat>)
    requires n <= |s|
    requires 0 !in find
    ensures r.Some? ==> MatchAt(s, find, n, r.value)
    ensures r.Some? ==> forall j :: 0 <= j < r.value ==> !MatchAt(s, find, n, j)
    ensures r.None? ==> forall j :: !MatchAt(s, find, n, j)
  {
    SearchFrom(s, find, n, 0)
  }

  function SearchFrom(s: seq<byte>, find: seq<byte>, n: nat, i: nat): (r: Option<nat>)
    requires n <= |s| && i <= n
    requires 0 !in find
    requires 0 !in s[..i]
    ensures r.Some? ==> i <= r.value && MatchAt(s, find, n, r.value)
    ensures r.Some? ==> forall j :: i <= j < r.value ==> !MatchAt(s, find, n, j)
    ensures r.None? ==> forall j :: i <= j ==> !MatchAt(s, find, n, j)
    decreases n - i
  {
    if i + |find| > n then None
    else if |find| > 0 && s[i] == 0 then
      assert forall j :: i < j <= |s| ==> s[i] in s[..j];
      assert find[0] != s[i];
      None
    else if s[i..i + |find|] == find then Some(i)
    else
      assert s[..i + 1] == s[..i] + [s[i]];
      SearchFrom(s, find, n, i + 1)
  }

  /** The bytes of an ASCII text (each character's code, which is below 256 for these texts). */
  function Text(s: string): (b: seq<byte>)
    ensures |b| == |s|
  {
    seq(|s|, i requires 0 <= i < |s| => (s[i] as int) % 0x100)
  }
}
