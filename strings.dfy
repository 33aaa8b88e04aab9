/** The few JavaScript string operations the planner relies on, stated on
    `seq<char>`. */
module Strings {

  /** `s || fallback` for a string `s`: the empty string is falsy. */
  function OrElse(s: string, fallback: string): (r: string)
    ensures s != "" ==> r == s
    ensures s == "" ==> r == fallback
  {
    if s == "" then fallback else s
  }

  /** `s.includes(sub)`: `sub` occurs at some position of `s`. */
  predicate Contains(s: string, sub: string) {
    exists i :: 0 <= i <= |s| && sub <= s[i..]
  }

  /** A string built around `sub` contains it. */
  lemma ContainsInfix(before: string, sub: string, after: string)
    ensures Contains(before + sub + after, sub)
  {
    var s := before + sub + after;
    assert s[|before|..] == sub + after;
  }

  /** A string in which the first character of `sub` never occurs cannot
      contain `sub`. */
  lemma NotContainsWithoutFirst(s: string, sub: string)
    requires |sub| > 0
    requires forall i :: 0 <= i < |s| ==> s[i] != sub[0]
    ensures !Contains(s, sub)
  {
    forall i | 0 <= i <= |s|
      ensures !(sub <= s[i..])
    {
      if i < |s| {
        assert s[i..][0] == s[i];
      }
    }
  }

  /** The character JavaScript's case-insensitive regular expressions compare
      for an ASCII letter: its lower-case form. Characters outside A-Z are
      compared as they are. */
  function AsciiLower(c: char): (r: char)
    ensures 'A' <= c <= 'Z' ==> 'a' <= r <= 'z' && r as int == c as int + 32
    ensures !('A' <= c <= 'Z') ==> r == c
  {
    if 'A' <= c <= 'Z' then (c as int + 32) as char else c
  }

  /** `s` begins with the lower-case `prefix`, letters compared without case. */
  predicate StartsWithIgnoringCase(s: string, prefix: string) {
    |prefix| <= |s| && forall i :: 0 <= i < |prefix| ==> AsciiLower(s[i]) == prefix[i]
  }

  /** A string that begins with the lower-case `prefix` itself begins with it
      ignoring case, whatever follows. */
  lemma PrefixStartsWithIgnoringCase(prefix: string, rest: string)
    requires forall i :: 0 <= i < |prefix| ==> AsciiLower(prefix[i]) == prefix[i]
    ensures StartsWithIgnoringCase(prefix + rest, prefix)
  {
    forall i | 0 <= i < |prefix|
      ensures AsciiLower((prefix + rest)[i]) == prefix[i]
    {
      assert (prefix + rest)[i] == prefix[i];
    }
  }
}
