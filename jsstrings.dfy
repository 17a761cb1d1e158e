/**
 * The few JavaScript string operations the bot relies on: `String.prototype.trim`,
 * `String.prototype.toLowerCase` (on ASCII letters) and the truthiness of an optional
 * string in `a || b`.
 */
module JsStrings {
  import opened Wrappers

  /** The ECMAScript WhiteSpace and LineTerminator characters: what `trim` removes. */
  const WhiteSpace: set<char> := {
    '\t', '\U{000B}', '\U{000C}', ' ', '\U{00A0}', '\U{FEFF}',   // WhiteSpace outside category Zs
    '\n', '\r', '\U{2028}', '\U{2029}',                            // LineTerminator
    '\U{1680}', '\U{2000}', '\U{2001}', '\U{2002}', '\U{2003}', '\U{2004}', '\U{2005}',
    '\U{2006}', '\U{2007}', '\U{2008}', '\U{2009}', '\U{200A}', '\U{202F}', '\U{205F}', '\U{3000}'
  }

  predicate IsWhiteSpace(c: char) {
    c in WhiteSpace
  }

  predicate AllWhiteSpace(s: string) {
    forall i :: 0 <= i < |s| ==> IsWhiteSpace(s[i])
  }

  /** No white space at either end. */
  predicate Trimmed(s: string) {
    s != [] ==> !IsWhiteSpace(s[0]) && !IsWhiteSpace(s[|s| - 1])
  }

  /** Drops the white-space prefix. */
  function TrimStart(s: string): string {
    if s != [] && IsWhiteSpace(s[0]) then TrimStart(s[1..]) else s
  }

  /** Drops the white-space suffix. */
  function TrimEnd(s: string): string {
    if s != [] && IsWhiteSpace(s[|s| - 1]) then TrimEnd(s[..|s| - 1]) else s
  }

  /** `TrimStart` drops the longest prefix made of white space, and only that. */
  lemma {:induction false} TrimStartDropsWhiteSpacePrefix(s: string)
    ensures var r := TrimStart(s);
      |r| <= |s| && r == s[|s| - |r|..] && AllWhiteSpace(s[..|s| - |r|])
      && (r != [] ==> !IsWhiteSpace(r[0]))
  {
    if s != [] && IsWhiteSpace(s[0]) {
      TrimStartDropsWhiteSpacePrefix(s[1..]);
      var r := TrimStart(s[1..]);
      assert s[..|s| - |r|] == [s[0]] + s[1..][..|s| - 1 - |r|];
    }
  }

  /** `TrimEnd` drops the longest suffix made of white space, and only that. */
  lemma {:induction false} TrimEndDropsWhiteSpaceSuffix(s: string)
    ensures var r := TrimEnd(s);
      |r| <= |s| && r == s[..|r|] && AllWhiteSpace(s[|r|..])
      && (r != [] ==> !IsWhiteSpace(r[|r| - 1]))
  {
    if s != [] && IsWhiteSpace(s[|s| - 1]) {
      TrimEndDropsWhiteSpaceSuffix(s[..|s| - 1]);
      var r := TrimEnd(s[..|s| - 1]);
      assert s[|r|..] == s[..|s| - 1][|r|..] + [s[|s| - 1]];
    }
  }

  /** `s.trim()` */
  function Trim(s: string): (r: string)
    ensures |r| <= |s|
    ensures Trimmed(r)
  {
    var u := TrimStart(s);
    TrimStartDropsWhiteSpacePrefix(s);
    TrimEndDropsWhiteSpaceSuffix(u);
    var r := TrimEnd(u);
    assert r != [] ==> r[0] == u[0];
    r
  }

  /** `toLowerCase` on one character; only the ASCII letters A-Z are mapped. */
  function LowerChar(c: char): char {
    if 'A' <= c <= 'Z' then (c as int + 32) as char else c
  }

  /** Lower-casing never turns a character into white space or white space into anything else. */
  lemma LowerCharKeepsWhiteSpace(c: char)
    ensures IsWhiteSpace(LowerChar(c)) <==> IsWhiteSpace(c)
  {
  }

  /** `s.toLowerCase()`: each character is lower-cased on its own, in place. */
  function ToLower(s: string): (r: string)
    ensures |r| == |s|
    ensures forall i :: 0 <= i < |s| ==> r[i] == LowerChar(s[i])
  {
    if s == [] then [] else [LowerChar(s[0])] + ToLower(s[1..])
  }

  /** `text.trim().toLowerCase()`: no longer than the text, with no white space at either end. */
  function Normalize(s: string): (r: string)
    ensures |r| <= |s|
    ensures Trimmed(r)
  {
    var t := Trim(s);
    if t == [] then ToLower(t)
    else
      LowerCharKeepsWhiteSpace(t[0]);
      LowerCharKeepsWhiteSpace(t[|t| - 1]);
      ToLower(t)
  }

  /** A string is truthy in JavaScript when it is defined and not empty. */
  predicate Truthy(o: Option<string>) {
    o.Some? && o.value != ""
  }

  /** JavaScript's `a || b` where `a` is an optional string and `b` a string. */
  function OrElse(a: Option<string>, b: string): (r: string)
    ensures Truthy(a) ==> r == a.value
    ensures !Truthy(a) ==> r == b
  {
    if a.Some? && a.value != "" then a.value else b
  }

  lemma {:induction false} TrimStartPadded(pre: string, rest: string)
    requires AllWhiteSpace(pre)
    requires rest != [] ==> !IsWhiteSpace(rest[0])
    ensures TrimStart(pre + rest) == rest
  {
    if pre != [] {
      assert (pre + rest)[1..] == pre[1..] + rest;
      TrimStartPadded(pre[1..], rest);
    }
  }

  lemma {:induction false} TrimEndPadded(body: string, post: string)
    requires AllWhiteSpace(post)
    requires body != [] ==> !IsWhiteSpace(body[|body| - 1])
    ensures TrimEnd(body + post) == body
  {
    if post != [] {
      var s := body + post;
      assert s[..|s| - 1] == body + post[..|post| - 1];
      TrimEndPadded(body, post[..|post| - 1]);
    }
  }

  /** Trimming undoes any padding with white space around a trimmed string. */
  lemma TrimOfPadded(pre: string, w: string, post: string)
    requires AllWhiteSpace(pre) && AllWhiteSpace(post) && Trimmed(w)
    ensures Trim(pre + w + post) == w
  {
    if w == [] {
      assert pre + w + post == (pre + post) + [];
      assert AllWhiteSpace(pre + post) by {
        forall i | 0 <= i < |pre + post| ensures IsWhiteSpace((pre + post)[i]) {
          if i >= |pre| {
            assert (pre + post)[i] == post[i - |pre|];
          }
        }
      }
      TrimStartPadded(pre + post, []);
      assert TrimStart(pre + w + post) == [];
    } else {
      assert pre + w + post == pre + (w + post);
      TrimStartPadded(pre, w + post);
      TrimEndPadded(w, post);
    }
  }

  /** Whatever `trim` returns has no white space at either end, and trimming it again changes nothing. */
  lemma TrimIsTrimmed(s: string)
    ensures Trimmed(Trim(s))
    ensures Trim(Trim(s)) == Trim(s)
  {
    var u := TrimStart(s);
    var t := TrimEnd(u);
    TrimStartDropsWhiteSpacePrefix(s);
    TrimEndDropsWhiteSpaceSuffix(u);
    assert Trim(s) == t;
    if t != [] {
      assert t[0] == u[0];
    }
    assert Trimmed(t);
    TrimOfPadded([], t, []);
    assert [] + t + [] == t;
  }

  /** `ToLower(s)` equals an all-lower-case ASCII word `k` exactly when `s` spells `k` in any mix of cases. */
  /** A character lower-cases to a lower-case ASCII letter exactly when it is that letter in either case. */
  lemma LowerCharMatches(c: char, l: char)
    requires 'a' <= l <= 'z'
    ensures LowerChar(c) == l <==> c == l || c == (l as int - 32) as char
  {
  }

  lemma LowerMatchesIgnoringCase(s: string, k: string)
    requires forall i :: 0 <= i < |k| ==> 'a' <= k[i] <= 'z'
    ensures ToLower(s) == k <==>
      |s| == |k| && forall i :: 0 <= i < |s| ==> s[i] == k[i] || s[i] == (k[i] as int - 32) as char
  {
    var r := ToLower(s);
    if |s| == |k| {
      forall i | 0 <= i < |s|
        ensures r[i] == k[i] <==> s[i] == k[i] || s[i] == (k[i] as int - 32) as char
      {
        LowerCharMatches(s[i], k[i]);
      }
      assert r == k <==> forall i :: 0 <= i < |s| ==> r[i] == k[i];
    }
  }
}
