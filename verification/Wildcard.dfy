/** The backtracking glob matcher, and the matching relation it decides. */
module Wildcard {

  /** `tolower` of the C locale. */
  function Lower(c: char): char {
    if 'A' <= c <= 'Z' then c - 'A' + 'a' else c
  }

  /** The character at i of a C string: NUL past its end. */
  function At(s: string, i: nat): char {
    if i < |s| then s[i] else '\0'
  }

  predicate CString(s: string) {
    '\0' !in s
  }

  predicate Same(a: char, b: char, caseSensitive: bool) {
    if caseSensitive then a == b else Lower(a) == Lower(b)
  }

  /** `*` stands for any string, `?` for any one character. */
  ghost predicate Matches(s: string, wild: string, cs: bool)
    decreases |wild|
  {
    if wild == "" then s == ""
    else if wild[0] == '*' then exists k :: 0 <= k <= |s| && Matches(s[k..], wild[1..], cs)
    else s != "" && (Same(wild[0], s[0], cs) || wild[0] == '?') && Matches(s[1..], wild[1..], cs)
  }

  // ----- what the relation says of plain patterns

  predicate Literal(wild: string) {
    '*' !in wild && '?' !in wild
  }

  /** a and b are the two cases of one of the 26 letters, 32 apart in ASCII. */
  predicate TwoCases(a: char, b: char) {
    || ('A' <= a <= 'Z' && b as int == a as int + 32)
    || ('A' <= b <= 'Z' && a as int == b as int + 32)
  }

  lemma SameIff(a: char, b: char)
    ensures Same(a, b, true) <==> a == b
    ensures Same(a, b, false) <==> a == b || TwoCases(a, b)
  {}

  /** A pattern without `*` and `?` matches just the strings equal to it, but for the case of letters
      where case does not count. */
  lemma {:induction false} LiteralMatchesItself(s: string, wild: string, cs: bool)
    requires Literal(wild)
    ensures Matches(s, wild, cs) <==>
              |s| == |wild|
              && forall i :: 0 <= i < |s| ==> wild[i] == s[i] || (!cs && TwoCases(wild[i], s[i]))
    decreases |wild|
  {
    if wild != "" && s != "" {
      SameIff(wild[0], s[0]);
      LiteralMatchesItself(s[1..], wild[1..], cs);
      hide Matches, TwoCases, Same;
      assert forall i :: 1 <= i < |s| ==> s[i] == s[1..][i - 1];
      assert forall i :: 1 <= i < |wild| ==> wild[i] == wild[1..][i - 1];
    }
  }

  /** A run of `?` matches just the strings of its length. */
  lemma {:induction false} QuestionMarksCount(s: string, wild: string, cs: bool)
    requires forall i :: 0 <= i < |wild| ==> wild[i] == '?'
    ensures Matches(s, wild, cs) <==> |s| == |wild|
    decreases |wild|
  {
    if wild != "" && s != "" { QuestionMarksCount(s[1..], wild[1..], cs); }
  }

  /** Text, a star, and text: strings that begin with the one and end with the other. */
  lemma {:induction false} PrefixStarSuffix(s: string, prefix: string, suffix: string)
    requires Literal(prefix) && Literal(suffix)
    ensures Matches(s, prefix + "*" + suffix, true) <==>
              |prefix| + |suffix| <= |s| && prefix <= s && s[|s| - |suffix|..] == suffix
    decreases |prefix|
  {
    var wild := prefix + "*" + suffix;
    if prefix == "" {
      assert wild[0] == '*' && wild[1..] == suffix;
      forall k | 0 <= k <= |s| ensures Matches(s[k..], suffix, true) <==> s[k..] == suffix {
        LiteralMatchesItself(s[k..], suffix, true);
      }
      assert |suffix| <= |s| ==> s[|s| - |suffix|..] == suffix ==> Matches(s[|s| - |suffix|..], suffix, true);
    } else {
      assert wild[0] == prefix[0] && wild[1..] == prefix[1..] + "*" + suffix;
      if s != "" {
        PrefixStarSuffix(s[1..], prefix[1..], suffix);
        assert prefix <= s <==> prefix[0] == s[0] && prefix[1..] <= s[1..] by {
          assert prefix == [prefix[0]] + prefix[1..] && s == [s[0]] + s[1..];
        }
        if |prefix| + |suffix| <= |s| { assert s[|s| - |suffix|..] == s[1..][|s[1..]| - |suffix|..]; }
      }
    }
  }

  // ----- stars

  ghost predicate StarFree(wild: string, from: nat, to: nat) {
    forall k :: from <= k < to && k < |wild| ==> wild[k] != '*'
  }

  lemma StarFreeGrows(wild: string, from: nat, to: nat)
    ensures StarFree(wild, from, from)
    ensures StarFree(wild, from, to) && At(wild, to) != '*' ==> StarFree(wild, from, to + 1)
  {}

  /** Some tail of `s` at or after `from` matches the pattern from `mp` on. */
  ghost predicate SomeTail(s: string, from: nat, wild: string, mp: nat, cs: bool)
    requires mp <= |wild|
  {
    exists k :: from <= k <= |s| && Matches(s[k..], wild[mp..], cs)
  }

  lemma StarMeansSomeTail(s: string, i: nat, wild: string, w: nat, cs: bool)
    requires i <= |s| && w < |wild| && wild[w] == '*'
    ensures Matches(s[i..], wild[w..], cs) <==> SomeTail(s, i, wild, w + 1, cs)
  {
    assert wild[w..][1..] == wild[w + 1..];
    if Matches(s[i..], wild[w..], cs) {
      var k :| 0 <= k <= |s[i..]| && Matches(s[i..][k..], wild[w..][1..], cs);
      assert s[i..][k..] == s[i + k..];
    }
    if SomeTail(s, i, wild, w + 1, cs) {
      var k :| i <= k <= |s| && Matches(s[k..], wild[w + 1..], cs);
      assert s[i..][k - i..] == s[k..];
    }
  }

  /** A star absorbs whatever comes before the place a later attempt would give it. */
  lemma StarAbsorbs(s: string, i: nat, j: nat, wild: string, w: nat, cs: bool)
    requires i <= j <= |s| && w < |wild| && wild[w] == '*' && Matches(s[j..], wild[w..], cs)
    ensures Matches(s[i..], wild[w..], cs)
  {
    StarMeansSomeTail(s, i, wild, w, cs);
    StarMeansSomeTail(s, j, wild, w, cs);
  }

  /** A star-free stretch of the pattern takes exactly its own length. */
  lemma {:induction false} StarFreeTakesItsLength(s: string, i: nat, wild: string, mp: nat, w: nat, cs: bool)
    requires i <= |s| && mp <= w <= |wild| && StarFree(wild, mp, w) && Matches(s[i..], wild[mp..], cs)
    ensures i + (w - mp) <= |s| && Matches(s[i + (w - mp)..], wild[w..], cs)
    decreases w - mp
  {
    if mp < w {
      assert wild[mp..][1..] == wild[mp + 1..];
      assert s[i..] != "" && s[i..][1..] == s[i + 1..];
      StarFreeTakesItsLength(s, i + 1, wild, mp + 1, w, cs);
    }
  }

  /** Why restarting at the LATEST star loses nothing: once an attempt reaches the next star,
      every attempt that starts later and matches is absorbed by that star. */
  lemma LatestStarSuffices(s: string, base: nat, i: nat, wild: string, mp: nat, w: nat, cs: bool)
    requires base <= i <= |s| && mp <= w < |wild| && i - base == w - mp
    requires StarFree(wild, mp, w) && wild[w] == '*'
    requires Matches(s[base..], wild[mp..], cs) <==> Matches(s[i..], wild[w..], cs)
    ensures SomeTail(s, base, wild, mp, cs) <==> Matches(s[i..], wild[w..], cs)
  {
    if SomeTail(s, base, wild, mp, cs) {
      var k :| base <= k <= |s| && Matches(s[k..], wild[mp..], cs);
      StarFreeTakesItsLength(s, k, wild, mp, w, cs);
      StarAbsorbs(s, i, k + (w - mp), wild, w, cs);
    }
  }

  /** An attempt that used up the string leaves no room for a later one. */
  lemma NoRoomLeft(s: string, base: nat, wild: string, mp: nat, w: nat, cs: bool)
    requires base <= |s| && mp <= w <= |wild| && |s| - base == w - mp && StarFree(wild, mp, w)
    ensures SomeTail(s, base, wild, mp, cs) <==> Matches(s[base..], wild[mp..], cs)
  {
    if SomeTail(s, base, wild, mp, cs) {
      var k :| base <= k <= |s| && Matches(s[k..], wild[mp..], cs);
      StarFreeTakesItsLength(s, k, wild, mp, w, cs);
    }
  }

  lemma OneChar(s: string, i: nat, wild: string, w: nat, cs: bool)
    requires CString(s) && CString(wild) && i < |s| && w <= |wild| && At(wild, w) != '*'
    ensures Matches(s[i..], wild[w..], cs) <==>
              (Same(At(wild, w), At(s, i), cs) || At(wild, w) == '?')
              && w < |wild| && Matches(s[i + 1..], wild[w + 1..], cs)
    ensures w == |wild| ==> !Same(At(wild, w), At(s, i), cs)
  {
    assert s[i..][1..] == s[i + 1..];
    if w < |wild| { assert wild[w..][1..] == wild[w + 1..]; } else { assert s[i] != '\0'; }
  }

  lemma NextTail(s: string, base: nat, wild: string, mp: nat, cs: bool)
    requires base < |s| && mp <= |wild| && !Matches(s[base..], wild[mp..], cs)
    ensures SomeTail(s, base, wild, mp, cs) <==> SomeTail(s, base + 1, wild, mp, cs)
  {}

  lemma FinalStar(s: string, wild: string, w: nat, cs: bool)
    requires w + 1 == |wild| && wild[w] == '*'
    ensures Matches(s, wild[w..], cs)
  {
    assert s[0..] == s && s[|s|..] == "" && wild[w + 1..] == "";
    StarMeansSomeTail(s, 0, wild, w, cs);
  }

  lemma SkipStar(wild: string, w: nat, cs: bool)
    requires w < |wild| && wild[w] == '*'
    ensures Matches("", wild[w..], cs) <==> Matches("", wild[w + 1..], cs)
  {
    StarMeansSomeTail("", 0, wild, w, cs);
    assert ""[0..] == "";
  }

  /** Whether only stars are left of the pattern. */
  method SkipStars(wild: string, from: nat, ghost cs: bool) returns (all: bool)
    requires CString(wild) && from <= |wild|
    ensures all <==> Matches("", wild[from..], cs)
  {
    var w := from;
    while At(wild, w) == '*'
      invariant w <= |wild|
      invariant Matches("", wild[from..], cs) <==> Matches("", wild[w..], cs)
      decreases |wild| - w
    {
      SkipStar(wild, w, cs);
      w := w + 1;
    }
    all := At(wild, w) == '\0';
  }

  method Wildcmp(str: string, wild: string, caseSensitive: bool) returns (matched: bool)
    requires CString(str) && CString(wild)
    ensures matched == Matches(str, wild, caseSensitive)
  {
    hide Matches, Same;
    var s, w := 0, 0;
    assert str[0..] == str && wild[0..] == wild;
    while s < |str| && At(wild, w) != '*'
      invariant s <= |str| && w <= |wild|
      invariant Matches(str, wild, caseSensitive) <==> Matches(str[s..], wild[w..], caseSensitive)
    {
      OneChar(str, s, wild, w, caseSensitive);
      if !Same(At(wild, w), At(str, s), caseSensitive) && At(wild, w) != '?' {
        return false;
      }
      w, s := w + 1, s + 1;
    }
    matched := MatchFromStar(str, s, wild, w, caseSensitive);
  }

  /** The backtracking loop: `mp` follows the latest star, `cp` is where it would retry. */
  method MatchFromStar(str: string, start: nat, wild: string, first: nat, caseSensitive: bool) returns (matched: bool)
    requires CString(str) && CString(wild) && start <= |str| && first <= |wild|
    requires start < |str| ==> At(wild, first) == '*'
    ensures matched == Matches(str[start..], wild[first..], caseSensitive)
  {
    hide Matches, Same, SomeTail, CString, StarFree;
    var s: nat, w: nat, cp: nat, mp: nat := start, first, 0, 0;
    ghost var goal, starred := Matches(str[start..], wild[first..], caseSensitive), false;
    while s < |str|
      invariant s <= |str| && w <= |wild| && mp <= |wild|
      invariant !starred ==> s == start && w == first
      invariant starred ==> 0 < cp <= s + 1 && mp <= w && s - (cp - 1) == w - mp && StarFree(wild, mp, w)
      invariant starred ==>
        (Matches(str[cp - 1..], wild[mp..], caseSensitive) <==> Matches(str[s..], wild[w..], caseSensitive))
      invariant starred ==> (goal <==> SomeTail(str, cp - 1, wild, mp, caseSensitive))
      decreases if starred then |wild| - mp else |wild| + 1, |str| + 1 - cp, |str| - s
    {
      if At(wild, w) == '*' {
        if starred { LatestStarSuffices(str, cp - 1, s, wild, mp, w, caseSensitive); }
        StarMeansSomeTail(str, s, wild, w, caseSensitive);
        w := w + 1;
        if w == |wild| {
          FinalStar(str[s..], wild, w - 1, caseSensitive);
          return true;
        }
        StarFreeGrows(wild, w, w);
        mp, cp := w, s + 1;
        starred := true;
      } else {
        OneChar(str, s, wild, w, caseSensitive);
        StarFreeGrows(wild, mp, w);
        if Same(At(wild, w), At(str, s), caseSensitive) || At(wild, w) == '?' {
          w, s := w + 1, s + 1;
        } else {
          NextTail(str, cp - 1, wild, mp, caseSensitive);
          StarFreeGrows(wild, mp, mp);
          w, s, cp := mp, cp, cp + 1;
        }
      }
    }
    if starred { NoRoomLeft(str, cp - 1, wild, mp, w, caseSensitive); }
    assert str[s..] == "";
    matched := SkipStars(wild, w, caseSensitive);
  }
}
