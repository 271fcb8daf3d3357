/** The wildcard matcher of lasagna/cstr: one pass with a single backtrack mark, against the recursive
    meaning of a pattern. */
module Glob {

  /** What a pattern means: '?' is any character, '*' any number of them. */
  predicate Match(p: string, s: string)
    decreases |p| + |s|
  {
    if p == "" then s == ""
    else if p[0] == '*' then Match(p[1..], s) || (s != "" && Match(p, s[1..]))
    else s != "" && (p[0] == '?' || p[0] == s[0]) && Match(p[1..], s[1..])
  }

  predicate Stars(p: string) {
    forall k :: 0 <= k < |p| ==> p[k] == '*'
  }

  predicate NoStars(p: string) {
    forall k :: 0 <= k < |p| ==> p[k] != '*'
  }

  predicate EndsWithStar(p: string) {
    p != "" && p[|p| - 1] == '*'
  }

  /** A pattern without '*' against as many characters. */
  predicate Fits(b: string, s: string) {
    |b| == |s| && forall k :: 0 <= k < |b| ==> b[k] == '?' || b[k] == s[k]
  }

  // ---- the meaning of patterns ----

  lemma {:induction false} StarsMatch(p: string, s: string)
    requires Stars(p) && (p != "" || s == "")
    ensures Match(p, s)
    decreases |p| + |s|
  {
    if p != "" {
      if s == "" {
        StarsMatch(p[1..], s);
      } else {
        StarsMatch(p, s[1..]);
      }
    }
  }

  function Solid(p: string): nat {
    if p == "" then 0 else (if p[0] == '*' then 0 else 1) + Solid(p[1..])
  }

  /** A match is at least as long as the characters the pattern names. */
  lemma {:induction false} MatchLength(p: string, s: string)
    requires Match(p, s)
    ensures Solid(p) <= |s|
    decreases |p| + |s|
  {
    if p != "" {
      if p[0] != '*' {
        MatchLength(p[1..], s[1..]);
      } else if Match(p[1..], s) {
        MatchLength(p[1..], s);
      } else {
        MatchLength(p, s[1..]);
      }
    }
  }

  lemma {:induction false} SolidSplit(a: string, b: string)
    ensures Solid(a + b) == Solid(a) + Solid(b)
  {
    if a == "" {
      assert a + b == b;
    } else {
      assert (a + b)[1..] == a[1..] + b;
      SolidSplit(a[1..], b);
    }
  }

  lemma {:induction false} SolidAll(b: string)
    requires NoStars(b)
    ensures Solid(b) == |b|
  {
    if b != "" {
      SolidAll(b[1..]);
    }
  }

  /** A star can take more. */
  lemma {:induction false} StarSuffix(p: string, s: string, k: nat)
    requires p != "" && p[0] == '*' && k <= |s| && Match(p, s[k..])
    ensures Match(p, s)
  {
    if k > 0 {
      assert s[1..][k - 1..] == s[k..];
      StarSuffix(p, s[1..], k - 1);
    } else {
      assert s[k..] == s;
    }
  }

  /** A block without stars takes exactly its own length. */
  lemma {:induction false} BlockSplit(b: string, r: string, s: string)
    requires NoStars(b)
    ensures Match(b + r, s) <==> |b| <= |s| && Fits(b, s[..|b|]) && Match(r, s[|b|..])
  {
    if b == "" {
      assert b + r == r && s[0..] == s;
    } else if s == "" {
    } else {
      assert (b + r)[1..] == b[1..] + r;
      BlockSplit(b[1..], r, s[1..]);
      if |b| <= |s| {
        assert s[1..][|b[1..]|..] == s[|b|..];
        FitsFirst(b, s[..|b|]);
        assert s[..|b|][1..] == s[1..][..|b[1..]|];
      }
    }
  }

  lemma FitsFirst(b: string, s: string)
    requires b != "" && s != ""
    ensures Fits(b, s) <==> (b[0] == '?' || b[0] == s[0]) && Fits(b[1..], s[1..])
  {
    if Fits(b[1..], s[1..]) {
      assert forall k :: 1 <= k < |b| ==> b[k] == b[1..][k - 1] && s[k] == s[1..][k - 1];
    }
  }

  /** After a block between two stars, the first place it fits is as good as any other. */
  lemma {:induction false} LaterStar(b: string, r: string, s: string)
    requires NoStars(b) && r != "" && r[0] == '*' && Match("*" + b + r, s)
    ensures |b| <= |s| && Match(r, s[|b|..])
    decreases |s|
  {
    var p := "*" + b + r;
    assert p[1..] == b + r;
    BlockSplit(b, r, s);
    if !Match(b + r, s) {
      assert Match(p, s[1..]);
      LaterStar(b, r, s[1..]);
      assert s[|b|..][1..] == s[1..][|b|..];
      StarSuffix(r, s[|b|..], 1);
    }
  }

  lemma Greedy(b: string, r: string, s: string)
    requires NoStars(b) && r != "" && r[0] == '*' && |b| <= |s| && Fits(b, s[..|b|])
    ensures Match("*" + b + r, s) <==> Match(r, s[|b|..])
  {
    hide Match;
    if Match("*" + b + r, s) {
      LaterStar(b, r, s);
    }
    BlockSplit(b, r, s);
    StarZero(b + r, s);
    assert "*" + (b + r) == "*" + b + r;
  }

  lemma StarZero(q: string, s: string)
    ensures Match(q, s) ==> Match("*" + q, s)
    ensures Match("*" + q, s) <==> Match(q, s) || (s != "" && Match("*" + q, s[1..]))
  {
    assert ("*" + q)[1..] == q;
  }

  // ---- the matcher ----

  /** What the matcher answers: it overlooks a match of the whole text when the pattern does not end
      with '*' and also matches the text without its last character. */
  predicate Answer(p: string, s: string) {
    Match(p, s) && (EndsWithStar(p) || s == "" || !Match(p, s[..|s| - 1]))
  }

  /** From the star at position i the rest of the pattern decides over the rest of the text. */
  ghost predicate Decides(p: string, i: nat, t: string, m: nat) {
    i <= |p| && m <= |t| && (Match(p, t) <==> Match(p[i..], t[m..]))
  }

  /** Both for the text and for the text without its last character. */
  ghost predicate Both(p: string, i: nat, s: string, m: nat) {
    s != "" && m < |s| && Decides(p, i, s, m) && Decides(p, i, s[..|s| - 1], m)
  }

  /** The current block, from the mark at position k of the pattern and m of the text. */
  ghost predicate Block(p: string, k: nat, i: nat, s: string, m: nat, j: nat) {
    && 1 <= k < |p| && k <= i <= |p| && p[k - 1] == '*' && p[k] != '*'
    && m <= j <= |s| && j - m == i - k && NoStars(p[k..i]) && Fits(p[k..i], s[m..j])
  }

  lemma BlockStep(p: string, k: nat, i: nat, s: string, m: nat, j: nat)
    requires Block(p, k, i, s, m, j) && i < |p| && j < |s| && p[i] != '*' && (p[i] == '?' || p[i] == s[j])
    ensures Block(p, k, i + 1, s, m, j + 1)
  {
    assert p[k..i + 1] == p[k..i] + [p[i]] && s[m..j + 1] == s[m..j] + [s[j]];
  }

  /** The whole suffix at a mark: star, block, rest. */
  lemma Parts(p: string, k: nat, i: nat, t: string, m: nat, j: nat)
    requires 1 <= k <= i <= |p| && p[k - 1] == '*' && m <= j <= |t| && j - m == i - k
    ensures p[k - 1..] == "*" + p[k..i] + p[i..] && p[k..] == p[k..i] + p[i..]
    ensures t[m..][..i - k] == t[m..j] && t[m..][i - k..] == t[j..]
  {
  }

  /** A new star. */
  lemma NextStar(p: string, k: nat, i: nat, t: string, m: nat, j: nat)
    requires Block(p, k, i, t, m, j) && Decides(p, k - 1, t, m) && i < |p| && p[i] == '*'
    ensures Decides(p, i, t, j)
  {
    hide Match, NoStars, Fits;
    Parts(p, k, i, t, m, j);
    Greedy(p[k..i], p[i..], t[m..]);
  }

  /** Merging consecutive stars. */
  lemma {:induction false} MergeStars(p: string, i: nat, k: nat, s: string)
    requires i < k <= |p| && forall x :: i <= x < k ==> p[x] == '*'
    ensures Match(p[i..], s) <==> Match(p[k - 1..], s)
    decreases k - i
  {
    hide Match;
    if i + 1 < k {
      MergeStars(p, i + 1, k, s);
      TwoStars(p[i..], s);
      assert p[i..][1..] == p[i + 1..];
    }
  }

  lemma {:induction false} TwoStars(p: string, s: string)
    requires |p| >= 2 && p[0] == '*' && p[1] == '*'
    ensures Match(p, s) <==> Match(p[1..], s)
  {
    if s != "" {
      TwoStars(p, s[1..]);
      if Match(p[1..], s[1..]) {
        StarSuffix(p[1..], s, 1);
      }
    }
  }

  /** The block fails at text position j: the next place to try is m + 1. */
  lemma Backtrack(p: string, k: nat, i: nat, t: string, m: nat, j: nat)
    requires Block(p, k, i, t, m, j) && Decides(p, k - 1, t, m) && j < |t|
    requires i == |p| || (p[i] != '*' && p[i] != '?' && p[i] != t[j])
    ensures Decides(p, k - 1, t, m + 1)
  {
    hide NoStars, Fits;
    Parts(p, k, i, t, m, j);
    assert !Match(p[i..], t[j..]);
    hide Match;
    BlockSplit(p[k..i], p[i..], t[m..]);
    StarZero(p[k..], t[m..]);
    assert "*" + p[k..] == p[k - 1..];
    assert t[m..][1..] == t[m + 1..];
  }

  /** The block fails at the last character with pattern left: there is no match. */
  lemma LastFails(p: string, k: nat, i: nat, s: string, m: nat, j: nat)
    requires Block(p, k, i, s, m, j) && Decides(p, k - 1, s, m) && j == |s| - 1
    requires i < |p| && p[i] != '*' && p[i] != '?' && p[i] != s[j]
    ensures !Match(p, s)
  {
    hide Match, NoStars, Fits, Solid;
    Backtrack(p, k, i, s, m, j);
    if Match(p[k - 1..], s[m + 1..]) {
      MatchLength(p[k - 1..], s[m + 1..]);
      SolidBlock(p, k, i);
      SolidOne(p, i);
    }
  }

  lemma SolidBlock(p: string, k: nat, i: nat)
    requires 1 <= k <= i <= |p| && NoStars(p[k..i])
    ensures Solid(p[k - 1..]) >= i - k + Solid(p[i..])
  {
    hide Solid, NoStars;
    SolidAll(p[k..i]);
    SolidSplit(p[k..i], p[i..]);
    assert p[k..] == p[k..i] + p[i..];
    SolidTail(p, k - 1);
  }

  lemma SolidTail(p: string, i: nat)
    requires i < |p|
    ensures Solid(p[i..]) == Solid(p[i + 1..]) + if p[i] == '*' then 0 else 1
  {
    assert p[i..][1..] == p[i + 1..];
  }

  lemma SolidOne(p: string, i: nat)
    requires i < |p| && p[i] != '*'
    ensures Solid(p[i..]) >= 1
  {
  }

  /** The pattern is used up before the last character: the matcher gives up. */
  lemma UsedUp(p: string, k: nat, s: string, m: nat, j: nat)
    requires Block(p, k, |p|, s, m, j) && Both(p, k - 1, s, m) && j == |s| - 1
    ensures !Answer(p, s)
  {
    hide Match;
    var t := s[..|s| - 1];
    assert t[m..] == s[m..j];
    Parts(p, k, |p|, t, m, j);
    BlockSplit(p[k..], "", t[m..]);
    assert p[k..] + "" == p[k..] && p[k..|p|] == p[k..];
    assert Match("", t[j..]) by { EmptyMatch(); }
    assert t[j..] == "" && t[m..][..|p| - k] == t[m..];
    StarZero(p[k..], t[m..]);
    assert "*" + p[k..] == p[k - 1..];
    assert p[|p| - 1] == p[k..|p|][|p| - 1 - k];
  }

  lemma EmptyMatch()
    ensures Match("", "")
  {
  }

  /** The text is used up: what is left of the pattern must be stars. */
  lemma TextUsedUp(p: string, k: nat, i: nat, s: string, m: nat)
    requires Block(p, k, i, s, m, |s|) && Both(p, k - 1, s, m)
    ensures Answer(p, s) <==> Stars(p[i..])
  {
    hide Match, Solid;
    Parts(p, k, i, s, m, |s|);
    BlockSplit(p[k..i], p[i..], s[m..]);
    StarZero(p[k..], s[m..]);
    assert "*" + p[k..] == p[k - 1..] && s[|s|..] == "";
    if Stars(p[i..]) {
      StarsMatch(p[i..], "");
      if i < |p| {
        assert p[|p| - 1] == p[i..][|p| - 1 - i];
      } else if Match(p, s[..|s| - 1]) {
        MatchLength(p[k - 1..], s[..|s| - 1][m..]);
        SolidBlock(p, k, i);
      }
    } else {
      var x :| 0 <= x < |p[i..]| && p[i..][x] != '*';
      SolidBlock(p, k, i);
      SolidSome(p[i..], x);
      if Match(p[k - 1..], s[m..]) {
        MatchLength(p[k - 1..], s[m..]);
      }
    }
  }

  lemma {:induction false} SolidSome(p: string, x: nat)
    requires x < |p| && p[x] != '*'
    ensures Solid(p) >= 1
  {
    if x > 0 {
      SolidSome(p[1..], x - 1);
    }
  }

  // ---- before the first star ----

  ghost predicate Opening(p: string, s: string, i: nat) {
    i <= |p| && i <= |s| && NoStars(p[..i]) && Fits(p[..i], s[..i])
  }

  lemma OpeningStep(p: string, s: string, i: nat)
    requires Opening(p, s, i) && i < |p| && i < |s| && p[i] != '*' && (p[i] == '?' || p[i] == s[i])
    ensures Opening(p, s, i + 1)
  {
    assert p[..i + 1] == p[..i] + [p[i]] && s[..i + 1] == s[..i] + [s[i]];
  }

  lemma OpeningDecides(p: string, s: string, i: nat, t: string)
    requires Opening(p, s, i) && i <= |t| && t[..i] == s[..i]
    ensures Decides(p, i, t, i)
  {
    hide Match;
    BlockSplit(p[..i], p[i..], t);
    assert p == p[..i] + p[i..];
  }

  lemma OpeningFails(p: string, s: string, i: nat)
    requires Opening(p, s, i) && i < |s| && (i == |p| || (p[i] != '*' && p[i] != '?' && p[i] != s[i]))
    ensures !Match(p, s)
  {
    OpeningDecides(p, s, i, s);
  }

  lemma OpeningStar(p: string, s: string, i: nat)
    requires Opening(p, s, i) && i < |s|
    ensures Both(p, i, s, i)
  {
    OpeningDecides(p, s, i, s);
    assert s[..|s| - 1][..i] == s[..i];
    OpeningDecides(p, s, i, s[..|s| - 1]);
  }

  lemma OpeningEnds(p: string, s: string)
    requires |s| <= |p| && Opening(p, s, |s|)
    ensures Answer(p, s) <==> Stars(p[|s|..])
  {
    hide Match, Solid;
    var i := |s|;
    OpeningDecides(p, s, i, s);
    assert s[i..] == "";
    SolidAll(p[..i]);
    SolidSplit(p[..i], p[i..]);
    assert p == p[..i] + p[i..];
    if Stars(p[i..]) {
      StarsMatch(p[i..], "");
      if i < |p| {
        assert p[|p| - 1] == p[i..][|p| - 1 - i];
      } else if s != "" && Match(p, s[..|s| - 1]) {
        MatchLength(p, s[..|s| - 1]);
      }
    } else {
      var x :| 0 <= x < |p[i..]| && p[i..][x] != '*';
      SolidSome(p[i..], x);
      if Match(p, s) {
        MatchLength(p, s);
      }
    }
  }

  /** The pattern ends with the stars at i. */
  lemma TerminalStar(p: string, i: nat, s: string, j: nat)
    requires Both(p, i, s, j) && i < |p| && Stars(p[i..])
    ensures Answer(p, s)
  {
    StarsMatch(p[i..], s[j..]);
    assert p[|p| - 1] == p[i..][|p| - 1 - i];
  }

  lemma StarBlock(p: string, i: nat, k: nat, s: string, j: nat)
    requires Both(p, i, s, j) && i < k < |p| && p[k] != '*' && forall x :: i <= x < k ==> p[x] == '*'
    ensures Block(p, k, k, s, j, j) && Both(p, k - 1, s, j)
  {
    hide Match;
    MergeStars(p, i, k, s[j..]);
    MergeStars(p, i, k, s[..|s| - 1][j..]);
    assert p[k..k] == "" && s[j..j] == "";
  }

  lemma BlockShort(p: string, k: nat, i: nat, s: string, m: nat, j: nat)
    requires Block(p, k, i, s, m, j) && j < |s|
    ensures Block(p, k, i, s[..|s| - 1], m, j)
  {
    assert s[..|s| - 1][m..j] == s[m..j];
  }

  /** A new star, for the text with and without its last character. */
  lemma NextStarBoth(p: string, k: nat, i: nat, s: string, m: nat, j: nat)
    requires Block(p, k, i, s, m, j) && Both(p, k - 1, s, m) && i < |p| && p[i] == '*' && j < |s|
    ensures Both(p, i, s, j)
  {
    hide Match, Block;
    NextStar(p, k, i, s, m, j);
    BlockShort(p, k, i, s, m, j);
    NextStar(p, k, i, s[..|s| - 1], m, j);
  }

  lemma BacktrackBoth(p: string, k: nat, i: nat, s: string, m: nat, j: nat)
    requires Block(p, k, i, s, m, j) && Both(p, k - 1, s, m) && j < |s| - 1
    requires i == |p| || (p[i] != '*' && p[i] != '?' && p[i] != s[j])
    ensures Block(p, k, k, s, m + 1, m + 1) && Both(p, k - 1, s, m + 1)
  {
    BlockShort(p, k, i, s, m, j);
    Backtrack(p, k, i, s, m, j);
    Backtrack(p, k, i, s[..|s| - 1], m, j);
    assert p[k..k] == "" && s[m + 1..m + 1] == "";
  }

  /** The character at a cursor; the terminating nul at the end. */
  function At(s: string, i: nat): char
    requires i <= |s|
  {
    if i < |s| then s[i] else '\0'
  }

  /** cstr_match, with cursors i and j, and marks for the start of the current pattern block (none
      before the first star) and the next substring. */
  method CstrMatch(pattern: string, text: string) returns (r: bool)
    requires '\0' !in pattern && '\0' !in text
    ensures r <==> Answer(pattern, text)
  {
    hide Match, Answer, Block, Both, Opening, Stars;
    var i, j := 0, 0;
    assert Opening(pattern, text, 0) by { OpeningStart(pattern, text); }
    while j < |text| && At(pattern, i) != '*'
      invariant i == j <= |pattern| && j <= |text| && Opening(pattern, text, i)
    {
      if !(At(pattern, i) == text[j] || At(pattern, i) == '?') {
        OpeningFails(pattern, text, i);
        NoMatchNoAnswer(pattern, text);
        return false;
      }
      OpeningStep(pattern, text, i);
      i, j := i + 1, j + 1;
    }
    var block, next := 0, 0;
    if j < |text| {
      OpeningStar(pattern, text, i);
    } else {
      OpeningEnds(pattern, text);
    }
    while j < |text|
      invariant i <= |pattern| && j <= |text|
      invariant block == 0 ==>
                  if j < |text| then At(pattern, i) == '*' && Both(pattern, i, text, j)
                  else Answer(pattern, text) <==> Stars(pattern[i..])
      invariant block > 0 ==> next > 0 && Block(pattern, block, i, text, next - 1, j) && Both(pattern, block - 1, text, next - 1)
      decreases |pattern| - block, |text| - next, |text| - j
    {
      if At(pattern, i) == '*' {
        if block > 0 {
          NextStarBoth(pattern, block, i, text, next - 1, j);
        }
        ghost var star := i;
        i := i + 1;
        while At(pattern, i) == '*'
          invariant star < i <= |pattern| && forall x :: star <= x < i ==> pattern[x] == '*'
          decreases |pattern| - i
        {
          i := i + 1;
        }
        if i == |pattern| {
          assert Stars(pattern[star..]) by { AllStars(pattern, star, i); }
          TerminalStar(pattern, star, text, j);
          return true;
        }
        StarBlock(pattern, star, i, text, j);
        BlockGrows(pattern, block, star, text, next, j);
        block, next := i, j + 1;
      } else if At(pattern, i) == text[j] || At(pattern, i) == '?' {
        BlockStep(pattern, block, i, text, next - 1, j);
        i, j := i + 1, j + 1;
      } else if j + 1 == |text| {
        if i == |pattern| {
          UsedUp(pattern, block, text, next - 1, j);
        } else {
          BothText(pattern, block - 1, text, next - 1);
          LastFails(pattern, block, i, text, next - 1, j);
          NoMatchNoAnswer(pattern, text);
        }
        return false;
      } else {
        BacktrackBoth(pattern, block, i, text, next - 1, j);
        i, j, next := block, next, next + 1;
      }
    }
    if block > 0 {
      TextUsedUp(pattern, block, i, text, next - 1);
    }
    ghost var rest := i;
    while At(pattern, i) == '*'
      invariant rest <= i <= |pattern| && forall x :: rest <= x < i ==> pattern[x] == '*'
      decreases |pattern| - i
    {
      i := i + 1;
    }
    RestStars(pattern, rest, i);
    r := At(pattern, i) == '\0';
  }

  lemma OpeningStart(p: string, s: string)
    ensures Opening(p, s, 0)
  {
  }

  lemma NoMatchNoAnswer(p: string, s: string)
    ensures !Match(p, s) ==> !Answer(p, s)
  {
  }

  lemma AllStars(p: string, i: nat, k: nat)
    requires i <= k == |p| && forall x :: i <= x < k ==> p[x] == '*'
    ensures Stars(p[i..])
  {
  }

  lemma BlockGrows(p: string, k: nat, i: nat, s: string, next: nat, j: nat)
    requires k > 0 ==> next > 0 && Block(p, k, i, s, next - 1, j)
    ensures k <= i
  {
  }

  lemma BothText(p: string, i: nat, s: string, m: nat)
    requires Both(p, i, s, m)
    ensures Decides(p, i, s, m)
  {
  }

  lemma RestStars(p: string, i: nat, k: nat)
    requires i <= k <= |p| && (k < |p| ==> p[k] != '*') && forall x :: i <= x < k ==> p[x] == '*'
    ensures Stars(p[i..]) <==> k == |p|
  {
    if k < |p| {
      assert p[i..][k - i] == p[k];
    }
  }

  /** A match that is overlooked. */
  lemma Overlooked()
    ensures Match("*a", "aa") && !Answer("*a", "aa")
  {
    var p, s := "*a", "aa";
    assert p[1..] == "a" && s[1..] == "a" && s[..1] == "a" && "a"[1..] == "";
    assert Match("a", "a");
    assert Match(p, "a");
    assert Match(p, s);
  }

  // ---- which patterns are safe ----

  /** Where the last block of a pattern begins: after its last star. */
  function LastBlock(p: string): (i: nat)
    ensures i <= |p|
  {
    if p == "" then 0 else if p[|p| - 1] == '*' then |p| else LastBlock(p[..|p| - 1])
  }

  /** A block that can fit a text and, one character further, fit again. */
  predicate Slides(b: string) {
    forall k :: 0 <= k < |b| - 1 ==> b[k] == '?' || b[k + 1] == '?' || b[k] == b[k + 1]
  }

  /** A star, and then a last block that slides. */
  predicate Risky(p: string) {
    0 < LastBlock(p) < |p| && Slides(p[LastBlock(p)..])
  }

  lemma {:induction false} LastBlockIs(p: string)
    ensures NoStars(p[LastBlock(p)..]) && (LastBlock(p) > 0 ==> p[LastBlock(p) - 1] == '*')
  {
    if p != "" && p[|p| - 1] != '*' {
      LastBlockIs(p[..|p| - 1]);
      var i := LastBlock(p);
      assert p[i..] == p[..|p| - 1][i..] + [p[|p| - 1]];
    }
  }

  /** The last block fits the end of every match. */
  lemma {:induction false} TailFits(q: string, b: string, s: string)
    requires NoStars(b) && Match(q + "*" + b, s)
    ensures |b| <= |s| && Fits(b, s[|s| - |b|..])
    decreases |q| + |s|
  {
    var p := q + "*" + b;
    if q == "" {
      assert p == "*" + b && p[1..] == b;
      BlockSplit(b, "", s);
      assert b + "" == b;
      if Match(b, s) {
        assert s[|b|..] == "" && s[..|b|] == s && s[|s| - |b|..] == s;
      } else {
        TailFits(q, b, s[1..]);
        assert s[1..][|s| - 1 - |b|..] == s[|s| - |b|..];
      }
    } else {
      assert p[1..] == q[1..] + "*" + b;
      if q[0] == '*' && Match(p[1..], s) {
        TailFits(q[1..], b, s);
      } else if q[0] == '*' {
        TailFits(q, b, s[1..]);
        assert s[1..][|s| - 1 - |b|..] == s[|s| - |b|..];
      } else {
        TailFits(q[1..], b, s[1..]);
        assert s[1..][|s| - 1 - |b|..] == s[|s| - |b|..];
      }
    }
  }

  /** On a pattern that is not risky the matcher is right about every text. */
  lemma SafeIsRight(p: string, s: string)
    requires !Risky(p)
    ensures Answer(p, s) <==> Match(p, s)
  {
    hide Match, Solid;
    var i := LastBlock(p);
    LastBlockIs(p);
    if Match(p, s) && !Answer(p, s) {
      var t := s[..|s| - 1];
      if i == 0 {
        SolidAll(p);
        assert p[0..] == p;
        BlockSplit(p, "", s);
        BlockSplit(p, "", t);
        assert p + "" == p;
        NothingMatchesOnlyNothing(s[|p|..]);
      } else {
        var q, b := p[..i - 1], p[i..];
        assert p == q + "*" + b;
        assert i == |p| ==> EndsWithStar(p);
        TailFits(q, b, s);
        TailFits(q, b, t);
        FitTwice(b, s);
      }
    }
  }

  lemma NothingMatchesOnlyNothing(s: string)
    ensures Match("", s) <==> s == ""
  {
  }

  lemma FitTwice(b: string, s: string)
    requires |b| < |s| && Fits(b, s[|s| - |b|..]) && Fits(b, s[..|s| - 1][|s| - 1 - |b|..])
    ensures Slides(b)
  {
    var n := |s| - |b|;
    forall k | 0 <= k < |b| - 1
      ensures b[k] == '?' || b[k + 1] == '?' || b[k] == b[k + 1]
    {
      assert s[n..][k] == s[n + k] && s[..|s| - 1][n - 1..][k + 1] == s[n + k];
    }
  }

  function Plain(c: char): char {
    if c == '?' then 'x' else c
  }

  /** A text a pattern matches, its stars taking nothing. */
  function Sample(p: string): string {
    if p == "" then "" else if p[0] == '*' then Sample(p[1..]) else [Plain(p[0])] + Sample(p[1..])
  }

  lemma {:induction false} SampleMatches(q: string, r: string, s: string)
    requires Match(r, s)
    ensures Match(q + r, Sample(q) + s)
  {
    if q == "" {
      assert q + r == r && Sample(q) + s == s;
    } else {
      SampleMatches(q[1..], r, s);
      assert (q + r)[1..] == q[1..] + r;
      if q[0] != '*' {
        assert (Sample(q) + s)[1..] == Sample(q[1..]) + s;
      }
    }
  }

  /** The characters of a block that slides, and one more. */
  function Slide(b: string): (t: string)
    requires b != ""
    ensures |t| == |b| + 1
  {
    [Plain(b[0])]
    + seq(|b| - 1, k requires 0 <= k < |b| - 1 => if b[k] == '?' then Plain(b[k + 1]) else b[k])
    + [Plain(b[|b| - 1])]
  }

  lemma SlideFits(b: string)
    requires b != "" && Slides(b)
    ensures Fits(b, Slide(b)[..|b|]) && Fits(b, Slide(b)[1..])
  {
    hide Slide;
    forall k | 0 <= k < |b|
      ensures b[k] == '?' || (b[k] == Slide(b)[..|b|][k] && b[k] == Slide(b)[1..][k])
    {
      SlideAt(b, k);
    }
  }

  lemma SlideAt(b: string, k: nat)
    requires k < |b| && Slides(b)
    ensures b[k] == '?' || (b[k] == Slide(b)[k] && b[k] == Slide(b)[k + 1])
  {
  }

  /** On a risky pattern it overlooks some match. */
  lemma RiskyIsWrong(p: string) returns (s: string)
    requires Risky(p) && '\0' !in p
    ensures Match(p, s) && !Answer(p, s) && '\0' !in s
  {
    hide Match, Slides, Fits, Slide, NoStars;
    var i := LastBlock(p);
    LastBlockIs(p);
    var q, b := p[..i - 1], p[i..];
    var t := Slide(b);
    assert p == q + ("*" + b);
    SlideFits(b);
    BlockSplit(b, "", t[..|b|]);
    BlockSplit(b, "", t[1..]);
    assert b + "" == b && t[..|b|][..|b|] == t[..|b|] && t[1..][..|b|] == t[1..];
    assert t[..|b|][|b|..] == "" && t[1..][|b|..] == "";
    EmptyMatch();
    StarZero(b, t[..|b|]);
    StarZero(b, t[1..]);
    StarZero(b, t);
    SampleMatches(q, "*" + b, t);
    SampleMatches(q, "*" + b, t[..|b|]);
    s := Sample(q) + t;
    assert s[..|s| - 1] == Sample(q) + t[..|b|];
    assert p[|p| - 1] == b[|b| - 1] != '*' by { LastChar(b); }
    SampleNul(q);
    SlideNul(b);
  }

  lemma {:induction false} SampleNul(q: string)
    requires '\0' !in q
    ensures '\0' !in Sample(q)
  {
    if q != "" {
      SampleNul(q[1..]);
    }
  }

  lemma SlideNul(b: string)
    requires b != "" && '\0' !in b
    ensures '\0' !in Slide(b)
  {
  }

  lemma LastChar(b: string)
    requires b != "" && NoStars(b)
    ensures b[|b| - 1] != '*'
  {
  }
}
