/**
 The feed parser's text sanitiser: tags out, whitespace collapsed and trimmed, length bounded.  Its
 input is text whose entities are already decoded.  What counts as whitespace is a parameter.
 */
module FeedText {
  /** Whitespace includes the space and neither angle bracket. */
  ghost predicate Blanks(space: char -> bool) {
    space(' ') && !space('<') && !space('>')
  }

  // ---------------------------------------------------------------- Tags

  /** The position just after the first `>`, if there is one. */
  function PastClose(s: string): (r: nat)
    ensures r <= |s| && (r == 0 <==> '>' !in s)
    ensures r > 0 ==> s[r - 1] == '>' && '>' !in s[..r - 1]
  {
    if s == "" then 0
    else if s[0] == '>' then 1
    else
      var rest := PastClose(s[1..]);
      assert s == [s[0]] + s[1..];
      assert rest > 0 ==> s[..rest] == [s[0]] + s[1..][..rest - 1];
      if rest == 0 then 0 else rest + 1
  }

  lemma {:induction false} FirstCloseIsAt(s: string, k: nat)
    requires k < |s| && s[k] == '>' && '>' !in s[..k]
    ensures PastClose(s) == k + 1
  {
    if k > 0 {
      assert s[..k][0] == s[0];
      assert s[1..][..k - 1] == s[..k][1..];
      FirstCloseIsAt(s[1..], k - 1);
    }
  }

  /** Every leftmost `<` up to the first `>` after it becomes one space. */
  function StripTags(s: string): string {
    if s == "" then ""
    else if s[0] == '<' && PastClose(s) > 0 then [' '] + StripTags(s[PastClose(s)..])
    else [s[0]] + StripTags(s[1..])
  }

  ghost predicate NoTag(s: string) {
    forall i, j | 0 <= i < j < |s| :: !(s[i] == '<' && s[j] == '>')
  }

  lemma {:induction false} StripAddsNoClose(s: string)
    requires '>' !in s
    ensures StripTags(s) == s
  {
    if s != "" {
      assert s == [s[0]] + s[1..];
      StripAddsNoClose(s[1..]);
    }
  }

  lemma {:induction false} StripLeavesNoTag(s: string)
    ensures NoTag(StripTags(s))
  {
    if s != "" {
      if s[0] == '<' && PastClose(s) > 0 {
        StripLeavesNoTag(s[PastClose(s)..]);
      } else {
        StripLeavesNoTag(s[1..]);
        assert s == [s[0]] + s[1..];
        if s[0] == '<' { StripAddsNoClose(s[1..]); }
      }
    }
  }

  lemma {:induction false} StripKeepsUntagged(s: string)
    requires NoTag(s)
    ensures StripTags(s) == s
  {
    if s != "" {
      assert s == [s[0]] + s[1..];
      assert s[0] == '<' ==> '>' !in s[1..];
      StripKeepsUntagged(s[1..]);
    }
  }

  lemma {:induction false} StripSkipsPlain(before: string, rest: string)
    requires '<' !in before
    ensures StripTags(before + rest) == before + StripTags(rest)
  {
    if before == "" {
      assert before + rest == rest;
    } else {
      assert (before + rest)[1..] == before[1..] + rest;
      assert before == [before[0]] + before[1..];
      StripSkipsPlain(before[1..], rest);
    }
  }

  lemma {:induction false} StripOpensWithTag(body: string, after: string, s: string)
    requires '>' !in body && s == "<" + body + ">" + after
    ensures StripTags(s) == " " + StripTags(after)
  {
    assert s[..|body| + 1] == "<" + body;
    FirstCloseIsAt(s, |body| + 1);
    assert s[|body| + 2..] == after;
  }

  /** Text before the first tag stays, the tag becomes a space, and the rest is stripped on its own. */
  lemma {:induction false} StripReplacesATag(before: string, body: string, after: string)
    requires '<' !in before && '>' !in body
    ensures StripTags(before + ("<" + body + ">" + after)) == before + (" " + StripTags(after))
  {
    StripSkipsPlain(before, "<" + body + ">" + after);
    StripOpensWithTag(body, after, "<" + body + ">" + after);
  }

  // ---------------------------------------------------------------- Whitespace

  /** Every run of whitespace becomes one space. */
  function Collapse(s: string, space: char -> bool): string {
    if s == "" then ""
    else
      var rest := Collapse(s[1..], space);
      if !space(s[0]) then [s[0]] + rest
      else if rest != "" && rest[0] == ' ' then rest
      else [' '] + rest
  }

  function TrimStart(s: string, space: char -> bool): string {
    if s != "" && space(s[0]) then TrimStart(s[1..], space) else s
  }

  function TrimEnd(s: string, space: char -> bool): string {
    if s != "" && space(s[|s| - 1]) then TrimEnd(s[..|s| - 1], space) else s
  }

  function Clean(decoded: string, space: char -> bool): string {
    TrimEnd(TrimStart(Collapse(StripTags(decoded), space), space), space)
  }

  function Sanitize(decoded: string, limit: nat, space: char -> bool): string {
    var clean := Clean(decoded, space);
    if |clean| > limit then clean[..limit] else clean
  }

  /** The only whitespace is single spaces. */
  ghost predicate SingleSpaced(s: string, space: char -> bool) {
    && (forall i | 0 <= i < |s| && space(s[i]) :: s[i] == ' ')
    && forall i | 0 <= i < |s| - 1 :: !(space(s[i]) && space(s[i + 1]))
  }

  /** The characters that are not whitespace, in order. */
  function Solid(s: string, space: char -> bool): string {
    if s == "" then "" else (if space(s[0]) then "" else [s[0]]) + Solid(s[1..], space)
  }

  lemma {:induction false} CollapseIsSingleSpaced(s: string, space: char -> bool)
    requires Blanks(space)
    ensures SingleSpaced(Collapse(s, space), space)
  {
    if s != "" {
      CollapseIsSingleSpaced(s[1..], space);
      var rest, all := Collapse(s[1..], space), Collapse(s, space);
      if all != rest {
        assert all[1..] == rest;
        assert forall i | 0 <= i < |rest| :: all[i + 1] == rest[i];
      }
    }
  }

  lemma {:induction false} CollapseAddsNoClose(s: string, space: char -> bool)
    requires '>' !in s
    ensures '>' !in Collapse(s, space)
  {
    if s != "" {
      assert s == [s[0]] + s[1..];
      CollapseAddsNoClose(s[1..], space);
    }
  }

  lemma {:induction false} CollapseKeepsUntagged(s: string, space: char -> bool)
    requires Blanks(space) && NoTag(s)
    ensures NoTag(Collapse(s, space))
  {
    if s != "" {
      CollapseKeepsUntagged(s[1..], space);
      if s[0] == '<' { CollapseAddsNoClose(s[1..], space); }
    }
  }

  lemma {:induction false} CollapseKeepsSolid(s: string, space: char -> bool)
    requires Blanks(space)
    ensures Solid(Collapse(s, space), space) == Solid(s, space)
  {
    if s != "" {
      CollapseKeepsSolid(s[1..], space);
      var rest := Collapse(s[1..], space);
      assert ([s[0]] + rest)[1..] == rest && ([' '] + rest)[1..] == rest;
    }
  }

  lemma {:induction false} CollapseKeepsSingle(s: string, space: char -> bool)
    requires SingleSpaced(s, space)
    ensures Collapse(s, space) == s
  {
    if s != "" {
      CollapseKeepsSingle(s[1..], space);
      assert s == [s[0]] + s[1..];
    }
  }

  lemma {:induction false} SolidAppends(a: string, b: string, space: char -> bool)
    ensures Solid(a + b, space) == Solid(a, space) + Solid(b, space)
  {
    if a == "" {
      assert a + b == b;
    } else {
      assert (a + b)[1..] == a[1..] + b;
      SolidAppends(a[1..], b, space);
    }
  }

  /** Trimming takes a slice with no whitespace at either end and loses only whitespace. */
  lemma {:induction false} TrimStartIs(s: string, space: char -> bool) returns (i: nat)
    ensures i <= |s| && TrimStart(s, space) == s[i..] && (i < |s| ==> !space(s[i]))
    ensures Solid(TrimStart(s, space), space) == Solid(s, space)
  {
    if s != "" && space(s[0]) {
      i := TrimStartIs(s[1..], space);
      assert s[1..][i..] == s[i + 1..];
      i := i + 1;
    } else {
      i := 0;
    }
  }

  lemma {:induction false} TrimEndIs(s: string, space: char -> bool) returns (n: nat)
    ensures n <= |s| && TrimEnd(s, space) == s[..n] && (n > 0 ==> !space(s[n - 1]))
    ensures Solid(TrimEnd(s, space), space) == Solid(s, space)
  {
    if s != "" && space(s[|s| - 1]) {
      var init := s[..|s| - 1];
      n := TrimEndIs(init, space);
      assert init[..n] == s[..n];
      assert s == init + [s[|s| - 1]];
      SolidAppends(init, [s[|s| - 1]], space);
    } else {
      n := |s|;
    }
  }

  ghost predicate Tidy(s: string, space: char -> bool) {
    NoTag(s) && SingleSpaced(s, space) && (s != "" ==> !space(s[0]))
  }

  lemma {:induction false} SlicesStayTidy(s: string, space: char -> bool, i: nat, n: nat)
    requires NoTag(s) && SingleSpaced(s, space) && i <= n <= |s| && (i < n ==> !space(s[i]))
    ensures Tidy(s[i..n], space)
  {
    var t := s[i..n];
    assert forall k | 0 <= k < |t| :: t[k] == s[i + k];
    forall k | 0 <= k < |t| - 1 ensures !(space(t[k]) && space(t[k + 1])) { assert !(space(s[i + k]) && space(s[i + k + 1])); }
  }

  /** Before truncation the text is tidy at both ends and holds exactly the visible characters outside the tags. */
  lemma {:induction false} CleanIsTidy(decoded: string, space: char -> bool)
    requires Blanks(space)
    ensures var clean := Clean(decoded, space);
            && Tidy(clean, space) && (clean != "" ==> !space(clean[|clean| - 1]))
            && Solid(clean, space) == Solid(StripTags(decoded), space)
  {
    var collapsed := Collapse(StripTags(decoded), space);
    StripLeavesNoTag(decoded);
    CollapseIsSingleSpaced(StripTags(decoded), space);
    CollapseKeepsUntagged(StripTags(decoded), space);
    CollapseKeepsSolid(StripTags(decoded), space);
    var i := TrimStartIs(collapsed, space);
    var trimmed := TrimStart(collapsed, space);
    var n := TrimEndIs(trimmed, space);
    assert trimmed[..n] == collapsed[i..i + n];
    SlicesStayTidy(collapsed, space, i, i + n);
  }

  /** Tidy text passes through, but for whitespace at its end. */
  lemma {:induction false} CleanKeepsTidy(s: string, space: char -> bool)
    requires Tidy(s, space)
    ensures Clean(s, space) == TrimEnd(s, space)
  {
    StripKeepsUntagged(s);
    CollapseKeepsSingle(s, space);
  }

  /** For every input: no tag, single spaces, no space in front, bounded; and cleaning again changes nothing. */
  lemma {:induction false} SanitizedIsTidy(decoded: string, limit: nat, space: char -> bool)
    requires Blanks(space)
    ensures Tidy(Sanitize(decoded, limit, space), space) && |Sanitize(decoded, limit, space)| <= limit
    ensures Sanitize(decoded, limit, space) <= Clean(decoded, space)
    ensures Clean(Clean(decoded, space), space) == Clean(decoded, space)
  {
    var clean := Clean(decoded, space);
    CleanIsTidy(decoded, space);
    CleanKeepsTidy(clean, space);
    SlicesStayTidy(clean, space, 0, if |clean| > limit then limit else |clean|);
    assert clean[0..|clean|] == clean;
  }

  /** Truncation can leave a space at the end, and exactly then sanitising once more would shorten the text. */
  lemma {:induction false} SanitizingAgain(decoded: string, limit: nat, space: char -> bool)
    requires Blanks(space)
    ensures var s := Sanitize(decoded, limit, space);
            Sanitize(s, limit, space) == s <==> s == "" || s[|s| - 1] != ' '
  {
    var s := Sanitize(decoded, limit, space);
    SanitizedIsTidy(decoded, limit, space);
    CleanKeepsTidy(s, space);
    var n := TrimEndIs(s, space);
  }
}
