/**
 The policy's path matcher: backtracking over path segments, and one regular expression per
 segment.  Both levels have the same declarative meaning, `Splits`: one block per pattern piece.
 A `char` stands for one UTF-16 code unit.
 */
module Globs {
  import opened Options
  import opened Text

  // ---------------------------------------------------------------- Matching by blocks

  /** How one kind of pattern reads items: which pieces span a block, over which items, and what the others take. */
  datatype Rules<!P, !S> = Rules(spans: P -> bool, crosses: S -> bool, takes: (P, S) -> bool)

  function Flatten<S>(blocks: seq<seq<S>>): seq<S> {
    if blocks == [] then [] else blocks[0] + Flatten(blocks[1..])
  }

  predicate Fits<P, S>(rules: Rules<P, S>, piece: P, block: seq<S>) {
    if rules.spans(piece) then forall i | 0 <= i < |block| :: rules.crosses(block[i])
    else |block| == 1 && rules.takes(piece, block[0])
  }

  /** The declarative meaning: the items fall into consecutive blocks, one fitting each piece. */
  ghost predicate Splits<P, S>(rules: Rules<P, S>, pattern: seq<P>, items: seq<S>, blocks: seq<seq<S>>) {
    && |blocks| == |pattern|
    && Flatten(blocks) == items
    && forall i | 0 <= i < |pattern| :: Fits(rules, pattern[i], blocks[i])
  }

  /** The backtracking reading. */
  predicate Match<P, S>(rules: Rules<P, S>, pattern: seq<P>, items: seq<S>)
    decreases |pattern|
  {
    if pattern == [] then items == []
    else if rules.spans(pattern[0]) then
      exists k | 0 <= k <= |items| :: Fits(rules, pattern[0], items[..k]) && Match(rules, pattern[1..], items[k..])
    else items != [] && rules.takes(pattern[0], items[0]) && Match(rules, pattern[1..], items[1..])
  }

  lemma {:induction false} MatchSplits<P, S>(rules: Rules<P, S>, pattern: seq<P>, items: seq<S>) returns (blocks: seq<seq<S>>)
    requires Match(rules, pattern, items)
    ensures Splits(rules, pattern, items, blocks)
    decreases |pattern|
  {
    if pattern == [] { return []; }
    var k := 1;
    if rules.spans(pattern[0]) {
      k :| 0 <= k <= |items| && Fits(rules, pattern[0], items[..k]) && Match(rules, pattern[1..], items[k..]);
    }
    var first, others := items[..k], items[k..];
    assert items == first + others;
    var rest := MatchSplits(rules, pattern[1..], others);
    blocks := [first] + rest;
    assert blocks[1..] == rest;
  }

  lemma {:induction false} SplitsMatch<P, S>(rules: Rules<P, S>, pattern: seq<P>, items: seq<S>, blocks: seq<seq<S>>)
    requires Splits(rules, pattern, items, blocks)
    ensures Match(rules, pattern, items)
    decreases |pattern|
  {
    if pattern != [] {
      var block := blocks[0];
      var k := |block|;
      assert Fits(rules, pattern[0], block);
      assert items[..k] == block && items[k..] == Flatten(blocks[1..]);
      SplitsMatch(rules, pattern[1..], items[k..], blocks[1..]);
    }
  }

  /** The backtracking matcher accepts exactly what falls into blocks. */
  lemma {:induction false} MatchIffSplits<P, S>(rules: Rules<P, S>, pattern: seq<P>, items: seq<S>)
    ensures Match(rules, pattern, items) <==> exists blocks :: Splits(rules, pattern, items, blocks)
  {
    if Match(rules, pattern, items) { var _ := MatchSplits(rules, pattern, items); }
    if blocks :| Splits(rules, pattern, items, blocks) { SplitsMatch(rules, pattern, items, blocks); }
  }

  lemma {:induction false} FlattenConcat<S>(a: seq<seq<S>>, b: seq<seq<S>>)
    ensures Flatten(a + b) == Flatten(a) + Flatten(b)
  {
    if a == [] {
      assert a + b == b;
    } else {
      assert (a + b)[1..] == a[1..] + b;
      FlattenConcat(a[1..], b);
    }
  }

  lemma {:induction false} BlocksDivide<P, S>(rules: Rules<P, S>, p: seq<P>, q: seq<P>, blocks: seq<seq<S>>, a: seq<seq<S>>, b: seq<seq<S>>)
    requires blocks == a + b && |a| == |p| && |b| == |q|
    ensures (forall i | 0 <= i < |p + q| :: Fits(rules, (p + q)[i], blocks[i])) <==>
              && (forall i | 0 <= i < |p| :: Fits(rules, p[i], a[i]))
              && forall i | 0 <= i < |q| :: Fits(rules, q[i], b[i])
  {
    forall i | 0 <= i < |p| ensures (p + q)[i] == p[i] && blocks[i] == a[i] {}
    forall i | 0 <= i < |q| ensures (p + q)[|p| + i] == q[i] && blocks[|p| + i] == b[i] {}
    if (forall i | 0 <= i < |p + q| :: Fits(rules, (p + q)[i], blocks[i])) {
      forall i | 0 <= i < |p| ensures Fits(rules, p[i], a[i]) { assert Fits(rules, (p + q)[i], blocks[i]); }
      forall i | 0 <= i < |q| ensures Fits(rules, q[i], b[i]) { assert Fits(rules, (p + q)[|p| + i], blocks[|p| + i]); }
    }
  }

  lemma {:induction false} SplitMatch<P, S>(rules: Rules<P, S>, p: seq<P>, q: seq<P>, items: seq<S>) returns (first: seq<S>, rest: seq<S>)
    requires Match(rules, p + q, items)
    ensures items == first + rest && Match(rules, p, first) && Match(rules, q, rest)
  {
    var blocks := MatchSplits(rules, p + q, items);
    var a, b := blocks[..|p|], blocks[|p|..];
    assert blocks == a + b;
    first, rest := Flatten(a), Flatten(b);
    FlattenConcat(a, b);
    BlocksDivide(rules, p, q, blocks, a, b);
    SplitsMatch(rules, p, first, a);
    SplitsMatch(rules, q, rest, b);
  }

  lemma {:induction false} JoinMatch<P, S>(rules: Rules<P, S>, p: seq<P>, q: seq<P>, first: seq<S>, rest: seq<S>)
    requires Match(rules, p, first) && Match(rules, q, rest)
    ensures Match(rules, p + q, first + rest)
  {
    var a := MatchSplits(rules, p, first);
    var b := MatchSplits(rules, q, rest);
    FlattenConcat(a, b);
    BlocksDivide(rules, p, q, a + b, a, b);
    SplitsMatch(rules, p + q, first + rest, a + b);
  }

  /** A concatenated pattern matches exactly the concatenations of matches. */
  lemma {:induction false} MatchConcatenates<P, S(!new)>(rules: Rules<P, S>, p: seq<P>, q: seq<P>, items: seq<S>)
    ensures Match(rules, p + q, items) <==> exists first, rest :: items == first + rest && Match(rules, p, first) && Match(rules, q, rest)
  {
    if Match(rules, p + q, items) { var first, rest := SplitMatch(rules, p, q, items); }
    if first, rest :| items == first + rest && Match(rules, p, first) && Match(rules, q, rest) { JoinMatch(rules, p, q, first, rest); }
  }

  // ---------------------------------------------------------------- One segment

  predicate NotSlash(c: char) { c != '/' }

  /** Within a segment `*` spans any characters but `/`, `?` takes one of them, and the rest stand for themselves. */
  const WILDCARDS: Rules<char, char> :=
    Rules((p: char) => p == '*', NotSlash, (p: char, c: char) => if p == '?' then NotSlash(c) else p == c)

  predicate SegmentMatches(segment: string, text: string) {
    Match(WILDCARDS, segment, text)
  }

  datatype Regex = Nothing | Literal(c: char) | NoSlash | Star(body: Regex) | Then(first: Regex, rest: Regex)

  /** The language of a regular expression, anchored at both ends. */
  predicate Accepts(r: Regex, s: string)
    decreases r, |s|
  {
    match r
    case Nothing => s == []
    case Literal(c) => s == [c]
    case NoSlash => |s| == 1 && NotSlash(s[0])
    case Star(body) => s == [] || exists k | 0 < k <= |s| :: Accepts(body, s[..k]) && Accepts(r, s[k..])
    case Then(first, rest) => exists k | 0 <= k <= |s| :: Accepts(first, s[..k]) && Accepts(rest, s[k..])
  }

  /** Characters that mean something in an ECMAScript pattern unless escaped. */
  predicate IsSyntax(c: char) {
    c in "^$\\.*+?()[]{}|"
  }

  /** The characters `segmentToRegExp` escapes. */
  predicate IsEscaped(c: char) {
    c in ".+^${}()|[]\\"
  }

  const ANY := "[^/]"

  function PieceSource(c: char): string {
    if c == '*' then ANY + "*" else if c == '?' then ANY else if IsEscaped(c) then "\\" + [c] else [c]
  }

  function BodySource(segment: string): string {
    if segment == [] then "" else PieceSource(segment[0]) + BodySource(segment[1..])
  }

  function RegExpSource(segment: string): string {
    "^" + BodySource(segment) + "$"
  }

  lemma {:induction false} BodySourceSnoc(segment: string, c: char)
    ensures BodySource(segment + [c]) == BodySource(segment) + PieceSource(c)
  {
    if segment == [] {
      assert ([c])[1..] == [];
    } else {
      assert (segment + [c])[1..] == segment[1..] + [c];
      BodySourceSnoc(segment[1..], c);
    }
  }

  method SegmentToRegExp(segment: string) returns (source: string)
    ensures source == RegExpSource(segment)
  {
    source := "^";
    for i := 0 to |segment|
      invariant source == "^" + BodySource(segment[..i])
    {
      assert segment[..i + 1] == segment[..i] + [segment[i]];
      BodySourceSnoc(segment[..i], segment[i]);
      var character := segment[i];
      var piece := [character];
      if character == '*' {
        piece := "[^/]*";
      } else if character == '?' {
        piece := "[^/]";
      } else if IsEscaped(character) {
        piece := "\\" + [character];
      }
      source := source + piece;
    }
    assert segment[..|segment|] == segment;
    source := source + "$";
  }

  /** Reads one atom of a pattern: an escaped character, the class `[^/]`, or a plain character. */
  function ReadAtom(s: string): Option<(Regex, string)>
    requires s != []
  {
    if ANY <= s then Some((NoSlash, s[|ANY|..]))
    else if s[0] == '\\' then
      if |s| > 1 && IsSyntax(s[1]) then Some((Literal(s[1]), s[2..])) else None
    else if IsSyntax(s[0]) then None
    else Some((Literal(s[0]), s[1..]))
  }

  /** How a regular-expression engine reads a pattern body; anything outside this fragment is refused. */
  function ReadBody(s: string): Option<Regex>
    decreases |s|
  {
    if s == [] then Some(Nothing)
    else
      match ReadAtom(s)
      case None => None
      case Some((atom, rest)) =>
        var starred := rest != [] && rest[0] == '*';
        match ReadBody(if starred then rest[1..] else rest)
        case None => None
        case Some(tail) => Some(Then(if starred then Star(atom) else atom, tail))
  }

  function ReadRegExp(source: string): Option<Regex> {
    if |source| >= 2 && source[0] == '^' && source[|source| - 1] == '$' then ReadBody(source[1..|source| - 1]) else None
  }

  /** `new RegExp(source).test(text)`. */
  predicate Test(source: string, text: string) {
    ReadRegExp(source).Some? && Accepts(ReadRegExp(source).value, text)
  }

  function PieceRegex(c: char): Regex {
    if c == '*' then Star(NoSlash) else if c == '?' then NoSlash else Literal(c)
  }

  function SegmentRegex(segment: string): Regex {
    if segment == [] then Nothing else Then(PieceRegex(segment[0]), SegmentRegex(segment[1..]))
  }

  /** No escape is missing and none is spurious: the built source reads back as the segment's own pieces. */
  lemma {:induction false} BodyReadsBack(segment: string)
    ensures ReadBody(BodySource(segment)) == Some(SegmentRegex(segment))
  {
    if segment != [] {
      var c, rest := segment[0], segment[1..];
      BodyReadsBack(rest);
      BodyNeverStartsWithStar(rest);
      PieceReads(c, BodySource(rest));
    }
  }

  lemma {:induction false} BodyNeverStartsWithStar(segment: string)
    ensures BodySource(segment) == [] || BodySource(segment)[0] != '*'
  {
  }

  lemma {:induction false} PieceReads(c: char, rest: string)
    requires rest == [] || rest[0] != '*'
    ensures ReadBody(PieceSource(c) + rest) ==
            match ReadBody(rest) { case None => None case Some(tail) => Some(Then(PieceRegex(c), tail)) }
  {
    var s := PieceSource(c) + rest;
    if c == '*' {
      assert s[|ANY|..] == "*" + rest && ("*" + rest)[1..] == rest;
    } else if c == '?' {
      assert s[|ANY|..] == rest;
    } else if IsEscaped(c) {
      assert s[0] == '\\' && s[2..] == rest;
    } else {
      assert s[0] == c && s[1..] == rest && !IsSyntax(c);
    }
  }

  lemma {:induction false} StarIsAllNoSlash(s: string)
    ensures Accepts(Star(NoSlash), s) <==> forall i | 0 <= i < |s| :: NotSlash(s[i])
    decreases |s|
  {
    if s != [] {
      StarIsAllNoSlash(s[1..]);
      if forall i | 0 <= i < |s| :: NotSlash(s[i]) {
        assert Accepts(NoSlash, s[..1]) && Accepts(Star(NoSlash), s[1..]);
      }
    }
  }

  lemma {:induction false} OneThen(atom: Regex, rest: Regex, text: string)
    requires atom.NoSlash? || atom.Literal?
    ensures Accepts(Then(atom, rest), text) <==> text != [] && Accepts(atom, text[..1]) && Accepts(rest, text[1..])
  {
    if text != [] && Accepts(atom, text[..1]) && Accepts(rest, text[1..]) { assert Accepts(Then(atom, rest), text); }
  }

  lemma {:induction false} StarThen(rest: Regex, text: string)
    ensures Accepts(Then(Star(NoSlash), rest), text) <==>
              exists k | 0 <= k <= |text| :: (forall i | 0 <= i < k :: NotSlash(text[i])) && Accepts(rest, text[k..])
  {
    forall k | 0 <= k <= |text| ensures Accepts(Star(NoSlash), text[..k]) <==> forall i | 0 <= i < k :: NotSlash(text[i]) {
      StarIsAllNoSlash(text[..k]);
    }
  }

  lemma {:induction false} OneMatches(c: char, rest: string, segment: string, text: string)
    requires c != '*' && segment == [c] + rest
    ensures SegmentMatches(segment, text) <==> text != [] && Accepts(PieceRegex(c), text[..1]) && SegmentMatches(rest, text[1..])
  {
    assert segment[0] == c && segment[1..] == rest;
  }

  lemma {:induction false} StarMatches(rest: string, segment: string, text: string)
    requires segment == ['*'] + rest
    ensures SegmentMatches(segment, text) <==>
              exists k | 0 <= k <= |text| :: (forall i | 0 <= i < k :: NotSlash(text[i])) && SegmentMatches(rest, text[k..])
  {
    assert segment[0] == '*' && segment[1..] == rest;
    forall k | 0 <= k <= |text| ensures Fits(WILDCARDS, '*', text[..k]) <==> forall i | 0 <= i < k :: NotSlash(text[i]) {
      assert forall i | 0 <= i < k :: text[..k][i] == text[i];
    }
  }

  lemma {:induction false} RegexIsWildcard(segment: string, text: string)
    ensures Accepts(SegmentRegex(segment), text) <==> SegmentMatches(segment, text)
  {
    if segment != [] {
      var c, rest := segment[0], segment[1..];
      assert segment == [c] + rest;
      forall k | 0 <= k <= |text| ensures Accepts(SegmentRegex(rest), text[k..]) <==> SegmentMatches(rest, text[k..]) {
        RegexIsWildcard(rest, text[k..]);
      }
      if c == '*' {
        StarThen(SegmentRegex(rest), text);
        StarMatches(rest, segment, text);
      } else {
        OneThen(PieceRegex(c), SegmentRegex(rest), text);
        OneMatches(c, rest, segment, text);
      }
    }
  }

  /** The regular expression built for a segment accepts exactly the segment's wildcard language. */
  lemma {:induction false} RegExpAcceptsTheSegment(segment: string, text: string)
    ensures Test(RegExpSource(segment), text) <==>
              exists blocks :: Splits(WILDCARDS, segment, text, blocks)
  {
    var source := RegExpSource(segment);
    assert source[1..|source| - 1] == BodySource(segment);
    BodyReadsBack(segment);
    RegexIsWildcard(segment, text);
    MatchIffSplits(WILDCARDS, segment, text);
  }

  // ---------------------------------------------------------------- Whole paths

  /** Between segments `**` spans any number of them and every other piece takes exactly one. */
  const SEGMENTS: Rules<string, string> :=
    Rules((p: string) => p == "**", (s: string) => true, (p: string, s: string) => SegmentMatches(p, s))

  method MatchSegments(pattern: seq<string>, path: seq<string>) returns (matched: bool)
    ensures matched == Match(SEGMENTS, pattern, path)
    decreases |pattern|
  {
    if |pattern| == 0 { return |path| == 0; }
    if pattern[0] == "**" {
      for consumed := 0 to |path| + 1
        invariant forall k | 0 <= k < consumed :: !Match(SEGMENTS, pattern[1..], path[k..])
      {
        var rest := MatchSegments(pattern[1..], path[consumed..]);
        if rest { return true; }
      }
      return false;
    }
    if |path| == 0 { return false; }
    var source := SegmentToRegExp(pattern[0]);
    RegExpAcceptsTheSegment(pattern[0], path[0]);
    MatchIffSplits(WILDCARDS, pattern[0], path[0]);
    if !Test(source, path[0]) { return false; }
    matched := MatchSegments(pattern[1..], path[1..]);
  }

  function NonEmpty(parts: seq<string>): (r: seq<string>)
    ensures forall p | p in r :: p in parts && p != ""
  {
    if parts == [] then []
    else (if parts[0] != "" then [parts[0]] else []) + NonEmpty(parts[1..])
  }

  function Segments(path: string): seq<string> {
    NonEmpty(Split(if "./" <= path then path[2..] else path, '/'))
  }

  predicate MatchesGlob(pattern: string, path: string) {
    Match(SEGMENTS, Segments(pattern), Segments(path))
  }

  predicate MatchesAnyGlob(patterns: seq<string>, path: string) {
    exists i | 0 <= i < |patterns| :: MatchesGlob(patterns[i], path)
  }

  method MatchGlob(pattern: string, path: string) returns (matched: bool)
    ensures matched == MatchesGlob(pattern, path)
    ensures matched <==> exists blocks :: Splits(SEGMENTS, Segments(pattern), Segments(path), blocks)
  {
    MatchIffSplits(SEGMENTS, Segments(pattern), Segments(path));
    matched := MatchSegments(Segments(pattern), Segments(path));
  }

  /** A pattern with a trailing globstar matches exactly the paths that begin with a match of the rest. */
  lemma {:induction false} TrailingGlobstar(prefix: seq<string>, path: seq<string>)
    ensures Match(SEGMENTS, prefix + ["**"], path) <==> exists k :: 0 <= k <= |path| && Match(SEGMENTS, prefix, path[..k])
  {
    if Match(SEGMENTS, prefix + ["**"], path) {
      var first, rest := SplitMatch(SEGMENTS, prefix, ["**"], path);
      assert path[..|first|] == first;
    }
    if k :| 0 <= k <= |path| && Match(SEGMENTS, prefix, path[..k]) {
      var rest := path[k..];
      assert Fits(SEGMENTS, "**", rest[..|rest|]) && Match(SEGMENTS, ["**"][1..], rest[|rest|..]);
      JoinMatch(SEGMENTS, prefix, ["**"], path[..k], rest);
      assert path[..k] + rest == path;
    }
  }

  // ---------------------------------------------------------------- Patterns without wildcards

  predicate Plain(piece: string) {
    '*' !in piece && '?' !in piece
  }

  lemma {:induction false} PlainSegmentMatches(piece: string, text: string)
    requires Plain(piece)
    ensures SegmentMatches(piece, text) <==> piece == text
  {
    if piece != "" {
      assert piece == [piece[0]] + piece[1..];
      if text != "" {
        assert text == [text[0]] + text[1..];
        PlainSegmentMatches(piece[1..], text[1..]);
      }
    }
  }

  /** A pattern without wildcards matches itself and nothing else. */
  lemma {:induction false} PlainPatternMatches(pattern: seq<string>, path: seq<string>)
    requires forall i | 0 <= i < |pattern| :: Plain(pattern[i])
    ensures Match(SEGMENTS, pattern, path) <==> pattern == path
  {
    if pattern != [] {
      assert Plain(pattern[0]) && pattern == [pattern[0]] + pattern[1..];
      if path != [] {
        assert path == [path[0]] + path[1..];
        PlainSegmentMatches(pattern[0], path[0]);
        PlainPatternMatches(pattern[1..], path[1..]);
      }
    }
  }

  lemma {:induction false} LetterIsASegment(c: char)
    requires c != '/'
    ensures Segments([c]) == [[c]]
  {
    SplitFree([c], '/');
    assert NonEmpty([[c]][1..]) == [] && NonEmpty([[c]]) == [[c]];
  }

  /** Between one-letter paths matching is equality. */
  lemma {:induction false} LettersMatch(c: char, e: char)
    requires c !in "/*?" && e != '/'
    ensures MatchesGlob([c], [e]) <==> c == e
  {
    LetterIsASegment(c);
    LetterIsASegment(e);
    PlainPatternMatches([[c]], [[e]]);
    assert c == e <==> [c] == [e];
  }

  lemma {:induction false} ThreeSegments(a: string, b: string, c: string, path: string)
    requires Free(a, '/') && Free(b, '/') && Free(c, '/') && a != "" && b != "" && c != ""
    requires path == a + ['/'] + (b + ['/'] + c) && !("./" <= path)
    ensures Segments(path) == [a, b] + [c]
  {
    SplitPrefix(a, b + ['/'] + c, '/');
    SplitPrefix(b, c, '/');
    SplitFree(c, '/');
    assert Split(path, '/') == [a] + ([b] + [c]);
    assert ([a] + ([b] + [c]))[1..] == [b] + [c] && ([b] + [c])[1..] == [c];
    assert NonEmpty([c]) == [c] && NonEmpty([b] + [c]) == [b] + [c];
  }

  const WORKFLOWS := ".github/workflows/**"

  lemma {:induction false} WorkflowSegments()
    ensures Segments(WORKFLOWS) == [".github", "workflows"] + ["**"]
  {
    assert WORKFLOWS == ".github" + ['/'] + ("workflows" + ['/'] + "**");
    assert WORKFLOWS[1] == 'g';
    ThreeSegments(".github", "workflows", "**", WORKFLOWS);
  }

  /** A plain directory followed by a globstar matches exactly the paths inside it, at any depth. */
  lemma {:induction false} DirectoryMatches(directory: seq<string>, path: seq<string>)
    requires forall i | 0 <= i < |directory| :: Plain(directory[i])
    ensures Match(SEGMENTS, directory + ["**"], path) <==> directory <= path
  {
    TrailingGlobstar(directory, path);
    forall k | 0 <= k <= |path| ensures Match(SEGMENTS, directory, path[..k]) <==> directory == path[..k] {
      PlainPatternMatches(directory, path[..k]);
    }
    if directory <= path { assert path[..|directory|] == directory; }
  }

  lemma {:induction false} WorkflowPathsMatch(path: string)
    ensures MatchesGlob(WORKFLOWS, path) <==> [".github", "workflows"] <= Segments(path)
  {
    WorkflowSegments();
    DirectoryMatches([".github", "workflows"], Segments(path));
  }
}
