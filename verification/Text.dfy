/** Splitting text on a separator character, as JavaScript's `split` does, and joining it again. */
module Text {
  predicate Free(s: string, sep: char) {
    sep !in s
  }

  function Split(s: string, sep: char): (parts: seq<string>)
    ensures |parts| > 0
  {
    if s == [] then [[]]
    else if s[0] == sep then [[]] + Split(s[1..], sep)
    else
      var rest := Split(s[1..], sep);
      [[s[0]] + rest[0]] + rest[1..]
  }

  function Join(parts: seq<string>, sep: char): string
    requires |parts| > 0
  {
    if |parts| == 1 then parts[0] else parts[0] + [sep] + Join(parts[1..], sep)
  }

  lemma {:induction false} SplitPrefix(s: string, rest: string, sep: char)
    requires Free(s, sep)
    ensures Split(s + [sep] + rest, sep) == [s] + Split(rest, sep)
  {
    var whole := s + [sep] + rest;
    if s == [] {
      assert whole[1..] == rest;
    } else {
      assert s[0] in s && whole[1..] == s[1..] + [sep] + rest;
      SplitPrefix(s[1..], rest, sep);
      assert [s[0]] + s[1..] == s;
    }
  }

  lemma {:induction false} SplitFree(s: string, sep: char)
    requires Free(s, sep)
    ensures Split(s, sep) == [s]
  {
    if s != [] {
      assert s[0] in s;
      SplitFree(s[1..], sep);
      assert [s[0]] + s[1..] == s;
    }
  }

  /** Joining separator-free parts and splitting again gives the parts back. */
  lemma {:induction false} SplitJoin(parts: seq<string>, sep: char)
    requires |parts| > 0 && forall i | 0 <= i < |parts| :: Free(parts[i], sep)
    ensures Split(Join(parts, sep), sep) == parts
  {
    if |parts| == 1 {
      SplitFree(parts[0], sep);
    } else {
      SplitJoin(parts[1..], sep);
      SplitPrefix(parts[0], Join(parts[1..], sep), sep);
    }
  }

  /** Splitting distributes over a separator placed between any two texts. */
  lemma {:induction false} SplitConcat(s: string, t: string, sep: char)
    ensures Split(s + [sep] + t, sep) == Split(s, sep) + Split(t, sep)
  {
    var whole := s + [sep] + t;
    if s == [] {
      assert whole[1..] == t;
    } else {
      assert whole[1..] == s[1..] + [sep] + t;
      SplitConcat(s[1..], t, sep);
    }
  }
}
