/** The unified-diff parser every policy check reads its files from, against a printer of git diffs. */
module Diffs {
  import opened Options
  import opened Text

  datatype FileStatus = Added | Modified | Removed | Renamed

  datatype DiffFile = DiffFile(path: string, status: FileStatus, addedLines: seq<string>, removedLines: seq<string>)

  // ---------------------------------------------------------------- Reading

  /** Characters a regular expression's `.` does not match. */
  predicate Terminator(c: char) {
    c == '\n' || c == '\r' || c == '\U{2028}' || c == '\U{2029}'
  }

  predicate OneLine(s: string) {
    forall i | 0 <= i < |s| :: !Terminator(s[i])
  }

  const GIT_HEADER := "diff --git a/"
  const SEPARATOR := " b/"
  const RENAME_TO := "rename to "

  /** The first separator at or after `k` that leaves a non-empty path behind it. */
  function FindSeparator(rest: string, k: nat): (r: Option<nat>)
    ensures r.Some? ==> k <= r.value && r.value + |SEPARATOR| < |rest| && SEPARATOR <= rest[r.value..]
    ensures r.Some? ==> forall j | k <= j < r.value :: !(SEPARATOR <= rest[j..])
    ensures r.None? ==> forall j | k <= j && j + |SEPARATOR| < |rest| :: !(SEPARATOR <= rest[j..])
    decreases |rest| - k
  {
    if k + |SEPARATOR| >= |rest| then None
    else if SEPARATOR <= rest[k..] then Some(k)
    else FindSeparator(rest, k + 1)
  }

  /** `/^diff --git a\/(.+?) b\/(.+)$/`: the second path of a header line. */
  function HeaderPath(line: string): Option<string> {
    if GIT_HEADER <= line && OneLine(line) then
      var rest := line[|GIT_HEADER|..];
      match FindSeparator(rest, 1)
      case None => None
      case Some(k) => Some(rest[k + |SEPARATOR|..])
    else None
  }

  /** `/^rename to (.+)$/`. */
  function RenamedPath(line: string): Option<string> {
    if RENAME_TO <= line && OneLine(line) && |line| > |RENAME_TO| then Some(line[|RENAME_TO|..]) else None
  }

  /** One line that is not a file header, read into the current file. */
  function Feed(file: DiffFile, line: string): DiffFile {
    if "new file mode" <= line then file.(status := Added)
    else if "deleted file mode" <= line then file.(status := Removed)
    else if RenamedPath(line).Some? then file.(status := Renamed, path := RenamedPath(line).value)
    else if "+++" <= line || "---" <= line then file
    else if "+" <= line then file.(addedLines := file.addedLines + [line[1..]])
    else if "-" <= line then file.(removedLines := file.removedLines + [line[1..]])
    else file
  }

  function Opened(path: string): DiffFile {
    DiffFile(path, Modified, [], [])
  }

  function Closed(current: Option<DiffFile>): seq<DiffFile> {
    if current.Some? then [current.value] else []
  }

  function ParseLines(lines: seq<string>, current: Option<DiffFile>): seq<DiffFile>
    decreases |lines|
  {
    if lines == [] then Closed(current)
    else if HeaderPath(lines[0]).Some? then
      Closed(current) + ParseLines(lines[1..], Some(Opened(HeaderPath(lines[0]).value)))
    else if current.None? then ParseLines(lines[1..], None)
    else ParseLines(lines[1..], Some(Feed(current.value, lines[0])))
  }

  method ParseUnifiedDiff(text: string) returns (files: seq<DiffFile>)
    ensures files == ParseLines(Split(text, '\n'), None)
  {
    files := [];
    var current: Option<DiffFile> := None;
    var lines := Split(text, '\n');
    for i := 0 to |lines|
      invariant files + ParseLines(lines[i..], current) == ParseLines(lines, None)
    {
      var rawLine := lines[i];
      assert lines[i..][1..] == lines[i + 1..];
      var header := HeaderPath(rawLine);
      if header.Some? {
        if current.Some? { files := files + [current.value]; }
        current := Some(Opened(header.value));
        continue;
      }
      if current.None? { continue; }
      var file := current.value;
      var renamed := RenamedPath(rawLine);
      if "new file mode" <= rawLine {
        current := Some(file.(status := Added));
      } else if "deleted file mode" <= rawLine {
        current := Some(file.(status := Removed));
      } else if renamed.Some? {
        current := Some(file.(status := Renamed, path := renamed.value));
      } else if "+++" <= rawLine || "---" <= rawLine {
      } else if "+" <= rawLine {
        current := Some(file.(addedLines := file.addedLines + [rawLine[1..]]));
      } else if "-" <= rawLine {
        current := Some(file.(removedLines := file.removedLines + [rawLine[1..]]));
      }
    }
    if current.Some? { files := files + [current.value]; }
  }

  function Additions(files: seq<DiffFile>): nat {
    if files == [] then 0 else |files[0].addedLines| + Additions(files[1..])
  }

  function Deletions(files: seq<DiffFile>): nat {
    if files == [] then 0 else |files[0].removedLines| + Deletions(files[1..])
  }

  // ---------------------------------------------------------------- Concatenation

  /** A diff that begins with a file header is read the same wherever it stands. */
  lemma {:induction false} ParseConcatenates(a: seq<string>, b: seq<string>, current: Option<DiffFile>)
    requires b != [] && HeaderPath(b[0]).Some?
    ensures ParseLines(a + b, current) == ParseLines(a, current) + ParseLines(b, None)
    decreases |a|
  {
    if a == [] {
      assert a + b == b;
    } else {
      assert (a + b)[1..] == a[1..] + b;
      var next := if HeaderPath(a[0]).Some? then Some(Opened(HeaderPath(a[0]).value))
                  else if current.None? then None else Some(Feed(current.value, a[0]));
      ParseConcatenates(a[1..], b, next);
    }
  }

  lemma {:induction false} TotalsAdd(f: seq<DiffFile>, g: seq<DiffFile>)
    ensures Additions(f + g) == Additions(f) + Additions(g)
    ensures Deletions(f + g) == Deletions(f) + Deletions(g)
  {
    if f == [] {
      assert f + g == g;
    } else {
      assert (f + g)[1..] == f[1..] + g;
      TotalsAdd(f[1..], g);
    }
  }

  /** Concatenated diffs parse to concatenated files, and their line totals add up. */
  lemma {:induction false} DiffsConcatenate(s: string, t: string)
    requires HeaderPath(Split(t, '\n')[0]).Some?
    ensures var whole := ParseLines(Split(s + "\n" + t, '\n'), None);
            var first, second := ParseLines(Split(s, '\n'), None), ParseLines(Split(t, '\n'), None);
            && whole == first + second
            && Additions(whole) == Additions(first) + Additions(second)
            && Deletions(whole) == Deletions(first) + Deletions(second)
  {
    SplitConcat(s, t, '\n');
    ParseConcatenates(Split(s, '\n'), Split(t, '\n'), None);
    TotalsAdd(ParseLines(Split(s, '\n'), None), ParseLines(Split(t, '\n'), None));
  }

  // ---------------------------------------------------------------- Printing

  datatype BodyLine = Hunk(text: string) | Context(text: string) | Plus(text: string) | Minus(text: string) | Note(text: string)

  /** One file of a git diff before it is printed; `oldPath` differs from `path` only for a rename. */
  datatype Patch = Patch(oldPath: string, path: string, status: FileStatus, index: string, body: seq<BodyLine>)

  function BodyText(line: BodyLine): string {
    match line
    case Hunk(text) => "@@ " + text
    case Context(text) => " " + text
    case Plus(text) => "+" + text
    case Minus(text) => "-" + text
    case Note(text) => "\\ " + text
  }

  function BodyTexts(body: seq<BodyLine>): (r: seq<string>)
    ensures |r| == |body| && forall i | 0 <= i < |body| :: r[i] == BodyText(body[i])
  {
    seq(|body|, i requires 0 <= i < |body| => BodyText(body[i]))
  }

  function StatusTexts(p: Patch): seq<string> {
    match p.status
    case Modified => ["index " + p.index]
    case Added => ["new file mode 100644", "index " + p.index]
    case Removed => ["deleted file mode 100644", "index " + p.index]
    case Renamed => ["similarity index " + p.index, "rename from " + p.oldPath, RENAME_TO + p.path]
  }

  function PathTexts(p: Patch): seq<string> {
    ["--- " + (if p.status == Added then "/dev/null" else "a/" + p.oldPath),
     "+++ " + (if p.status == Removed then "/dev/null" else "b/" + p.path)]
  }

  function HeaderText(p: Patch): string {
    GIT_HEADER + p.oldPath + SEPARATOR + p.path
  }

  function PatchTexts(p: Patch): seq<string> {
    [HeaderText(p)] + (StatusTexts(p) + PathTexts(p) + BodyTexts(p.body))
  }

  function DiffTexts(patches: seq<Patch>): seq<string> {
    if patches == [] then [""] else PatchTexts(patches[0]) + DiffTexts(patches[1..])
  }

  function PrintDiff(patches: seq<Patch>): string {
    Join(DiffTexts(patches), '\n')
  }

  function PlusTexts(body: seq<BodyLine>): seq<string> {
    if body == [] then []
    else PlusTexts(body[..|body| - 1]) + (if body[|body| - 1].Plus? then [body[|body| - 1].text] else [])
  }

  function MinusTexts(body: seq<BodyLine>): seq<string> {
    if body == [] then []
    else MinusTexts(body[..|body| - 1]) + (if body[|body| - 1].Minus? then [body[|body| - 1].text] else [])
  }

  /** What a patch says: the file a reader should get back. */
  function FileOf(p: Patch): DiffFile {
    DiffFile(p.path, p.status, PlusTexts(p.body), MinusTexts(p.body))
  }

  function FilesOf(patches: seq<Patch>): (r: seq<DiffFile>)
    ensures |r| == |patches| && forall i | 0 <= i < |patches| :: r[i] == FileOf(patches[i])
  {
    seq(|patches|, i requires 0 <= i < |patches| => FileOf(patches[i]))
  }

  // ---------------------------------------------------------------- Round trip

  /** A changed line whose printed form is taken for a `+++` or `---` header. */
  predicate Hidden(line: BodyLine) {
    (line.Plus? && "++" <= line.text) || (line.Minus? && "--" <= line.text)
  }

  predicate NoInnerSeparator(path: string) {
    forall k | 1 <= k < |path| :: !(SEPARATOR <= path[k..])
  }

  /** Paths and texts that stay on one line. */
  predicate Printable(p: Patch) {
    && p.oldPath != "" && p.path != "" && OneLine(p.oldPath) && OneLine(p.path) && Free(p.index, '\n')
    && (p.status != Renamed ==> p.oldPath == p.path)
    && forall i | 0 <= i < |p.body| :: Free(p.body[i].text, '\n')
  }

  lemma {:induction false} SeparatorStays(first: string, second: string, k: nat)
    requires 1 <= k < |first|
    ensures SEPARATOR <= (first + SEPARATOR + second)[k..] <==> SEPARATOR <= first[k..]
  {
    var rest := first + SEPARATOR + second;
    if SEPARATOR <= rest[k..] {
      assert rest[k] == ' ' && rest[k + 1] == 'b' && rest[k + 2] == '/';
      assert k + 2 < |first|;
      assert first[k..][..3] == rest[k..][..3];
    }
    if SEPARATOR <= first[k..] {
      assert first[k] == ' ' && first[k + 1] == 'b' && first[k + 2] == '/';
      assert rest[k..][..3] == first[k..][..3];
    }
  }

  /** A header line gives back its second path exactly when the first one holds no separator of its own. */
  lemma {:induction false} HeaderReads(first: string, second: string)
    requires first != "" && second != "" && OneLine(first) && OneLine(second)
    ensures HeaderPath(GIT_HEADER + first + SEPARATOR + second).Some?
    ensures HeaderPath(GIT_HEADER + first + SEPARATOR + second) == Some(second) <==> NoInnerSeparator(first)
  {
    var line := GIT_HEADER + first + SEPARATOR + second;
    var rest := first + SEPARATOR + second;
    assert line[|GIT_HEADER|..] == rest && OneLine(line);
    forall k | 1 <= k < |first| ensures SEPARATOR <= rest[k..] <==> SEPARATOR <= first[k..] { SeparatorStays(first, second, k); }
    assert SEPARATOR <= rest[|first|..] && rest[|first| + |SEPARATOR|..] == second;
    var k := FindSeparator(rest, 1).value;
    assert k <= |first|;
    if k < |first| { assert |rest[k + |SEPARATOR|..]| > |second|; }
  }

  function FeedAll(file: DiffFile, lines: seq<string>): DiffFile
    decreases |lines|
  {
    if lines == [] then file else FeedAll(Feed(file, lines[0]), lines[1..])
  }

  lemma {:induction false} FeedAllConcat(file: DiffFile, a: seq<string>, b: seq<string>)
    ensures FeedAll(file, a + b) == FeedAll(FeedAll(file, a), b)
    decreases |a|
  {
    if a == [] {
      assert a + b == b;
    } else {
      assert (a + b)[1..] == a[1..] + b;
      FeedAllConcat(Feed(file, a[0]), a[1..], b);
    }
  }

  lemma {:induction false} ParseFeeds(lines: seq<string>, tail: seq<string>, file: DiffFile)
    requires forall i | 0 <= i < |lines| :: HeaderPath(lines[i]).None?
    ensures ParseLines(lines + tail, Some(file)) == ParseLines(tail, Some(FeedAll(file, lines)))
    decreases |lines|
  {
    if lines == [] {
      assert lines + tail == tail;
    } else {
      assert (lines + tail)[1..] == lines[1..] + tail;
      ParseFeeds(lines[1..], tail, Feed(file, lines[0]));
    }
  }

  function KeptPlus(body: seq<BodyLine>): seq<string> {
    if body == [] then []
    else
      var last := body[|body| - 1];
      KeptPlus(body[..|body| - 1]) + (if last.Plus? && !Hidden(last) then [last.text] else [])
  }

  function KeptMinus(body: seq<BodyLine>): seq<string> {
    if body == [] then []
    else
      var last := body[|body| - 1];
      KeptMinus(body[..|body| - 1]) + (if last.Minus? && !Hidden(last) then [last.text] else [])
  }

  lemma {:induction false} PrefixShifts(c: char, prefix: string, text: string)
    ensures [c] + prefix <= [c] + text <==> prefix <= text
  {
    if [c] + prefix <= [c] + text {
      forall i | 0 <= i < |prefix| ensures prefix[i] == text[i] {
        assert ([c] + prefix)[i + 1] == ([c] + text)[i + 1];
      }
    }
  }

  function WithBodyLine(file: DiffFile, line: BodyLine): DiffFile {
    if line.Plus? && !Hidden(line) then file.(addedLines := file.addedLines + [line.text])
    else if line.Minus? && !Hidden(line) then file.(removedLines := file.removedLines + [line.text])
    else file
  }

  lemma {:induction false} BodyLineFeeds(file: DiffFile, line: BodyLine)
    ensures HeaderPath(BodyText(line)).None? && Feed(file, BodyText(line)) == WithBodyLine(file, line)
  {
    var text := BodyText(line);
    assert text[0] in "@ +-\\";
    match line
    case Plus(t) =>
      PrefixShifts('+', "++", t);
      assert text[1..] == t && ['+'] + "++" == "+++";
    case Minus(t) =>
      PrefixShifts('-', "--", t);
      assert text[1..] == t && ['-'] + "--" == "---";
    case _ =>
  }

  lemma {:induction false} SnocFeeds(file: DiffFile, lines: seq<string>, last: BodyLine)
    ensures FeedAll(file, lines + [BodyText(last)]) == WithBodyLine(FeedAll(file, lines), last)
  {
    FeedAllConcat(file, lines, [BodyText(last)]);
    assert [BodyText(last)][1..] == [];
    BodyLineFeeds(FeedAll(file, lines), last);
  }

  lemma {:induction false} BodySnocFeeds(file: DiffFile, before: seq<BodyLine>, last: BodyLine, body: seq<BodyLine>)
    requires body == before + [last]
    ensures FeedAll(file, BodyTexts(body)) == WithBodyLine(FeedAll(file, BodyTexts(before)), last)
  {
    SnocFeeds(file, BodyTexts(before), last);
    assert BodyTexts(body) == BodyTexts(before) + [BodyText(last)];
  }

  function WithBody(file: DiffFile, body: seq<BodyLine>): DiffFile {
    if body == [] then file else WithBodyLine(WithBody(file, body[..|body| - 1]), body[|body| - 1])
  }

  lemma {:induction false} BodyFeeds(file: DiffFile, body: seq<BodyLine>)
    ensures FeedAll(file, BodyTexts(body)) == WithBody(file, body)
  {
    if body == [] {
      assert BodyTexts(body) == [];
    } else {
      BodyFeeds(file, body[..|body| - 1]);
      BodySnocFeeds(file, body[..|body| - 1], body[|body| - 1], body);
    }
  }

  lemma {:induction false} BodyAddsKeptLines(file: DiffFile, body: seq<BodyLine>)
    ensures WithBody(file, body) ==
            file.(addedLines := file.addedLines + KeptPlus(body), removedLines := file.removedLines + KeptMinus(body))
  {
    if body != [] { BodyAddsKeptLines(file, body[..|body| - 1]); }
  }

  /** A rename names its target a second time; any other file has the path its header was read with. */
  function PathRead(p: Patch, path: string): string {
    if p.status == Renamed then p.path else path
  }

  lemma {:induction false} HeadFeeds(p: Patch, path: string)
    requires Printable(p)
    ensures forall i | 0 <= i < |StatusTexts(p) + PathTexts(p)| :: HeaderPath((StatusTexts(p) + PathTexts(p))[i]).None?
    ensures FeedAll(Opened(path), StatusTexts(p) + PathTexts(p)) == DiffFile(PathRead(p, path), p.status, [], [])
  {
    PathsFeed(p, DiffFile(PathRead(p, path), p.status, [], []));
    StatusFeeds(p, path);
    FeedAllConcat(Opened(path), StatusTexts(p), PathTexts(p));
  }

  /** A line whose first character starts none of the recognised prefixes changes nothing. */
  lemma {:induction false} OtherLineIsIgnored(file: DiffFile, line: string)
    requires line != "" && line[0] !in "dnr+-"
    ensures HeaderPath(line).None? && Feed(file, line) == file
  {
    assert GIT_HEADER[0] == 'd' && "new file mode"[0] == 'n' && "deleted file mode"[0] == 'd' && RENAME_TO[0] == 'r';
  }

  lemma {:induction false} PathLineIsIgnored(file: DiffFile, line: string)
    requires "---" <= line || "+++" <= line
    ensures HeaderPath(line).None? && Feed(file, line) == file
  {
    assert line[0] in "+-";
    assert GIT_HEADER[0] == 'd' && "new file mode"[0] == 'n' && "deleted file mode"[0] == 'd' && RENAME_TO[0] == 'r';
  }

  lemma {:induction false} PathsFeed(p: Patch, file: DiffFile)
    ensures forall i | 0 <= i < 2 :: HeaderPath(PathTexts(p)[i]).None?
    ensures FeedAll(file, PathTexts(p)) == file
  {
    var texts := PathTexts(p);
    PathLineIsIgnored(file, texts[0]);
    PathLineIsIgnored(file, texts[1]);
    FeedTwo(file, texts);
  }

  lemma {:induction false} FeedTwo(file: DiffFile, texts: seq<string>)
    requires |texts| == 2
    ensures FeedAll(file, texts) == Feed(Feed(file, texts[0]), texts[1])
  {
    var first := Feed(file, texts[0]);
    assert texts[1..] == [texts[1]] && [texts[1]][1..] == [];
    assert FeedAll(first, [texts[1]]) == FeedAll(Feed(first, texts[1]), []);
  }

  lemma {:induction false} RenameFeeds(p: Patch, file: DiffFile)
    requires Printable(p)
    ensures HeaderPath("rename from " + p.oldPath).None? && Feed(file, "rename from " + p.oldPath) == file
    ensures HeaderPath(RENAME_TO + p.path).None? && Feed(file, RENAME_TO + p.path) == file.(status := Renamed, path := p.path)
  {
    var origin, target := "rename from " + p.oldPath, RENAME_TO + p.path;
    assert GIT_HEADER[0] == 'd' && "new file mode"[0] == 'n' && "deleted file mode"[0] == 'd';
    assert origin[0] == 'r' && target[0] == 'r' && origin[7] == 'f' && RENAME_TO[7] == 't';
    assert target[|RENAME_TO|..] == p.path && OneLine(target);
  }

  lemma {:induction false} ModesFeed(file: DiffFile)
    ensures HeaderPath("new file mode 100644").None? && Feed(file, "new file mode 100644") == file.(status := Added)
    ensures HeaderPath("deleted file mode 100644").None? && Feed(file, "deleted file mode 100644") == file.(status := Removed)
  {
    assert GIT_HEADER[0] == 'd' && GIT_HEADER[1] == 'i' && "deleted file mode 100644"[1] == 'e';
    assert "new file mode"[0] == 'n' && "new file mode" <= "new file mode 100644" && "deleted file mode" <= "deleted file mode 100644";
  }

  lemma {:induction false} StatusFeeds(p: Patch, path: string)
    requires Printable(p)
    ensures forall i | 0 <= i < |StatusTexts(p)| :: HeaderPath(StatusTexts(p)[i]).None?
    ensures FeedAll(Opened(path), StatusTexts(p)) == DiffFile(PathRead(p, path), p.status, [], [])
  {
    var texts, start := StatusTexts(p), Opened(path);
    match p.status
    case Modified =>
      OtherLineIsIgnored(start, texts[0]);
      assert texts[1..] == [];
    case Added =>
      ModesFeed(start);
      OtherLineIsIgnored(start.(status := Added), texts[1]);
      FeedTwo(start, texts);
    case Removed =>
      ModesFeed(start);
      OtherLineIsIgnored(start.(status := Removed), texts[1]);
      FeedTwo(start, texts);
    case Renamed =>
      OtherLineIsIgnored(start, texts[0]);
      RenameFeeds(p, start);
      assert texts[1..] == [texts[1], texts[2]];
      FeedTwo(start, texts[1..]);
  }

  /**
   What the parser makes of one printed file: the path is the one the header is read with, but for a rename,
   and changed lines that look like headers are lost.
   */
  function AsRead(p: Patch): DiffFile
    requires Printable(p)
  {
    HeaderReads(p.oldPath, p.path);
    DiffFile(PathRead(p, HeaderPath(HeaderText(p)).value), p.status, KeptPlus(p.body), KeptMinus(p.body))
  }

  function AllAsRead(patches: seq<Patch>): (r: seq<DiffFile>)
    requires forall i | 0 <= i < |patches| :: Printable(patches[i])
    ensures |r| == |patches| && forall i | 0 <= i < |patches| :: r[i] == AsRead(patches[i])
  {
    seq(|patches|, i requires 0 <= i < |patches| => AsRead(patches[i]))
  }

  lemma {:induction false} BodyHasNoHeader(body: seq<BodyLine>)
    ensures forall i | 0 <= i < |body| :: HeaderPath(BodyTexts(body)[i]).None?
  {
    forall i | 0 <= i < |body| ensures HeaderPath(BodyTexts(body)[i]).None? { BodyLineFeeds(Opened(""), body[i]); }
  }

  lemma {:induction false} RestFeeds(p: Patch, path: string, lines: seq<string>)
    requires Printable(p) && HeaderPath(HeaderText(p)) == Some(path)
    requires lines == StatusTexts(p) + PathTexts(p) + BodyTexts(p.body)
    ensures forall i | 0 <= i < |lines| :: HeaderPath(lines[i]).None?
    ensures FeedAll(Opened(path), lines) == AsRead(p)
  {
    HeadFeeds(p, path);
    FeedAllConcat(Opened(path), StatusTexts(p) + PathTexts(p), BodyTexts(p.body));
    BodyFeeds(DiffFile(PathRead(p, path), p.status, [], []), p.body);
    BodyAddsKeptLines(DiffFile(PathRead(p, path), p.status, [], []), p.body);
    BodyHasNoHeader(p.body);
  }

  lemma {:induction false} PatchReads(p: Patch, tail: seq<string>, current: Option<DiffFile>)
    requires Printable(p)
    ensures ParseLines(PatchTexts(p) + tail, current) == Closed(current) + ParseLines(tail, Some(AsRead(p)))
  {
    var header := HeaderText(p);
    var lines := StatusTexts(p) + PathTexts(p) + BodyTexts(p.body);
    HeaderReads(p.oldPath, p.path);
    var path := HeaderPath(header).value;
    RestFeeds(p, path, lines);
    ParseFeeds(lines, tail, Opened(path));
    assert PatchTexts(p) + tail == [header] + (lines + tail);
    HeaderLineOpens(header, lines + tail, current);
  }

  lemma {:induction false} HeaderLineOpens(header: string, rest: seq<string>, current: Option<DiffFile>)
    requires HeaderPath(header).Some?
    ensures ParseLines([header] + rest, current) == Closed(current) + ParseLines(rest, Some(Opened(HeaderPath(header).value)))
  {
    assert ([header] + rest)[1..] == rest;
  }

  lemma {:induction false} EmptyLineCloses(current: Option<DiffFile>)
    ensures ParseLines([""], current) == Closed(current)
  {
    assert HeaderPath("").None? && [""][1..] == [];
    if current.Some? { assert Feed(current.value, "") == current.value; }
  }

  lemma {:induction false} PatchesRead(patches: seq<Patch>, current: Option<DiffFile>)
    requires forall i | 0 <= i < |patches| :: Printable(patches[i])
    ensures ParseLines(DiffTexts(patches), current) == Closed(current) + AllAsRead(patches)
    decreases |patches|
  {
    if patches == [] {
      EmptyLineCloses(current);
    } else {
      PatchReads(patches[0], DiffTexts(patches[1..]), current);
      PatchesRead(patches[1..], Some(AsRead(patches[0])));
      assert AllAsRead(patches) == [AsRead(patches[0])] + AllAsRead(patches[1..]);
    }
  }

  ghost predicate AllFree(texts: seq<string>) {
    forall i | 0 <= i < |texts| :: Free(texts[i], '\n')
  }

  lemma {:induction false} PatchTextsAreLines(p: Patch)
    requires Printable(p)
    ensures AllFree(PatchTexts(p))
  {
    assert Free(p.oldPath, '\n') && Free(p.path, '\n');
    assert AllFree(BodyTexts(p.body));
    assert AllFree(StatusTexts(p));
    assert AllFree(PathTexts(p));
  }

  lemma {:induction false} DiffTextsAreLines(patches: seq<Patch>)
    requires forall i | 0 <= i < |patches| :: Printable(patches[i])
    ensures |DiffTexts(patches)| > 0 && AllFree(DiffTexts(patches))
    decreases |patches|
  {
    if patches != [] {
      PatchTextsAreLines(patches[0]);
      DiffTextsAreLines(patches[1..]);
    }
  }

  lemma {:induction false} KeptIsAllIffNoneHidden(body: seq<BodyLine>)
    ensures |KeptPlus(body)| <= |PlusTexts(body)| && |KeptMinus(body)| <= |MinusTexts(body)|
    ensures (KeptPlus(body) == PlusTexts(body) && KeptMinus(body) == MinusTexts(body))
            <==> forall i | 0 <= i < |body| :: !Hidden(body[i])
    ensures (|KeptPlus(body)| == |PlusTexts(body)| && |KeptMinus(body)| == |MinusTexts(body)|)
            <==> forall i | 0 <= i < |body| :: !Hidden(body[i])
  {
    if body != [] { KeptIsAllIffNoneHidden(body[..|body| - 1]); }
  }

  /** A printed diff reads back file by file. */
  lemma {:induction false} PrintedDiffReads(patches: seq<Patch>)
    requires forall i | 0 <= i < |patches| :: Printable(patches[i])
    ensures ParseLines(Split(PrintDiff(patches), '\n'), None) == AllAsRead(patches)
  {
    DiffTextsAreLines(patches);
    SplitJoin(DiffTexts(patches), '\n');
    PatchesRead(patches, None);
  }

  /** A header is read with the right path, or corrected by a rename. */
  predicate PathSurvives(p: Patch) {
    p.status == Renamed || NoInnerSeparator(p.path)
  }

  lemma {:induction false} ReadsBackIff(p: Patch)
    requires Printable(p)
    ensures AsRead(p) == FileOf(p) <==> PathSurvives(p) && forall j | 0 <= j < |p.body| :: !Hidden(p.body[j])
  {
    HeaderReads(p.oldPath, p.path);
    KeptIsAllIffNoneHidden(p.body);
  }

  /**
   Parsing a printed diff gives back exactly its files when, and only when, no changed line reads as a header and no
   path, but for a rename's, holds what separates the two paths of a header.
   */
  lemma {:induction false} RoundTrip(patches: seq<Patch>)
    requires forall i | 0 <= i < |patches| :: Printable(patches[i])
    ensures ParseLines(Split(PrintDiff(patches), '\n'), None) == FilesOf(patches)
            <==> forall i | 0 <= i < |patches| :: PathSurvives(patches[i]) && forall j | 0 <= j < |patches[i].body| :: !Hidden(patches[i].body[j])
  {
    PrintedDiffReads(patches);
    forall i | 0 <= i < |patches|
      ensures AsRead(patches[i]) == FileOf(patches[i])
              <==> PathSurvives(patches[i]) && forall j | 0 <= j < |patches[i].body| :: !Hidden(patches[i].body[j])
    {
      ReadsBackIff(patches[i]);
    }
    assert AllAsRead(patches) == FilesOf(patches) <==> forall i | 0 <= i < |patches| :: AsRead(patches[i]) == FileOf(patches[i]);
  }
}
