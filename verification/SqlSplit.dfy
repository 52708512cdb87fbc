/** Splitting a migration script into statements, line by line. */
module SqlSplit {

  // ── text ─────────────────────────────────────────────────────────────

  /** The characters with the Unicode property `White_Space`. */
  predicate IsSpace(c: char) {
    var n := c as int;
    || 9 <= n <= 13 || n == 0x20 || n == 0x85 || n == 0xA0 || n == 0x1680
    || 0x2000 <= n <= 0x200A || n == 0x2028 || n == 0x2029 || n == 0x202F || n == 0x205F || n == 0x3000
  }

  function TrimStart(s: string): string {
    if s != "" && IsSpace(s[0]) then TrimStart(s[1..]) else s
  }

  function TrimEnd(s: string): string {
    if s != "" && IsSpace(s[|s| - 1]) then TrimEnd(s[..|s| - 1]) else s
  }

  function Trim(s: string): string {
    TrimEnd(TrimStart(s))
  }

  /** `trim_end_matches(';')`. */
  function StripSemicolons(s: string): string {
    if s != "" && s[|s| - 1] == ';' then StripSemicolons(s[..|s| - 1]) else s
  }

  /** Upper case, for the characters whose upper case is an ASCII letter.  No other character
      can take part in a match of `BEGIN` at an end or `END` at a start. */
  function Upper(c: char): char {
    if 'a' <= c <= 'z' then c - 'a' + 'A'
    else if c as int == 0x131 then 'I'
    else if c as int == 0x17F then 'S'
    else c
  }

  predicate UpperIs(s: string, t: string) {
    if s == "" || t == "" then s == t else Upper(s[0]) == t[0] && UpperIs(s[1..], t[1..])
  }

  predicate EndsInBegin(line: string) {
    var t := Trim(line);
    |t| >= 5 && UpperIs(t[|t| - 5..], "BEGIN")
  }

  predicate StartsWithEnd(line: string) {
    var t := Trim(line);
    |t| >= 3 && UpperIs(t[..3], "END")
  }

  predicate EndsInSemicolon(line: string) {
    var t := Trim(line);
    t != "" && t[|t| - 1] == ';'
  }

  /** Neither blank nor a `--` comment. */
  predicate Kept(line: string) {
    var t := Trim(line);
    t != "" && !(|t| >= 2 && t[..2] == "--")
  }

  function KeptLines(lines: seq<string>): seq<string> {
    if lines == [] then []
    else if Kept(lines[|lines| - 1]) then KeptLines(lines[..|lines| - 1]) + [lines[|lines| - 1]]
    else KeptLines(lines[..|lines| - 1])
  }

  function Joined(lines: seq<string>): string {
    if lines == [] then "" else Joined(lines[..|lines| - 1]) + lines[|lines| - 1] + "\n"
  }

  // ── the line tests, character by character ───────────────────────────

  predicate AllSpace(s: string) {
    forall i :: 0 <= i < |s| ==> IsSpace(s[i])
  }

  predicate AllSemicolons(s: string) {
    forall i :: 0 <= i < |s| ==> s[i] == ';'
  }

  lemma {:induction false} TrimStartCuts(s: string) returns (a: string)
    ensures s == a + TrimStart(s) && AllSpace(a)
  {
    a := "";
    if s != "" && IsSpace(s[0]) {
      var rest := TrimStartCuts(s[1..]);
      a := [s[0]] + rest;
    }
  }

  lemma {:induction false} TrimEndCuts(s: string) returns (b: string)
    ensures s == TrimEnd(s) + b && AllSpace(b)
  {
    b := "";
    if s != "" && IsSpace(s[|s| - 1]) {
      var rest := TrimEndCuts(s[..|s| - 1]);
      b := rest + [s[|s| - 1]];
    }
  }

  lemma {:induction false} TrimStartEnds(s: string)
    ensures TrimStart(s) != "" ==> !IsSpace(TrimStart(s)[0])
  {
    if s != "" && IsSpace(s[0]) { TrimStartEnds(s[1..]); }
  }

  lemma {:induction false} TrimEndEnds(s: string)
    ensures TrimEnd(s) != "" ==> !IsSpace(TrimEnd(s)[|TrimEnd(s)| - 1])
    ensures TrimEnd(s) != "" ==> s != "" && TrimEnd(s)[0] == s[0]
  {
    if s != "" && IsSpace(s[|s| - 1]) { TrimEndEnds(s[..|s| - 1]); }
  }

  /** A text is what `Trim` leaves of it between two stretches of white space, and what it leaves
      neither starts nor ends with any. */
  lemma TrimCuts(s: string) returns (a: string, b: string)
    ensures s == a + Trim(s) + b && AllSpace(a) && AllSpace(b)
    ensures Trim(s) != "" ==> !IsSpace(Trim(s)[0]) && !IsSpace(Trim(s)[|Trim(s)| - 1])
  {
    a := TrimStartCuts(s);
    b := TrimEndCuts(TrimStart(s));
    TrimStartEnds(s);
    TrimEndEnds(TrimStart(s));
  }

  lemma {:induction false} TrimEndIs(x: string, y: string)
    requires AllSpace(y) && (x == "" || !IsSpace(x[|x| - 1]))
    ensures TrimEnd(x + y) == x
  {
    if y == "" {
      assert x + y == x;
    } else {
      TrimEndIs(x, y[..|y| - 1]);
      assert (x + y)[..|x + y| - 1] == x + y[..|y| - 1];
    }
  }

  lemma {:induction false} TrimStartIs(x: string, y: string)
    requires AllSpace(x) && (y == "" || !IsSpace(y[0]))
    ensures TrimStart(x + y) == y
  {
    if x == "" {
      assert x + y == y;
    } else {
      TrimStartIs(x[1..], y);
      assert (x + y)[1..] == x[1..] + y;
    }
  }

  lemma AtConcat(a: string, b: string, i: nat)
    requires i < |a| + |b|
    ensures (a + b)[i] == if i < |a| then a[i] else b[i - |a|]
  {
  }

  /** A text that ends, but for white space, in a word without any is trimmed to one that ends in it. */
  lemma EndsInWord(line: string, p: string, w: string, q: string)
    requires line == p + w + q && AllSpace(q) && w != "" && !IsSpace(w[0]) && !IsSpace(w[|w| - 1])
    ensures |Trim(line)| >= |w| && Trim(line)[|Trim(line)| - |w|..] == w
  {
    var a, b := TrimCuts(line);
    var t := Trim(line);
    TrimEndIs(p + w, q);
    assert a + "" + b == "" + (a + b);
    if t == "" { TrimEndIs("", a + b); }
    TrimEndIs(a + t, b);
    assert a + t == p + w;
    AtConcat(p, w, |p|);
    AtConcat(a, t, |p|);
    assert (a + t)[|p|..] == w && (a + t)[|p|..] == t[|p| - |a|..];
  }

  /** The same at the start. */
  lemma StartsWithWord(line: string, p: string, w: string, q: string)
    requires line == p + w + q && AllSpace(p) && w != "" && !IsSpace(w[0]) && !IsSpace(w[|w| - 1])
    ensures |Trim(line)| >= |w| && Trim(line)[..|w|] == w
  {
    assert line == p + (w + q) && (w + q)[0] == w[0];
    TrimStartIs(p, w + q);
    var b := TrimEndCuts(w + q);
    var t := TrimEnd(w + q);
    TrimEndEnds(w + q);
    AtConcat(w, q, |w| - 1);
    AtConcat(t, b, |w| - 1);
    assert t + b == w + q;
    assert (t + b)[..|w|] == w && (t + b)[..|w|] == t[..|w|];
  }

  // The four tests, from the characters of the line.

  /** Letter for letter, in either case; a dotless i has the upper case I. */
  predicate IsBeginWord(w: string) {
    && |w| == 5 && w[0] in "bB" && w[1] in "eE" && w[2] in "gG" && (w[3] in "iI" || w[3] as int == 0x131) && w[4] in "nN"
  }

  predicate IsEndWord(w: string) {
    |w| == 3 && w[0] in "eE" && w[1] in "nN" && w[2] in "dD"
  }

  /** The line ends, but for white space, in BEGIN. */
  ghost predicate BeginLine(line: string) {
    exists p, w, q :: line == p + w + q && IsBeginWord(w) && AllSpace(q)
  }

  /** It starts, but for white space, with END. */
  ghost predicate EndLine(line: string) {
    exists p, w, q :: line == p + w + q && IsEndWord(w) && AllSpace(p)
  }

  /** It ends, but for white space, in a semicolon. */
  ghost predicate SemicolonLine(line: string) {
    exists p, q :: line == p + ";" + q && AllSpace(q)
  }

  /** It has something in it besides white space, and that does not start with two dashes. */
  ghost predicate ContentLine(line: string) {
    exists p, q :: line == p + q && AllSpace(p) && q != "" && !IsSpace(q[0]) && !("--" <= q)
  }

  /** The 25 white space characters of Unicode, by code point. */
  lemma SpacesAre(c: char)
    ensures IsSpace(c) <==>
            c as int in {0x9, 0xA, 0xB, 0xC, 0xD, 0x20, 0x85, 0xA0, 0x1680, 0x2000, 0x2001, 0x2002, 0x2003, 0x2004, 0x2005,
                         0x2006, 0x2007, 0x2008, 0x2009, 0x200A, 0x2028, 0x2029, 0x202F, 0x205F, 0x3000}
  {
  }

  lemma {:induction false} UpperIsEach(s: string, t: string)
    ensures UpperIs(s, t) <==> |s| == |t| && forall i :: 0 <= i < |s| ==> Upper(s[i]) == t[i]
  {
    if s == "" || t == "" {
    } else {
      UpperIsEach(s[1..], t[1..]);
      assert forall i :: 0 <= i < |s| - 1 ==> s[1..][i] == s[i + 1];
      assert forall i :: 0 < i < |s| ==> s[i] == s[1..][i - 1];
      assert forall i :: 0 < i < |t| ==> t[i] == t[1..][i - 1];
    }
  }

  lemma UpperLetters(c: char)
    ensures Upper(c) == 'B' <==> c in "bB"
    ensures Upper(c) == 'E' <==> c in "eE"
    ensures Upper(c) == 'G' <==> c in "gG"
    ensures Upper(c) == 'I' <==> c in "iI" || c as int == 0x131
    ensures Upper(c) == 'N' <==> c in "nN"
    ensures Upper(c) == 'D' <==> c in "dD"
  {
  }

  lemma BeginWordExactly(w: string)
    ensures UpperIs(w, "BEGIN") <==> IsBeginWord(w)
  {
    UpperIsEach(w, "BEGIN");
    if |w| == 5 {
      forall i | 0 <= i < 5 { UpperLetters(w[i]); }
      assert "BEGIN"[0] == 'B' && "BEGIN"[1] == 'E' && "BEGIN"[2] == 'G' && "BEGIN"[3] == 'I' && "BEGIN"[4] == 'N';
    }
  }

  lemma EndWordExactly(w: string)
    ensures UpperIs(w, "END") <==> IsEndWord(w)
  {
    UpperIsEach(w, "END");
    if |w| == 3 {
      forall i | 0 <= i < 3 { UpperLetters(w[i]); }
      assert "END"[0] == 'E' && "END"[1] == 'N' && "END"[2] == 'D';
    }
  }

  lemma BeginLineExactly(line: string)
    ensures EndsInBegin(line) <==> BeginLine(line)
  {
    var t := Trim(line);
    var a, b := TrimCuts(line);
    if EndsInBegin(line) {
      var (head, w) := (t[..|t| - 5], t[|t| - 5..]);
      BeginWordExactly(w);
      assert line == (a + head) + w + b;
    }
    if p, w, q :| line == p + w + q && IsBeginWord(w) && AllSpace(q) {
      EndsInWord(line, p, w, q);
      BeginWordExactly(w);
    }
  }

  lemma EndLineExactly(line: string)
    ensures StartsWithEnd(line) <==> EndLine(line)
  {
    var t := Trim(line);
    var a, b := TrimCuts(line);
    if StartsWithEnd(line) {
      var (w, tail) := (t[..3], t[3..]);
      EndWordExactly(w);
      assert line == a + w + (tail + b);
    }
    if p, w, q :| line == p + w + q && IsEndWord(w) && AllSpace(p) {
      StartsWithWord(line, p, w, q);
      EndWordExactly(w);
    }
  }

  lemma SemicolonLineExactly(line: string)
    ensures EndsInSemicolon(line) <==> SemicolonLine(line)
  {
    var t := Trim(line);
    var a, b := TrimCuts(line);
    if EndsInSemicolon(line) {
      assert line == (a + t[..|t| - 1]) + ";" + b;
    }
    if p, q :| line == p + ";" + q && AllSpace(q) {
      EndsInWord(line, p, ";", q);
    }
  }

  /** Trailing white space has no part in a leading pair of dashes. */
  lemma DashesOnly(t: string, b: string)
    requires t != "" && AllSpace(b)
    ensures "--" <= t + b ==> "--" <= t
  {
    if "--" <= t + b { AtConcat(t, b, 1); }
  }

  lemma FirstStays(q: string)
    requires q != "" && !IsSpace(q[0])
    ensures TrimEnd(q) != "" && ("--" <= TrimEnd(q) ==> "--" <= q)
  {
    var tail := TrimEndCuts(q);
    AtConcat(TrimEnd(q), tail, 0);
  }

  lemma ContentLineExactly(line: string)
    ensures Kept(line) <==> ContentLine(line)
  {
    var t := Trim(line);
    var a, b := TrimCuts(line);
    if Kept(line) {
      assert line == a + (t + b) && (t + b)[0] == t[0];
      DashesOnly(t, b);
    }
    if p, q :| line == p + q && AllSpace(p) && q != "" && !IsSpace(q[0]) && !("--" <= q) {
      TrimStartIs(p, q);
      var tail := TrimEndCuts(q);
      FirstStays(q);
    }
  }

  // ── where statements end ─────────────────────────────────────────────

  predicate HasBegin(chunk: seq<string>) {
    exists i :: 0 <= i < |chunk| && EndsInBegin(chunk[i])
  }

  /** Does the last line of these kept lines end the statement they make up? */
  predicate Closes(chunk: seq<string>) {
    chunk != []
    && if HasBegin(chunk) then StartsWithEnd(chunk[|chunk| - 1]) else EndsInSemicolon(chunk[|chunk| - 1])
  }

  predicate NotEarlier(chunk: seq<string>) {
    forall n :: 0 < n < |chunk| ==> !Closes(chunk[..n])
  }

  /** A statement: closed by its last line and not before. */
  predicate IsStatement(chunk: seq<string>) {
    Closes(chunk) && NotEarlier(chunk)
  }

  datatype Cut = Cut(chunks: seq<seq<string>>, rest: seq<string>)

  function Flatten(chunks: seq<seq<string>>): seq<string> {
    if chunks == [] then [] else Flatten(chunks[..|chunks| - 1]) + chunks[|chunks| - 1]
  }

  /** The kept lines divided, in order, into whole statements and an unfinished rest. */
  predicate IsCut(kept: seq<string>, cut: Cut) {
    && Flatten(cut.chunks) + cut.rest == kept
    && (forall i :: 0 <= i < |cut.chunks| ==> IsStatement(cut.chunks[i]))
    && !Closes(cut.rest) && NotEarlier(cut.rest)
  }

  /** One more kept line. */
  function Grown(cut: Cut, line: string): Cut {
    var chunk := cut.rest + [line];
    if Closes(chunk) then Cut(cut.chunks + [chunk], []) else Cut(cut.chunks, chunk)
  }

  function CutOf(kept: seq<string>): Cut {
    if kept == [] then Cut([], []) else Grown(CutOf(kept[..|kept| - 1]), kept[|kept| - 1])
  }

  /** Output of a closed chunk: nothing when only semicolons are left. */
  function ChunkText(chunk: seq<string>): string {
    StripSemicolons(Trim(Joined(chunk)))
  }

  function NonEmpty(s: string): seq<string> {
    if s == "" then [] else [s]
  }

  function ChunkTexts(chunks: seq<seq<string>>): seq<string> {
    if chunks == [] then [] else ChunkTexts(chunks[..|chunks| - 1]) + NonEmpty(ChunkText(chunks[|chunks| - 1]))
  }

  function Texts(cut: Cut): seq<string> {
    ChunkTexts(cut.chunks) + NonEmpty(Trim(Joined(cut.rest)))
  }

  lemma HasBeginAppend(chunk: seq<string>, line: string)
    ensures HasBegin(chunk + [line]) <==> HasBegin(chunk) || EndsInBegin(line)
  {
    if HasBegin(chunk) {
      var i :| 0 <= i < |chunk| && EndsInBegin(chunk[i]);
      assert (chunk + [line])[i] == chunk[i];
    }
    assert (chunk + [line])[|chunk|] == line;
  }

  lemma KeptLinesAppend(lines: seq<string>, line: string)
    ensures KeptLines(lines + [line]) == if Kept(line) then KeptLines(lines) + [line] else KeptLines(lines)
  {
    assert (lines + [line])[..|lines|] == lines;
  }

  lemma CutOfAppend(kept: seq<string>, line: string)
    ensures CutOf(kept + [line]) == Grown(CutOf(kept), line)
  {
    assert (kept + [line])[..|kept|] == kept;
  }

  lemma ClosesAppend(rest: seq<string>, line: string)
    ensures Closes(rest + [line]) <==>
            if HasBegin(rest) || EndsInBegin(line) then StartsWithEnd(line) else EndsInSemicolon(line)
  {
    HasBeginAppend(rest, line);
  }

  lemma JoinedAppend(lines: seq<string>, line: string)
    ensures Joined(lines + [line]) == Joined(lines) + line + "\n"
  {
    assert (lines + [line])[..|lines|] == lines;
  }

  lemma ChunkTextsAppend(chunks: seq<seq<string>>, chunk: seq<string>)
    ensures ChunkTexts(chunks + [chunk]) == ChunkTexts(chunks) + NonEmpty(ChunkText(chunk))
  {
    assert (chunks + [chunk])[..|chunks|] == chunks;
  }

  predicate ClosesAt(inTrigger: bool, line: string) {
    if inTrigger then StartsWithEnd(line) else EndsInSemicolon(line)
  }

  /** What one more kept line does to the loop's three variables. */
  lemma GrownStep(cut: Cut, line: string)
    ensures var (inTrigger, current) := (HasBegin(cut.rest) || EndsInBegin(line), Joined(cut.rest) + line + "\n");
            var (cut', closes) := (Grown(cut, line), ClosesAt(inTrigger, line));
            && HasBegin(cut'.rest) == (inTrigger && !closes)
            && Joined(cut'.rest) == (if closes then "" else current)
            && ChunkTexts(cut'.chunks)
               == ChunkTexts(cut.chunks) + (if closes then NonEmpty(StripSemicolons(Trim(current))) else [])
  {
    ClosesAppend(cut.rest, line);
    HasBeginAppend(cut.rest, line);
    JoinedAppend(cut.rest, line);
    ChunkTextsAppend(cut.chunks, cut.rest + [line]);
  }

  // ── every kept line in exactly one chunk ─────────────────────────────

  lemma FlattenAppend(chunks: seq<seq<string>>, chunk: seq<string>)
    ensures Flatten(chunks + [chunk]) == Flatten(chunks) + chunk
  {
    assert (chunks + [chunk])[..|chunks|] == chunks;
  }

  lemma NotEarlierInit(chunk: seq<string>)
    requires chunk != []
    ensures NotEarlier(chunk) <==> NotEarlier(chunk[..|chunk| - 1]) && !Closes(chunk[..|chunk| - 1])
  {
    var init := chunk[..|chunk| - 1];
    assert forall n :: 0 < n < |init| ==> init[..n] == chunk[..n];
    if init != [] { assert chunk[..|init|] == init; }
  }

  /** Adding a line to a cut gives a cut, and taking one away does. */
  lemma GrownIsCut(kept: seq<string>, cut: Cut, line: string)
    requires IsCut(kept, cut)
    ensures IsCut(kept + [line], Grown(cut, line))
  {
    var chunk := cut.rest + [line];
    assert chunk[..|chunk| - 1] == cut.rest;
    NotEarlierInit(chunk);
    FlattenAppend(cut.chunks, chunk);
    assert Flatten(cut.chunks) + chunk == kept + [line];
  }

  lemma {:induction false} CutOfIsCut(kept: seq<string>)
    ensures IsCut(kept, CutOf(kept))
  {
    if kept == [] {
    } else {
      CutOfIsCut(kept[..|kept| - 1]);
      GrownIsCut(kept[..|kept| - 1], CutOf(kept[..|kept| - 1]), kept[|kept| - 1]);
      assert kept[..|kept| - 1] + [kept[|kept| - 1]] == kept;
    }
  }

  lemma LastOfRest(kept: seq<string>, cut: Cut) returns (before: Cut)
    requires IsCut(kept, cut) && cut.rest != []
    ensures kept != [] && IsCut(kept[..|kept| - 1], before) && cut == Grown(before, kept[|kept| - 1])
  {
    before := Cut(cut.chunks, cut.rest[..|cut.rest| - 1]);
    NotEarlierInit(cut.rest);
    assert kept[..|kept| - 1] == Flatten(before.chunks) + before.rest;
    assert before.rest + [kept[|kept| - 1]] == cut.rest;
  }

  lemma LastOfChunks(kept: seq<string>, cut: Cut) returns (before: Cut)
    requires IsCut(kept, cut) && cut.rest == [] && cut.chunks != []
    ensures kept != [] && IsCut(kept[..|kept| - 1], before) && cut == Grown(before, kept[|kept| - 1])
  {
    var k := |cut.chunks| - 1;
    var chunk := cut.chunks[k];
    assert IsStatement(chunk);
    before := Cut(cut.chunks[..k], chunk[..|chunk| - 1]);
    NotEarlierInit(chunk);
    assert kept[..|kept| - 1] == Flatten(before.chunks) + before.rest;
    assert before.rest + [kept[|kept| - 1]] == chunk;
  }

  /** The only way to divide the kept lines into whole statements, in order and with none
      lost or repeated, is the one the splitter outputs. */
  lemma {:induction false} CutIsUnique(kept: seq<string>, cut: Cut)
    ensures IsCut(kept, cut) <==> cut == CutOf(kept)
    decreases |kept|
  {
    CutOfIsCut(kept);
    if IsCut(kept, cut) {
      if cut.rest != [] {
        var before := LastOfRest(kept, cut);
        CutIsUnique(kept[..|kept| - 1], before);
      } else if cut.chunks != [] {
        var before := LastOfChunks(kept, cut);
        CutIsUnique(kept[..|kept| - 1], before);
      }
    }
  }

  lemma {:induction false} StripCuts(s: string) returns (b: string)
    ensures s == StripSemicolons(s) + b && AllSemicolons(b)
  {
    b := "";
    if s != "" && s[|s| - 1] == ';' {
      var rest := StripCuts(s[..|s| - 1]);
      b := rest + [s[|s| - 1]];
    }
  }

  /** The lines of a chunk are its output but for outer white space and trailing semicolons. */
  lemma ChunkTextIsItsLines(chunk: seq<string>) returns (a: string, semicolons: string, b: string)
    ensures Joined(chunk) == a + ChunkText(chunk) + semicolons + b
    ensures AllSpace(a) && AllSemicolons(semicolons) && AllSpace(b)
  {
    var all := Joined(chunk);
    a := TrimStartCuts(all);
    b := TrimEndCuts(TrimStart(all));
    semicolons := StripCuts(Trim(all));
  }

  /** So is the unfinished rest, which keeps its trailing semicolons. */
  lemma RestTextIsItsLines(rest: seq<string>) returns (a: string, b: string)
    ensures Joined(rest) == a + Trim(Joined(rest)) + b && AllSpace(a) && AllSpace(b)
  {
    a := TrimStartCuts(Joined(rest));
    b := TrimEndCuts(TrimStart(Joined(rest)));
  }

  lemma TrimmedAway(s: string)
    requires Trim(s) == ""
    ensures AllSpace(s)
  {
    var a := TrimStartCuts(s);
    var b := TrimEndCuts(TrimStart(s));
  }

  lemma {:induction false} AllSpaceTrims(s: string)
    requires AllSpace(s)
    ensures Trim(s) == ""
  {
    if s == "" {
    } else {
      AllSpaceTrims(s[1..]);
    }
  }

  lemma {:induction false} JoinedHolds(lines: seq<string>, i: nat)
    requires i < |lines| && AllSpace(Joined(lines))
    ensures AllSpace(lines[i])
  {
    var init, last := lines[..|lines| - 1], lines[|lines| - 1];
    assert Joined(lines) == Joined(init) + last + "\n";
    assert forall j :: 0 <= j < |Joined(init)| ==> Joined(lines)[j] == Joined(init)[j];
    if i < |init| {
      JoinedHolds(init, i);
    } else {
      assert forall j :: 0 <= j < |last| ==> Joined(lines)[|Joined(init)| + j] == last[j];
    }
  }

  /** A rest with any kept line in it is output. */
  lemma RestIsOutput(rest: seq<string>, i: nat)
    requires i < |rest| && Kept(rest[i])
    ensures NonEmpty(Trim(Joined(rest))) == [Trim(Joined(rest))]
  {
    if Trim(Joined(rest)) == "" {
      TrimmedAway(Joined(rest));
      JoinedHolds(rest, i);
      AllSpaceTrims(rest[i]);
    }
  }

  // ── splitting inverts printing ───────────────────────────────────────

  /** Ends at the first line that ends in a semicolon. */
  predicate PlainByTests(chunk: seq<string>) {
    chunk != [] && !HasBegin(chunk)
    && EndsInSemicolon(chunk[|chunk| - 1])
    && forall i :: 0 <= i < |chunk| - 1 ==> !EndsInSemicolon(chunk[i])
  }

  predicate TriggerByTests(chunk: seq<string>, b: nat) {
    b < |chunk| && EndsInBegin(chunk[b])
    && (forall i :: 0 <= i < b ==> !EndsInBegin(chunk[i]) && !EndsInSemicolon(chunk[i]))
    && StartsWithEnd(chunk[|chunk| - 1])
    && forall i :: b <= i < |chunk| - 1 ==> !StartsWithEnd(chunk[i])
  }

  lemma PlainIsStatement(chunk: seq<string>)
    requires PlainByTests(chunk)
    ensures IsStatement(chunk)
  {
    forall n | 0 < n < |chunk| ensures !Closes(chunk[..n]) {
      assert chunk[..n][n - 1] == chunk[n - 1];
      assert !HasBegin(chunk[..n]);
    }
  }

  lemma TriggerIsStatement(chunk: seq<string>, b: nat)
    requires TriggerByTests(chunk, b)
    ensures IsStatement(chunk)
  {
    forall n | 0 < n < |chunk| ensures !Closes(chunk[..n]) {
      assert chunk[..n][n - 1] == chunk[n - 1];
      if b < n { assert chunk[..n][b] == chunk[b]; }
    }
  }

  lemma FirstBegin(chunk: seq<string>) returns (b: nat)
    requires HasBegin(chunk)
    ensures b < |chunk| && EndsInBegin(chunk[b]) && !HasBegin(chunk[..b])
  {
    b := 0;
    assert chunk[..|chunk|] == chunk;
    while !EndsInBegin(chunk[b])
      invariant b < |chunk| && !HasBegin(chunk[..b])
      decreases |chunk| - b
    {
      HasBeginAppend(chunk[..b], chunk[b]);
      assert chunk[..b + 1] == chunk[..b] + [chunk[b]];
      b := b + 1;
    }
  }

  lemma StatementIsTrigger(chunk: seq<string>)
    requires IsStatement(chunk) && HasBegin(chunk)
    ensures exists b: nat :: TriggerByTests(chunk, b)
  {
    var b := FirstBegin(chunk);
    forall i | 0 <= i < b ensures !EndsInBegin(chunk[i]) && !EndsInSemicolon(chunk[i]) {
      assert chunk[..b][i] == chunk[i] && chunk[..i + 1][i] == chunk[i];
      assert !Closes(chunk[..i + 1]);
      assert forall k :: 0 <= k <= i ==> chunk[..i + 1][k] == chunk[..b][k];
    }
    forall i | b <= i < |chunk| - 1 ensures !StartsWithEnd(chunk[i]) {
      assert !Closes(chunk[..i + 1]);
      assert chunk[..i + 1][b] == chunk[b] && chunk[..i + 1][i] == chunk[i];
    }
    assert TriggerByTests(chunk, b);
  }

  lemma StatementIsPlain(chunk: seq<string>)
    requires IsStatement(chunk) && !HasBegin(chunk)
    ensures PlainByTests(chunk)
  {
    forall i | 0 <= i < |chunk| - 1 ensures !EndsInSemicolon(chunk[i]) {
      assert !Closes(chunk[..i + 1]);
      assert chunk[..i + 1][i] == chunk[i];
      assert forall k :: 0 <= k <= i ==> chunk[..i + 1][k] == chunk[k];
    }
  }

  lemma StatementByTests(chunk: seq<string>)
    ensures IsStatement(chunk) <==> PlainByTests(chunk) || exists b: nat :: TriggerByTests(chunk, b)
  {
    if PlainByTests(chunk) { PlainIsStatement(chunk); }
    if b: nat :| TriggerByTests(chunk, b) { TriggerIsStatement(chunk, b); }
    if IsStatement(chunk) {
      if HasBegin(chunk) { StatementIsTrigger(chunk); } else { StatementIsPlain(chunk); }
    }
  }

  /** No line ends in BEGIN, and only the last ends in a semicolon. */
  ghost predicate IsPlain(chunk: seq<string>) {
    chunk != [] && SemicolonLine(chunk[|chunk| - 1])
    && (forall i :: 0 <= i < |chunk| ==> !BeginLine(chunk[i]))
    && forall i :: 0 <= i < |chunk| - 1 ==> !SemicolonLine(chunk[i])
  }

  ghost predicate IsTriggerFrom(chunk: seq<string>, b: nat) {
    b < |chunk| && BeginLine(chunk[b]) && EndLine(chunk[|chunk| - 1])
    && (forall i :: 0 <= i < b ==> !BeginLine(chunk[i]) && !SemicolonLine(chunk[i]))
    && forall i :: b <= i < |chunk| - 1 ==> !EndLine(chunk[i])
  }

  /** Its body starts at the first line ending in BEGIN and ends at the first line from there
      on that starts with END; semicolons in between do not matter. */
  ghost predicate IsTrigger(chunk: seq<string>) {
    exists b: nat :: IsTriggerFrom(chunk, b)
  }

  lemma LinesExactly(chunk: seq<string>)
    ensures forall i :: 0 <= i < |chunk| ==> (EndsInBegin(chunk[i]) <==> BeginLine(chunk[i]))
    ensures forall i :: 0 <= i < |chunk| ==> (StartsWithEnd(chunk[i]) <==> EndLine(chunk[i]))
    ensures forall i :: 0 <= i < |chunk| ==> (EndsInSemicolon(chunk[i]) <==> SemicolonLine(chunk[i]))
  {
    forall i | 0 <= i < |chunk|
      ensures EndsInBegin(chunk[i]) <==> BeginLine(chunk[i])
      ensures StartsWithEnd(chunk[i]) <==> EndLine(chunk[i])
      ensures EndsInSemicolon(chunk[i]) <==> SemicolonLine(chunk[i])
    {
      BeginLineExactly(chunk[i]);
      EndLineExactly(chunk[i]);
      SemicolonLineExactly(chunk[i]);
    }
  }

  /** Plain statements and triggers are all there are. */
  lemma StatementsExactly(chunk: seq<string>)
    ensures IsStatement(chunk) <==> IsPlain(chunk) || IsTrigger(chunk)
  {
    StatementByTests(chunk);
    LinesExactly(chunk);
    assert PlainByTests(chunk) <==> IsPlain(chunk);
    forall b: nat ensures TriggerByTests(chunk, b) <==> IsTriggerFrom(chunk, b) { }
  }

  /** The text of a statement written on these lines. */
  function Text(body: seq<string>): string {
    if body == [] then "" else if |body| == 1 then body[0] else Text(body[..|body| - 1]) + "\n" + body[|body| - 1]
  }

  /** The lines it is printed on: a semicolon after the last. */
  function Terminated(body: seq<string>): seq<string> {
    if body == [] then [] else body[..|body| - 1] + [body[|body| - 1] + ";"]
  }

  predicate Printable(body: seq<string>) {
    var t := Text(body);
    t != "" && !IsSpace(t[0]) && !IsSpace(t[|t| - 1]) && t[|t| - 1] != ';'
  }

  lemma {:induction false} JoinedIsText(body: seq<string>)
    requires body != []
    ensures Joined(body) == Text(body) + "\n"
  {
    assert Joined(body[..|body| - 1]) + body[|body| - 1] + "\n" == Joined(body);
    if |body| > 1 {
      JoinedIsText(body[..|body| - 1]);
    } else {
      assert body[..0] == [];
    }
  }

  lemma TerminatedText(body: seq<string>)
    requires body != []
    ensures Terminated(body) != [] && Text(Terminated(body)) == Text(body) + ";"
  {
    var t := Terminated(body);
    assert t[..|t| - 1] == body[..|body| - 1];
  }

  lemma StripTerminator(t: string)
    requires t != "" && !IsSpace(t[0]) && t[|t| - 1] != ';'
    ensures StripSemicolons(Trim(t + ";" + "\n")) == t
  {
    var (a, b) := (t + ";", t + ";" + "\n");
    assert TrimStart(b) == b;
    assert b[..|b| - 1] == a && a[..|a| - 1] == t;
    assert TrimEnd(b) == TrimEnd(a) == a;
    assert StripSemicolons(a) == StripSemicolons(t) == t;
  }

  lemma PrintedText(body: seq<string>)
    requires body != [] && Printable(body)
    ensures ChunkText(Terminated(body)) == Text(body)
  {
    TerminatedText(body);
    JoinedIsText(Terminated(body));
    StripTerminator(Text(body));
  }

  /** `content` with any blank or comment lines put in anywhere. */
  ghost predicate Interleaves(lines: seq<string>, content: seq<string>) {
    if lines == [] then content == []
    else
      var (init, last) := (lines[..|lines| - 1], lines[|lines| - 1]);
      if ContentLine(last)
      then content != [] && content[|content| - 1] == last && Interleaves(init, content[..|content| - 1])
      else Interleaves(init, content)
  }

  /** The lines the splitter looks at are those with content, in order. */
  lemma {:induction false} InterleavedLines(lines: seq<string>, content: seq<string>)
    ensures Interleaves(lines, content) <==> KeptLines(lines) == content
  {
    if lines == [] {
    } else {
      var init := lines[..|lines| - 1];
      ContentLineExactly(lines[|lines| - 1]);
      if !Kept(lines[|lines| - 1]) {
        InterleavedLines(init, content);
      } else if content != [] {
        InterleavedLines(init, content[..|content| - 1]);
      }
    }
  }

  function Printed(bodies: seq<seq<string>>): seq<seq<string>> {
    if bodies == [] then [] else Printed(bodies[..|bodies| - 1]) + [Terminated(bodies[|bodies| - 1])]
  }

  ghost predicate WellFormed(body: seq<string>) {
    body != [] && Printable(body) && (IsPlain(Terminated(body)) || IsTrigger(Terminated(body)))
  }

  lemma WellFormedPrints(body: seq<string>)
    requires WellFormed(body)
    ensures IsStatement(Terminated(body)) && ChunkText(Terminated(body)) == Text(body) && Text(body) != ""
  {
    StatementsExactly(Terminated(body));
    PrintedText(body);
  }

  lemma {:induction false} PrintedSize(bodies: seq<seq<string>>)
    ensures |Printed(bodies)| == |bodies|
  {
    if bodies == [] {
    } else {
      PrintedSize(bodies[..|bodies| - 1]);
    }
  }

  lemma {:induction false} PrintedAt(bodies: seq<seq<string>>, i: nat)
    requires i < |bodies|
    ensures i < |Printed(bodies)| && Printed(bodies)[i] == Terminated(bodies[i])
  {
    var n := |bodies| - 1;
    PrintedSize(bodies[..n]);
    if i < n { PrintedAt(bodies[..n], i); }
  }

  lemma {:induction false} ChunkTextsAre(chunks: seq<seq<string>>, texts: seq<string>)
    requires |texts| == |chunks|
    requires forall i :: 0 <= i < |chunks| ==> NonEmpty(ChunkText(chunks[i])) == [texts[i]]
    ensures ChunkTexts(chunks) == texts
  {
    if chunks == [] {
    } else {
      var n := |chunks| - 1;
      ChunkTextsAre(chunks[..n], texts[..n]);
      assert texts == texts[..n] + [texts[n]];
    }
  }

  lemma WholeCutTexts(chunks: seq<seq<string>>)
    ensures Texts(Cut(chunks, [])) == ChunkTexts(chunks)
  {
  }

  lemma WholeCut(chunks: seq<seq<string>>)
    requires forall i :: 0 <= i < |chunks| ==> IsStatement(chunks[i])
    ensures CutOf(Flatten(chunks)) == Cut(chunks, [])
  {
    CutIsUnique(Flatten(chunks), Cut(chunks, []));
  }

  /** Splitting the printed text of well-formed statements, with any blank or comment lines
      interleaved, gives back exactly those statements. */
  lemma SplitInvertsPrint(bodies: seq<seq<string>>, texts: seq<string>, lines: seq<string>)
    requires |texts| == |bodies|
    requires forall i :: 0 <= i < |bodies| ==> WellFormed(bodies[i]) && texts[i] == Text(bodies[i])
    requires Interleaves(lines, Flatten(Printed(bodies)))
    ensures Texts(CutOf(KeptLines(lines))) == texts
  {
    var chunks := Printed(bodies);
    PrintedSize(bodies);
    forall i | 0 <= i < |chunks| ensures IsStatement(chunks[i]) && NonEmpty(ChunkText(chunks[i])) == [texts[i]] {
      PrintedAt(bodies, i);
      WellFormedPrints(bodies[i]);
    }
    ChunkTextsAre(chunks, texts);
    InterleavedLines(lines, Flatten(Printed(bodies)));
    WholeCut(Printed(bodies));
    WholeCutTexts(Printed(bodies));
  }

  // ── any script ───────────────────────────────────────────────────────

  /** One statement, plain or a trigger, and nothing after it. */
  ghost predicate IsWhole(chunk: seq<string>) {
    IsPlain(chunk) || IsTrigger(chunk)
  }

  /** The lines with content are these statements one after another and then lines that have no
      statement at their start. */
  ghost predicate Divides(lines: seq<string>, chunks: seq<seq<string>>, rest: seq<string>) {
    && Interleaves(lines, Flatten(chunks) + rest)
    && (forall i :: 0 <= i < |chunks| ==> IsWhole(chunks[i]))
    && forall n :: 0 < n <= |rest| ==> !IsWhole(rest[..n])
  }

  /** `text` without white space around it. */
  predicate IsCore(before: string, text: string, after: string) {
    AllSpace(before) && AllSpace(after) && (text != "" ==> !IsSpace(text[0]) && !IsSpace(text[|text| - 1]))
  }

  /** What is left of a statement's lines: no white space around it, and then no semicolons behind it. */
  ghost predicate StatementText(chunk: seq<string>, text: string) {
    exists before, semicolons, after ::
      && Joined(chunk) == before + (text + semicolons) + after && IsCore(before, text + semicolons, after)
      && AllSemicolons(semicolons) && (text != "" ==> text[|text| - 1] != ';')
  }

  ghost predicate RestText(rest: seq<string>, text: string) {
    exists before, after :: Joined(rest) == before + text + after && IsCore(before, text, after)
  }

  /** The texts that are not empty. */
  function Filled(texts: seq<string>): seq<string> {
    if texts == [] then []
    else Filled(texts[..|texts| - 1]) + (if texts[|texts| - 1] == "" then [] else [texts[|texts| - 1]])
  }

  ghost predicate TextsOf(chunks: seq<seq<string>>, texts: seq<string>) {
    |texts| == |chunks| && forall i :: 0 <= i < |chunks| ==> StatementText(chunks[i], texts[i])
  }

  /** What splitting a script gives: the text of each statement, then that of the unfinished rest. */
  ghost predicate SplitIs(lines: seq<string>, stmts: seq<string>) {
    exists chunks, rest, texts, tail ::
      && Divides(lines, chunks, rest)
      && TextsOf(chunks, texts) && RestText(rest, tail)
      && stmts == Filled(texts + [tail])
  }

  lemma CoreIs(before: string, text: string, after: string)
    requires IsCore(before, text, after)
    ensures Trim(before + text + after) == text
  {
    assert before + text + after == before + (text + after);
    if text == "" {
      assert text + after == after;
      assert AllSpace(before + after);
      AllSpaceTrims(before + (text + after));
    } else {
      assert (text + after)[0] == text[0];
      TrimStartIs(before, text + after);
      TrimEndIs(text, after);
    }
  }

  lemma {:induction false} StripIs(text: string, semicolons: string)
    requires AllSemicolons(semicolons) && (text != "" ==> text[|text| - 1] != ';')
    ensures StripSemicolons(text + semicolons) == text
  {
    if semicolons == "" {
      assert text + semicolons == text;
    } else {
      var init := semicolons[..|semicolons| - 1];
      StripIs(text, init);
      assert (text + semicolons)[..|text + semicolons| - 1] == text + init;
    }
  }

  lemma {:induction false} StripEnds(s: string)
    ensures StripSemicolons(s) != "" ==> StripSemicolons(s)[|StripSemicolons(s)| - 1] != ';'
  {
    if s != "" && s[|s| - 1] == ';' { StripEnds(s[..|s| - 1]); }
  }

  lemma ChunkTextExactly(chunk: seq<string>, text: string)
    ensures StatementText(chunk, text) <==> text == ChunkText(chunk)
  {
    var all := Joined(chunk);
    if before, semicolons, after :|
       && all == before + (text + semicolons) + after && IsCore(before, text + semicolons, after)
       && AllSemicolons(semicolons) && (text != "" ==> text[|text| - 1] != ';')
    {
      CoreIs(before, text + semicolons, after);
      StripIs(text, semicolons);
    }
    if text == ChunkText(chunk) {
      var before, after := TrimCuts(all);
      var semicolons := StripCuts(Trim(all));
      StripEnds(Trim(all));
      assert Trim(all) == text + semicolons;
      assert all == before + (text + semicolons) + after && IsCore(before, text + semicolons, after);
    }
  }

  lemma RestTextExactly(rest: seq<string>, text: string)
    ensures RestText(rest, text) <==> text == Trim(Joined(rest))
  {
    if before, after :| Joined(rest) == before + text + after && IsCore(before, text, after) {
      CoreIs(before, text, after);
    }
    var before, after := TrimCuts(Joined(rest));
    assert IsCore(before, Trim(Joined(rest)), after);
  }

  lemma {:induction false} OpenUpTo(rest: seq<string>, n: nat)
    requires n <= |rest| && forall m :: 0 < m <= |rest| ==> !IsWhole(rest[..m])
    ensures forall m :: 0 < m <= n ==> !Closes(rest[..m])
  {
    if n == 0 {
    } else {
      OpenUpTo(rest, n - 1);
      var chunk := rest[..n];
      forall m | 0 < m < n ensures !Closes(chunk[..m]) { assert chunk[..m] == rest[..m]; }
      StatementsExactly(chunk);
      assert !IsWhole(chunk);
    }
  }

  /** To divide a script so is to cut it where the splitter does. */
  lemma DividesExactly(lines: seq<string>, chunks: seq<seq<string>>, rest: seq<string>)
    ensures Divides(lines, chunks, rest) <==> Cut(chunks, rest) == CutOf(KeptLines(lines))
  {
    var kept := KeptLines(lines);
    InterleavedLines(lines, Flatten(chunks) + rest);
    CutIsUnique(kept, Cut(chunks, rest));
    forall i | 0 <= i < |chunks| ensures IsStatement(chunks[i]) <==> IsWhole(chunks[i]) { StatementsExactly(chunks[i]); }
    if Divides(lines, chunks, rest) {
      OpenUpTo(rest, |rest|);
      assert rest != [] ==> rest[..|rest|] == rest;
      assert IsCut(kept, Cut(chunks, rest));
    }
    if IsCut(kept, Cut(chunks, rest)) {
      forall n | 0 < n <= |rest| ensures !IsWhole(rest[..n]) {
        StatementsExactly(rest[..n]);
        if n == |rest| { assert rest[..n] == rest; }
      }
    }
  }

  lemma {:induction false} FilledTexts(chunks: seq<seq<string>>, texts: seq<string>)
    requires TextsOf(chunks, texts)
    ensures ChunkTexts(chunks) == Filled(texts)
  {
    if chunks == [] {
    } else {
      var n := |chunks| - 1;
      FilledTexts(chunks[..n], texts[..n]);
      ChunkTextExactly(chunks[n], texts[n]);
    }
  }

  lemma FilledTail(texts: seq<string>, tail: string)
    ensures Filled(texts + [tail]) == Filled(texts) + NonEmpty(tail)
  {
    assert (texts + [tail])[..|texts|] == texts;
  }

  lemma CutTexts(cut: Cut, texts: seq<string>, tail: string)
    requires TextsOf(cut.chunks, texts) && RestText(cut.rest, tail)
    ensures Texts(cut) == Filled(texts + [tail])
  {
    FilledTexts(cut.chunks, texts);
    RestTextExactly(cut.rest, tail);
    FilledTail(texts, tail);
  }

  /** The splitter's output is the one list of texts that splitting the script can give. */
  lemma SplitExactly(lines: seq<string>, stmts: seq<string>)
    ensures SplitIs(lines, stmts) <==> stmts == Texts(CutOf(KeptLines(lines)))
  {
    var cut := CutOf(KeptLines(lines));
    if chunks, rest, texts, tail :|
       && Divides(lines, chunks, rest) && TextsOf(chunks, texts) && RestText(rest, tail)
       && stmts == Filled(texts + [tail])
    {
      DividesExactly(lines, chunks, rest);
      CutTexts(cut, texts, tail);
    }
    if stmts == Texts(cut) {
      var texts := seq(|cut.chunks|, i requires 0 <= i < |cut.chunks| => ChunkText(cut.chunks[i]));
      var tail := Trim(Joined(cut.rest));
      forall i | 0 <= i < |cut.chunks| ensures StatementText(cut.chunks[i], texts[i]) { ChunkTextExactly(cut.chunks[i], texts[i]); }
      RestTextExactly(cut.rest, tail);
      DividesExactly(lines, cut.chunks, cut.rest);
      CutTexts(cut, texts, tail);
    }
  }

  // ── the loop ─────────────────────────────────────────────────────────

  /** `split_sql_statements`, on the script's lines. */
  method SplitSqlStatements(lines: seq<string>) returns (stmts: seq<string>)
    ensures stmts == Texts(CutOf(KeptLines(lines)))
    ensures SplitIs(lines, stmts)
  {
    stmts := [];
    var current := "";
    var inTrigger := false;
    ghost var cut := Cut([], []);
    for n := 0 to |lines|
      invariant cut == CutOf(KeptLines(lines[..n]))
      invariant stmts == ChunkTexts(cut.chunks)
      invariant current == Joined(cut.rest)
      invariant inTrigger == HasBegin(cut.rest)
    {
      var line := lines[n];
      assert lines[..n + 1] == lines[..n] + [line];
      KeptLinesAppend(lines[..n], line);
      if Kept(line) {
        CutOfAppend(KeptLines(lines[..n]), line);
        GrownStep(cut, line);
        cut := Grown(cut, line);
        if EndsInBegin(line) {
          inTrigger := true;
        }
        current := current + line + "\n";
        if ClosesAt(inTrigger, line) {
          inTrigger := false;
          var stmt := StripSemicolons(Trim(current));
          if stmt != "" {
            stmts := stmts + [stmt];
          }
          current := "";
        }
      }
    }
    assert lines[..|lines|] == lines;
    var tail := Trim(current);
    if tail != "" {
      stmts := stmts + [tail];
    }
    SplitExactly(lines, stmts);
  }
}
