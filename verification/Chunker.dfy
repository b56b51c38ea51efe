/**
The Markdown chunker of the knowledge search (src/knowledge_core.py): a file's lines are split
at level 2 and 3 headings, and each piece with text becomes a chunk. Priority lines set the
score of the chunk they stand in and are not part of its text.
*/
module Chunkers {
  import opened Wrappers
  import opened Texts

  // Kinds of lines.

  datatype LineKind = Heading(heading: string, level: nat) | Priority(score: real) | Plain

  /** `^(#{2,3})\s+(.*)$` on the stripped line. */
  function HeadingOf(line: string): Option<(string, nat)> {
    var s := Strip(line);
    if |s| >= 4 && s[..3] == "###" && IsSpace(s[3]) then Some((Strip(s[3..]), 3))
    else if |s| >= 3 && s[..2] == "##" && IsSpace(s[2]) then Some((Strip(s[2..]), 2))
    else None
  }

  /** A character that matches the lower-case letter `p` when case is ignored. */
  predicate MatchesFold(c: char, p: char) {
    || c == p
    || ('a' <= p <= 'z' && c as int == p as int - 32)
    || (p == 'i' && (c == '\U{130}' || c == '\U{131}'))
    || (p == 's' && c == '\U{17F}')
  }

  predicate StartsWithFold(s: string, p: string) {
    |p| <= |s| && forall i :: 0 <= i < |p| ==> MatchesFold(s[i], p[i])
  }

  /** What case folding lets stand for a small letter: itself, its capital, and for i and s a few others. */
  lemma LettersThatMatch(c: char, p: char)
    requires 'a' <= p <= 'z'
    ensures MatchesFold(c, p) <==>
      c in {p, p - 'a' + 'A'} || (p == 'i' && c in {'\U{130}', '\U{131}'}) || (p == 's' && c == '\U{17F}')
  {
    assert p - 'a' + 'A' == (p as int - 32) as char;
  }

  const PRIORITY_KEY := "priority_score"

  /** The priority pattern, case ignored: key, colon and number with optional white space around each. */
  function PriorityOf(line: string): Option<real> {
    var s := Strip(line);
    if !StartsWithFold(s, PRIORITY_KEY) then None
    else
      var afterKey := StripLeft(s[|PRIORITY_KEY|..]);
      if afterKey == "" || afterKey[0] != ':' then None
      else ParseNumber(StripLeft(afterKey[1..]))
  }

  predicate IsDigit(c: char) {
    '0' <= c <= '9'
  }

  predicate AllDigits(s: string) {
    forall i :: 0 <= i < |s| ==> IsDigit(s[i])
  }

  function DigitRun(s: string): (n: nat)
    ensures n <= |s| && AllDigits(s[..n])
  {
    if s == "" || !IsDigit(s[0]) then 0
    else
      var n := DigitRun(s[1..]);
      assert s[..n + 1] == [s[0]] + s[1..][..n];
      n + 1
  }

  function DigitsValue(s: string): nat
    requires AllDigits(s)
  {
    if s == "" then 0 else 10 * DigitsValue(s[..|s| - 1]) + (s[|s| - 1] as int - '0' as int)
  }

  function Pow10(n: nat): nat
    ensures Pow10(n) > 0
  {
    if n == 0 then 1 else 10 * Pow10(n - 1)
  }

  /** `[0-9]+(\.[0-9]+)?` on the whole text, as a number. */
  function ParseNumber(s: string): (r: Option<real>)
    ensures r.Some? ==> r.value >= 0.0
  {
    var n := DigitRun(s);
    if n == 0 then None
    else if n == |s| then Some(DigitsValue(s[..n]) as real)
    else if s[n] != '.' then None
    else
      var fraction := s[n + 1..];
      if fraction == "" || DigitRun(fraction) != |fraction| then None
      else
        assert fraction[..|fraction|] == fraction;
        QuotientNonnegative(DigitsValue(fraction), Pow10(|fraction|));
        Some(DigitsValue(s[..n]) as real + DigitsValue(fraction) as real / Pow10(|fraction|) as real)
  }

  /** Digits, and perhaps a point and more digits. */
  predicate IsDecimal(s: string, whole: string, fraction: Option<string>) {
    && whole != "" && AllDigits(whole)
    && match fraction
       case None => s == whole
       case Some(f) => f != "" && AllDigits(f) && s == whole + "." + f
  }

  function DecimalValue(whole: string, fraction: Option<string>): real
    requires AllDigits(whole) && (fraction.Some? ==> AllDigits(fraction.value))
  {
    match fraction
    case None => DigitsValue(whole) as real
    case Some(f) => DigitsValue(whole) as real + DigitsValue(f) as real / Pow10(|f|) as real
  }

  lemma {:induction false} DigitRunStops(digits: string, rest: string)
    requires AllDigits(digits) && (rest == "" || !IsDigit(rest[0]))
    ensures DigitRun(digits + rest) == |digits|
  {
    if digits == "" {
      assert digits + rest == rest;
    } else {
      assert (digits + rest)[1..] == digits[1..] + rest;
      DigitRunStops(digits[1..], rest);
    }
  }

  /** Decimals count tenths, hundredths and so on: one digit is so many tenths, and a zero at the end adds nothing. */
  lemma DecimalPlaces(whole: string, fraction: string, digit: char)
    requires AllDigits(whole) && AllDigits(fraction) && IsDigit(digit)
    ensures DecimalValue(whole, Some([digit])) == DigitsValue(whole) as real + (digit - '0') as int as real / 10.0
    ensures AllDigits(fraction + "0")
    ensures DecimalValue(whole, Some(fraction + "0")) == DecimalValue(whole, Some(fraction))
  {
    assert [digit][..0] == "" && Pow10(1) == 10;
    assert (fraction + "0")[..|fraction|] == fraction;
    var a, b := DigitsValue(fraction) as real, Pow10(|fraction|) as real;
    assert Pow10(|fraction| + 1) as real == 10.0 * b;
    TenfoldQuotient(a, b);
  }

  lemma TenfoldQuotient(a: real, b: real)
    requires b > 0.0
    ensures (10.0 * a) / (10.0 * b) == a / b
  {
    var q := a / b;
    assert q * b == a;
    assert q * (10.0 * b) == 10.0 * a;
  }

  /** Numbers are exactly the decimals, and have their value. */
  lemma NumberPattern(s: string, value: real)
    ensures ParseNumber(s) == Some(value) <==>
      exists whole, fraction :: IsDecimal(s, whole, fraction) && DecimalValue(whole, fraction) == value
  {
    hide DigitsValue;
    if ParseNumber(s) == Some(value) {
      var n := DigitRun(s);
      if n == |s| {
        assert s[..n] == s;
        assert IsDecimal(s, s[..n], None);
      } else {
        var f := s[n + 1..];
        assert s == s[..n] + "." + f && f[..|f|] == f;
        assert IsDecimal(s, s[..n], Some(f));
      }
    }
    if whole, fraction :| IsDecimal(s, whole, fraction) && DecimalValue(whole, fraction) == value {
      DecimalIsParsed(s, whole, fraction);
    }
  }

  lemma DecimalIsParsed(s: string, whole: string, fraction: Option<string>)
    requires IsDecimal(s, whole, fraction)
    ensures ParseNumber(s) == Some(DecimalValue(whole, fraction))
  {
    hide DigitsValue, DigitRun;
    match fraction
    case None =>
      assert s + "" == s;
      DigitRunStops(s, "");
      assert s[..|s|] == s;
    case Some(f) =>
      assert s == whole + ("." + f);
      DigitRunStops(whole, "." + f);
      assert s[..|whole|] == whole && s[|whole| + 1..] == f;
      assert f + "" == f;
      DigitRunStops(f, "");
      assert f[..|f|] == f;
  }

  lemma QuotientNonnegative(a: nat, b: nat)
    requires b > 0
    ensures a as real / b as real >= 0.0
  {
  }

  function Classify(line: string): LineKind {
    match HeadingOf(line)
    case Some((heading, level)) => Heading(heading, level)
    case None =>
      match PriorityOf(line)
      case Some(score) => Priority(score)
      case None => Plain
  }

  function Hashes(level: nat): string {
    if level == 3 then "###" else "##"
  }

  /** A stripped heading line: two or three hashes, white space, and a heading that is not blank. */
  predicate IsHeadingText(s: string, heading: string, level: nat, gap: string) {
    && 2 <= level <= 3 && s == Hashes(level) + gap + heading
    && gap != "" && AllSpace(gap) && heading != "" && NoOuterSpace(heading)
  }

  /** The heading pattern accepts exactly the lines of that shape, and finds their heading and level. */
  lemma HeadingPattern(line: string, heading: string, level: nat)
    ensures HeadingOf(line) == Some((heading, level)) <==> exists gap :: IsHeadingText(Strip(line), heading, level, gap)
  {
    hide Strip;
    var s := Strip(line);
    if HeadingOf(line) == Some((heading, level)) {
      var left, right := StripCuts(line);
      var tail := s[level..];
      var gap, pad := StripCuts(tail);
      HeadingTail(s, level, gap, pad);
      assert IsHeadingText(s, heading, level, gap);
    }
    if gap :| IsHeadingText(s, heading, level, gap) {
      assert s[..level] == Hashes(level) && s[level..] == gap + heading + "";
      assert s[level] == gap[0];
      assert level == 2 ==> s[..3][2] == gap[0] && "###"[2] == '#';
      StripPadded(gap, heading, "");
    }
  }

  lemma HeadingTail(s: string, level: nat, gap: string, pad: string)
    requires 2 <= level <= 3 && level < |s| && s[..level] == Hashes(level) && IsSpace(s[level])
    requires NoOuterSpace(s)
    requires s[level..] == gap + Strip(s[level..]) + pad && AllSpace(gap) && AllSpace(pad)
    requires NoOuterSpace(Strip(s[level..])) && (Strip(s[level..]) == "" <==> AllSpace(s[level..]))
    ensures IsHeadingText(s, Strip(s[level..]), level, gap)
  {
    var tail := s[level..];
    var heading := Strip(tail);
    assert tail[|tail| - 1] == s[|s| - 1];
    assert pad == "" && heading != "" && gap != "";
    assert s == s[..level] + tail;
    assert s == Hashes(level) + gap + heading;
  }

  /** The pieces of a priority line: white space p0 to p3 around the key, the colon and the number. */
  datatype Pieces = Pieces(p0: string, key: string, p1: string, p2: string, number: string, p3: string)

  /** The line is the key in any case, a colon and a number, with any white space around each. */
  predicate IsPriorityLine(line: string, score: real, x: Pieces) {
    && AllSpace(x.p0) && AllSpace(x.p1) && AllSpace(x.p2) && AllSpace(x.p3)
    && |x.key| == |"priority_score"| && StartsWithFold(x.key, "priority_score")
    && ParseNumber(x.number) == Some(score)
    && line == x.p0 + (x.key + x.p1 + ":" + x.p2 + x.number) + x.p3
  }

  /** The priority pattern accepts exactly the lines of that shape, and finds their number. */
  lemma PriorityPattern(line: string, score: real)
    ensures PriorityOf(line) == Some(score) <==> exists x :: IsPriorityLine(line, score, x)
  {
    hide PriorityOf, IsPriorityLine;
    if PriorityOf(line) == Some(score) {
      var x := PriorityPieces(line, score);
    }
    if x :| IsPriorityLine(line, score, x) {
      PriorityLineIsFound(line, score, x);
    }
  }

  lemma PriorityLineIsFound(line: string, score: real, x: Pieces)
    requires IsPriorityLine(line, score, x)
    ensures PriorityOf(line) == Some(score)
  {
    hide PriorityOf, ParseNumber, StartsWithFold, AllSpace;
    PiecesAreFound(x.p0, x.key, x.p1, x.p2, x.number, x.p3);
  }

  lemma PriorityPieces(line: string, score: real) returns (x: Pieces)
    requires PriorityOf(line) == Some(score)
    ensures IsPriorityLine(line, score, x)
  {
    hide Strip, StripLeft, ParseNumber;
    var s := Strip(line);
    var p0, p3 := StripCuts(line);
    var key, afterKey := s[..|PRIORITY_KEY|], s[|PRIORITY_KEY|..];
    assert forall i :: 0 <= i < |key| ==> key[i] == s[i];
    var p1 := StripLeftCut(afterKey);
    var colon := StripLeft(afterKey);
    var p2 := StripLeftCut(colon[1..]);
    var number := StripLeft(colon[1..]);
    x := Pieces(p0, key, p1, p2, number, p3);
    assert colon == ":" + (p2 + number);
    assert s == key + (p1 + (":" + (p2 + number)));
    Ungroup(key, p1, ":", p2, number);
  }

  lemma Ungroup(a: string, b: string, c: string, d: string, e: string)
    ensures a + (b + (c + (d + e))) == a + b + c + d + e
  {
  }

  lemma PiecesAreFound(p0: string, key: string, p1: string, p2: string, number: string, p3: string)
    requires AllSpace(p0) && AllSpace(p1) && AllSpace(p2) && AllSpace(p3)
    requires |key| == |PRIORITY_KEY| && StartsWithFold(key, PRIORITY_KEY)
    requires ParseNumber(number).Some?
    ensures PriorityOf(p0 + (key + p1 + ":" + p2 + number) + p3) == ParseNumber(number)
  {
    hide Strip, StripLeft;
    var s := key + p1 + ":" + p2 + number;
    NumberHasNoOuterSpace(number);
    assert s[0] == key[0] && s[|s| - 1] == number[|number| - 1];
    assert MatchesFold(key[0], 'p');
    StripPadded(p0, s, p3);
    assert StartsWithFold(s, PRIORITY_KEY) by {
      assert forall i :: 0 <= i < |key| ==> s[i] == key[i];
    }
    var rest := ":" + (p2 + number);
    assert s == key + (p1 + rest);
    assert s[|key|..] == p1 + rest;
    StripLeftPad(p1, rest);
    assert rest[1..] == p2 + number;
    StripLeftPad(p2, number);
  }

  lemma NumberHasNoOuterSpace(s: string)
    requires ParseNumber(s).Some?
    ensures s != "" && !IsSpace(s[0]) && !IsSpace(s[|s| - 1])
  {
    var n := DigitRun(s);
    assert s[..n][0] == s[0] && IsDigit(s[0]);
    if n == |s| {
      assert s[..n][|s| - 1] == s[|s| - 1] && IsDigit(s[|s| - 1]);
    } else {
      var fraction := s[n + 1..];
      assert fraction[..|fraction|][|fraction| - 1] == s[|s| - 1] && IsDigit(s[|s| - 1]);
    }
  }

  // The specification: sections between headings, and the chunks they give.

  /** A piece of the file: the heading it stands under and its lines, headings excluded. */
  datatype Section = Section(heading: string, level: nat, lines: seq<string>)

  /** The file cut at its headings; text before the first one stands under the given heading. */
  function Sections(heading: string, level: nat, lines: seq<string>): (sections: seq<Section>)
    ensures sections != []
  {
    if lines == [] then [Section(heading, level, [])]
    else Extended(Sections(heading, level, lines[..|lines| - 1]), lines[|lines| - 1])
  }

  /** One more line: a heading opens a section, any other line belongs to the last one. */
  function Extended(sections: seq<Section>, line: string): (more: seq<Section>)
    requires sections != []
    ensures more != []
  {
    match Classify(line)
    case Heading(h, l) => sections + [Section(h, l, [])]
    case _ =>
      var last := sections[|sections| - 1];
      sections[..|sections| - 1] + [last.(lines := last.lines + [line])]
  }

  function TextLines(lines: seq<string>): seq<string> {
    if lines == [] then []
    else
      var front := TextLines(lines[..|lines| - 1]);
      if Classify(lines[|lines| - 1]) == Plain then front + [lines[|lines| - 1]] else front
  }

  /** The last priority line decides; without one the score is 1. */
  function Score(lines: seq<string>): real {
    if lines == [] then 1.0
    else
      match Classify(lines[|lines| - 1])
      case Priority(score) => score
      case _ => Score(lines[..|lines| - 1])
  }

  function Body(section: Section): string {
    Strip(Join(TextLines(section.lines), "\n"))
  }

  function Decimal(n: nat): string {
    if n < 10 then [n as char + '0'] else Decimal(n / 10) + Decimal(n % 10)
  }

  /** `f"{path}#{index}"` */
  function ChunkId(path: string, index: nat): string {
    path + "#" + Decimal(index)
  }

  lemma {:induction false} DecimalHasValue(n: nat)
    ensures var s := Decimal(n);
      s != "" && AllDigits(s) && DigitsValue(s) == n
  {
    var s := Decimal(n);
    if n < 10 {
      assert s[..0] == "" && DigitsValue("") == 0;
    } else {
      DecimalHasValue(n / 10);
      DecimalHasValue(n % 10);
      assert Decimal(n % 10) == [(n % 10) as char + '0'];
      assert s[..|s| - 1] == Decimal(n / 10);
    }
  }

  /** An id tells path and number: the digits behind its last `#` are the number. */
  lemma ChunkIdTells(path: string, index: nat, path': string, index': nat)
    ensures ChunkId(path, index) == ChunkId(path', index') <==> path == path' && index == index'
  {
    hide Decimal, DigitsValue;
    DecimalHasValue(index);
    DecimalHasValue(index');
    if ChunkId(path, index) == ChunkId(path', index') {
      assert '#' !in Decimal(index) && '#' !in Decimal(index');
      LastMarkSplits('#', path, Decimal(index), path', Decimal(index'));
    }
  }

  datatype Chunk = Chunk(id: string, sourcePath: string, heading: string, level: nat, body: string, priority: real)

  function ChunkOf(path: string, index: nat, section: Section): Chunk {
    Chunk(ChunkId(path, index), path, section.heading, section.level, Body(section), Score(section.lines))
  }

  /** The sections with text, numbered in order from `start`. */
  function ChunksFrom(path: string, start: nat, sections: seq<Section>): seq<Chunk> {
    if sections == [] then []
    else
      AddChunk(path, start, ChunksFrom(path, start, sections[..|sections| - 1]), sections[|sections| - 1])
  }

  function AddChunk(path: string, start: nat, front: seq<Chunk>, section: Section): seq<Chunk> {
    front + ChunkIfText(path, start + |front|, section)
  }

  function ChunkIfText(path: string, index: nat, section: Section): seq<Chunk> {
    if Body(section) == "" then [] else [ChunkOf(path, index, section)]
  }

  function Chunks(path: string, stem: string, lines: seq<string>): seq<Chunk> {
    ChunksFrom(path, 0, Sections(stem, 1, lines))
  }

  // What the specification means.

  predicate IsHeading(line: string) {
    Classify(line).Heading?
  }

  function SectionLines(sections: seq<Section>): seq<string> {
    if sections == [] then [] else SectionLines(sections[..|sections| - 1]) + sections[|sections| - 1].lines
  }

  function NonHeadings(lines: seq<string>): seq<string> {
    if lines == [] then []
    else
      var front := NonHeadings(lines[..|lines| - 1]);
      if IsHeading(lines[|lines| - 1]) then front else front + [lines[|lines| - 1]]
  }

  function HeadingCount(lines: seq<string>): nat {
    if lines == [] then 0 else HeadingCount(lines[..|lines| - 1]) + if IsHeading(lines[|lines| - 1]) then 1 else 0
  }

  /** Every line that is not a heading stands in exactly one section, in order, and every heading opens one. */
  lemma {:induction false} SectionsPartitionLines(heading: string, level: nat, lines: seq<string>)
    ensures SectionLines(Sections(heading, level, lines)) == NonHeadings(lines)
    ensures |Sections(heading, level, lines)| == 1 + HeadingCount(lines)
    ensures forall i :: 0 <= i < |Sections(heading, level, lines)| ==>
      forall j :: 0 <= j < |Sections(heading, level, lines)[i].lines| ==>
        !IsHeading(Sections(heading, level, lines)[i].lines[j])
  {
    hide Classify;
    if lines != [] {
      var n := |lines| - 1;
      SectionsPartitionLines(heading, level, lines[..n]);
      var front := Sections(heading, level, lines[..n]);
      var all := Sections(heading, level, lines);
      assert all[..|all| - 1] == if IsHeading(lines[n]) then front else front[..|front| - 1];
    }
  }

  lemma SectionsSnoc(heading: string, level: nat, lines: seq<string>, line: string)
    ensures Sections(heading, level, lines + [line]) == Extended(Sections(heading, level, lines), line)
  {
    hide Extended;
    assert (lines + [line])[..|lines|] == lines;
  }

  lemma NoSections(heading: string, level: nat)
    ensures Sections(heading, level, []) == [Section(heading, level, [])]
  {
  }

  lemma ExtendedOnRight(a: seq<Section>, b: seq<Section>, line: string)
    requires b != []
    ensures Extended(a + b, line) == a + Extended(b, line)
  {
    hide Classify;
    assert (a + b)[..|a + b| - 1] == a + b[..|b| - 1];
  }

  /** What stands before a heading and what follows it never mix: the file is cut there. */
  lemma {:induction false} HeadingSeparates(heading: string, level: nat, before: seq<string>,
      line: string, after: seq<string>)
    requires IsHeading(line)
    ensures var kind := Classify(line);
      Sections(heading, level, before + [line] + after)
        == Sections(heading, level, before) + Sections(kind.heading, kind.level, after)
  {
    hide Sections;
    var kind := Classify(line);
    if after == [] {
      assert before + [line] + after == before + [line];
      SectionsSnoc(heading, level, before, line);
      NoSections(kind.heading, kind.level);
    } else {
      hide Classify, Extended;
      var n := |after| - 1;
      HeadingSeparates(heading, level, before, line, after[..n]);
      assert after == after[..n] + [after[n]];
      assert before + [line] + after == (before + [line] + after[..n]) + [after[n]];
      SectionsSnoc(heading, level, before + [line] + after[..n], after[n]);
      SectionsSnoc(kind.heading, kind.level, after[..n], after[n]);
      ExtendedOnRight(Sections(heading, level, before), Sections(kind.heading, kind.level, after[..n]), after[n]);
    }
  }

  lemma ChunksSnoc(path: string, start: nat, sections: seq<Section>, section: Section)
    ensures ChunksFrom(path, start, sections + [section])
      == AddChunk(path, start, ChunksFrom(path, start, sections), section)
  {
    hide AddChunk;
    var all := sections + [section];
    assert all != [] && all[..|all| - 1] == sections && all[|all| - 1] == section;
  }

  lemma NoChunks(path: string, start: nat)
    ensures ChunksFrom(path, start, []) == []
  {
  }

  lemma {:induction false} ChunksConcat(path: string, start: nat, a: seq<Section>, b: seq<Section>)
    ensures ChunksFrom(path, start, a + b)
      == ChunksFrom(path, start, a) + ChunksFrom(path, start + |ChunksFrom(path, start, a)|, b)
  {
    hide ChunksFrom, ChunkIfText;
    var front := ChunksFrom(path, start, a);
    if b == [] {
      assert a + b == a;
      NoChunks(path, start + |front|);
    } else {
      var n := |b| - 1;
      ChunksConcat(path, start, a, b[..n]);
      assert b == b[..n] + [b[n]];
      assert a + b == (a + b[..n]) + [b[n]];
      ChunksSnoc(path, start, a + b[..n], b[n]);
      ChunksSnoc(path, start + |front|, b[..n], b[n]);
    }
  }

  /** Chunks on either side of a heading are made independently; only the numbering goes on. */
  lemma NothingLeaksAcrossHeading(path: string, stem: string, before: seq<string>, line: string, after: seq<string>)
    requires IsHeading(line)
    ensures var kind := Classify(line);
      Chunks(path, stem, before + [line] + after)
        == Chunks(path, stem, before)
         + ChunksFrom(path, |Chunks(path, stem, before)|, Sections(kind.heading, kind.level, after))
  {
    hide Sections, ChunksFrom, Classify;
    var kind := Classify(line);
    HeadingSeparates(stem, 1, before, line, after);
    ChunksConcat(path, 0, Sections(stem, 1, before), Sections(kind.heading, kind.level, after));
  }

  /** Chunks are numbered 0, 1, ... in order, and each has text with no white space around it. */
  lemma {:induction false} ChunksAreNumbered(path: string, start: nat, sections: seq<Section>)
    ensures var chunks := ChunksFrom(path, start, sections);
      && |chunks| <= |sections|
      && forall i :: 0 <= i < |chunks| ==>
        && chunks[i].id == ChunkId(path, start + i) && chunks[i].sourcePath == path
        && chunks[i].body != "" && NoOuterSpace(chunks[i].body)
  {
    hide ChunkId, NoOuterSpace, Strip, Join, TextLines, Score;
    if sections != [] {
      ChunksAreNumbered(path, start, sections[..|sections| - 1]);
      var left, right := StripCuts(Join(TextLines(sections[|sections| - 1].lines), "\n"));
    }
  }

  predicate AllBlank(lines: seq<string>) {
    forall i :: 0 <= i < |lines| ==> AllSpace(lines[i])
  }

  /** A blank line, white space included, gives no chunk of its own: sections of blank lines vanish. */
  lemma BlankSectionVanishes(section: Section)
    ensures Body(section) == "" <==> AllBlank(TextLines(section.lines))
  {
    hide TextLines, Strip;
    var text := TextLines(section.lines);
    var left, right := StripCuts(Join(text, "\n"));
    JoinIsBlank(text);
  }

  lemma {:induction false} JoinIsBlank(lines: seq<string>)
    ensures AllSpace(Join(lines, "\n")) <==> AllBlank(lines)
  {
    if |lines| >= 2 {
      var rest := lines[1..];
      JoinIsBlank(rest);
      var joined := Join(lines, "\n");
      assert joined == lines[0] + "\n" + Join(rest, "\n");
      if AllSpace(joined) {
        assert forall i :: 0 <= i < |lines[0]| ==> lines[0][i] == joined[i];
        assert forall i :: 0 <= i < |Join(rest, "\n")| ==> Join(rest, "\n")[i] == joined[|lines[0]| + 1 + i];
        forall i | 0 <= i < |lines|
          ensures AllSpace(lines[i])
        {
          if i > 0 {
            assert lines[i] == rest[i - 1];
          }
        }
      }
      if AllBlank(lines) {
        assert forall i :: 0 <= i < |rest| ==> rest[i] == lines[i + 1];
      }
    }
  }

  lemma LineSnoc(lines: seq<string>, line: string)
    ensures TextLines(lines + [line])
      == (if Classify(line) == Plain then TextLines(lines) + [line] else TextLines(lines))
    ensures Score(lines + [line]) == match Classify(line) case Priority(score) => score case _ => Score(lines)
  {
    hide Classify;
    assert (lines + [line])[..|lines|] == lines;
  }

  /** Headings and priority lines are told by their patterns, headings first; every other line is text. */
  lemma KindsOfLines(line: string, heading: string, level: nat, score: real)
    ensures Classify(line) == Heading(heading, level) <==>
      exists gap :: IsHeadingText(Strip(line), heading, level, gap)
    ensures Classify(line) == Priority(score) <==> !IsHeading(line) && exists x :: IsPriorityLine(line, score, x)
    ensures Classify(line) == Plain <==> HeadingOf(line).None? && PriorityOf(line).None?
  {
    hide HeadingOf, PriorityOf, IsHeadingText, IsPriorityLine;
    HeadingPattern(line, heading, level);
    PriorityPattern(line, score);
  }

  lemma {:induction false} OneSection(heading: string, level: nat, lines: seq<string>)
    requires forall line :: line in lines ==> !IsHeading(line)
    ensures Sections(heading, level, lines) == [Section(heading, level, lines)]
  {
    hide Classify;
    if lines != [] {
      var n := |lines| - 1;
      assert lines[n] in lines && forall line :: line in lines[..n] ==> line in lines;
      OneSection(heading, level, lines[..n]);
      assert lines[..n] + [lines[n]] == lines;
    }
  }

  /** What lines without a heading give: one chunk under the heading they stand under, unless their text is blank. */
  lemma PassageGivesChunk(path: string, start: nat, heading: string, level: nat, lines: seq<string>)
    requires forall line :: line in lines ==> !IsHeading(line)
    ensures var body := Strip(Join(TextLines(lines), "\n"));
      ChunksFrom(path, start, Sections(heading, level, lines)) == if body == "" then []
        else [Chunk(path + "#" + Decimal(start), path, heading, level, body, Score(lines))]
  {
    hide Sections, Strip, Join, TextLines, Score, Decimal;
    OneSection(heading, level, lines);
    var sections := [Section(heading, level, lines)];
    assert sections[..0] == [] && ChunksFrom(path, start, []) == [];
    assert ChunksFrom(path, start, sections) == AddChunk(path, start, [], sections[0]);
  }

  /** The last section of a file: its heading, level, text and priority make one more chunk, with the next number. */
  lemma LastSectionGivesChunk(path: string, stem: string, before: seq<string>, line: string, after: seq<string>)
    requires IsHeading(line) && forall other :: other in after ==> !IsHeading(other)
    ensures var body := Strip(Join(TextLines(after), "\n"));
      var front := Chunks(path, stem, before);
      Chunks(path, stem, before + [line] + after) == front + if body == "" then []
        else [Chunk(path + "#" + Decimal(|front|), path, Classify(line).heading, Classify(line).level, body,
                    Score(after))]
  {
    hide Classify, Chunks, ChunksFrom, Strip, Join, TextLines, Score, Decimal;
    NothingLeaksAcrossHeading(path, stem, before, line, after);
    PassageGivesChunk(path, |Chunks(path, stem, before)|, Classify(line).heading, Classify(line).level, after);
  }

  /** Before its first heading a file's lines stand under its stem, at level one. */
  lemma OpeningGivesChunk(path: string, stem: string, lines: seq<string>)
    requires forall line :: line in lines ==> !IsHeading(line)
    ensures var body := Strip(Join(TextLines(lines), "\n"));
      Chunks(path, stem, lines) == if body == "" then []
        else [Chunk(path + "#" + Decimal(0), path, stem, 1, body, Score(lines))]
  {
    hide Classify, ChunksFrom, Strip, Join, TextLines, Score, Decimal;
    PassageGivesChunk(path, 0, stem, 1, lines);
  }

  lemma NoLines()
    ensures TextLines([]) == [] && Score([]) == 1.0
  {
  }

  // The loop with its flush.

  class Chunker {
    const path: string
    var chunks: seq<Chunk>
    var currentHeading: string
    var currentLevel: nat
    var currentLines: seq<string>
    var chunkIndex: nat
    var priorityScore: real

    constructor (path: string, stem: string)
      ensures this.path == path && chunks == [] && chunkIndex == 0
      ensures currentHeading == stem && currentLevel == 1 && currentLines == [] && priorityScore == 1.0
    {
      this.path := path;
      chunks, chunkIndex := [], 0;
      currentHeading, currentLevel, currentLines, priorityScore := stem, 1, [], 1.0;
    }

    /** The fields are those of a loop that has finished `done` and is inside `open`. */
    ghost predicate Matches(done: seq<Section>, open: Section)
      reads this
    {
      && chunks == ChunksFrom(path, 0, done) && chunkIndex == |chunks|
      && currentHeading == open.heading && currentLevel == open.level
      && currentLines == TextLines(open.lines) && priorityScore == Score(open.lines)
    }

    /** Ends the open section: a chunk if it has text, and in any case a clean slate. */
    method Flush(ghost done: seq<Section>, ghost open: Section)
      requires Matches(done, open)
      modifies this`chunks, this`chunkIndex, this`currentLines, this`priorityScore
      ensures chunks == ChunksFrom(path, 0, done + [open]) && chunkIndex == |chunks|
      ensures currentLines == [] && priorityScore == 1.0
    {
      ChunksSnoc(path, 0, done, open);
      var body := Strip(Join(currentLines, "\n"));
      if body == "" {
        currentLines := [];
        priorityScore := 1.0;
        return;
      }
      var chunk := Chunk(ChunkId(path, chunkIndex), path, currentHeading, currentLevel, body, priorityScore);
      chunks := chunks + [chunk];
      chunkIndex := chunkIndex + 1;
      currentLines := [];
      priorityScore := 1.0;
    }

    /** `_chunk_markdown` on the lines of one file. */
    method ChunkMarkdown(stem: string, lines: seq<string>)
      requires chunks == [] && chunkIndex == 0
      requires currentHeading == stem && currentLevel == 1 && currentLines == [] && priorityScore == 1.0
      modifies this
      ensures chunks == Chunks(path, stem, lines)
    {
      hide Sections, ChunksFrom, HeadingOf, PriorityOf, TextLines, Score;
      NoSections(stem, 1);
      NoChunks(path, 0);
      NoLines();
      ghost var done: seq<Section> := [];
      ghost var open := Section(stem, 1, []);
      for i := 0 to |lines|
        invariant Sections(stem, 1, lines[..i]) == done + [open]
        invariant Matches(done, open)
      {
        var line := lines[i];
        assert lines[..i + 1] == lines[..i] + [line];
        SectionsSnoc(stem, 1, lines[..i], line);
        assert (done + [open])[..|done|] == done;
        var headingMatch := HeadingOf(line);
        if headingMatch.Some? {
          Flush(done, open);
          NoLines();
          currentHeading, currentLevel := headingMatch.value.0, headingMatch.value.1;
          done, open := done + [open], Section(headingMatch.value.0, headingMatch.value.1, []);
          continue;
        }
        LineSnoc(open.lines, line);
        ghost var longer := open.(lines := open.lines + [line]);
        var priorityMatch := PriorityOf(line);
        if priorityMatch.Some? {
          priorityScore := priorityMatch.value;
          open := longer;
          continue;
        }
        currentLines := currentLines + [line];
        open := longer;
      }
      assert lines[..|lines|] == lines;
      Flush(done, open);
    }
  }
}
