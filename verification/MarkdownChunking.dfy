/** The string operations that the chunker relies on. */
module Text {
  import opened Common

  /** The characters that Python's `str.strip` removes. */
  predicate IsSpace(c: char) {
    || c == ' ' || '\t' <= c <= '\r' || '\U{1C}' <= c <= '\U{1F}'
    || c == '\U{85}' || c == '\U{A0}' || c == '\U{1680}' || '\U{2000}' <= c <= '\U{200A}'
    || c == '\U{2028}' || c == '\U{2029}' || c == '\U{202F}' || c == '\U{205F}' || c == '\U{3000}'
  }

  predicate AllSpace(s: string) {
    forall i :: 0 <= i < |s| ==> IsSpace(s[i])
  }

  function StripStart(s: string): string {
    if s == [] || !IsSpace(s[0]) then s else StripStart(s[1..])
  }

  function StripEnd(s: string): string {
    if s == [] || !IsSpace(Last(s)) then s else StripEnd(Front(s))
  }

  function Strip(s: string): string {
    StripEnd(StripStart(s))
  }

  lemma {:induction false} StripStartMeaning(s: string) returns (i: nat)
    ensures i <= |s| && StripStart(s) == s[i..] && AllSpace(s[..i])
    ensures i < |s| ==> !IsSpace(s[i])
  {
    if s == [] || !IsSpace(s[0]) {
      i := 0;
    } else {
      var k := StripStartMeaning(s[1..]);
      i := k + 1;
      assert s[1..][k..] == s[i..];
      assert s[..i] == [s[0]] + s[1..][..k];
    }
  }

  lemma {:induction false} StripEndMeaning(s: string) returns (j: nat)
    ensures j <= |s| && StripEnd(s) == s[..j] && AllSpace(s[j..])
    ensures j > 0 ==> !IsSpace(s[j - 1])
  {
    if s == [] || !IsSpace(Last(s)) {
      j := |s|;
    } else {
      j := StripEndMeaning(Front(s));
      assert Front(s)[..j] == s[..j];
      assert s[j..] == Front(s)[j..] + [Last(s)];
    }
  }

  /** Stripping cuts the text between its first and its last character that is not white space;
      a blank text leaves nothing. */
  lemma StripMeaning(s: string) returns (i: nat, j: nat)
    ensures i <= j <= |s| && Strip(s) == s[i..j] && AllSpace(s[..i]) && AllSpace(s[j..])
    ensures i < j ==> !IsSpace(s[i]) && !IsSpace(s[j - 1])
  {
    i := StripStartMeaning(s);
    var t := s[i..];
    var n := StripEndMeaning(t);
    j := i + n;
    assert t[..n] == s[i..j] && t[n..] == s[j..];
    if n == 0 {
      assert AllSpace(t);
      assert i == |s|;
    }
  }

  lemma StripKeepsPlain(s: string)
    requires '\n' !in s
    ensures '\n' !in Strip(s)
  {
    var i, j := StripMeaning(s);
  }

  /** `"\n".join(parts)` */
  function Join(parts: seq<string>): string {
    if parts == [] then ""
    else if |parts| == 1 then parts[0]
    else Join(Front(parts)) + "\n" + Last(parts)
  }

  /** The pieces between line feeds. */
  function Split(s: string): (parts: seq<string>)
    ensures parts != []
  {
    if s == [] then [""]
    else if Last(s) == '\n' then Split(Front(s)) + [""]
    else Front(Split(Front(s))) + [Last(Split(Front(s))) + [Last(s)]]
  }

  lemma {:induction false} SplitPlain(s: string)
    requires '\n' !in s
    ensures Split(s) == [s]
  {
    if s != [] {
      SplitPlain(Front(s));
      var parts := Split(Front(s));
      assert parts == [Front(s)] && Front(parts) == [];
      assert Front(s) + [Last(s)] == s;
    }
  }

  lemma {:induction false} SplitAtLastFeed(a: string, b: string)
    requires '\n' !in b
    ensures Split(a + "\n" + b) == Split(a) + [b]
  {
    var s := a + "\n" + b;
    if b == [] {
      assert s == a + "\n" && Front(s) == a;
    } else {
      SplitAtLastFeed(a, Front(b));
      assert Front(s) == a + "\n" + Front(b);
      assert Front(b) + [Last(b)] == b;
    }
  }

  ghost predicate Plain(parts: seq<string>) {
    forall i :: 0 <= i < |parts| ==> parts[i] != [] && '\n' !in parts[i]
  }

  /** Joining loses nothing: the lines of a chunk can be read back from its content. */
  lemma {:induction false} SplitUndoesJoin(parts: seq<string>)
    requires parts != [] && Plain(parts)
    ensures Split(Join(parts)) == parts
  {
    if |parts| == 1 {
      SplitPlain(parts[0]);
    } else {
      SplitUndoesJoin(Front(parts));
      SplitAtLastFeed(Join(Front(parts)), Last(parts));
      assert Front(parts) + [Last(parts)] == parts;
    }
  }

  lemma {:induction false} JoinEmpty(parts: seq<string>)
    requires Plain(parts)
    ensures Join(parts) == "" <==> parts == []
  {
  }

  /** The format `03d`. */
  function Pad3(n: nat): string {
    if n < 10 then "00" + Decimal(n) else if n < 100 then "0" + Decimal(n) else Decimal(n)
  }

  lemma {:induction false} ParseZero(s: string)
    ensures ParseDecimal("0" + s) == ParseDecimal(s)
  {
    if s == [] {
      assert Front("0") == [];
    } else {
      ParseZero(Front(s));
      assert Front("0" + s) == "0" + Front(s);
    }
  }

  lemma {:induction false} DecimalShape(n: nat)
    ensures Decimal(n) != [] && forall i :: 0 <= i < |Decimal(n)| ==> '0' <= Decimal(n)[i] <= '9'
    ensures n > 0 ==> Decimal(n)[0] != '0'
    ensures n >= 100 ==> |Decimal(n)| > 2
    ensures n >= 1000 ==> |Decimal(n)| > 3
  {
    if n >= 10 {
      DecimalShape(n / 10);
      assert Decimal(n)[0] == Decimal(n / 10)[0];
      assert n >= 100 ==> n / 10 >= 10 && |Decimal(n / 10)| == |Decimal(n / 10 / 10)| + 1;
    }
  }

  lemma DecimalLength(n: nat)
    ensures n < 10 ==> |Decimal(n)| == 1
    ensures 10 <= n < 100 ==> |Decimal(n)| == 2
    ensures 100 <= n < 1000 ==> |Decimal(n)| == 3
  {
    if 10 <= n < 100 {
      assert |Decimal(n)| == |Decimal(n / 10)| + 1 == 2;
    } else if 100 <= n < 1000 {
      assert |Decimal(n)| == |Decimal(n / 10)| + 1 == |Decimal(n / 10 / 10)| + 2 == 3;
    }
  }

  lemma PaddedValue(n: nat)
    ensures ParseDecimal(Pad3(n)) == n
  {
    DecimalRoundTrip(n);
    ParseZero(Decimal(n));
    ParseZero("0" + Decimal(n));
    assert "00" + Decimal(n) == "0" + ("0" + Decimal(n));
  }

  /** The number in digits: three of them, with zeros in front, or as many as it takes and no zero in
      front. */
  lemma Pad3Meaning(n: nat)
    ensures ParseDecimal(Pad3(n)) == n && forall i :: 0 <= i < |Pad3(n)| ==> '0' <= Pad3(n)[i] <= '9'
    ensures n < 1000 ==> |Pad3(n)| == 3
    ensures n >= 1000 ==> |Pad3(n)| > 3 && Pad3(n)[0] != '0'
  {
    PaddedValue(n);
    DecimalShape(n);
    DecimalLength(n);
  }

  lemma Pad3Injective(m: nat, n: nat)
    ensures Pad3(m) == Pad3(n) ==> m == n
  {
    Pad3Meaning(m);
    Pad3Meaning(n);
  }
}

/** Cutting a knowledge file into chunks, one for each section that has text. */
module MarkdownChunking {
  import opened Common
  import opened Text

  datatype Chunk = Chunk(id: string, title: string, content: string)

  const TAG_PREFIX := "\U{6807}\U{7B7E}:"

  /** What a line of the file is to the chunker. */
  datatype Line = Heading(title: string) | Skipped | Blank | BodyLine(text: string)

  predicate IsHeading(line: string) {
    "## " <= line
  }

  predicate IsSkipped(line: string) {
    "# " <= line || TAG_PREFIX <= line
  }

  function Classify(line: string): Line {
    if IsHeading(line) then Heading(Strip(line[3..]))
    else if IsSkipped(line) then Skipped
    else if Strip(line) == [] then Blank
    else BodyLine(Strip(line))
  }

  function Classified(lines: seq<string>): (r: seq<Line>)
    ensures |r| == |lines|
  {
    seq(|lines|, i requires 0 <= i < |lines| => Classify(lines[i]))
  }

  // ----- what the chunks should be

  /** A line was kept since the last heading; a blank one counts. */
  predicate OpenAfter(lines: seq<Line>) {
    lines != []
    && (Last(lines).BodyLine? || Last(lines).Blank? || (Last(lines).Skipped? && OpenAfter(Front(lines))))
  }

  /** How many sections were closed: the headings with a line kept between them and the heading above. */
  function ClosedSections(lines: seq<Line>): nat {
    if lines == [] then 0
    else ClosedSections(Front(lines)) + if Last(lines).Heading? && OpenAfter(Front(lines)) then 1 else 0
  }

  /** The nearest heading above the end of the lines, or the stem of the document. */
  function TitleAfter(lines: seq<Line>, stem: string): string {
    if lines == [] then stem
    else if Last(lines).Heading? then Last(lines).title
    else TitleAfter(Front(lines), stem)
  }

  /** A body line with the number of its section and the title it stands under. */
  datatype Tagged = Tagged(section: nat, title: string, text: string)

  /** The body lines of the file in order, stripped. */
  function Body(lines: seq<Line>, stem: string): seq<Tagged> {
    if lines == [] then []
    else if Last(lines).BodyLine?
    then Body(Front(lines), stem) + [Tagged(ClosedSections(Front(lines)), TitleAfter(Front(lines), stem),
                                          Last(lines).text)]
    else Body(Front(lines), stem)
  }

  datatype Section = Section(number: nat, title: string, lines: seq<string>)

  function WithLine(s: Section, line: string): Section {
    Section(s.number, s.title, s.lines + [line])
  }

  /** The body lines gathered by section. */
  function Grouped(body: seq<Tagged>): (sections: seq<Section>)
    ensures sections == [] <==> body == []
  {
    if body == [] then []
    else
      var before, last := Grouped(Front(body)), Last(body);
      if Front(body) != [] && Last(Front(body)).section == last.section
      then Front(before) + [WithLine(Last(before), last.text)]
      else before + [Section(last.section, last.title, [last.text])]
  }

  lemma GroupedAppend(body: seq<Tagged>, t: Tagged)
    ensures var sections := Grouped(body);
            Grouped(body + [t])
            == if body != [] && Last(body).section == t.section
               then Front(sections) + [WithLine(Last(sections), t.text)]
               else sections + [Section(t.section, t.title, [t.text])]
  {
    assert Front(body + [t]) == body;
  }

  function Untitled(body: seq<Tagged>): seq<(string, string)> {
    if body == [] then [] else Untitled(Front(body)) + [(Last(body).title, Last(body).text)]
  }

  function Pairs(title: string, lines: seq<string>): seq<(string, string)> {
    if lines == [] then [] else Pairs(title, Front(lines)) + [(title, Last(lines))]
  }

  function Flattened(sections: seq<Section>): seq<(string, string)> {
    if sections == [] then [] else Flattened(Front(sections)) + Pairs(Last(sections).title, Last(sections).lines)
  }

  ghost predicate SectionsAscend(body: seq<Tagged>) {
    forall i, j :: 0 <= i <= j < |body| ==>
      body[i].section <= body[j].section && (body[i].section == body[j].section ==> body[i].title == body[j].title)
  }

  /** Gathering loses no line, repeats none, and gives each its own title. */
  lemma {:induction false} GroupedConserves(body: seq<Tagged>)
    requires SectionsAscend(body)
    ensures Flattened(Grouped(body)) == Untitled(body)
    ensures body != [] ==>
              Last(Grouped(body)).title == Last(body).title && Last(Grouped(body)).number == Last(body).section
    ensures forall k :: 0 <= k < |Grouped(body)| ==> Grouped(body)[k].lines != []
  {
    if body != [] {
      var before, last := Front(body), Last(body);
      GroupedConserves(before);
      if before != [] && Last(before).section == last.section {
        assert body[|before| - 1] == Last(before);
        var sections, old' := Grouped(body), Last(Grouped(before));
        assert Front(sections) == Front(Grouped(before));
        assert Front(old'.lines + [last.text]) == old'.lines;
      } else {
        assert Front(Grouped(body)) == Grouped(before);
        assert Pairs(last.title, [last.text]) == [(last.title, last.text)] by {
          assert Front([last.text]) == [];
        }
      }
    }
  }

  lemma {:induction false} BodyAscends(lines: seq<Line>, stem: string)
    ensures SectionsAscend(Body(lines, stem))
    ensures forall i :: 0 <= i < |Body(lines, stem)| ==>
              var t := Body(lines, stem)[i];
              t.section <= ClosedSections(lines)
              && (t.section == ClosedSections(lines) ==> OpenAfter(lines) && t.title == TitleAfter(lines, stem))
  {
    if lines != [] {
      BodyAscends(Front(lines), stem);
    }
  }

  // ----- the chunker

  /** The generator expression of `flush`. */
  function Kept(lines: seq<string>): seq<string> {
    if lines == [] then []
    else Kept(Front(lines)) + if Strip(Last(lines)) != [] then [Strip(Last(lines))] else []
  }

  lemma KeptAppend(lines: seq<string>, line: string)
    ensures Kept(lines + [line]) == if Strip(line) != [] then Kept(lines) + [Strip(line)] else Kept(lines)
  {
    assert Front(lines + [line]) == lines;
  }

  ghost predicate NoFeeds(lines: seq<string>) {
    forall i :: 0 <= i < |lines| ==> '\n' !in lines[i]
  }

  lemma {:induction false} KeptPlain(lines: seq<string>)
    requires NoFeeds(lines)
    ensures Plain(Kept(lines))
  {
    if lines != [] {
      KeptPlain(Front(lines));
      StripKeepsPlain(Last(lines));
    }
  }

  /** The chunk of a section: numbered identifier, title, and the lines read back from the content. */
  ghost predicate Holds(c: Chunk, prefix: string, s: Section) {
    c.id == prefix + Pad3(s.number) && c.title == s.title && Split(c.content) == s.lines
  }

  ghost predicate HoldAll(chunks: seq<Chunk>, prefix: string, sections: seq<Section>) {
    |chunks| == |sections| && forall i :: 0 <= i < |chunks| ==> Holds(chunks[i], prefix, sections[i])
  }

  /** What the lines after the last heading would add. */
  function Open(number: nat, title: string, kept: seq<string>): seq<Section> {
    if kept == [] then [] else [Section(number, title, kept)]
  }

  ghost predicate NumbersAscend(sections: seq<Section>) {
    forall i, j :: 0 <= i < j < |sections| ==> sections[i].number < sections[j].number
  }

  lemma {:induction false} GroupedAscends(body: seq<Tagged>)
    requires SectionsAscend(body)
    ensures NumbersAscend(Grouped(body))
    ensures body != [] ==> Last(Grouped(body)).number == Last(body).section
  {
    if body != [] {
      var before, last := Front(body), Last(body);
      GroupedAscends(before);
      if before != [] {
        assert Last(before) == body[|before| - 1];
        assert body[|before| - 1].section <= body[|body| - 1].section;
      }
    }
  }

  lemma AscendingIdsDiffer(chunks: seq<Chunk>, prefix: string, sections: seq<Section>)
    requires HoldAll(chunks, prefix, sections) && NumbersAscend(sections)
    ensures forall i, j :: 0 <= i < j < |chunks| ==> chunks[i].id != chunks[j].id
  {
    forall i, j | 0 <= i < j < |chunks| ensures chunks[i].id != chunks[j].id {
      assert Holds(chunks[i], prefix, sections[i]) && Holds(chunks[j], prefix, sections[j]);
      var m, n := sections[i].number, sections[j].number;
      Pad3Injective(m, n);
      assert (prefix + Pad3(m))[|prefix|..] == Pad3(m) && (prefix + Pad3(n))[|prefix|..] == Pad3(n);
    }
  }

  /** The closure `flush`; `sections` are those of the chunks so far. */
  method Flush(chunks: seq<Chunk>, title: string, lines: seq<string>, prefix: string, index: nat,
               ghost sections: seq<Section>)
    returns (r: seq<Chunk>)
    requires NoFeeds(lines) && HoldAll(chunks, prefix, sections)
    ensures HoldAll(r, prefix, sections + Open(index, title, Kept(lines)))
  {
    KeptPlain(lines);
    JoinEmpty(Kept(lines));
    var content := Join(Kept(lines));
    if content == "" {
      return chunks;
    }
    SplitUndoesJoin(Kept(lines));
    var chunk := Chunk(prefix + Pad3(index), title, content);
    assert Holds(chunk, prefix, Section(index, title, Kept(lines)));
    r := chunks + [chunk];
  }

  /** The gathered body is what was flushed plus the open lines. */
  ghost predicate Gathered(lines: seq<Line>, stem: string, kept: seq<string>, closed: seq<Section>) {
    var body := Body(lines, stem);
    && Grouped(body) == closed + Open(ClosedSections(lines), TitleAfter(lines, stem), kept)
    && (kept != [] <==> body != [] && Last(body).section == ClosedSections(lines))
    && (kept != [] ==> OpenAfter(lines))
  }

  lemma NextBodyLine(lines: seq<Line>, line: Line, stem: string, kept: seq<string>, closed: seq<Section>)
    requires Gathered(lines, stem, kept, closed) && line.BodyLine?
    ensures Gathered(lines + [line], stem, kept + [line.text], closed)
  {
    var body, title := Body(lines, stem), TitleAfter(lines, stem);
    var t := Tagged(ClosedSections(lines), title, line.text);
    assert Front(lines + [line]) == lines && Body(lines + [line], stem) == body + [t];
    GroupedAppend(body, t);
    if kept == [] {
      assert Grouped(body) == closed;
      assert kept + [line.text] == [line.text];
    } else {
      var sections := closed + [Section(ClosedSections(lines), title, kept)];
      assert Grouped(body) == sections && Front(sections) == closed;
    }
  }

  lemma NextHeading(lines: seq<Line>, line: Line, stem: string, kept: seq<string>, closed: seq<Section>)
    requires Gathered(lines, stem, kept, closed) && line.Heading?
    ensures Gathered(lines + [line], stem, [],
                     closed + Open(ClosedSections(lines), TitleAfter(lines, stem), kept))
  {
    BodyAscends(lines, stem);
    assert Front(lines + [line]) == lines && Last(lines + [line]) == line;
    var sections := closed + Open(ClosedSections(lines), TitleAfter(lines, stem), kept);
    assert sections + [] == sections;
  }

  lemma NextIgnoredLine(lines: seq<Line>, line: Line, stem: string, kept: seq<string>, closed: seq<Section>)
    requires Gathered(lines, stem, kept, closed) && (line.Skipped? || line.Blank?)
    ensures Gathered(lines + [line], stem, kept, closed)
  {
    assert Front(lines + [line]) == lines && Last(lines + [line]) == line;
  }

  /** The sections closed so far and the lines kept since cover the lines read. */
  ghost predicate Covers(lines: seq<Line>, stem: string, title: string, index: nat, kept: seq<string>,
                         closed: seq<Section>) {
    && title == TitleAfter(lines, stem) && index == ClosedSections(lines)
    && Gathered(lines, stem, kept, closed)
  }

  lemma CoversHeading(lines: seq<Line>, line: Line, stem: string, title: string, index: nat,
                      kept: seq<string>, closed: seq<Section>)
    requires Covers(lines, stem, title, index, kept, closed) && line.Heading?
    ensures Covers(lines + [line], stem, line.title, if OpenAfter(lines) then index + 1 else index, [],
                   closed + Open(index, title, kept))
  {
    NextHeading(lines, line, stem, kept, closed);
  }

  lemma CoversIgnored(lines: seq<Line>, line: Line, stem: string, title: string, index: nat,
                      kept: seq<string>, closed: seq<Section>)
    requires Covers(lines, stem, title, index, kept, closed) && (line.Skipped? || line.Blank?)
    ensures Covers(lines + [line], stem, title, index, kept, closed)
  {
    NextIgnoredLine(lines, line, stem, kept, closed);
    assert Front(lines + [line]) == lines;
  }

  lemma CoversBody(lines: seq<Line>, line: Line, stem: string, title: string, index: nat, kept: seq<string>,
                         closed: seq<Section>)
    requires Covers(lines, stem, title, index, kept, closed) && line.BodyLine?
    ensures Covers(lines + [line], stem, title, index, kept + [line.text], closed)
  {
    NextBodyLine(lines, line, stem, kept, closed);
    assert Front(lines + [line]) == lines;
  }

  /** A line that is appended to the open ones: blank, or a body line. */
  lemma CoversText(lines: seq<Line>, line: string, stem: string, title: string, index: nat,
                   current: seq<string>,                   closed: seq<Section>)
    requires Covers(lines, stem, title, index, Kept(current), closed) && !IsHeading(line) && !IsSkipped(line)
    ensures Covers(lines + [Classify(line)], stem, title, index, Kept(current + [line]), closed)
  {
    KeptAppend(current, line);
    if Strip(line) == [] {
      CoversIgnored(lines, Classify(line), stem, title, index, Kept(current), closed);
    } else {
      CoversBody(lines, Classify(line), stem, title, index, Kept(current), closed);
    }
  }

  lemma NextKind(lines: seq<string>, i: nat)
    requires i < |lines|
    ensures Classified(lines)[..i + 1] == Classified(lines)[..i] + [Classify(lines[i])]
  {
  }

  /** `chunk_markdown_file` on the lines of the file: the chunks are the sections that have body
      lines, with number, title and lines, and their identifiers are pairwise different. */
  method ChunkMarkdown(lines: seq<string>, stem: string, prefix: string) returns (chunks: seq<Chunk>)
    requires NoFeeds(lines)
    ensures HoldAll(chunks, prefix, Grouped(Body(Classified(lines), stem)))
    ensures forall i, j :: 0 <= i < j < |chunks| ==> chunks[i].id != chunks[j].id
  {
    chunks := [];
    var title, current: seq<string>, index := stem, [], 0;
    ghost var kinds := Classified(lines);
    ghost var closed: seq<Section> := [];
    for i := 0 to |lines|
      invariant NoFeeds(current)
      invariant Covers(kinds[..i], stem, title, index, Kept(current), closed)
      invariant OpenAfter(kinds[..i]) == (current != [])
      invariant HoldAll(chunks, prefix, closed)
    {
      var line := lines[i];
      NextKind(lines, i);
      OpenNext(kinds[..i], Classify(line));
      if IsHeading(line) {
        CoversHeading(kinds[..i], Classify(line), stem, title, index, Kept(current), closed);
        ghost var last := Open(index, title, Kept(current));
        if current != [] {
          chunks := Flush(chunks, title, current, prefix, index, closed);
          index := index + 1;
        } else {
          NothingOpen(index, title, closed);
        }
        closed := closed + last;
        title := Strip(line[3..]);
        current := [];
        continue;
      }
      if IsSkipped(line) {
        CoversIgnored(kinds[..i], Classify(line), stem, title, index, Kept(current), closed);
        continue;
      }
      CoversText(kinds[..i], line, stem, title, index, current, closed);
      current := current + [line];
    }
    assert kinds[..|lines|] == kinds;
    if current != [] {
      chunks := Flush(chunks, title, current, prefix, index, closed);
    } else {
      NothingOpen(index, title, closed);
    }
    BodyAscends(kinds, stem);
    GroupedAscends(Body(kinds, stem));
    AscendingIdsDiffer(chunks, prefix, Grouped(Body(kinds, stem)));
  }

  lemma OpenNext(lines: seq<Line>, line: Line)
    ensures OpenAfter(lines + [line])
         == match line case Heading(_) => false case Skipped => OpenAfter(lines) case _ => true
  {
    assert Front(lines + [line]) == lines;
  }

  lemma NothingOpen(index: nat, title: string, closed: seq<Section>)
    ensures closed + Open(index, title, Kept([])) == closed
  {
  }

  /** Read back from the sections, every body line of the file appears exactly once, in order, under
      its nearest heading; and no section is without text. */
  lemma SectionsConserveBody(lines: seq<Line>, stem: string)
    ensures Flattened(Grouped(Body(lines, stem))) == Untitled(Body(lines, stem))
    ensures forall k :: 0 <= k < |Grouped(Body(lines, stem))| ==> Grouped(Body(lines, stem))[k].lines != []
  {
    BodyAscends(lines, stem);
    GroupedConserves(Body(lines, stem));
  }
}
