/** The body lines of a knowledge file in terms of its raw lines: which lines count, what is left of
    them, and the section and title they belong to. */
module ChunkMeaning {
  import opened Common
  import opened Text
  import opened MarkdownChunking

  ghost predicate SectionHeading(line: string) {
    |line| >= 3 && line[0] == '#' && line[1] == '#' && line[2] == ' '
  }

  /** The title of the file, or its tags. */
  ghost predicate FileHeader(line: string) {
    || (|line| >= 2 && line[0] == '#' && line[1] == ' ')
    || (|line| >= 3 && line[0] == '\U{6807}' && line[1] == '\U{7B7E}' && line[2] == ':')
  }

  ghost predicate KeptLine(line: string) {
    !SectionHeading(line) && !FileHeader(line)
  }

  /** A kept line that is not blank. */
  ghost predicate TextLine(line: string) {
    KeptLine(line) && exists k :: 0 <= k < |line| && !IsSpace(line[k])
  }

  /** `text` is the line without the white space around it. */
  ghost predicate Stripped(line: string, text: string) {
    exists i, j :: 0 <= i <= j <= |line| && StrippedAt(line, text, i, j)
  }

  ghost predicate StrippedAt(line: string, text: string, i: nat, j: nat)
    requires i <= j <= |line|
  {
    && text == line[i..j] && AllSpace(line[..i]) && AllSpace(line[j..])
    && (i < j ==> !IsSpace(line[i]) && !IsSpace(line[j - 1]))
  }

  /** No section heading from `from` up to `to`. */
  ghost predicate NoHeading(lines: seq<string>, from: int, to: int) {
    forall m :: from <= m < to && 0 <= m < |lines| ==> !SectionHeading(lines[m])
  }

  /** A line was kept at `j`, and no heading came after it, up to `p`. */
  ghost predicate OpenedAt(lines: seq<string>, p: int, j: int) {
    0 <= j < p && j < |lines| && KeptLine(lines[j]) && NoHeading(lines, j + 1, p)
  }

  ghost predicate OpenAt(lines: seq<string>, p: int) {
    exists j :: OpenedAt(lines, p, j)
  }

  /** The headings before `p` that close a section: those with a kept line since the heading above. */
  ghost function Closing(lines: seq<string>, p: nat): set<nat> {
    Positions(p, ClosesIn(lines))
  }

  ghost function ClosesIn(lines: seq<string>): nat -> bool {
    (h: nat) => Closes(lines, h)
  }

  ghost predicate Closes(lines: seq<string>, h: nat) {
    h < |lines| && SectionHeading(lines[h]) && OpenAt(lines, h)
  }

  /** The nearest heading above `p` gives the title, or the name of the file when there is none. */
  ghost predicate TitledAt(lines: seq<string>, p: int, stem: string, title: string) {
    || (NoHeading(lines, 0, p) && title == stem)
    || exists h :: HeadedBy(lines, p, h) && Stripped(lines[h][3..], title)
  }

  ghost predicate HeadedBy(lines: seq<string>, p: int, h: int) {
    0 <= h < p && h < |lines| && SectionHeading(lines[h]) && NoHeading(lines, h + 1, p)
  }

  // ----- lines

  /** The 29 characters of white space. */
  const WHITE_SPACE :=
    "\t\n\U{B}\U{C}\r\U{1C}\U{1D}\U{1E}\U{1F} \U{85}\U{A0}\U{1680}\U{2000}\U{2001}\U{2002}\U{2003}\U{2004}"
    + "\U{2005}\U{2006}\U{2007}\U{2008}\U{2009}\U{200A}\U{2028}\U{2029}\U{202F}\U{205F}\U{3000}"

  lemma SpaceMeaning(c: char)
    ensures IsSpace(c) <==> c in WHITE_SPACE
  {
    var n := c as int;
    if IsSpace(c) {
      var i := if n <= 0x0D then n - 9 else if 0x1C <= n <= 0x1F then n - 0x1C + 5 else if n == 0x20 then 9
               else if n == 0x85 then 10 else if n == 0xA0 then 11 else if n == 0x1680 then 12
               else if n <= 0x200A then n - 0x2000 + 13 else if n <= 0x2029 then n - 0x2028 + 24
               else if n == 0x202F then 26 else if n == 0x205F then 27 else 28;
      assert WHITE_SPACE[i] == c;
    }
  }

  lemma StripStripped(line: string)
    ensures Stripped(line, Strip(line))
    ensures Strip(line) == [] <==> forall k :: 0 <= k < |line| ==> IsSpace(line[k])
  {
    var i, j := StripMeaning(line);
    assert StrippedAt(line, Strip(line), i, j);
    if i == j {
      forall k | 0 <= k < |line| ensures IsSpace(line[k]) {
        assert k < i ==> line[k] == line[..i][k];
        assert k >= i ==> line[k] == line[j..][k - j];
      }
    } else {
      assert !IsSpace(line[i]);
    }
  }

  lemma LineKind(line: string)
    ensures Classify(line).Heading? <==> SectionHeading(line)
    ensures Classify(line).BodyLine? <==> TextLine(line)
    ensures Classify(line).BodyLine? || Classify(line).Blank? <==> KeptLine(line)
    ensures Classify(line).BodyLine? ==> Stripped(line, Classify(line).text)
    ensures Classify(line).Heading? ==> Stripped(line[3..], Classify(line).title)
  {
    HeaderMeaning(line);
    StripStripped(line);
    if SectionHeading(line) {
      StripStripped(line[3..]);
    }
  }

  lemma HeaderMeaning(line: string)
    ensures IsHeading(line) <==> SectionHeading(line)
    ensures IsSkipped(line) <==> FileHeader(line)
  {
    if |line| >= 3 {
      assert line[..3] == [line[0], line[1], line[2]];
    }
    if |line| >= 2 {
      assert line[..2] == [line[0], line[1]];
    }
  }

  // ----- the state of the scan before line `p` depends on the lines above only

  lemma FrontClassified(lines: seq<string>)
    requires lines != []
    ensures Front(Classified(lines)) == Classified(Front(lines))
    ensures Last(Classified(lines)) == Classify(Last(lines))
  {
  }

  lemma OpenInFront(lines: seq<string>, p: nat)
    requires lines != [] && p < |lines|
    ensures OpenAt(Front(lines), p) <==> OpenAt(lines, p)
  {
    forall j ensures OpenedAt(Front(lines), p, j) <==> OpenedAt(lines, p, j) {
    }
  }

  lemma ClosingInFront(lines: seq<string>, p: nat)
    requires lines != [] && p < |lines|
    ensures Closing(Front(lines), p) == Closing(lines, p)
  {
    forall h: nat ensures h in Closing(Front(lines), p) <==> h in Closing(lines, p) {
      if h < p {
        OpenInFront(lines, h);
      }
    }
  }

  lemma TitledInFront(lines: seq<string>, p: nat, stem: string, title: string)
    requires lines != [] && p < |lines|
    requires TitledAt(Front(lines), p, stem, title)
    ensures TitledAt(lines, p, stem, title)
  {
    if h :| HeadedBy(Front(lines), p, h) && Stripped(Front(lines)[h][3..], title) {
      assert HeadedBy(lines, p, h);
    } else {
      assert NoHeading(lines, 0, p);
    }
  }

  // ----- the three recursive readings

  lemma {:induction false} OpenMeaning(lines: seq<string>)
    ensures OpenAfter(Classified(lines)) <==> OpenAt(lines, |lines|)
  {
    if lines != [] {
      var n, last := |lines| - 1, Last(lines);
      OpenMeaning(Front(lines));
      OpenInFront(lines, n);
      FrontClassified(lines);
      LineKind(last);
      if KeptLine(last) {
        assert OpenedAt(lines, |lines|, n);
      } else {
        forall j ensures OpenedAt(lines, |lines|, j) <==> OpenedAt(lines, n, j) && !SectionHeading(last) {
        }
      }
    }
  }

  lemma {:induction false} ClosedMeaning(lines: seq<string>)
    ensures ClosedSections(Classified(lines)) == |Closing(lines, |lines|)|
  {
    if lines != [] {
      var n, last := |lines| - 1, Last(lines);
      ClosedMeaning(Front(lines));
      OpenMeaning(Front(lines));
      OpenInFront(lines, n);
      ClosingInFront(lines, n);
      FrontClassified(lines);
      LineKind(last);
      PositionsStep(n, ClosesIn(lines));
    }
  }

  lemma {:induction false} TitleMeaning(lines: seq<string>, stem: string)
    ensures TitledAt(lines, |lines|, stem, TitleAfter(Classified(lines), stem))
  {
    if lines != [] {
      var n, last := |lines| - 1, Last(lines);
      var title := TitleAfter(Classified(lines), stem);
      FrontClassified(lines);
      LineKind(last);
      if SectionHeading(last) {
        assert HeadedBy(lines, |lines|, n) && Stripped(lines[n][3..], title);
      } else {
        TitleMeaning(Front(lines), stem);
        TitledInFront(lines, n, stem, title);
        TitleStays(lines, stem, title);
      }
    }
  }

  lemma TitleStays(lines: seq<string>, stem: string, title: string)
    requires lines != [] && !SectionHeading(Last(lines)) && TitledAt(lines, |lines| - 1, stem, title)
    ensures TitledAt(lines, |lines|, stem, title)
  {
    var n := |lines| - 1;
    if h :| HeadedBy(lines, n, h) && Stripped(lines[h][3..], title) {
      assert HeadedBy(lines, |lines|, h);
    } else {
      assert NoHeading(lines, 0, |lines|);
    }
  }

  // ----- the body

  /** The body line of line `p`: its text, its section's number and its title. */
  ghost predicate BodyOf(lines: seq<string>, stem: string, p: nat, t: Tagged) {
    && p < |lines| && Stripped(lines[p], t.text)
    && t.section == |Closing(lines, p)| && TitledAt(lines, p, stem, t.title)
  }

  ghost predicate BodyPicked(lines: seq<string>, stem: string, picks: seq<nat>, body: seq<Tagged>) {
    && Ascending(picks, |lines|)
    && (forall i :: 0 <= i < |lines| ==> (i in picks <==> TextLine(lines[i])))
    && |body| == |picks| && forall k :: 0 <= k < |body| ==> BodyOf(lines, stem, picks[k], body[k])
  }

  lemma BodyInFront(lines: seq<string>, stem: string, p: nat, t: Tagged)
    requires lines != [] && BodyOf(Front(lines), stem, p, t)
    ensures BodyOf(lines, stem, p, t)
  {
    ClosingInFront(lines, p);
    TitledInFront(lines, p, stem, t.title);
  }

  lemma BodyStep(lines: seq<string>, stem: string, picks: seq<nat>, body: seq<Tagged>)
    requires lines != [] && BodyPicked(Front(lines), stem, picks, body)
    ensures !TextLine(Last(lines)) ==> BodyPicked(lines, stem, picks, body)
    ensures forall t :: TextLine(Last(lines)) && BodyOf(lines, stem, |lines| - 1, t) ==>
                          BodyPicked(lines, stem, picks + [|lines| - 1], body + [t])
  {
    var n := |lines| - 1;
    AppendPick(picks, n);
    forall i | 0 <= i < n ensures i in picks <==> TextLine(lines[i]) {
      assert Front(lines)[i] == lines[i];
    }
    forall k | 0 <= k < |body| ensures BodyOf(lines, stem, picks[k], body[k]) {
      BodyInFront(lines, stem, picks[k], body[k]);
    }
  }

  /** The body holds exactly the text lines of the file, in order, each stripped, under its nearest
      heading, and numbered by the sections closed above it. */
  lemma {:induction false} BodyMeaning(lines: seq<string>, stem: string) returns (picks: seq<nat>)
    ensures BodyPicked(lines, stem, picks, Body(Classified(lines), stem))
  {
    picks := [];
    if lines != [] {
      var n, last := |lines| - 1, Last(lines);
      picks := BodyMeaning(Front(lines), stem);
      var body := Body(Classified(Front(lines)), stem);
      FrontClassified(lines);
      LineKind(last);
      BodyStep(lines, stem, picks, body);
      if TextLine(last) {
        ClosedMeaning(Front(lines));
        ClosingInFront(lines, n);
        TitleMeaning(Front(lines), stem);
        TitledInFront(lines, n, stem, TitleAfter(Classified(Front(lines)), stem));
        assert BodyOf(lines, stem, n, Last(Body(Classified(lines), stem)));
        picks := picks + [n];
      }
    }
  }
}
