/** What overlay wrapping means for the text it is given: paragraphs are what lies between
    newlines, words what lies between white space, and no line mixes two paragraphs. */
module WrapMeaning {
  import opened Strings
  import opened TextWrap

  // ---- paragraphs ----

  predicate NoNewline(p: string) {
    '\n' !in p
  }

  ghost predicate AreParagraphs(parts: seq<string>) {
    parts != [] && forall i :: 0 <= i < |parts| ==> NoNewline(parts[i])
  }

  /** The parts with a newline between each two. */
  function JoinLines(parts: seq<string>): string
    requires parts != []
  {
    if |parts| == 1 then parts[0] else JoinLines(parts[..|parts| - 1]) + "\n" + parts[|parts| - 1]
  }

  lemma JoinExtend(parts: seq<string>, c: char)
    requires parts != []
    ensures JoinLines(parts[..|parts| - 1] + [parts[|parts| - 1] + [c]]) == JoinLines(parts) + [c]
  {
    var front, last := parts[..|parts| - 1], parts[|parts| - 1];
    SnocFront(front, last + [c]);
    if |parts| > 1 {
      Assoc(JoinLines(front) + "\n", last, [c]);
    }
  }

  lemma JoinNew(parts: seq<string>)
    requires parts != []
    ensures JoinLines(parts + [""]) == JoinLines(parts) + "\n"
  {
    SnocFront(parts, "");
    assert JoinLines(parts) + "\n" + "" == JoinLines(parts) + "\n";
  }

  /** Splitting at newlines leaves none, and putting them back gives the text. */
  lemma {:induction false} SplitJoins(text: string)
    ensures AreParagraphs(SplitLines(text)) && JoinLines(SplitLines(text)) == text
  {
    if text != "" {
      var front, c := text[..|text| - 1], text[|text| - 1];
      SplitJoins(front);
      assert front + [c] == text;
      if c == '\n' {
        JoinNew(SplitLines(front));
      } else {
        JoinExtend(SplitLines(front), c);
      }
    }
  }

  lemma SplitSnoc(text: string, c: char)
    ensures SplitLines(text + [c]) ==
              if c == '\n' then SplitLines(text) + [""]
              else SplitLines(text)[..|SplitLines(text)| - 1] + [SplitLines(text)[|SplitLines(text)| - 1] + [c]]
  {
    SnocFront(text, c);
  }

  lemma ShorterLast(parts: seq<string>, last': string, c: char)
    requires AreParagraphs(parts) && parts[|parts| - 1] == last' + [c]
    ensures AreParagraphs(parts[..|parts| - 1] + [last'])
  {
    assert c == parts[|parts| - 1][|last'|];
  }

  /** There is no other such splitting. */
  lemma {:induction false} SplitIsUnique(parts: seq<string>)
    requires AreParagraphs(parts)
    ensures SplitLines(JoinLines(parts)) == parts
    decreases |JoinLines(parts)|
  {
    var front, last := parts[..|parts| - 1], parts[|parts| - 1];
    FrontLast(parts);
    if last == "" {
      if |parts| > 1 {
        JoinNew(front);
        SplitIsUnique(front);
        SplitSnoc(JoinLines(front), '\n');
      }
    } else {
      var last', c := last[..|last| - 1], last[|last| - 1];
      var shorter := front + [last'];
      FrontLast(last);
      ShorterLast(parts, last', c);
      SnocFront(front, last');
      JoinExtend(shorter, c);
      SplitIsUnique(shorter);
      SplitSnoc(JoinLines(shorter), c);
      assert c != '\n' by { assert last[|last| - 1] == c; }
    }
  }

  // ---- words ----

  /** The words with a gap before each and one after the last. */
  function Weave(gaps: seq<string>, words: seq<string>): string
    requires |gaps| == |words| + 1
  {
    if words == [] then gaps[0]
    else Weave(gaps[..|words|], words[..|words| - 1]) + words[|words| - 1] + gaps[|words|]
  }

  /** All gaps are white space, and there is some between every two words. */
  predicate AreGaps(gaps: seq<string>) {
    && (forall i :: 0 <= i < |gaps| ==> IsBlank(gaps[i]))
    && (forall i :: 0 < i < |gaps| - 1 ==> gaps[i] != "")
  }

  lemma WeaveGap(gaps: seq<string>, words: seq<string>, g: string, c: char)
    requires |gaps| == |words| + 1 && gaps[|words|] == g + [c]
    ensures Weave(gaps, words) == Weave(gaps[..|words|] + [g], words) + [c]
  {
    var shorter := gaps[..|words|] + [g];
    assert shorter[..|words|] == gaps[..|words|];
    if words != [] {
      Assoc(Weave(gaps[..|words|], words[..|words| - 1]) + words[|words| - 1], g, [c]);
    }
  }

  lemma LongerGap(gaps: seq<string>, words: seq<string>, c: char)
    requires |gaps| == |words| + 1 && IsSpace(c) && AreGaps(gaps)
    ensures var longer := gaps[..|words|] + [gaps[|words|] + [c]];
            AreGaps(longer) && Weave(longer, words) == Weave(gaps, words) + [c]
  {
    var longer := gaps[..|words|] + [gaps[|words|] + [c]];
    assert IsBlank(gaps[|words|] + [c]);
    WeaveGap(longer, words, gaps[|words|], c);
    assert longer[..|words|] + [gaps[|words|]] == gaps;
  }

  lemma WeaveWord(gaps: seq<string>, words: seq<string>, w: string)
    requires |gaps| == |words| + 1
    ensures Weave(gaps + [""], words + [w]) == Weave(gaps, words) + w
  {
    SnocFront(words, w);
    assert (gaps + [""])[..|words| + 1] == gaps;
    assert Weave(gaps, words) + w + "" == Weave(gaps, words) + w;
  }

  lemma WeaveLonger(gaps: seq<string>, words: seq<string>, c: char)
    requires |gaps| == |words| + 1 && words != [] && gaps[|words|] == ""
    ensures Weave(gaps, words[..|words| - 1] + [words[|words| - 1] + [c]]) == Weave(gaps, words) + [c]
  {
    var front, w := words[..|words| - 1], words[|words| - 1];
    SnocFront(front, w + [c]);
    var rest := Weave(gaps[..|words|], front);
    assert rest + w + "" == rest + w && rest + (w + [c]) + "" == rest + w + [c];
  }

  /** Whether the weave ends in white space, or is empty. */
  predicate Open(s: string) {
    s == "" || IsSpace(s[|s| - 1])
  }

  lemma WeaveEnds(gaps: seq<string>, words: seq<string>)
    requires |gaps| == |words| + 1 && AreGaps(gaps) && AreWords(words)
    ensures Open(Weave(gaps, words)) <==> words == [] || gaps[|words|] != ""
  {
    var g := gaps[|words|];
    assert IsBlank(g);
    if words != [] {
      var w := words[|words| - 1];
      assert IsWord(w);
      var rest := Weave(gaps[..|words|], words[..|words| - 1]);
      if g != "" {
        assert (rest + w + g)[|rest + w + g| - 1] == g[|g| - 1];
      } else {
        assert (rest + w + g)[|rest + w + g| - 1] == w[|w| - 1];
      }
    }
  }

  lemma WordsSnoc(p: string, c: char)
    ensures Words(p + [c]) ==
              if IsSpace(c) then Words(p)
              else if Open(p) then Words(p) + [[c]]
              else Words(p)[..|Words(p)| - 1] + [Words(p)[|Words(p)| - 1] + [c]]
  {
    SnocFront(p, c);
  }

  lemma GapsGrow(gaps: seq<string>, words: seq<string>)
    requires AreGaps(gaps) && |gaps| == |words| + 1 && (words == [] || gaps[|words|] != "")
    ensures AreGaps(gaps + [""])
  {
  }

  /** The words are woven into the text with white space, some between every two. */
  lemma {:induction false} WordsAreWoven(p: string) returns (gaps: seq<string>)
    ensures |gaps| == |Words(p)| + 1 && AreGaps(gaps) && Weave(gaps, Words(p)) == p
  {
    gaps := [""];
    if p != "" {
      var front, c := p[..|p| - 1], p[|p| - 1];
      FrontLast(p);
      var before := WordsAreWoven(front);
      var ws := Words(front);
      WeaveEnds(before, ws);
      WordsSnoc(front, c);
      if IsSpace(c) {
        LongerGap(before, ws, c);
        gaps := before[..|ws|] + [before[|ws|] + [c]];
      } else if Open(front) {
        WeaveWord(before, ws, [c]);
        GapsGrow(before, ws);
        gaps := before + [""];
      } else {
        WeaveLonger(before, ws, c);
        gaps := before;
      }
    }
  }

  lemma ShorterGap(gaps: seq<string>, words: seq<string>, g: string, c: char)
    requires |gaps| == |words| + 1 && AreGaps(gaps) && gaps[|words|] == g + [c]
    ensures IsSpace(c) && AreGaps(gaps[..|words|] + [g])
  {
    assert IsBlank(gaps[|words|]) && gaps[|words|][|g|] == c;
    assert forall i :: 0 <= i < |g| ==> g[i] == gaps[|words|][i];
  }

  lemma ShorterWord(words: seq<string>, w: string, c: char)
    requires AreWords(words) && words != [] && words[|words| - 1] == w + [c] && w != ""
    ensures !IsSpace(c) && AreWords(words[..|words| - 1] + [w])
  {
    assert IsWord(words[|words| - 1]) && words[|words| - 1][|w|] == c;
    assert forall i :: 0 <= i < |w| ==> w[i] == words[|words| - 1][i];
  }

  lemma FewerGaps(gaps: seq<string>, words: seq<string>)
    requires |gaps| == |words| + 1 && AreGaps(gaps) && words != []
    ensures AreGaps(gaps[..|words|])
    ensures |words| > 1 ==> gaps[..|words|][|words| - 1] != ""
  {
  }

  /** And there is no other way to see the text so: its words are those maximal runs. */
  lemma {:induction false} WordsAreUnique(gaps: seq<string>, words: seq<string>)
    requires |gaps| == |words| + 1 && AreGaps(gaps) && AreWords(words)
    ensures Words(Weave(gaps, words)) == words
    decreases |Weave(gaps, words)|
  {
    var n := |words|;
    var g := gaps[n];
    FrontLast(gaps);
    if g != "" {
      var g', c := g[..|g| - 1], g[|g| - 1];
      FrontLast(g);
      ShorterGap(gaps, words, g', c);
      WeaveGap(gaps, words, g', c);
      WordsAreUnique(gaps[..n] + [g'], words);
      WordsSnoc(Weave(gaps[..n] + [g'], words), c);
    } else if words != [] {
      var front, w := words[..n - 1], words[n - 1];
      var w', c := w[..|w| - 1], w[|w| - 1];
      FrontLast(words);
      FrontLast(w);
      assert IsWord(w);
      if w' == "" {
        FewerGaps(gaps, words);
        WeaveWord(gaps[..n], front, w);
        WordsAreUnique(gaps[..n], front);
        WeaveEnds(gaps[..n], front);
        WordsSnoc(Weave(gaps[..n], front), c);
      } else {
        var shorter := front + [w'];
        ShorterWord(words, w', c);
        SnocFront(front, w');
        WeaveLonger(gaps, shorter, c);
        WordsAreUnique(gaps, shorter);
        WeaveEnds(gaps, shorter);
        WordsSnoc(Weave(gaps, shorter), c);
      }
    }
  }

  // ---- the lines of each paragraph ----

  /** Each paragraph wrapped on its own. */
  function GroupsOf(parts: seq<string>, max: nat): (r: seq<seq<string>>)
    requires max >= 1
    ensures |r| == |parts|
  {
    seq(|parts|, i requires 0 <= i < |parts| => WrapParagraph(parts[i], max))
  }

  lemma {:induction false} GroupsJoin(parts: seq<string>, max: nat)
    requires max >= 1
    ensures Flatten(GroupsOf(parts, max)) == WrapAll(parts, max)
  {
    if parts != [] {
      GroupsJoin(parts[..|parts| - 1], max);
      var groups := GroupsOf(parts, max);
      assert groups[..|parts| - 1] == GroupsOf(parts[..|parts| - 1], max);
    }
  }

  lemma GroupKeepsInk(p: string, max: nat)
    requires max >= 1
    ensures WrapParagraph(p, max) != [] && InkOf(WrapParagraph(p, max)) == Ink(p)
  {
    var f := FillWords(Words(p), max);
    FillKeepsInk(Words(p), max);
    WordsKeepInk(p);
    InkOfSnoc(f.done, f.current);
  }

  /** However the text is seen as paragraphs joined by newlines, wrapping it gives each of them
      lines of its own, at least one, with its characters and no other's, none of the lines
      too wide. */
  lemma EachParagraphItsOwn(parts: seq<string>, widthPx: nat, advancePx: nat) returns (groups: seq<seq<string>>)
    requires AreParagraphs(parts) && advancePx >= 1
    ensures |groups| == |parts|
    ensures Flatten(groups) == WrapAll(SplitLines(JoinLines(parts)), MaxChars(widthPx, advancePx))
    ensures forall i :: 0 <= i < |groups| ==> groups[i] != [] && InkOf(groups[i]) == Ink(parts[i])
    ensures forall i :: 0 <= i < |Flatten(groups)| ==> InPixels(Flatten(groups)[i], widthPx, advancePx)
  {
    var max := MaxChars(widthPx, advancePx);
    SplitIsUnique(parts);
    groups := GroupsOf(parts, max);
    GroupsJoin(parts, max);
    EveryLineFits(parts, max);
    LinesInPixels(WrapAll(parts, max), widthPx, advancePx);
    forall i | 0 <= i < |groups|
      ensures groups[i] != [] && InkOf(groups[i]) == Ink(parts[i])
    {
      GroupKeepsInk(parts[i], max);
    }
  }
}
