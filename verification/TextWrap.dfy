/** Greedy wrapping of overlay text (`wrap_text_to_width` in
    terminal-model/src/screen_model.rs): the loop, and why it is optimal. */
module TextWrap {

  import opened Strings

  /** Text between newlines. */
  function SplitLines(text: string): (r: seq<string>)
    ensures |r| >= 1
  {
    if text == "" then [""]
    else
      var before, c := SplitLines(text[..|text| - 1]), text[|text| - 1];
      if c == '\n' then before + [""] else before[..|before| - 1] + [before[|before| - 1] + [c]]
  }

  ghost predicate IsWord(w: string) {
    w != "" && forall i :: 0 <= i < |w| ==> !IsSpace(w[i])
  }

  ghost predicate AreWords(ws: seq<string>) {
    forall i :: 0 <= i < |ws| ==> IsWord(ws[i])
  }

  /** Maximal runs of characters that are not white space. */
  function Words(p: string): (r: seq<string>)
    ensures p != "" && !IsSpace(p[|p| - 1]) ==> r != []
    ensures AreWords(r)
  {
    if p == "" then []
    else
      var front, c := p[..|p| - 1], p[|p| - 1];
      var before := Words(front);
      if IsSpace(c) then before
      else if front == "" || IsSpace(front[|front| - 1]) then before + [[c]]
      else before[..|before| - 1] + [before[|before| - 1] + [c]]
  }

  /** Characters of one line, from the pixel width and the font's advance. */
  function MaxChars(widthPx: nat, advancePx: nat): (n: nat)
    ensures n >= 1
  {
    var advance := if advancePx < 1 then 1 else advancePx;
    if widthPx / advance < 1 then 1 else widthPx / advance
  }

  // ---- the greedy fill ----

  datatype Fill = Fill(done: seq<string>, current: string)

  /** A word wider than a line, cut into full lines and a rest that fits. */
  function HardBreak(word: string, max: nat): (r: Fill)
    requires max >= 1
    ensures |r.current| <= max
    ensures forall i :: 0 <= i < |r.done| ==> |r.done[i]| == max
    decreases |word|
  {
    if |word| <= max then Fill([], word)
    else
      var rest := HardBreak(word[max..], max);
      Fill([word[..max]] + rest.done, rest.current)
  }

  function AddWord(f: Fill, word: string, max: nat): Fill
    requires max >= 1
  {
    if |word| > max then
      var broken := HardBreak(word, max);
      Fill(f.done + (if f.current == "" then [] else [f.current]) + broken.done, broken.current)
    else
      var extra := if f.current == "" then 0 else 1;
      if |f.current| + extra + |word| > max then Fill(f.done + [f.current], word)
      else Fill(f.done, f.current + (if f.current == "" then "" else " ") + word)
  }

  function FillWords(words: seq<string>, max: nat): Fill
    requires max >= 1
  {
    if words == [] then Fill([], "")
    else AddWord(FillWords(words[..|words| - 1], max), words[|words| - 1], max)
  }

  function WrapParagraph(p: string, max: nat): seq<string>
    requires max >= 1
  {
    var f := FillWords(Words(p), max);
    f.done + [f.current]
  }

  function WrapAll(paragraphs: seq<string>, max: nat): seq<string>
    requires max >= 1
  {
    if paragraphs == [] then []
    else WrapAll(paragraphs[..|paragraphs| - 1], max) + WrapParagraph(paragraphs[|paragraphs| - 1], max)
  }

  /** Pushes full lines of a word too wide for one, leaving the rest. */
  method BreakWord(word: string, max: nat) returns (lines: seq<string>, remaining: string)
    requires max >= 1
    ensures Fill(lines, remaining) == HardBreak(word, max)
  {
    lines, remaining := [], word;
    while |remaining| > max
      invariant HardBreak(word, max) ==
                  Fill(lines + HardBreak(remaining, max).done, HardBreak(remaining, max).current)
      decreases |remaining|
    {
      var chunk, rest := remaining[..max], remaining[max..];
      assert lines + ([chunk] + HardBreak(rest, max).done) == lines + [chunk] + HardBreak(rest, max).done;
      lines := lines + [chunk];
      remaining := rest;
    }
    assert lines + [] == lines;
  }

  /** Fills lines with the words of one paragraph. */
  method WrapWords(words: seq<string>, max: nat) returns (lines: seq<string>)
    requires max >= 1
    ensures lines == FillWords(words, max).done + [FillWords(words, max).current]
  {
    lines := [];
    var current := "";
    var i := 0;
    while i < |words|
      invariant i <= |words| && Fill(lines, current) == FillWords(words[..i], max)
    {
      var word := words[i];
      assert words[..i + 1][..i] == words[..i];
      i := i + 1;
      if |word| > max {
        if current != "" {
          lines := lines + [current];
        }
        var broken, remaining := BreakWord(word, max);
        lines, current := lines + broken, remaining;
        continue;
      }
      var extra := if current == "" then 0 else 1;
      if |current| + extra + |word| > max {
        lines, current := lines + [current], "";
      } else if current != "" {
        current := current + " ";
      }
      current := current + word;
    }
    assert words[..i] == words;
    lines := lines + [current];
  }

  /** The line is no wider than that, unless not even one character is. */
  predicate InPixels(line: string, widthPx: nat, advancePx: nat) {
    if advancePx <= widthPx then |line| * advancePx <= widthPx else |line| <= 1
  }

  /** Wraps `text` to lines of at most `widthPx` pixels, or of one character where not even
      that fits. */
  method WrapText(text: string, widthPx: nat, advancePx: nat) returns (lines: seq<string>)
    ensures lines == WrapAll(SplitLines(text), MaxChars(widthPx, advancePx))
    ensures forall i :: 0 <= i < |lines| ==>
              InPixels(lines[i], widthPx, if advancePx < 1 then 1 else advancePx)
  {
    var max := MaxChars(widthPx, advancePx);
    var paragraphs := SplitLines(text);
    lines := [];
    var i := 0;
    while i < |paragraphs|
      invariant i <= |paragraphs| && lines == WrapAll(paragraphs[..i], max)
    {
      var more := WrapWords(Words(paragraphs[i]), max);
      assert paragraphs[..i + 1][..i] == paragraphs[..i];
      lines := lines + more;
      i := i + 1;
    }
    assert paragraphs[..i] == paragraphs;
    EveryLineFits(paragraphs, max);
    LinesInPixels(lines, widthPx, advancePx);
  }

  // ---- every line fits ----

  lemma QuotientIsLargest(a: nat, d: nat)
    requires d >= 1
    ensures a / d * d <= a < (a / d + 1) * d
  {
    assert a == a / d * d + a % d;
    assert (a / d + 1) * d == a / d * d + d;
  }

  lemma MulMonotone(a: nat, b: nat, c: nat)
    requires a <= b
    ensures a * c <= b * c
  {
  }

  /** The most characters that fit the width: one more would not. Where not even one does,
      one is taken. */
  lemma MaxCharsIsLargest(widthPx: nat, advancePx: nat)
    requires advancePx >= 1
    ensures var n := MaxChars(widthPx, advancePx);
            if advancePx <= widthPx then n * advancePx <= widthPx < (n + 1) * advancePx else n == 1
  {
    QuotientIsLargest(widthPx, advancePx);
    if advancePx > widthPx {
      QuotientIsZero(widthPx, advancePx);
    }
  }

  lemma QuotientIsZero(a: nat, d: nat)
    requires a < d
    ensures a / d == 0
  {
    if a / d >= 1 {
      MulMonotone(1, a / d, d);
      QuotientIsLargest(a, d);
      assert false;
    }
  }

  lemma LineInPixels(line: string, widthPx: nat, advancePx: nat)
    requires advancePx >= 1 && |line| <= MaxChars(widthPx, advancePx)
    ensures InPixels(line, widthPx, advancePx)
  {
    MaxCharsIsLargest(widthPx, advancePx);
    MulMonotone(|line|, MaxChars(widthPx, advancePx), advancePx);
  }

  lemma LinesInPixels(lines: seq<string>, widthPx: nat, advancePx: nat)
    requires Fits(lines, MaxChars(widthPx, advancePx))
    ensures forall i :: 0 <= i < |lines| ==>
              InPixels(lines[i], widthPx, if advancePx < 1 then 1 else advancePx)
  {
    var advance := if advancePx < 1 then 1 else advancePx;
    assert MaxChars(widthPx, advance) == MaxChars(widthPx, advancePx);
    forall i | 0 <= i < |lines|
      ensures InPixels(lines[i], widthPx, advance)
    {
      LineInPixels(lines[i], widthPx, advance);
    }
  }

  ghost predicate Fits(lines: seq<string>, max: nat) {
    forall i :: 0 <= i < |lines| ==> |lines[i]| <= max
  }

  lemma {:induction false} FillFits(words: seq<string>, max: nat)
    requires max >= 1
    ensures Fits(FillWords(words, max).done, max) && |FillWords(words, max).current| <= max
  {
    if words != [] {
      FillFits(words[..|words| - 1], max);
    }
  }

  lemma {:induction false} EveryLineFits(paragraphs: seq<string>, max: nat)
    requires max >= 1
    ensures Fits(WrapAll(paragraphs, max), max)
  {
    if paragraphs != [] {
      EveryLineFits(paragraphs[..|paragraphs| - 1], max);
      FillFits(Words(paragraphs[|paragraphs| - 1]), max);
    }
  }

  // ---- sequences ----

  lemma Assoc<T>(a: seq<T>, b: seq<T>, c: seq<T>)
    ensures (a + b) + c == a + (b + c)
  {
  }

  lemma FrontLast<T>(s: seq<T>)
    requires s != []
    ensures s == s[..|s| - 1] + [s[|s| - 1]]
  {
  }

  lemma SnocFront<T>(s: seq<T>, x: T)
    ensures (s + [x])[..|s + [x]| - 1] == s && (s + [x])[|s + [x]| - 1] == x
  {
  }

  // ---- nothing but white space is lost ----

  /** The characters of `s` that are not white space, in order. */
  function Ink(s: string): string {
    if s == "" then "" else Ink(s[..|s| - 1]) + (if IsSpace(s[|s| - 1]) then "" else [s[|s| - 1]])
  }

  function InkOf(lines: seq<string>): string {
    if lines == [] then "" else InkOf(lines[..|lines| - 1]) + Ink(lines[|lines| - 1])
  }

  lemma {:induction false} InkConcat(a: string, b: string)
    ensures Ink(a + b) == Ink(a) + Ink(b)
    decreases |b|
  {
    if b == "" {
      assert a + b == a;
    } else {
      InkConcat(a, b[..|b| - 1]);
      assert (a + b)[..|a + b| - 1] == a + b[..|b| - 1];
    }
  }

  lemma InkOfSnoc(lines: seq<string>, line: string)
    ensures InkOf(lines + [line]) == InkOf(lines) + Ink(line)
  {
    SnocFront(lines, line);
  }

  lemma {:induction false} InkOfConcat(a: seq<string>, b: seq<string>)
    ensures InkOf(a + b) == InkOf(a) + InkOf(b)
    decreases |b|
  {
    if b == [] {
      assert a + b == a;
    } else {
      var b', last := b[..|b| - 1], b[|b| - 1];
      FrontLast(b);
      Assoc(a, b', [last]);
      InkOfConcat(a, b');
      InkOfSnoc(a + b', last);
      Assoc(InkOf(a), InkOf(b'), Ink(last));
    }
  }

  /** Extending the last of some pieces extends their ink. */
  lemma InkOfExtend(pieces: seq<string>, c: char)
    requires pieces != []
    ensures InkOf(pieces[..|pieces| - 1] + [pieces[|pieces| - 1] + [c]]) == InkOf(pieces) + Ink([c])
  {
    InkOfSnoc(pieces[..|pieces| - 1], pieces[|pieces| - 1] + [c]);
    InkConcat(pieces[|pieces| - 1], [c]);
  }

  lemma {:induction false} SplitKeepsInk(text: string)
    ensures InkOf(SplitLines(text)) == Ink(text)
  {
    if text == "" {
      InkOfSnoc([], "");
    } else {
      var front, c := text[..|text| - 1], text[|text| - 1];
      SplitKeepsInk(front);
      InkConcat(front, [c]);
      assert front + [c] == text;
      if c == '\n' {
        InkOfSnoc(SplitLines(front), "");
      } else {
        InkOfExtend(SplitLines(front), c);
      }
    }
  }

  lemma {:induction false} WordsKeepInk(p: string)
    ensures InkOf(Words(p)) == Ink(p)
  {
    if p != "" {
      var front, c := p[..|p| - 1], p[|p| - 1];
      WordsKeepInk(front);
      InkConcat(front, [c]);
      assert front + [c] == p;
      if !IsSpace(c) {
        if front == "" || IsSpace(front[|front| - 1]) {
          InkOfSnoc(Words(front), [c]);
        } else {
          InkOfExtend(Words(front), c);
        }
      }
    }
  }

  function FillInk(f: Fill): string {
    InkOf(f.done) + Ink(f.current)
  }

  lemma InkOfOne(line: string)
    ensures InkOf([line]) == Ink(line)
  {
    InkOfSnoc([], line);
    assert [] + [line] == [line];
  }

  /** A line put before a fill comes first in its ink. */
  lemma FillInkCons(lines: seq<string>, f: Fill)
    ensures FillInk(Fill(lines + f.done, f.current)) == InkOf(lines) + FillInk(f)
  {
    InkOfConcat(lines, f.done);
    Assoc(InkOf(lines), InkOf(f.done), Ink(f.current));
  }

  lemma {:induction false} BreakKeepsInk(word: string, max: nat)
    requires max >= 1
    ensures FillInk(HardBreak(word, max)) == Ink(word)
    decreases |word|
  {
    if |word| > max {
      BreakKeepsInk(word[max..], max);
      InkConcat(word[..max], word[max..]);
      assert word == word[..max] + word[max..];
      FillInkCons([word[..max]], HardBreak(word[max..], max));
      InkOfOne(word[..max]);
    } else {
      assert InkOf([]) + Ink(word) == Ink(word);
    }
  }

  lemma AddBrokenKeepsInk(f: Fill, word: string, max: nat)
    requires 1 <= max < |word|
    ensures FillInk(AddWord(f, word, max)) == FillInk(f) + Ink(word)
  {
    BreakKeepsInk(word, max);
    if f.current == "" {
      FillInkCons(f.done, HardBreak(word, max));
      assert f.done + [] == f.done && InkOf(f.done) + "" == InkOf(f.done);
    } else {
      FillInkCons(f.done + [f.current], HardBreak(word, max));
      InkOfSnoc(f.done, f.current);
    }
  }

  lemma AddFittingKeepsInk(f: Fill, gap: string, word: string)
    requires gap == "" || gap == " "
    ensures Ink(f.current + gap + word) == Ink(f.current) + Ink(word)
  {
    InkConcat(f.current + gap, word);
    InkConcat(f.current, gap);
    assert Ink("") == "" && Ink(" ") == Ink(" "[..0]);
  }

  lemma AddKeepsInk(f: Fill, word: string, max: nat)
    requires max >= 1
    ensures FillInk(AddWord(f, word, max)) == FillInk(f) + Ink(word)
  {
    if |word| > max {
      AddBrokenKeepsInk(f, word, max);
    } else {
      InkOfSnoc(f.done, f.current);
      AddFittingKeepsInk(f, if f.current == "" then "" else " ", word);
      Assoc(InkOf(f.done), Ink(f.current), Ink(word));
    }
  }

  lemma {:induction false} FillKeepsInk(words: seq<string>, max: nat)
    requires max >= 1
    ensures FillInk(FillWords(words, max)) == InkOf(words)
  {
    if words != [] {
      var front, w := words[..|words| - 1], words[|words| - 1];
      FillKeepsInk(front, max);
      AddKeepsInk(FillWords(front, max), w, max);
    }
  }

  lemma {:induction false} WrapAllKeepsInk(paragraphs: seq<string>, max: nat)
    requires max >= 1
    ensures InkOf(WrapAll(paragraphs, max)) == InkOf(paragraphs)
  {
    if paragraphs != [] {
      var front, p := paragraphs[..|paragraphs| - 1], paragraphs[|paragraphs| - 1];
      var f := FillWords(Words(p), max);
      WrapAllKeepsInk(front, max);
      FillKeepsInk(Words(p), max);
      WordsKeepInk(p);
      InkOfSnoc(f.done, f.current);
      InkOfConcat(WrapAll(front, max), WrapParagraph(p, max));
    }
  }

  /** For every text and width, every line fits and every character that is not white space
      is kept, in order - hard-broken words included. */
  lemma WrapIsFaithful(text: string, max: nat)
    requires max >= 1
    ensures Fits(WrapAll(SplitLines(text), max), max)
    ensures InkOf(WrapAll(SplitLines(text), max)) == Ink(text)
  {
    EveryLineFits(SplitLines(text), max);
    WrapAllKeepsInk(SplitLines(text), max);
    SplitKeepsInk(text);
  }

  // ---- words on lines ----

  /** Words of one line, separated by single spaces. */
  function Join(group: seq<string>): string {
    if group == [] then ""
    else if |group| == 1 then group[0]
    else Join(group[..|group| - 1]) + " " + group[|group| - 1]
  }

  function Flatten(split: seq<seq<string>>): seq<string> {
    if split == [] then [] else Flatten(split[..|split| - 1]) + split[|split| - 1]
  }

  /** A way to put `words`, in order, on lines of at most `max` characters: the groups of
      all lines but the last, and of the last. */
  ghost predicate IsSplit(front: seq<seq<string>>, last: seq<string>, words: seq<string>, max: nat) {
    && Flatten(front) + last == words
    && |Join(last)| <= max
    && forall i :: 0 <= i < |front| ==> |Join(front[i])| <= max
  }

  ghost predicate NoWordTooWide(words: seq<string>, max: nat) {
    forall i :: 0 <= i < |words| ==> |words[i]| <= max
  }

  lemma {:induction false} JoinNonEmpty(group: seq<string>)
    requires AreWords(group) && group != []
    ensures Join(group) != ""
  {
  }

  lemma JoinSnoc(group: seq<string>, w: string)
    ensures Join(group + [w]) == if group == [] then w else Join(group) + " " + w
  {
    SnocFront(group, w);
    assert group == [] ==> group + [w] == [w];
  }

  lemma FlattenSnoc(split: seq<seq<string>>, g: seq<string>)
    ensures Flatten(split + [g]) == Flatten(split) + g
  {
    SnocFront(split, g);
  }

  // ---- the greedy lines are such a split ----

  /** The groups have the finished lines and the open line of a fill as their joins. */
  ghost predicate Matches(f: Fill, front: seq<seq<string>>, last: seq<string>) {
    && |front| == |f.done|
    && (forall i :: 0 <= i < |front| ==> f.done[i] == Join(front[i]))
    && f.current == Join(last)
    && AreWords(last)
  }

  predicate FitsOn(f: Fill, w: string, max: nat) {
    |f.current| + (if f.current == "" then 0 else 1) + |w| <= max
  }

  lemma StartsLine(f: Fill, w: string, max: nat, front: seq<seq<string>>, last: seq<string>)
    requires max >= 1 && IsWord(w) && |w| <= max && Matches(f, front, last) && !FitsOn(f, w, max)
    ensures Matches(AddWord(f, w, max), front + [last], [w])
  {
    var front', done' := front + [last], f.done + [f.current];
    forall i | 0 <= i < |front'| ensures done'[i] == Join(front'[i]) {
      if i < |front| {
        assert front'[i] == front[i];
      }
    }
  }

  lemma StaysOnLine(f: Fill, w: string, max: nat, front: seq<seq<string>>, last: seq<string>)
    requires max >= 1 && IsWord(w) && |w| <= max && Matches(f, front, last) && FitsOn(f, w, max)
    ensures Matches(AddWord(f, w, max), front, last + [w])
  {
    JoinSnoc(last, w);
    if last != [] {
      JoinNonEmpty(last);
    }
  }

  lemma {:induction false} GreedySplits(words: seq<string>, max: nat)
      returns (front: seq<seq<string>>, last: seq<string>)
    requires max >= 1 && AreWords(words) && NoWordTooWide(words, max)
    ensures Matches(FillWords(words, max), front, last) && Flatten(front) + last == words
  {
    front, last := [], [];
    if words != [] {
      var before, w := words[..|words| - 1], words[|words| - 1];
      FrontLast(words);
      front, last := GreedySplits(before, max);
      var f := FillWords(before, max);
      if FitsOn(f, w, max) {
        StaysOnLine(f, w, max, front, last);
        Assoc(Flatten(front), last, [w]);
        last := last + [w];
      } else {
        StartsLine(f, w, max, front, last);
        FlattenSnoc(front, last);
        front, last := front + [last], [w];
      }
    }
  }

  // ---- no split uses fewer lines ----

  /** Greedy lines never fall behind: fewer finished lines than any other split of the same
      words, or as many with no more on the open line. */
  predicate NotBehind(f: Fill, lines: nat, width: nat) {
    |f.done| < lines || (|f.done| == lines && |f.current| <= width)
  }

  lemma AddNotBehind(f: Fill, w: string, max: nat, lines: nat, group: seq<string>)
    requires 1 <= |w| <= max && |Join(group + [w])| <= max
    requires group == [] ==> |f.done| < lines || f == Fill([], "")
    requires group != [] ==> NotBehind(f, lines, |Join(group)|)
    ensures NotBehind(AddWord(f, w, max), lines, |Join(group + [w])|)
  {
    JoinSnoc(group, w);
  }

  lemma {:induction false} GreedyNotBehind(words: seq<string>, max: nat, front: seq<seq<string>>, last: seq<string>)
    requires max >= 1 && AreWords(words) && NoWordTooWide(words, max) && IsSplit(front, last, words, max)
    ensures NotBehind(FillWords(words, max), |front|, |Join(last)|)
    decreases |words|, |front|
  {
    if last == [] {
      if front != [] {
        EmptyLastLine(words, max, front);
        GreedyNotBehind(words, max, front[..|front| - 1], front[|front| - 1]);
      }
    } else {
      var group, w, before := last[..|last| - 1], last[|last| - 1], words[..|words| - 1];
      TakeLastWord(words, max, front, last);
      if group != [] {
        GreedyNotBehind(before, max, front, group);
      } else if front != [] {
        EmptyLastLine(before, max, front);
        GreedyNotBehind(before, max, front[..|front| - 1], front[|front| - 1]);
      }
      AddNotBehind(FillWords(before, max), w, max, |front|, group);
    }
  }

  lemma EmptyLastLine(words: seq<string>, max: nat, front: seq<seq<string>>)
    requires front != [] && IsSplit(front, [], words, max)
    ensures IsSplit(front[..|front| - 1], front[|front| - 1], words, max)
  {
    assert Flatten(front) + [] == Flatten(front);
  }

  /** Taking the last word off the last line leaves a split of the other words. */
  lemma TakeLastWord(words: seq<string>, max: nat, front: seq<seq<string>>, last: seq<string>)
    requires last != [] && IsSplit(front, last, words, max)
    ensures var group := last[..|last| - 1];
            && words != [] && words[|words| - 1] == last[|last| - 1] && last == group + [last[|last| - 1]]
            && IsSplit(front, group, words[..|words| - 1], max)
            && (group == [] && front == [] ==> words[..|words| - 1] == [])
  {
    var group, w := last[..|last| - 1], last[|last| - 1];
    FrontLast(last);
    Assoc(Flatten(front), group, [w]);
    SnocFront(Flatten(front) + group, w);
    JoinSnoc(group, w);
  }

  /** When no word is wider than a line, wrapping a paragraph takes the fewest lines of any
      in-order split of its words - and is one itself. */
  lemma GreedyIsOptimal(p: string, max: nat, front: seq<seq<string>>, last: seq<string>)
      returns (ownFront: seq<seq<string>>, ownLast: seq<string>)
    requires max >= 1 && NoWordTooWide(Words(p), max) && IsSplit(front, last, Words(p), max)
    ensures |WrapParagraph(p, max)| <= |front| + 1
    ensures IsSplit(ownFront, ownLast, Words(p), max) && |ownFront| + 1 == |WrapParagraph(p, max)|
    ensures forall i :: 0 <= i < |ownFront| ==> WrapParagraph(p, max)[i] == Join(ownFront[i])
    ensures WrapParagraph(p, max)[|ownFront|] == Join(ownLast)
  {
    GreedyNotBehind(Words(p), max, front, last);
    ownFront, ownLast := GreedySplits(Words(p), max);
    FillFits(Words(p), max);
    assert forall i :: 0 <= i < |ownFront| ==> FillWords(Words(p), max).done[i] == Join(ownFront[i]);
  }
}
