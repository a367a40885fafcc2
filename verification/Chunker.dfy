/**
 The overlapping chunker of `chunk_document`. The raw windows are kept beside the stripped chunks, so that it
 can be said what the overlap loses: nothing.
 */
module Chunker {
  import opened Sorting

  // ---- Python's string operations ----

  /** The last place in `lo..hi` where `mark` is followed by a blank, both inside the range, or -1. */
  function RFind(s: string, mark: char, lo: nat, hi: nat): (r: int)
    requires hi <= |s|
    ensures r == -1 || (lo <= r && r + 2 <= hi && s[r] == mark && s[r + 1] == ' ')
    ensures forall i :: lo <= i && i + 2 <= hi && s[i] == mark && s[i + 1] == ' ' ==> i <= r
    decreases hi
  {
    if hi < lo + 2 then -1
    else if s[hi - 2] == mark && s[hi - 1] == ' ' then hi - 2
    else RFind(s, mark, lo, hi - 1)
  }

  function StripLeft(s: string, space: char -> bool): string {
    if s != [] && space(s[0]) then StripLeft(s[1..], space) else s
  }

  function StripRight(s: string, space: char -> bool): string {
    if s != [] && space(s[|s| - 1]) then StripRight(s[..|s| - 1], space) else s
  }

  function Strip(s: string, space: char -> bool): string {
    StripRight(StripLeft(s, space), space)
  }

  predicate Blank(s: string, space: char -> bool) { forall i :: 0 <= i < |s| ==> space(s[i]) }

  /** The text between surrounding blanks, which neither begins nor ends with one. */
  lemma {:induction false} StripExactly(s: string, space: char -> bool) returns (before: string, after: string)
    ensures s == before + Strip(s, space) + after && Blank(before, space) && Blank(after, space)
    ensures var t := Strip(s, space); t != "" ==> !space(t[0]) && !space(t[|t| - 1])
  {
    before := StripLeftExactly(s, space);
    after := StripRightExactly(StripLeft(s, space), space);
  }

  lemma {:induction false} StripLeftExactly(s: string, space: char -> bool) returns (before: string)
    ensures s == before + StripLeft(s, space) && Blank(before, space)
    ensures StripLeft(s, space) != "" ==> !space(StripLeft(s, space)[0])
  {
    before := "";
    if s != [] && space(s[0]) {
      var b := StripLeftExactly(s[1..], space);
      before := [s[0]] + b;
    }
  }

  lemma {:induction false} StripRightExactly(s: string, space: char -> bool) returns (after: string)
    ensures s == StripRight(s, space) + after && Blank(after, space)
    ensures StripRight(s, space) != "" ==> !space(StripRight(s, space)[|StripRight(s, space)| - 1])
    ensures StripRight(s, space) != "" ==> StripRight(s, space)[0] == s[0]
  {
    after := "";
    if s != [] && space(s[|s| - 1]) {
      var a := StripRightExactly(s[..|s| - 1], space);
      after := a + [s[|s| - 1]];
    }
  }

  /** A slice with bounds that Python cuts to the string. */
  function Slice(s: string, lo: nat, hi: nat): string
    requires lo <= hi
  {
    if |s| <= lo then "" else if |s| <= hi then s[lo..] else s[lo..hi]
  }

  // ---- Windows ----

  /** A window ends after a full stop, else an exclamation mark, else a question mark, else where it is full. */
  function WindowEnd(s: string, start: nat, max: nat): nat
    requires max >= 1
  {
    var end := start + max;
    if end >= |s| then end
    else
      var dot := RFind(s, '.', start + max / 2, end);
      if dot != -1 then dot + 1
      else
        var bang := RFind(s, '!', start + max / 2, end);
        if bang != -1 then bang + 1
        else
          var ask := RFind(s, '?', start + max / 2, end);
          if ask != -1 then ask + 1 else end
  }

  lemma {:induction false} WindowEndRange(s: string, start: nat, max: nat)
    requires max >= 1
    ensures start + max / 2 + 1 <= WindowEnd(s, start, max) <= start + max
  {
  }

  /** In the second half of the window the mark stands at `i` with a blank behind it. */
  predicate EndsAt(s: string, start: nat, max: nat, mark: char, i: nat) {
    start + max / 2 <= i && i + 2 <= start + max && i + 2 <= |s| && s[i] == mark && s[i + 1] == ' '
  }

  ghost predicate Has(s: string, start: nat, max: nat, mark: char) { exists i: nat :: EndsAt(s, start, max, mark, i) }

  ghost predicate IsLast(s: string, start: nat, max: nat, mark: char, i: nat) {
    EndsAt(s, start, max, mark, i) && forall j: nat :: EndsAt(s, start, max, mark, j) ==> j <= i
  }

  /**
   A window that does not reach the end of the section ends behind the last full stop in its second half, or behind
   the last exclamation mark if there is no full stop, or the last question mark if there is neither; else it is full.
   */
  lemma {:induction false} WindowEndExactly(s: string, start: nat, max: nat, end: nat)
    requires max >= 1
    ensures end == WindowEnd(s, start, max) <==>
            if start + max >= |s| then end == start + max
            else if Has(s, start, max, '.') then end > 0 && IsLast(s, start, max, '.', end - 1)
            else if Has(s, start, max, '!') then end > 0 && IsLast(s, start, max, '!', end - 1)
            else if Has(s, start, max, '?') then end > 0 && IsLast(s, start, max, '?', end - 1)
            else end == start + max
  {
    if start + max < |s| {
      RFindLast(s, start, max, '.');
      RFindLast(s, start, max, '!');
      RFindLast(s, start, max, '?');
    }
  }

  lemma {:induction false} RFindLast(s: string, start: nat, max: nat, mark: char)
    requires start + max < |s|
    ensures var r := RFind(s, mark, start + max / 2, start + max);
            && (r == -1 <==> !Has(s, start, max, mark))
            && forall i: nat :: i == r <==> IsLast(s, start, max, mark, i)
  {
    var r := RFind(s, mark, start + max / 2, start + max);
    if r != -1 {
      assert EndsAt(s, start, max, mark, r);
    }
    forall i: nat | EndsAt(s, start, max, mark, i) ensures i <= r {
    }
  }

  /** Every window leads to a later start exactly when the overlap is at most half a window. */
  lemma {:induction false} ProgressExactly(max: nat, overlap: nat)
    requires max >= 1
    ensures (forall s: string, start: nat :: WindowEnd(s, start, max) - overlap > start) <==> overlap <= max / 2
  {
    if overlap <= max / 2 {
      forall s: string, start: nat ensures WindowEnd(s, start, max) - overlap > start {
        WindowEndRange(s, start, max);
      }
    } else {
      EarlyBreak(max);
      assert WindowEnd(Sentence(max), 0, max) - overlap <= 0;
    }
  }

  /** A text longer than a window whose only sentence end is as early as the search allows. */
  function Sentence(max: nat): string {
    seq(max + 1, i => if i == max / 2 then '.' else if i == max / 2 + 1 then ' ' else 'a')
  }

  lemma {:induction false} EarlyBreak(max: nat)
    requires max >= 1
    ensures WindowEnd(Sentence(max), 0, max) == max / 2 + 1
  {
    var s := Sentence(max);
    if max >= 3 {
      assert s[max / 2] == '.' && s[max / 2 + 1] == ' ';
    }
  }

  function Drop(s: string, n: nat): string {
    if |s| <= n then "" else s[n..]
  }

  /** A window as a half-open range; the end may lie beyond the section. */
  type Range = (nat, nat)

  function Raw(s: string, w: Range): string {
    if w.0 <= w.1 then Slice(s, w.0, w.1) else ""
  }

  function Tails(s: string, windows: seq<Range>, overlap: nat): string {
    if windows == [] then "" else Drop(Raw(s, windows[0]), overlap) + Tails(s, windows[1..], overlap)
  }

  /** The first window followed by each later one without its first `overlap` characters. */
  function Rebuild(s: string, windows: seq<Range>, overlap: nat): string {
    if windows == [] then "" else Raw(s, windows[0]) + Tails(s, windows[1..], overlap)
  }

  function Ends(s: string, max: nat): nat -> nat
    requires max >= 1
  {
    (start: nat) => WindowEnd(s, start, max)
  }

  /** Every window from a start on leads to a later start, up to the end of the section. */
  ghost predicate Progresses(len: nat, start: nat, ends: nat -> nat, overlap: nat)
    decreases len - start
  {
    start >= len
    || (if start + overlap < ends(start) then Progresses(len, ends(start) - overlap, ends, overlap) else false)
  }

  /** The overlap suits the section: always so if it is at most half a window. */
  ghost predicate Suits(s: string, max: nat, overlap: nat) {
    max >= 1 && Progresses(|s|, 0, Ends(s, max), overlap)
  }

  lemma {:induction false} EndsPastHalf(s: string, start: nat, max: nat, overlap: nat)
    requires max >= 1 && overlap <= max / 2
    ensures start + overlap < Ends(s, max)(start)
  {
    WindowEndRange(s, start, max);
  }

  lemma ProgressStep(len: nat, start: nat, ends: nat -> nat, overlap: nat, next: nat)
    requires start + overlap < ends(start) && next == ends(start) - overlap && Progresses(len, next, ends, overlap)
    ensures Progresses(len, start, ends, overlap)
  {
  }

  lemma {:induction false} HalfProgresses(s: string, start: nat, max: nat, overlap: nat)
    requires max >= 1 && overlap <= max / 2
    ensures Progresses(|s|, start, Ends(s, max), overlap)
    decreases |s| - start
  {
    if start < |s| {
      var ends := Ends(s, max);
      EndsPastHalf(s, start, max, overlap);
      var next: nat := ends(start) - overlap;
      HalfProgresses(s, next, max, overlap);
      ProgressStep(|s|, start, ends, overlap, next);
    }
  }

  lemma HalfSuits(s: string, max: nat, overlap: nat)
    requires max >= 1 && overlap <= max / 2
    ensures Suits(s, max, overlap)
  {
    HalfProgresses(s, 0, max, overlap);
  }

  /** The windows of a section of a given length, from a start on. */
  ghost function WindowsFrom(len: nat, start: nat, ends: nat -> nat, overlap: nat): seq<Range>
    requires Progresses(len, start, ends, overlap)
    decreases len - start
  {
    if start >= len then []
    else [(start, ends(start))] + WindowsFrom(len, ends(start) - overlap, ends, overlap)
  }

  ghost function Windows(s: string, max: nat, overlap: nat): seq<Range>
    requires Suits(s, max, overlap)
  {
    WindowsFrom(|s|, 0, Ends(s, max), overlap)
  }

  /** What a window contributes: its text without surrounding blanks, nothing if it is blank. */
  function Text(s: string, space: char -> bool): Range -> seq<string> {
    (w: Range) => if Strip(Raw(s, w), space) != "" then [Strip(Raw(s, w), space)] else []
  }

  function Texts(windows: seq<Range>, text: Range -> seq<string>): seq<string> {
    if windows == [] then [] else text(windows[0]) + Texts(windows[1..], text)
  }

  lemma {:induction false} TailsCons(s: string, w: Range, rest: seq<Range>, overlap: nat)
    ensures Tails(s, [w] + rest, overlap) == Drop(Raw(s, w), overlap) + Tails(s, rest, overlap)
  {
    assert ([w] + rest)[1..] == rest;
  }

  lemma {:induction false} RawThenDrop(s: string, start: nat, end: nat, overlap: nat)
    requires start < |s| && start + overlap < end
    ensures Drop(Raw(s, (start, end)), overlap) + Drop(s, end) == Drop(s, start + overlap)
  {
  }

  lemma WindowsCons(len: nat, start: nat, ends: nat -> nat, overlap: nat, next: nat)
    requires start < len && Progresses(len, start, ends, overlap) && next == ends(start) - overlap
    ensures Progresses(len, next, ends, overlap) && next > start
    ensures WindowsFrom(len, start, ends, overlap) == [(start, ends(start))] + WindowsFrom(len, next, ends, overlap)
  {
  }

  lemma {:induction false} TailsStep(s: string, start: nat, ends: nat -> nat, overlap: nat, end: nat, next: nat)
    requires start < |s| && Progresses(|s|, start, ends, overlap) && end == ends(start) && next == end - overlap
    ensures start + overlap < end && Progresses(|s|, next, ends, overlap)
    ensures Tails(s, WindowsFrom(|s|, start, ends, overlap), overlap)
         == Drop(Raw(s, (start, end)), overlap) + Tails(s, WindowsFrom(|s|, next, ends, overlap), overlap)
  {
    WindowsCons(|s|, start, ends, overlap, next);
    TailsCons(s, (start, end), WindowsFrom(|s|, next, ends, overlap), overlap);
  }

  /** After windows up to `covered`, the later ones add the rest of the section. */
  lemma {:induction false} TailsAreSuffix(s: string, covered: nat, start: nat, ends: nat -> nat, overlap: nat)
    requires Progresses(|s|, start, ends, overlap) && covered == start + overlap
    ensures Tails(s, WindowsFrom(|s|, start, ends, overlap), overlap) == Drop(s, covered)
    decreases |s| - start
  {
    if start < |s| {
      var end := ends(start);
      var next: nat := end - overlap;
      TailsStep(s, start, ends, overlap, end, next);
      TailsAreSuffix(s, end, next, ends, overlap);
      RawThenDrop(s, start, end, overlap);
    }
  }

  lemma {:induction false} RebuildStep(s: string, ends: nat -> nat, overlap: nat, end: nat, next: nat)
    requires s != "" && Progresses(|s|, 0, ends, overlap) && end == ends(0) && next == end - overlap
    ensures Progresses(|s|, next, ends, overlap)
    ensures Rebuild(s, WindowsFrom(|s|, 0, ends, overlap), overlap)
         == Raw(s, (0, end)) + Tails(s, WindowsFrom(|s|, next, ends, overlap), overlap)
  {
    WindowsCons(|s|, 0, ends, overlap, next);
    var rest := WindowsFrom(|s|, next, ends, overlap);
    assert ([(0, end)] + rest)[1..] == rest;
  }

  lemma {:induction false} RawThenRest(s: string, end: nat)
    requires s != ""
    ensures Raw(s, (0, end)) + Drop(s, end) == s
  {
  }

  lemma {:induction false} RebuildAll(s: string, ends: nat -> nat, overlap: nat)
    requires Progresses(|s|, 0, ends, overlap)
    ensures Rebuild(s, WindowsFrom(|s|, 0, ends, overlap), overlap) == s
  {
    if s != "" {
      var end := ends(0);
      var next: nat := end - overlap;
      RebuildStep(s, ends, overlap, end, next);
      TailsAreSuffix(s, end, next, ends, overlap);
      RawThenRest(s, end);
    }
  }

  lemma {:induction false} WindowLength(s: string, start: nat, max: nat)
    requires max >= 1 && start < |s|
    ensures 0 < |Raw(s, (start, WindowEnd(s, start, max)))| <= max
  {
    WindowEndRange(s, start, max);
  }

  lemma {:induction false} WindowLengths(s: string, start: nat, max: nat, overlap: nat)
    requires max >= 1 && Progresses(|s|, start, Ends(s, max), overlap)
    ensures forall w :: w in WindowsFrom(|s|, start, Ends(s, max), overlap) ==> 0 < |Raw(s, w)| <= max
    decreases |s| - start
  {
    if start < |s| {
      var next: nat := WindowEnd(s, start, max) - overlap;
      WindowsCons(|s|, start, Ends(s, max), overlap, next);
      WindowLength(s, start, max);
      WindowLengths(s, next, max, overlap);
    }
  }

  /** Nothing is lost: windows at most `max` long, from which the section can be rebuilt exactly. */
  lemma {:induction false} WindowsLoseNothing(s: string, max: nat, overlap: nat)
    requires Suits(s, max, overlap)
    ensures Rebuild(s, Windows(s, max, overlap), overlap) == s
    ensures forall w :: w in Windows(s, max, overlap) ==> 0 < |Raw(s, w)| <= max
  {
    WindowLengths(s, 0, max, overlap);
    RebuildAll(s, Ends(s, max), overlap);
  }

  /** One turn of the loop: what the next window contributes, then the remaining ones. */
  lemma {:induction false} TextsStep(chunks: seq<string>, len: nat, start: nat, ends: nat -> nat, overlap: nat,
                                     text: Range -> seq<string>, end: nat, next: nat)
    requires start < len && Progresses(len, start, ends, overlap) && end == ends(start) && next == end - overlap
    ensures Progresses(len, next, ends, overlap)
    ensures chunks + Texts(WindowsFrom(len, start, ends, overlap), text)
         == (chunks + text((start, end))) + Texts(WindowsFrom(len, next, ends, overlap), text)
  {
    var rest := WindowsFrom(len, next, ends, overlap);
    assert ([(start, end)] + rest)[1..] == rest;
  }

  /** The splitting loop. */
  method SplitSection(content: string, max: nat, overlap: nat, space: char -> bool) returns (chunks: seq<string>)
    requires |content| > max && Suits(content, max, overlap)
    ensures chunks == Texts(Windows(content, max, overlap), Text(content, space))
  {
    chunks := [];
    ghost var ends, text := Ends(content, max), Text(content, space);
    var start: nat := 0;
    while start < |content|
      invariant Progresses(|content|, start, ends, overlap)
      invariant chunks + Texts(WindowsFrom(|content|, start, ends, overlap), text)
             == Texts(Windows(content, max, overlap), text)
      decreases |content| - start
    {
      var end := WindowEnd(content, start, max);
      assert end == ends(start);
      var next: nat := end - overlap;
      TextsStep(chunks, |content|, start, ends, overlap, text, end, next);
      chunks := chunks + StrippedWindow(content, start, end, space);
      start := next;
    }
    assert chunks + [] == chunks;
  }

  function StrippedWindow(content: string, start: nat, end: nat, space: char -> bool): (r: seq<string>)
    ensures r == Text(content, space)((start, end))
  {
    var text := Strip(Raw(content, (start, end)), space);
    if text != "" then [text] else []
  }

  /** The chunks of a section are the stripped texts of its windows that are not blank, in order. */
  lemma {:induction false} TextsExactly(s: string, windows: seq<Range>, space: char -> bool)
    ensures Texts(windows, Text(s, space)) == Filter(StrippedAll(s, windows, space), NotEmpty())
  {
    if windows != [] {
      var rest := windows[1..];
      TextsExactly(s, rest, space);
      var all := StrippedAll(s, windows, space);
      assert all[0] == Strip(Raw(s, windows[0]), space) && all[1..] == StrippedAll(s, rest, space);
    }
  }

  function NotEmpty(): string -> bool { (t: string) => t != "" }

  function StrippedAll(s: string, windows: seq<Range>, space: char -> bool): (r: seq<string>)
    ensures |r| == |windows|
  {
    seq(|windows|, i requires 0 <= i < |windows| => Strip(Raw(s, windows[i]), space))
  }

  // ---- Documents ----

  datatype Section = Section(heading: string, content: string)

  datatype Chunk = Chunk(heading: string, content: string, index: nat)

  /** The texts of one section: itself when it fits, else its stripped windows. */
  ghost function SectionTexts(s: Section, max: nat, overlap: nat, space: char -> bool): seq<string>
    requires |s.content| <= max || Suits(s.content, max, overlap)
  {
    if |s.content| <= max then [s.content] else Texts(Windows(s.content, max, overlap), Text(s.content, space))
  }

  /** The overlap suits every section that is split. */
  ghost predicate SuitsAll(doc: seq<Section>, max: nat, overlap: nat) {
    forall i :: 0 <= i < |doc| ==> |doc[i].content| <= max || Suits(doc[i].content, max, overlap)
  }

  ghost function DocumentTexts(doc: seq<Section>, max: nat, overlap: nat, space: char -> bool): seq<(string, string)>
    requires SuitsAll(doc, max, overlap)
  {
    if doc == [] then []
    else
      var s := doc[|doc| - 1];
      DocumentTexts(doc[..|doc| - 1], max, overlap, space) + Headed(s.heading, SectionTexts(s, max, overlap, space))
  }

  function Headed(heading: string, texts: seq<string>): (r: seq<(string, string)>)
    ensures |r| == |texts|
  {
    seq(|texts|, i requires 0 <= i < |texts| => (heading, texts[i]))
  }

  /** Chunks numbered from `from` on. */
  function Numbered(texts: seq<(string, string)>, from: nat): (r: seq<Chunk>)
    ensures |r| == |texts|
  {
    seq(|texts|, i requires 0 <= i < |texts| => Chunk(texts[i].0, texts[i].1, from + i))
  }

  lemma {:induction false} NumberedConcat(a: seq<(string, string)>, b: seq<(string, string)>)
    ensures Numbered(a + b, 0) == Numbered(a, 0) + Numbered(b, |a|)
  {
  }

  lemma {:induction false} DocumentStep(doc: seq<Section>, d: nat, max: nat, overlap: nat, space: char -> bool)
    requires SuitsAll(doc, max, overlap) && d < |doc|
    ensures DocumentTexts(doc[..d + 1], max, overlap, space)
         == DocumentTexts(doc[..d], max, overlap, space)
            + Headed(doc[d].heading, SectionTexts(doc[d], max, overlap, space))
  {
    assert doc[..d + 1][..d] == doc[..d];
  }

  method AppendTexts(chunks: seq<Chunk>, heading: string, texts: seq<string>) returns (r: seq<Chunk>)
    ensures r == chunks + Numbered(Headed(heading, texts), |chunks|)
  {
    r := chunks;
    for t := 0 to |texts|
      invariant r == chunks + Numbered(Headed(heading, texts), |chunks|)[..t]
    {
      r := r + [Chunk(heading, texts[t], |r|)];
    }
  }

  /** The whole document: the sections' texts in order, numbered without gaps across sections. */
  method ChunkDocument(doc: seq<Section>, max: nat, overlap: nat, space: char -> bool) returns (chunks: seq<Chunk>)
    requires SuitsAll(doc, max, overlap)
    ensures chunks == Numbered(DocumentTexts(doc, max, overlap, space), 0)
    ensures forall i :: 0 <= i < |chunks| ==> chunks[i].index == i
  {
    chunks := [];
    for d := 0 to |doc|
      invariant chunks == Numbered(DocumentTexts(doc[..d], max, overlap, space), 0)
    {
      DocumentStep(doc, d, max, overlap, space);
      var section := doc[d];
      var texts := [section.content];
      if |section.content| > max {
        texts := SplitSection(section.content, max, overlap, space);
      }
      NumberedConcat(DocumentTexts(doc[..d], max, overlap, space), Headed(section.heading, texts));
      chunks := AppendTexts(chunks, section.heading, texts);
    }
    assert doc[..|doc|] == doc;
  }

  /** A document of sections that fit has one chunk for each, with its heading, its text and its number. */
  lemma {:induction false} SectionsThatFit(doc: seq<Section>, max: nat, overlap: nat, space: char -> bool)
    requires forall i :: 0 <= i < |doc| ==> |doc[i].content| <= max
    ensures SuitsAll(doc, max, overlap)
    ensures var chunks := Numbered(DocumentTexts(doc, max, overlap, space), 0);
            |chunks| == |doc|
            && forall i :: 0 <= i < |doc| ==> chunks[i] == Chunk(doc[i].heading, doc[i].content, i)
  {
    if doc != [] {
      var n := |doc| - 1;
      SectionsThatFit(doc[..n], max, overlap, space);
      assert forall i :: 0 <= i < n ==>
          Numbered(DocumentTexts(doc[..n], max, overlap, space), 0)[i]
          == Chunk(DocumentTexts(doc[..n], max, overlap, space)[i].0,
                   DocumentTexts(doc[..n], max, overlap, space)[i].1, i);
    }
  }

  /** A section that is split has its heading on all its chunks. */
  lemma {:induction false} SectionThatIsSplit(s: Section, max: nat, overlap: nat, space: char -> bool)
    requires |s.content| > max && Suits(s.content, max, overlap)
    ensures SuitsAll([s], max, overlap)
    ensures var chunks := Numbered(DocumentTexts([s], max, overlap, space), 0);
            var texts := Filter(StrippedAll(s.content, Windows(s.content, max, overlap), space), NotEmpty());
            |chunks| == |texts| && forall i :: 0 <= i < |texts| ==> chunks[i] == Chunk(s.heading, texts[i], i)
  {
    TextsExactly(s.content, Windows(s.content, max, overlap), space);
    assert [s][..0] == [] && [s][0] == s;
    assert DocumentTexts([], max, overlap, space) == [];
  }
}
