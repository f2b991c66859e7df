/** Markup cleaning and page chunking (the wiki service). */
module ScrapboxService {
  import opened Wrappers
  import opened Text
  import opened Seqs
  import opened Scrapbox

  /** A chunk is closed as soon as its cleaned lines add up to more than this. */
  const MaxChunkLength: nat := 500

  const UrlBase: string := "https://scrapbox.io/"

  // ---------------------------------------------------------------------
  // Markup cleaning
  // ---------------------------------------------------------------------

  /** Position of the first `]` in `s` at or after `i`. */
  function FindClose(s: string, i: nat): (r: Option<nat>)
    requires i <= |s|
    ensures r.Some? ==> i <= r.value < |s| && s[r.value] == ']'
    decreases |s| - i
  {
    if i == |s| then None
    else if s[i] == ']' then Some(i)
    else FindClose(s, i + 1)
  }

  /** The first `]` at or after `i` is found where it is. */
  lemma {:induction false} FindCloseAt(s: string, i: nat, j: nat)
    requires i <= j < |s| && s[j] == ']'
    requires forall k :: i <= k < j ==> s[k] != ']'
    ensures FindClose(s, i) == Some(j)
    decreases j - i
  {
    if i < j {
      FindCloseAt(s, i + 1, j);
    }
  }

  /** Where the link `[x]` that opens `s` closes: `s` starts with `[` and its
      first `]` comes after at least one character. */
  function LinkEnd(s: string): (r: Option<nat>)
    ensures r.Some? ==> 2 <= r.value < |s| && s[0] == '[' && s[r.value] == ']'
  {
    if |s| == 0 || s[0] != '[' then None
    else
      match FindClose(s, 1)
      case Some(j) => if j >= 2 then Some(j) else None
      case None => None
  }

  /** Python's `re.sub(r'\[([^\]]+)\]', r'\1', s)`: scanning left to right,
      a `[` whose next `]` is at least two positions further on is removed
      together with that `]`, keeping the text between; the scan resumes
      after the `]`. Any other character is copied. The captured text may
      itself contain `[`. */
  function StripLinks(s: string): (r: string)
    ensures |r| <= |s|
    decreases |s|
  {
    if |s| == 0 then []
    else
      match LinkEnd(s)
      case Some(j) => s[1..j] + StripLinks(s[j + 1..])
      case None => [s[0]] + StripLinks(s[1..])
  }

  /** Number of bracket pairs `StripLinks` removes from `s`. */
  function LinkCount(s: string): nat
    decreases |s|
  {
    if |s| == 0 then 0
    else
      match LinkEnd(s)
      case Some(j) => 1 + LinkCount(s[j + 1..])
      case None => LinkCount(s[1..])
  }

  /** Cleaning only deletes brackets, one `[` and one `]` per link: every
      character other than a bracket occurs as often in the result as in the
      input. */
  lemma {:induction false} StripLinksCount(s: string, d: char)
    ensures Count(StripLinks(s), d) + (if d == '[' || d == ']' then LinkCount(s) else 0) == Count(s, d)
    decreases |s|
  {
    if |s| > 0 {
      if LinkEnd(s).Some? {
        var j := LinkEnd(s).value;
        StripLinksCount(s[j + 1..], d);
        CountAcrossLink(s, j, d);
      } else {
        StripLinksCount(s[1..], d);
        CountAcrossCopy(s, d);
      }
    }
  }

  /** One step of `StripLinks` at a link that closes at `j`. */
  lemma StripLinksAtLink(s: string, j: nat)
    requires LinkEnd(s) == Some(j)
    ensures StripLinks(s) == s[1..j] + StripLinks(s[j + 1..])
    ensures LinkCount(s) == 1 + LinkCount(s[j + 1..])
  {
  }

  lemma CountAcrossLink(s: string, j: nat, d: char)
    requires LinkEnd(s) == Some(j)
    requires var rest := s[j + 1..];
      Count(StripLinks(rest), d) + (if d == '[' || d == ']' then LinkCount(rest) else 0) == Count(rest, d)
    ensures Count(StripLinks(s), d) + (if d == '[' || d == ']' then LinkCount(s) else 0) == Count(s, d)
  {
    StripLinksAtLink(s, j);
    CountLinkParts(s, j, d);
    CountConcat(s[1..j], StripLinks(s[j + 1..]), d);
  }

  /** A link's characters counted in three parts: the `[`, the text between
      and the `]`, then the rest. */
  lemma CountLinkParts(s: string, j: nat, d: char)
    requires LinkEnd(s) == Some(j)
    ensures Count(s, d) == (if d == '[' then 1 else 0) + Count(s[1..j], d) + (if d == ']' then 1 else 0) + Count(s[j + 1..], d)
  {
    assert s[1..] == s[1..j] + s[j..];
    assert s[j..][1..] == s[j + 1..];
    CountConcat(s[1..j], s[j..], d);
  }

  lemma CountAcrossCopy(s: string, d: char)
    requires |s| > 0 && LinkEnd(s).None?
    requires Count(StripLinks(s[1..]), d) + (if d == '[' || d == ']' then LinkCount(s[1..]) else 0) == Count(s[1..], d)
    ensures Count(StripLinks(s), d) + (if d == '[' || d == ']' then LinkCount(s) else 0) == Count(s, d)
  {
    var rest := s[1..];
    assert s == [s[0]] + rest;
    CountConcat([s[0]], rest, d);
    CountConcat([s[0]], StripLinks(rest), d);
  }

  /** Text without `[` is left unchanged. */
  lemma {:induction false} StripLinksNoOpen(s: string)
    requires '[' !in s
    ensures StripLinks(s) == s
    decreases |s|
  {
    if |s| > 0 {
      assert s[0] in s;
      assert forall c :: c in s[1..] ==> c in s;
      StripLinksNoOpen(s[1..]);
    }
  }

  /** Text with no `[` passes through unchanged. */
  lemma {:induction false} StripLinksPlain(a: string, rest: string)
    requires '[' !in a
    ensures StripLinks(a + rest) == a + StripLinks(rest)
    decreases |a|
  {
    if |a| > 0 {
      assert (a + rest)[1..] == a[1..] + rest;
      StripLinksPlain(a[1..], rest);
      assert [a[0]] + a[1..] == a;
    } else {
      assert a + rest == rest;
    }
  }

  /** The wiki's link markup around `x`. */
  function Bracketed(x: string): string {
    "[" + x + "]"
  }

  /** A link `[x]` with non-empty `x` free of `]` is replaced by `x`. */
  lemma StripLinksLink(x: string, rest: string)
    requires |x| > 0 && ']' !in x
    ensures StripLinks(Bracketed(x) + rest) == x + StripLinks(rest)
  {
    var s := Bracketed(x) + rest;
    var j := |x| + 1;
    assert s[1..j] == x;
    assert s[j] == ']';
    assert s[j + 1..] == rest;
    assert forall k :: 1 <= k < j ==> s[k] == x[k - 1];
    FindCloseAt(s, 1, j);
    assert LinkEnd(s) == Some(j);
  }

  /** An empty pair `[]` is not a match: both brackets are kept. */
  lemma StripLinksEmptyBrackets(rest: string)
    ensures StripLinks("[]" + rest) == "[]" + StripLinks(rest)
  {
    var s := "[]" + rest;
    FindCloseAt(s, 1, 1);
    StripLinksCopy(s);
    assert s[1..] == "]" + rest;
    StripLinksPlain("]", rest);
  }

  /** One step of `StripLinks` where no link opens. */
  lemma StripLinksCopy(s: string)
    requires |s| > 0 && LinkEnd(s).None?
    ensures StripLinks(s) == [s[0]] + StripLinks(s[1..])
  {
  }

  /** Python's `clean_scrapbox_text`: strip link brackets, then `strip()`. */
  function Clean(line: string): (r: string)
    ensures |r| <= |line|
    ensures r == [] || (!IsSpace(r[0]) && !IsSpace(r[|r| - 1]))
  {
    Strip(StripLinks(line))
  }

  /** A line without `[` is only stripped. */
  lemma CleanPlain(line: string)
    requires '[' !in line
    ensures Clean(line) == Strip(line)
  {
    StripLinksNoOpen(line);
  }

  /** A string without leading or trailing whitespace is its own strip. */
  lemma StripUntrimmed(s: string)
    requires s == [] || (!IsSpace(s[0]) && !IsSpace(s[|s| - 1]))
    ensures Strip(s) == s
  {
  }

  /** Cleaning never introduces a line break. */
  lemma CleanKeepsNoNewline(line: string)
    requires '\n' !in line
    ensures '\n' !in Clean(line)
  {
    var t := StripLinks(line);
    StripLinksCount(line, '\n');
    CountZero(line, '\n');
    CountZero(t, '\n');
    var r := Strip(t);
    var k :| 0 <= k <= |t| - |r| && r == t[k..][..|r|] && AllSpace(t[..k]) && AllSpace(t[k..][|r|..]);
  }

  /** Plain text around two links: the links lose their brackets and the
      text between is kept. */
  lemma StripLinksTwoLinks(a1: string, l1: string, a2: string, l2: string)
    requires '[' !in a1 && '[' !in a2
    requires |l1| > 0 && ']' !in l1 && |l2| > 0 && ']' !in l2
    ensures StripLinks(a1 + (Bracketed(l1) + (a2 + Bracketed(l2)))) == a1 + (l1 + (a2 + l2))
  {
    assert Bracketed(l2) + "" == Bracketed(l2);
    assert l2 + "" == l2;
    StripLinksLink(l2, "");
    StripLinksPlain(a2, Bracketed(l2));
    StripLinksLink(l1, a2 + Bracketed(l2));
    StripLinksPlain(a1, Bracketed(l1) + (a2 + Bracketed(l2)));
  }

  /** The shape of the service's unit test, `"This is a [link] and [image.jpg]"`,
      which cleans to `"This is a link and image.jpg"`. */
  lemma CleanTwoLinks(a1: string, l1: string, a2: string, l2: string)
    requires '[' !in a1 && '[' !in a2
    requires |l1| > 0 && ']' !in l1 && |l2| > 0 && ']' !in l2
    requires |a1| > 0 && !IsSpace(a1[0]) && !IsSpace(l2[|l2| - 1])
    ensures Clean(a1 + "[" + l1 + "]" + a2 + "[" + l2 + "]") == a1 + l1 + a2 + l2
  {
    StripLinksTwoLinks(a1, l1, a2, l2);
    var r := a1 + (l1 + (a2 + l2));
    assert r == a1 + l1 + a2 + l2;
    assert a1 + "[" + l1 + "]" + a2 + "[" + l2 + "]" == a1 + (Bracketed(l1) + (a2 + Bracketed(l2)));
    assert r[0] == a1[0] && r[|r| - 1] == l2[|l2| - 1];
    StripUntrimmed(r);
  }

  // ---------------------------------------------------------------------
  // Chunking
  // ---------------------------------------------------------------------

  /** Python's `not line.strip()`. */
  predicate IsBlank(line: string) {
    Strip(line) == []
  }

  /** What the chunking loop uses of one raw line: whether it is blank, and
      its cleaned text. */
  datatype Line = Line(blank: bool, cleaned: string)

  function Annotate(lines: seq<string>): (r: seq<Line>)
    ensures |r| == |lines|
    ensures forall i :: 0 <= i < |lines| ==> r[i] == Line(IsBlank(lines[i]), Clean(lines[i]))
  {
    seq(|lines|, i requires 0 <= i < |lines| => Line(IsBlank(lines[i]), Clean(lines[i])))
  }

  predicate AllBlank(ls: seq<Line>) {
    forall i :: 0 <= i < |ls| ==> ls[i].blank
  }

  /** The cleaned texts of the lines, in order. */
  function Texts(ls: seq<Line>): (r: seq<string>)
    ensures |r| == |ls|
    ensures forall i :: 0 <= i < |ls| ==> r[i] == ls[i].cleaned
  {
    seq(|ls|, i requires 0 <= i < |ls| => ls[i].cleaned)
  }

  /** The length the chunking loop tests: the sum of the cleaned lines'
      lengths, newlines not counted. */
  function CleanedLength(ls: seq<Line>): nat {
    TotalLength(Texts(ls))
  }

  lemma CleanedLengthAppend(ls: seq<Line>, l: Line)
    ensures CleanedLength(ls + [l]) == CleanedLength(ls) + |l.cleaned|
  {
    var ys := Texts(ls + [l]);
    assert ys[..|ys| - 1] == Texts(ls);
  }

  /** A run of dropped blank lines followed by the lines of one chunk. */
  datatype Segment = Segment(skipped: seq<Line>, kept: seq<Line>)

  /** The lines a sequence of segments accounts for, in order. */
  function SegmentLines(segs: seq<Segment>): seq<Line> {
    if |segs| == 0 then []
    else SegmentLines(segs[..|segs| - 1]) + segs[|segs| - 1].skipped + segs[|segs| - 1].kept
  }

  lemma SegmentLinesAppend(segs: seq<Segment>, seg: Segment)
    ensures SegmentLines(segs + [seg]) == SegmentLines(segs) + seg.skipped + seg.kept
  {
    assert (segs + [seg])[..|segs|] == segs;
  }

  /** Only blank lines were dropped before the chunk, and it starts with a
      non-blank line. */
  predicate Opens(seg: Segment) {
    AllBlank(seg.skipped) && |seg.kept| > 0 && !seg.kept[0].blank
  }

  /** A chunk closed inside the loop: its last line pushed the cleaned length
      past the maximum. */
  predicate Closed(seg: Segment) {
    && Opens(seg)
    && CleanedLength(seg.kept[..|seg.kept| - 1]) <= MaxChunkLength
    && CleanedLength(seg.kept) > MaxChunkLength
  }

  /** The chunk closed after the loop: never past the maximum. */
  predicate Trailing(seg: Segment) {
    Opens(seg) && CleanedLength(seg.kept) <= MaxChunkLength
  }

  /** The chunking loop's state: the chunks closed so far, the blank lines
      dropped since the last one closed, and the lines of the chunk being
      built. */
  datatype ScanState = ScanState(closed: seq<Segment>, skipped: seq<Line>, buffer: seq<Line>)

  ghost predicate ScanInvariant(ls: seq<Line>, st: ScanState) {
    && ls == SegmentLines(st.closed) + st.skipped + st.buffer
    && (forall i :: 0 <= i < |st.closed| ==> Closed(st.closed[i]))
    && AllBlank(st.skipped)
    && (st.buffer == [] || !st.buffer[0].blank)
    && CleanedLength(st.buffer) <= MaxChunkLength
  }

  /** One iteration of the loop over the page's lines. */
  function Step(st: ScanState, l: Line): ScanState {
    if l.blank && st.buffer == [] then
      st.(skipped := st.skipped + [l])
    else
      var buffer := st.buffer + [l];
      if CleanedLength(buffer) > MaxChunkLength then
        ScanState(st.closed + [Segment(st.skipped, buffer)], [], [])
      else
        st.(buffer := buffer)
  }

  lemma StepPreservesInvariant(ls: seq<Line>, st: ScanState, l: Line)
    requires ScanInvariant(ls, st)
    ensures ScanInvariant(ls + [l], Step(st, l))
  {
    if l.blank && st.buffer == [] {
      StepSkips(ls, st, l);
    } else if CleanedLength(st.buffer + [l]) > MaxChunkLength {
      StepCloses(ls, st, l);
    } else {
      StepGrows(ls, st, l);
    }
  }

  /** A blank line before any chunk text is dropped. */
  lemma StepSkips(ls: seq<Line>, st: ScanState, l: Line)
    requires ScanInvariant(ls, st) && l.blank && st.buffer == []
    ensures ScanInvariant(ls + [l], st.(skipped := st.skipped + [l]))
  {
    assert ls + [l] == SegmentLines(st.closed) + (st.skipped + [l]) + st.buffer;
  }

  /** A line that takes the chunk past the maximum closes it. */
  lemma StepCloses(ls: seq<Line>, st: ScanState, l: Line)
    requires ScanInvariant(ls, st) && !(l.blank && st.buffer == [])
    requires CleanedLength(st.buffer + [l]) > MaxChunkLength
    ensures ScanInvariant(ls + [l], ScanState(st.closed + [Segment(st.skipped, st.buffer + [l])], [], []))
  {
    var seg := Segment(st.skipped, st.buffer + [l]);
    ClosesHere(st.skipped, st.buffer, l);
    AllClosedAppend(st.closed, seg);
    SegmentLinesAppend(st.closed, seg);
    assert ls + [l] == SegmentLines(st.closed + [seg]) + [] + [];
    assert CleanedLength([]) == 0;
  }

  /** The line that goes past the maximum ends a closed chunk. */
  lemma ClosesHere(skipped: seq<Line>, buffer: seq<Line>, l: Line)
    requires AllBlank(skipped) && (buffer == [] || !buffer[0].blank) && !(l.blank && buffer == [])
    requires CleanedLength(buffer) <= MaxChunkLength < CleanedLength(buffer + [l])
    ensures Closed(Segment(skipped, buffer + [l]))
  {
    var kept := buffer + [l];
    assert kept[0] == if buffer == [] then l else buffer[0];
    assert kept[..|kept| - 1] == buffer;
  }

  lemma AllClosedAppend(closed: seq<Segment>, seg: Segment)
    requires forall i :: 0 <= i < |closed| ==> Closed(closed[i])
    requires Closed(seg)
    ensures forall i :: 0 <= i < |closed + [seg]| ==> Closed((closed + [seg])[i])
  {
  }

  /** Any other line joins the chunk being built. */
  lemma StepGrows(ls: seq<Line>, st: ScanState, l: Line)
    requires ScanInvariant(ls, st) && !(l.blank && st.buffer == [])
    requires CleanedLength(st.buffer + [l]) <= MaxChunkLength
    ensures ScanInvariant(ls + [l], st.(buffer := st.buffer + [l]))
  {
    var buffer := st.buffer + [l];
    assert buffer[0] == if st.buffer == [] then l else st.buffer[0];
    assert ls + [l] == SegmentLines(st.closed) + st.skipped + buffer;
  }

  /** The loop's state after the given lines. */
  function Scan(ls: seq<Line>): ScanState {
    if |ls| == 0 then ScanState([], [], []) else Step(Scan(ls[..|ls| - 1]), ls[|ls| - 1])
  }

  /** The loop keeps its invariant over any page. */
  lemma {:induction false} ScanKeepsInvariant(ls: seq<Line>)
    ensures ScanInvariant(ls, Scan(ls))
  {
    if |ls| > 0 {
      var prefix, l := ls[..|ls| - 1], ls[|ls| - 1];
      ScanKeepsInvariant(prefix);
      StepPreservesInvariant(prefix, Scan(prefix), l);
      assert prefix + [l] == ls;
    }
  }

  /** How a page's lines fall into chunks: each segment is the blank lines
      dropped before a chunk and the lines of that chunk; the tail holds the
      blank lines dropped after the last chunk. */
  datatype Layout = Layout(segments: seq<Segment>, tail: seq<Line>)

  /** The chunking rule, stated without the loop: the segments and the tail
      give back the lines in order; only blank lines are dropped; every
      chunk but the last went past the maximum with its last line and not
      before; the last chunk either did too or is the remainder, within the
      maximum and reaching the end of the page. */
  ghost predicate IsLayoutOf(ls: seq<Line>, l: Layout) {
    && ls == SegmentLines(l.segments) + l.tail
    && AllBlank(l.tail)
    && (forall i :: 0 <= i < |l.segments| - 1 ==> Closed(l.segments[i]))
    && (|l.segments| > 0 ==>
          var last := l.segments[|l.segments| - 1];
          Closed(last) || (Trailing(last) && l.tail == []))
  }

  /** The loop followed by `if current_chunk_text:`. */
  function PageLayout(ls: seq<Line>): Layout {
    var st := Scan(ls);
    if st.buffer == [] then Layout(st.closed, st.skipped)
    else Layout(st.closed + [Segment(st.skipped, st.buffer)], [])
  }

  /** The loop and the final flush lay the page out as the chunking rule says. */
  lemma PageLayoutFollowsRule(ls: seq<Line>)
    ensures IsLayoutOf(ls, PageLayout(ls))
  {
    var st := Scan(ls);
    ScanKeepsInvariant(ls);
    if st.buffer != [] {
      SegmentLinesAppend(st.closed, Segment(st.skipped, st.buffer));
    }
  }

  /** `f"{page.id}_{k}"`. */
  function ChunkId(pageId: string, k: nat): string {
    pageId + "_" + NatToString(k)
  }

  /** `f"https://scrapbox.io/{project_name}/{title.replace(' ', '_')}"`. */
  function PageUrl(projectName: string, title: string): string {
    UrlBase + projectName + "/" + ReplaceChar(title, ' ', '_')
  }

  /** The text of a chunk: its cleaned lines joined by newlines. */
  function ChunkText(kept: seq<Line>): string {
    Join(Texts(kept), "\n")
  }

  /** The chunks made from a page's segments, numbered from 0 in order. */
  function Chunks(page: Page, projectName: string, segs: seq<Segment>): (r: seq<Chunk>)
    ensures |r| == |segs|
    ensures forall k :: 0 <= k < |r| ==> r[k].text == ChunkText(segs[k].kept)
  {
    seq(|segs|, k requires 0 <= k < |segs| =>
      Chunk(ChunkId(page.id, k), page.id, page.title, ChunkText(segs[k].kept),
            PageUrl(projectName, page.title), page.updated, None))
  }

  /** Python's `chunk_page`: one chunk per segment of the page's layout, each
      carrying the page's id, title, URL and update time and no vector yet. */
  function ChunkPage(page: Page, projectName: string): (r: seq<Chunk>)
    ensures |r| == |PageLayout(Annotate(page.lines)).segments|
    ensures forall k :: 0 <= k < |r| ==>
      && r[k].id == ChunkId(page.id, k)
      && r[k].pageId == page.id
      && r[k].title == page.title
      && r[k].url == UrlBase + projectName + "/" + ReplaceChar(page.title, ' ', '_')
      && r[k].text == ChunkText(PageLayout(Annotate(page.lines)).segments[k].kept)
      && r[k].updated == page.updated
      && r[k].sparseVector == None
  {
    Chunks(page, projectName, PageLayout(Annotate(page.lines)).segments)
  }

  // ---------------------------------------------------------------------
  // Properties of chunking
  // ---------------------------------------------------------------------

  /** In `p + "_" + d` with `d` all digits, the underscore at `|p|` is the
      last one. */
  lemma UnderscoreBeforeDigits(p: string, d: string)
    requires AllDigits(d)
    ensures var s := p + "_" + d;
      s[|p|] == '_' && forall i :: |p| < i < |s| ==> s[i] != '_'
  {
    var s := p + "_" + d;
    forall i | |p| < i < |s|
      ensures s[i] != '_'
    {
      assert s[i] == d[i - |p| - 1];
    }
  }

  /** Splitting `p + "_" + d` at the underscore before a run of digits is
      unambiguous. */
  lemma UnderscoreSplit(p1: string, d1: string, p2: string, d2: string)
    requires AllDigits(d1) && AllDigits(d2)
    requires p1 + "_" + d1 == p2 + "_" + d2
    ensures p1 == p2 && d1 == d2
  {
    var s := p1 + "_" + d1;
    UnderscoreBeforeDigits(p1, d1);
    UnderscoreBeforeDigits(p2, d2);
    assert |p1| == |p2|;
    assert p1 == s[..|p1|] && p2 == s[..|p2|];
    assert d1 == s[|p1| + 1..] && d2 == s[|p2| + 1..];
  }

  /** A chunk id determines both the page and the chunk's position. */
  lemma ChunkIdInjective(p1: string, k1: nat, p2: string, k2: nat)
    requires ChunkId(p1, k1) == ChunkId(p2, k2)
    ensures p1 == p2 && k1 == k2
  {
    UnderscoreSplit(p1, NatToString(k1), p2, NatToString(k2));
    NatToStringInjective(k1, k2);
  }

  /** The chunks of one page carry pairwise distinct ids. */
  lemma ChunkIdsDistinct(page: Page, projectName: string)
    ensures var r := ChunkPage(page, projectName);
      forall i, j :: 0 <= i < |r| && 0 <= j < |r| && i != j ==> r[i].id != r[j].id
  {
    var r := ChunkPage(page, projectName);
    forall i, j | 0 <= i < |r| && 0 <= j < |r| && i != j
      ensures r[i].id != r[j].id
    {
      if r[i].id == r[j].id {
        ChunkIdInjective(page.id, i, page.id, j);
      }
    }
  }

  /** A page yields no chunk exactly when all its lines are blank (which
      includes a page with no lines). */
  lemma ChunkPageEmptyIff(page: Page, projectName: string)
    ensures |ChunkPage(page, projectName)| == 0
        <==> forall i :: 0 <= i < |page.lines| ==> IsBlank(page.lines[i])
  {
    var ls := Annotate(page.lines);
    var segs := PageLayout(ls).segments;
    PageLayoutFollowsRule(ls);
    if |segs| == 0 {
      assert ls == PageLayout(ls).tail;
      forall i | 0 <= i < |page.lines|
        ensures IsBlank(page.lines[i])
      {
        assert ls[i].blank;
      }
    } else {
      var n := |segs|;
      var last := segs[n - 1];
      var front := SegmentLines(segs[..n - 1]);
      assert ls == front + last.skipped + last.kept + PageLayout(ls).tail;
      var idx := |front| + |last.skipped|;
      assert ls[idx] == last.kept[0];
      assert !IsBlank(page.lines[idx]);
    }
  }

  /** Every line of every segment is one of the lines the segments account for. */
  lemma {:induction false} SegmentKeptIn(segs: seq<Segment>, k: nat, j: nat)
    requires k < |segs| && j < |segs[k].kept|
    ensures segs[k].kept[j] in SegmentLines(segs)
    decreases |segs|
  {
    var n := |segs|;
    var front := SegmentLines(segs[..n - 1]);
    assert SegmentLines(segs) == front + segs[n - 1].skipped + segs[n - 1].kept;
    if k < n - 1 {
      assert segs[..n - 1][k] == segs[k];
      SegmentKeptIn(segs[..n - 1], k, j);
    } else {
      assert SegmentLines(segs)[|front| + |segs[n - 1].skipped| + j] == segs[k].kept[j];
    }
  }

  /** Every segment of a layout opens on a non-blank line after blank ones,
      all its lines but the last add up to at most the maximum, every segment
      but the last goes past the maximum, and one that does not is the last. */
  lemma LayoutSegmentShape(ls: seq<Line>, k: nat)
    requires k < |PageLayout(ls).segments|
    ensures var segs := PageLayout(ls).segments;
      var seg := segs[k];
      && Opens(seg)
      && CleanedLength(seg.kept[..|seg.kept| - 1]) <= MaxChunkLength
      && (k < |segs| - 1 ==> CleanedLength(seg.kept) > MaxChunkLength)
      && (CleanedLength(seg.kept) <= MaxChunkLength ==> k == |segs| - 1)
  {
    var seg := PageLayout(ls).segments[k];
    PageLayoutFollowsRule(ls);
    if !Closed(seg) {
      assert Trailing(seg);
      CleanedLengthAppend(seg.kept[..|seg.kept| - 1], seg.kept[|seg.kept| - 1]);
      assert seg.kept[..|seg.kept| - 1] + [seg.kept[|seg.kept| - 1]] == seg.kept;
    }
  }

  /** The text of a chunk has one newline fewer than it has lines. */
  lemma ChunkTextLength(kept: seq<Line>)
    requires |kept| > 0
    ensures |ChunkText(kept)| == CleanedLength(kept) + |kept| - 1
  {
  }

  /** If no line holds a line break, splitting a chunk's text at line breaks
      gives back its cleaned lines. */
  lemma ChunkTextSplit(kept: seq<Line>)
    requires |kept| > 0
    requires forall j :: 0 <= j < |kept| ==> '\n' !in kept[j].cleaned
    ensures Split(ChunkText(kept), '\n') == Texts(kept)
  {
    SplitJoin(Texts(kept), '\n');
  }

  /** Every line a layout's segments keep is one of the page's lines. */
  lemma LayoutKeptIn(ls: seq<Line>, k: nat, j: nat)
    requires k < |PageLayout(ls).segments| && j < |PageLayout(ls).segments[k].kept|
    ensures PageLayout(ls).segments[k].kept[j] in ls
  {
    PageLayoutFollowsRule(ls);
    SegmentKeptIn(PageLayout(ls).segments, k, j);
  }

  /** If no raw line of the page contains a line break, splitting any chunk's
      text at line breaks gives back its cleaned lines. */
  lemma ChunkTextLines(page: Page, projectName: string, k: nat)
    requires forall i :: 0 <= i < |page.lines| ==> '\n' !in page.lines[i]
    requires k < |ChunkPage(page, projectName)|
    ensures var seg := PageLayout(Annotate(page.lines)).segments[k];
      Split(ChunkPage(page, projectName)[k].text, '\n') == Texts(seg.kept)
  {
    var ls := Annotate(page.lines);
    var kept := PageLayout(ls).segments[k].kept;
    LayoutSegmentShape(ls, k);
    forall j | 0 <= j < |kept|
      ensures '\n' !in kept[j].cleaned
    {
      LayoutKeptIn(ls, k, j);
      var i :| 0 <= i < |ls| && ls[i] == kept[j];
      CleanKeepsNoNewline(page.lines[i]);
    }
    ChunkTextSplit(kept);
  }

  /** One non-blank line within the maximum is laid out as one segment. */
  lemma LayoutSingleLine(l: Line)
    requires !l.blank && |l.cleaned| <= MaxChunkLength
    ensures PageLayout([l]) == Layout([Segment([], [l])], [])
  {
    var empty := ScanState([], [], []);
    assert [l][..0] == [];
    assert Scan([l]) == Step(empty, l);
    CleanedLengthAppend([], l);
    assert [] + [l] == [l];
    assert Step(empty, l) == ScanState([], [], [l]);
    assert [] + [Segment([], [l])] == [Segment([], [l])];
  }

  /** The first chunk of a page is numbered `_0`. */
  lemma ChunkIdZero(pageId: string)
    ensures ChunkId(pageId, 0) == pageId + "_0"
  {
    assert NatToString(0) == "0";
  }

  lemma AnnotateSingle(lines: seq<string>)
    requires |lines| == 1 && !IsBlank(lines[0])
    ensures Annotate(lines) == [Line(false, Clean(lines[0]))]
  {
  }

  lemma ChunksSingle(page: Page, projectName: string, l: Line)
    ensures Chunks(page, projectName, [Segment([], [l])])
      == [Chunk(ChunkId(page.id, 0), page.id, page.title, l.cleaned,
                PageUrl(projectName, page.title), page.updated, None)]
  {
    assert ChunkText([l]) == l.cleaned by {
      assert Texts([l]) == [l.cleaned];
    }
  }

  /** A page of one non-blank line whose cleaned text fits the maximum gives
      one chunk, the first, holding that cleaned line. */
  lemma ChunkSingleLine(page: Page, projectName: string)
    requires |page.lines| == 1 && !IsBlank(page.lines[0])
    requires |Clean(page.lines[0])| <= MaxChunkLength
    ensures ChunkPage(page, projectName)
      == [Chunk(ChunkId(page.id, 0), page.id, page.title, Clean(page.lines[0]),
                PageUrl(projectName, page.title), page.updated, None)]
  {
    var l := Line(false, Clean(page.lines[0]));
    AnnotateSingle(page.lines);
    LayoutSingleLine(l);
    ChunksSingle(page, projectName, l);
  }

  /** The URL of the service's unit-test page. */
  lemma TestPageUrl()
    ensures PageUrl("test-project", "Test Page") == "https://scrapbox.io/test-project/Test_Page"
  {
  }
}
