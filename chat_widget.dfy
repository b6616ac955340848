/** The floating chat panel: its input box and submit handling, and the
    rendering of a message's text into line breaks, text and links. */
module ChatWidget {
  import opened Wrappers
  import opened Strings
  import opened MotionCatalog
  import ChatServer
  import opened Chatbot

  // ------------------------------------------------------------ URL splitting

  /** The length of the run of non-white-space characters starting at `from`
      (the pattern's `[^\s]+`, taken greedily). */
  function NonSpaceRun(s: string, from: nat): (n: nat)
    requires from <= |s|
    ensures from + n <= |s|
    ensures forall i :: from <= i < from + n ==> !IsJsSpace(s[i])
    ensures from + n == |s| || IsJsSpace(s[from + n])
    decreases |s| - from
  {
    if from == |s| || IsJsSpace(s[from]) then 0 else 1 + NonSpaceRun(s, from + 1)
  }

  /** A match of `https?:\/\/[^\s]+`. */
  predicate IsUrlText(u: string) {
    ((StartsWith(u, "https://") && |u| > 8) || (StartsWith(u, "http://") && |u| > 7))
    && forall i :: 0 <= i < |u| ==> !IsJsSpace(u[i])
  }

  /** Where the match starting at q ends, if one starts there: the scheme
      (`https` tried before `http`), then the longest run of non-white-space.
      None exactly when no text starting at q matches the pattern. */
  function UrlEnd(s: string, q: nat): (r: Option<nat>)
    requires q <= |s|
    ensures r.Some? ==> q < r.value <= |s| && IsUrlText(s[q..r.value])
    ensures r.Some? ==> r.value == |s| || IsJsSpace(s[r.value])
    ensures r.None? ==> forall e :: q < e <= |s| ==> !IsUrlText(s[q..e])
  {
    var rest := s[q..];
    var scheme := if StartsWith(rest, "https://") then 8 else if StartsWith(rest, "http://") then 7 else 0;
    if scheme == 0 then
      NoUrlAt(s, q);
      None
    else
      var run := NonSpaceRun(s, q + scheme);
      if run == 0 then
        NoUrlAt(s, q);
        None
      else
        UrlAt(s, q, scheme, run);
        Some(q + scheme + run)
  }

  /** A scheme followed by a non-empty run of non-white-space is a match. */
  lemma {:induction false} UrlAt(s: string, q: nat, scheme: nat, run: nat)
    requires q + scheme + run <= |s| && run > 0
    requires (scheme == 8 && StartsWith(s[q..], "https://")) || (scheme == 7 && StartsWith(s[q..], "http://"))
    requires forall i :: q + scheme <= i < q + scheme + run ==> !IsJsSpace(s[i])
    ensures IsUrlText(s[q..q + scheme + run])
  {
    var u := s[q..q + scheme + run];
    var p := if scheme == 8 then "https://" else "http://";
    assert u[..scheme] == s[q..][..scheme] == p;
    forall i | 0 <= i < |u| ensures !IsJsSpace(u[i]) {
      if i < scheme {
        assert u[i] == p[i];
      } else {
        assert u[i] == s[q + i];
      }
    }
  }

  /** A match starting at q begins with `https://` and a character that is not
      white space, or else with `http://` and such a character. */
  lemma {:induction false} UrlTextStart(s: string, q: nat, e: nat)
    requires q < e <= |s|
    ensures IsUrlText(s[q..e]) ==>
      if StartsWith(s[q..], "https://") then q + 8 < e && !IsJsSpace(s[q + 8])
      else StartsWith(s[q..], "http://") && q + 7 < e && !IsJsSpace(s[q + 7])
  {
    var u := s[q..e];
    if IsUrlText(u) {
      if StartsWith(u, "https://") && |u| > 8 {
        assert s[q..][..8] == u[..8];
        assert u[8] == s[q + 8];
      } else {
        assert s[q..][..7] == u[..7];
        assert u[7] == s[q + 7];
        assert s[q..][4] == u[..7][4] == ':';
        assert !StartsWith(s[q..], "https://") by {
          assert "https://"[4] == 's';
        }
      }
    }
  }

  /** Without a scheme followed by a character that is not white space, no
      match starts at q. */
  lemma {:induction false} NoUrlAt(s: string, q: nat)
    requires q <= |s|
    requires StartsWith(s[q..], "https://") ==> !(q + 8 < |s| && !IsJsSpace(s[q + 8]))
    requires !StartsWith(s[q..], "https://") ==> !(StartsWith(s[q..], "http://") && q + 7 < |s| && !IsJsSpace(s[q + 7]))
    ensures forall e :: q < e <= |s| ==> !IsUrlText(s[q..e])
  {
    forall e | q < e <= |s| ensures !IsUrlText(s[q..e]) {
      UrlTextStart(s, q, e);
    }
  }

  /** `URL_PATTERN` tried at every position of s: the end of the match
      starting there, if any. */
  function MatchEnds(s: string): (ends: seq<Option<nat>>)
    ensures |ends| == |s| && EndsValid(ends)
    ensures forall p :: 0 <= p < |s| ==> ends[p] == UrlEnd(s, p)
  {
    seq(|s|, (p: int) requires 0 <= p < |s| => UrlEnd(s, p))
  }

  /** Every match ends after its start and within the string. */
  predicate EndsValid(ends: seq<Option<nat>>) {
    forall p :: 0 <= p < |ends| && ends[p].Some? ==> p < ends[p].value <= |ends|
  }

  /** Where piece k of a split starts, counted from the split's start: the
      lengths of the pieces before it. */
  function Offset(r: seq<string>, k: nat): (o: nat)
    requires k <= |r|
    decreases k
  {
    if k == 0 then 0 else Offset(r, k - 1) + |r[k - 1]|
  }

  lemma {:induction false} OffsetIsConcatLength(r: seq<string>, k: nat)
    requires k <= |r|
    ensures Offset(r, k) == |Concat(r[..k])|
    decreases k
  {
    if k > 0 {
      OffsetIsConcatLength(r, k - 1);
      assert r[..k] == r[..k - 1] + [r[k - 1]];
      ConcatAppend(r[..k - 1], [r[k - 1]]);
      assert Concat([r[k - 1]]) == r[k - 1] + Concat([]);
    }
  }

  lemma {:induction false} OffsetAfter(a: seq<string>, b: seq<string>, k: nat)
    requires |a| <= k <= |a| + |b|
    ensures Offset(a + b, k) == Offset(a, |a|) + Offset(b, k - |a|)
    decreases k
  {
    if k > |a| {
      OffsetAfter(a, b, k - 1);
      assert (a + b)[k - 1] == b[k - 1 - |a|];
    } else {
      OffsetPrefix(a, b, k);
    }
  }

  lemma {:induction false} OffsetPrefix(a: seq<string>, b: seq<string>, k: nat)
    requires k <= |a|
    ensures Offset(a + b, k) == Offset(a, k)
    decreases k
  {
    if k > 0 {
      OffsetPrefix(a, b, k - 1);
      assert (a + b)[k - 1] == a[k - 1];
    }
  }

  /** A piece of a split of s that starts at o: a match is exactly the match
      found at o, and a text piece holds no position where a match starts. */
  predicate PieceFits(s: string, ends: seq<Option<nat>>, o: nat, piece: string, isMatch: bool) {
    && |ends| == |s|
    && o + |piece| <= |s|
    && (if isMatch then o < |s| && ends[o] == Some(o + |piece|)
        else forall p :: o <= p < o + |piece| ==> ends[p] == None)
  }

  /** r is the split of `s[start..]`: text and matches alternate, starting and
      ending with text, and every piece fits where it lies. */
  predicate SplitsAt(s: string, ends: seq<Option<nat>>, start: nat, r: seq<string>) {
    && start <= |s|
    && |r| % 2 == 1
    && Concat(r) == s[start..]
    && forall k :: 0 <= k < |r| ==> PieceOk(s, ends, start, r, k)
  }

  /** Piece k of r fits at its offset, as a match when k is odd. */
  predicate PieceOk(s: string, ends: seq<Option<nat>>, start: nat, r: seq<string>, k: nat)
    requires k < |r|
  {
    PieceFits(s, ends, start + Offset(r, k), r[k], k % 2 == 1)
  }

  /** The splitting loop of `String.prototype.split` with a regular
      expression, the match at each position read from `ends`: from the end
      of the last match (`start`), try each position q in turn; on a match,
      emit the text before it and the match itself (the pattern's capture
      group) and go on after it; at the end emit the remaining text. */
  function ScanUrls(s: string, ends: seq<Option<nat>>, start: nat, q: nat): (r: seq<string>)
    requires |ends| == |s| && EndsValid(ends)
    requires start <= q <= |s|
    requires forall p :: start <= p < q ==> ends[p] == None
    ensures SplitsAt(s, ends, start, r)
    decreases |s| - q
  {
    if q == |s| then
      ScanEnd(s, ends, start);
      [s[start..]]
    else
      match ends[q]
      case None => ScanUrls(s, ends, start, q + 1)
      case Some(e) =>
        var rest := ScanUrls(s, ends, e, e);
        ScanPieces(s, ends, start, q, e, rest);
        [s[start..q], s[q..e]] + rest
  }

  /** With no match from start on, the remaining text is the whole split. */
  lemma {:induction false} ScanEnd(s: string, ends: seq<Option<nat>>, start: nat)
    requires |ends| == |s| && start <= |s|
    requires forall p :: start <= p < |s| ==> ends[p] == None
    ensures SplitsAt(s, ends, start, [s[start..]])
  {
    assert Concat([s[start..]]) == s[start..] + Concat([]);
    assert Offset([s[start..]], 0) == 0;
  }

  /** The text up to a match, the match, then the split of what follows form
      the split from the text's start. */
  lemma {:induction false} ScanPieces(s: string, ends: seq<Option<nat>>, start: nat, q: nat, e: nat, rest: seq<string>)
    requires |ends| == |s| && start <= q < e <= |s| && ends[q] == Some(e)
    requires forall p :: start <= p < q ==> ends[p] == None
    requires SplitsAt(s, ends, e, rest)
    ensures SplitsAt(s, ends, start, [s[start..q], s[q..e]] + rest)
  {
    var r := [s[start..q], s[q..e]] + rest;
    ScanPiecesConcat(s, start, q, e, rest);
    JoinedPiecesFit(s, ends, start, q, e, rest);
    SplitsAtIntro(s, ends, start, r);
  }

  lemma {:induction false} JoinedPiecesFit(s: string, ends: seq<Option<nat>>, start: nat, q: nat, e: nat, rest: seq<string>)
    requires |ends| == |s| && start <= q < e <= |s| && ends[q] == Some(e)
    requires forall p :: start <= p < q ==> ends[p] == None
    requires SplitsAt(s, ends, e, rest)
    ensures var r := [s[start..q], s[q..e]] + rest;
      forall k :: 0 <= k < |r| ==> PieceOk(s, ends, start, r, k)
  {
    var r := [s[start..q], s[q..e]] + rest;
    forall k | 0 <= k < |r| ensures PieceOk(s, ends, start, r, k) {
      if k < 2 {
        HeadPieceFits(s, ends, start, q, e, rest, k);
      } else {
        assert PieceOk(s, ends, e, rest, k - 2);
        RestPieceFits(s, ends, start, q, e, rest, k);
      }
    }
  }

  lemma {:induction false} SplitsAtIntro(s: string, ends: seq<Option<nat>>, start: nat, r: seq<string>)
    requires start <= |s| && |r| % 2 == 1 && Concat(r) == s[start..]
    requires forall k :: 0 <= k < |r| ==> PieceOk(s, ends, start, r, k)
    ensures SplitsAt(s, ends, start, r)
  {
  }

  /** The text before the match and the match itself fit the split. */
  lemma {:induction false} HeadPieceFits(s: string, ends: seq<Option<nat>>, start: nat, q: nat, e: nat, rest: seq<string>, k: nat)
    requires |ends| == |s| && start <= q < e <= |s| && ends[q] == Some(e)
    requires forall p :: start <= p < q ==> ends[p] == None
    requires k < 2
    ensures var r := [s[start..q], s[q..e]] + rest;
      PieceFits(s, ends, start + Offset(r, k), r[k], k % 2 == 1)
  {
    var r := [s[start..q], s[q..e]] + rest;
    assert r[0] == s[start..q] && r[1] == s[q..e];
    assert Offset(r, 1) == q - start;
  }

  /** A piece of the split after the match fits at its shifted offset. */
  lemma {:induction false} RestPieceFits(s: string, ends: seq<Option<nat>>, start: nat, q: nat, e: nat, rest: seq<string>, k: nat)
    requires start <= q < e <= |s| && 2 <= k < 2 + |rest|
    requires PieceFits(s, ends, e + Offset(rest, k - 2), rest[k - 2], (k - 2) % 2 == 1)
    ensures var r := [s[start..q], s[q..e]] + rest;
      PieceFits(s, ends, start + Offset(r, k), r[k], k % 2 == 1)
  {
    var head := [s[start..q], s[q..e]];
    var r := head + rest;
    OffsetAfter(head, rest, k);
    assert Offset(head, 2) == e - start;
    assert start + Offset(r, k) == e + Offset(rest, k - 2);
    assert r[k] == rest[k - 2];
    assert (k % 2 == 1) == ((k - 2) % 2 == 1);
  }

  lemma {:induction false} ScanPiecesConcat(s: string, start: nat, q: nat, e: nat, rest: seq<string>)
    requires start <= q < e <= |s|
    requires Concat(rest) == s[e..]
    ensures Concat([s[start..q], s[q..e]] + rest) == s[start..]
  {
    var head := [s[start..q], s[q..e]];
    ConcatAppend(head, rest);
    assert Concat(head) == s[start..q] + (s[q..e] + Concat([]));
    assert s[start..q] + s[q..e] + s[e..] == s[start..];
  }

  /** `line.split(URL_PATTERN)`: text and matches alternate, each match is
      the match `URL_PATTERN` finds at its offset, and no match starts in a
      text piece. */
  function SplitUrls(line: string): (r: seq<string>)
    ensures SplitsAt(line, MatchEnds(line), 0, r)
    ensures forall k :: 0 <= k < |r| && k % 2 == 1 ==> IsUrlText(r[k])
  {
    var ends := MatchEnds(line);
    var r := ScanUrls(line, ends, 0, 0);
    forall k | 0 <= k < |r| && k % 2 == 1 ensures IsUrlText(r[k]) {
      assert PieceOk(line, ends, 0, r, k);
      PieceIsSlice(r, k);
      assert line[0..] == line;
      MatchPieceIsUrl(line, ends, Offset(r, k), r[k]);
    }
    r
  }

  /** Piece k of the split is the line's text at its offset; an odd piece
      is exactly the match `URL_PATTERN` finds there, and no match starts
      inside an even piece. */
  lemma {:induction false} SplitPiece(line: string, k: nat)
    requires k < |SplitUrls(line)|
    ensures var r := SplitUrls(line); var o := Offset(r, k);
      && o + |r[k]| <= |line| && r[k] == line[o..o + |r[k]|]
      && (k % 2 == 1 ==> UrlEnd(line, o) == Some(o + |r[k]|))
      && (k % 2 == 0 ==> forall p :: o <= p < o + |r[k]| ==> UrlEnd(line, p) == None)
  {
    var r := SplitUrls(line);
    var ends := MatchEnds(line);
    assert PieceOk(line, ends, 0, r, k);
    PieceIsSlice(r, k);
    assert line[0..] == line;
  }

  /** Piece k is the text of the concatenation at its offset. */
  lemma {:induction false} PieceIsSlice(r: seq<string>, k: nat)
    requires k < |r|
    ensures Offset(r, k) + |r[k]| <= |Concat(r)|
    ensures Concat(r)[Offset(r, k)..Offset(r, k) + |r[k]|] == r[k]
  {
    OffsetIsConcatLength(r, k);
    assert r == r[..k] + ([r[k]] + r[k + 1..]);
    ConcatAppend(r[..k], [r[k]] + r[k + 1..]);
    ConcatAppend([r[k]], r[k + 1..]);
    assert Concat([r[k]]) == r[k] + Concat([]);
  }

  lemma {:induction false} MatchPieceIsUrl(line: string, ends: seq<Option<nat>>, o: nat, piece: string)
    requires ends == MatchEnds(line) && PieceFits(line, ends, o, piece, true)
    requires piece == line[o..o + |piece|]
    ensures IsUrlText(piece)
  {
    assert UrlEnd(line, o) == Some(o + |piece|);
  }

  /** With no match from q on, the rest of the scan is the remaining text. */
  lemma {:induction false} ScanWithoutUrlFrom(s: string, ends: seq<Option<nat>>, start: nat, q: nat)
    requires |ends| == |s| && EndsValid(ends) && start <= q <= |s|
    requires forall p :: start <= p < |s| ==> ends[p] == None
    ensures ScanUrls(s, ends, start, q) == [s[start..]]
    decreases |s| - q
  {
    if q < |s| {
      ScanWithoutUrlFrom(s, ends, start, q + 1);
    }
  }

  /** A line in which no match starts splits into the line alone. */
  lemma {:induction false} ScanWithoutUrl(line: string)
    requires forall p :: 0 <= p < |line| ==> UrlEnd(line, p) == None
    ensures SplitUrls(line) == [line]
  {
    ScanWithoutUrlFrom(line, MatchEnds(line), 0, 0);
    assert line[0..] == line;
  }

  /** Some piece covers each position of the split string. */
  lemma {:induction false} PieceCovers(r: seq<string>, p: nat, k: nat)
    requires k <= |r| && Offset(r, k) <= p < |Concat(r)|
    ensures exists j :: k <= j < |r| && Offset(r, j) <= p < Offset(r, j) + |r[j]|
    decreases |r| - k
  {
    OffsetIsConcatLength(r, |r|);
    assert r[..|r|] == r;
    if k < |r| {
      assert Offset(r, k + 1) == Offset(r, k) + |r[k]|;
      if Offset(r, k) + |r[k]| <= p {
        PieceCovers(r, p, k + 1);
      }
    }
  }

  /** Every address written in a line lies inside one matched piece, which
      therefore becomes a link: the split misses no address. */
  lemma {:induction false} EveryAddressIsFound(line: string, p: nat, e: nat)
    requires p < e <= |line| && IsUrlText(line[p..e])
    ensures var r := SplitUrls(line);
      exists k :: 0 <= k < |r| && k % 2 == 1 && Offset(r, k) <= p && e <= Offset(r, k) + |r[k]|
  {
    var r := SplitUrls(line);
    var ends := MatchEnds(line);
    assert line[0..] == line;
    assert Offset(r, 0) == 0;
    PieceCovers(r, p, 0);
    var k :| 0 <= k < |r| && Offset(r, k) <= p < Offset(r, k) + |r[k]|;
    assert PieceOk(line, ends, 0, r, k);
    CoveringPieceIsMatch(line, ends, Offset(r, k), r[k], k % 2 == 1, p, e);
  }

  /** The piece covering the start of an address is a match that reaches at
      least to the address's end. */
  lemma {:induction false} CoveringPieceIsMatch(line: string, ends: seq<Option<nat>>, o: nat, piece: string, isMatch: bool, p: nat, e: nat)
    requires ends == MatchEnds(line) && PieceFits(line, ends, o, piece, isMatch)
    requires o <= p < o + |piece| && p < e <= |line| && IsUrlText(line[p..e])
    ensures isMatch && e <= o + |piece|
  {
    assert UrlEnd(line, p).Some?;
    var end := o + |piece|;
    assert UrlEnd(line, o) == Some(end);
  }

  // --------------------------------------------------------------- rendering

  datatype Node = LineBreak | Text(text: string) | Link(href: string, caption: string)

  function NotSlashRun(s: string, from: nat): (n: nat)
    requires from <= |s|
    ensures from + n <= |s|
    ensures forall i :: from <= i < from + n ==> s[i] != '/'
    ensures from + n == |s| || s[from + n] == '/'
    decreases |s| - from
  {
    if from == |s| || s[from] == '/' then 0 else 1 + NotSlashRun(s, from + 1)
  }

  /** `href.replace(/^https?:\/\/[^/]+/, "")`: scheme and host removed. */
  function StripOrigin(href: string): string {
    if StartsWith(href, "https://") && |href| > 8 && href[8] != '/' then href[8 + NotSlashRun(href, 8)..]
    else if StartsWith(href, "http://") && |href| > 7 && href[7] != '/' then href[7 + NotSlashRun(href, 7)..]
    else href
  }

  /** The link text: the path after the host, or the whole address when
      nothing follows the host. */
  function Label(href: string): (r: string)
    ensures href != "" ==> r != ""
  {
    var rest := StripOrigin(href);
    if rest == "" then href else rest
  }

  predicate LooksLikeUrl(normalized: string) {
    StartsWith(normalized, "http://") || StartsWith(normalized, "https://") || StartsWith(normalized, "www.")
  }

  function Href(normalized: string): string {
    if StartsWith(normalized, "www.") then "https://" + normalized else normalized
  }

  /** One segment of a line: a link when its trimmed form starts like an
      address, the untrimmed text otherwise. */
  function SegmentNode(segment: string): (r: Node)
    ensures !r.LineBreak?
  {
    var normalized := Trim(segment);
    if LooksLikeUrl(normalized) then
      var href := Href(normalized);
      Link(href, Label(href))
    else Text(segment)
  }

  /** The segments of a line, empty ones skipped. */
  function SegmentNodes(segments: seq<string>): (r: seq<Node>)
    ensures forall k :: 0 <= k < |r| ==> !r[k].LineBreak?
    decreases |segments|
  {
    if segments == [] then []
    else (if segments[0] == "" then [] else [SegmentNode(segments[0])]) + SegmentNodes(segments[1..])
  }

  function RenderLine(line: string): (r: seq<Node>)
    ensures forall k :: 0 <= k < |r| ==> !r[k].LineBreak?
  {
    SegmentNodes(SplitUrls(line))
  }

  /** The lines, each after the first preceded by a line break. */
  function RenderLines(lines: seq<string>, first: bool): seq<Node>
    decreases |lines|
  {
    if lines == [] then []
    else (if first then [] else [LineBreak]) + RenderLine(lines[0]) + RenderLines(lines[1..], false)
  }

  /** `renderMessageWithLinks(text)`. */
  function RenderMessage(text: string): seq<Node> {
    RenderLines(Split(text, Char('\n')), true)
  }

  function Breaks(nodes: seq<Node>): nat
    decreases |nodes|
  {
    if nodes == [] then 0 else (if nodes[0].LineBreak? then 1 else 0) + Breaks(nodes[1..])
  }

  lemma {:induction false} BreaksAppend(a: seq<Node>, b: seq<Node>)
    ensures Breaks(a + b) == Breaks(a) + Breaks(b)
    decreases |a|
  {
    if a == [] {
      assert a + b == b;
    } else {
      assert (a + b)[1..] == a[1..] + b;
      BreaksAppend(a[1..], b);
    }
  }

  lemma {:induction false} NoBreaks(nodes: seq<Node>)
    requires forall k :: 0 <= k < |nodes| ==> !nodes[k].LineBreak?
    ensures Breaks(nodes) == 0
    decreases |nodes|
  {
    if nodes != [] {
      NoBreaks(nodes[1..]);
    }
  }

  lemma {:induction false} RenderLinesBreaks(lines: seq<string>, first: bool)
    requires lines != []
    ensures Breaks(RenderLines(lines, first)) == |lines| - (if first then 1 else 0)
    decreases |lines|
  {
    var head := (if first then [] else [LineBreak]) + RenderLine(lines[0]);
    NoBreaks(RenderLine(lines[0]));
    BreaksAppend(if first then [] else [LineBreak], RenderLine(lines[0]));
    assert Breaks([LineBreak]) == 1 + Breaks([]);
    BreaksAppend(head, RenderLines(lines[1..], false));
    if |lines| > 1 {
      RenderLinesBreaks(lines[1..], false);
    }
  }

  /** A rendered message has one line break per line-feed character of its text. */
  lemma {:induction false} RenderedBreaksMatchLineFeeds(text: string)
    ensures Breaks(RenderMessage(text)) == CountChar(text, '\n')
  {
    SplitCount(text, '\n');
    RenderLinesBreaks(Split(text, Char('\n')), true);
  }

  /** Each matched address becomes a link to exactly that address. */
  lemma {:induction false} UrlSegmentsBecomeLinks(line: string, k: nat)
    requires k < |SplitUrls(line)| && k % 2 == 1
    ensures var u := SplitUrls(line)[k]; SegmentNode(u) == Link(u, Label(u))
  {
    UrlTextBecomesLink(SplitUrls(line)[k]);
  }

  lemma {:induction false} UrlTextBecomesLink(u: string)
    requires IsUrlText(u)
    ensures SegmentNode(u) == Link(u, Label(u))
  {
    TrimNoSpace(u);
    assert u[0] == 'h';
    assert !StartsWith(u, "www.");
  }

  /** A line with no address in it renders as that one text, if not empty. */
  lemma {:induction false} PlainLineIsOneText(line: string)
    requires forall p :: 0 <= p < |line| ==> UrlEnd(line, p) == None
    requires !LooksLikeUrl(Trim(line))
    ensures RenderLine(line) == if line == "" then [] else [Text(line)]
  {
    ScanWithoutUrl(line);
    assert SplitUrls(line) == [line];
    assert [line][1..] == [];
    assert SegmentNodes([line]) == (if line == "" then [] else [SegmentNode(line)]) + SegmentNodes([]);
  }

  /** A plain-text segment that starts with `www.` and has no slash turns into
      one link as a whole, inner white space and all. */
  lemma {:induction false} WwwTextBecomesWholeLink(segment: string)
    requires StartsWith(segment, "www.") && !IsJsSpace(segment[|segment| - 1])
    requires '/' !in segment
    ensures SegmentNode(segment) == Link("https://" + segment, "https://" + segment)
  {
    assert segment[..4] == "www.";
    TrimKeepsInner(segment);
    assert Href(segment) == "https://" + segment;
    LabelOfAddress(segment, []);
    assert "https://" + segment + [] == "https://" + segment;
  }

  lemma {:induction false} NotSlashRunOfHost(prefix: string, host: string, path: string)
    requires forall i :: 0 <= i < |host| ==> host[i] != '/'
    requires path == [] || path[0] == '/'
    ensures NotSlashRun(prefix + host + path, |prefix|) == |host|
    decreases |host|
  {
    if host != [] {
      assert prefix + host + path == (prefix + [host[0]]) + host[1..] + path;
      NotSlashRunOfHost(prefix + [host[0]], host[1..], path);
    } else {
      assert prefix + host + path == prefix + path;
    }
  }

  /** The label of `https://host/path…` is `/path…`; of a bare origin, the origin. */
  lemma {:induction false} LabelOfAddress(host: string, path: string)
    requires host != [] && forall i :: 0 <= i < |host| ==> host[i] != '/'
    requires path == [] || path[0] == '/'
    ensures Label("https://" + host + path) == if path == [] then "https://" + host else path
  {
    var href := "https://" + host + path;
    NotSlashRunOfHost("https://", host, path);
    assert href[8] == host[0];
    assert href[8 + |host|..] == path;
  }

  // ------------------------------------------------------------- match links

  /** The `View` link of a match: its `url`, else `/{locale}/motions/{slug}`. */
  function MatchHref(m: ChatMatch, locale: string): string {
    m.url.GetOr("/" + locale + "/motions" + "/" + m.slug)
  }

  /** The match as the server returns it: without `url`. */
  function MatchOf(demo: CatalogItem): ChatMatch {
    ChatMatch(demo.slug, demo.title, demo.kicker, demo.description, demo.tags, None)
  }

  /** Since the server never sets `url`, every match links to
      `/{locale}/motions/{slug}`, the same path the catalog prompt listed. */
  lemma {:induction false} MatchLinkIsListedInPrompt(matches: seq<CatalogItem>, locale: string, i: nat)
    requires i < |matches|
    ensures MatchHref(MatchOf(matches[i]), locale) == "/" + locale + "/motions/" + matches[i].slug
    ensures Contains(ChatServer.CatalogPrompt(matches, locale), MatchHref(MatchOf(matches[i]), locale))
  {
    ChatServer.PromptLinksEveryMatch(matches, locale, i);
  }

  // ------------------------------------------------------------------- panel

  class ChatPanel {
    var isOpen: bool
    var input: string
    const bot: ChatbotState

    constructor(bot: ChatbotState)
      ensures this.bot == bot && !isOpen && input == ""
    {
      this.bot := bot;
      isOpen := false;
      input := "";
    }

    method ToggleOpen()
      modifies this
      ensures isOpen == !old(isOpen) && input == old(input)
    {
      isOpen := !isOpen;
    }

    method SetInput(next: string)
      modifies this
      ensures input == next && isOpen == old(isOpen)
    {
      input := next;
    }

    /** `handleSubmit`: a blank input is ignored; otherwise the input is
        cleared, even when a pending request makes the hook drop the text,
        and the untrimmed text is handed to `sendMessage`. */
    method HandleSubmit(id: string, now: int) returns (payload: Option<ChatRequestPayload>)
      modifies this, bot
      requires bot.Valid()
      ensures bot.Valid() && isOpen == old(isOpen)
      ensures Trim(old(input)) == "" ==>
        payload == None && input == old(input) && bot.messages == old(bot.messages)
        && bot.isThinking == old(bot.isThinking) && bot.error == old(bot.error)
      ensures Trim(old(input)) != "" ==> input == ""
      ensures Trim(old(input)) != "" && old(bot.isThinking) ==> payload == None && bot.messages == old(bot.messages)
      ensures Trim(old(input)) != "" && !old(bot.isThinking) ==>
        payload.Some? && bot.isThinking
        && bot.messages == old(bot.messages) + [ChatbotMessage(id, User, Trim(old(input)), now, None)]
    {
      if Trim(input) == "" {
        return None;
      }
      var nextMessage := input;
      input := "";
      payload := bot.BeginSend(nextMessage, id, now);
    }

    /** A quick prompt is sent as it is, and the input cleared. */
    method HandleSuggestionClick(suggestion: string, id: string, now: int) returns (payload: Option<ChatRequestPayload>)
      modifies this, bot
      requires bot.Valid()
      ensures bot.Valid() && input == "" && isOpen == old(isOpen)
      ensures payload.Some? <==> Trim(suggestion) != "" && !old(bot.isThinking)
      ensures payload.Some? ==>
        bot.messages == old(bot.messages) + [ChatbotMessage(id, User, Trim(suggestion), now, None)]
    {
      input := "";
      payload := bot.BeginSend(suggestion, id, now);
    }
  }
}
