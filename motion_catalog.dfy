/** The fixed motion-demo catalog of the chat bridge and its ranking against
    the last utterance of a conversation (`rank_demos`). */
module MotionCatalog {
  import opened Strings

  datatype CatalogItem = CatalogItem(
    slug: string,
    title: string,
    kicker: string,
    description: string,
    tags: seq<string>)

  /** `MOTION_DEMOS`, in catalog order. */
  const MotionDemos: seq<CatalogItem> := [
    CatalogItem(
      "button/adaptive-hover-morph",
      "Adaptive Hover Morph",
      "Button motion / 01",
      "A pill CTA that compresses into a circular icon when hovered to signal urgency.",
      ["button", "hover", "cta", "glow"]),
    CatalogItem(
      "timeline/time-reveal",
      "Timeline Reveal",
      "Timeline motion / 01",
      "Sequential cards fade in with staggered springs to narrate multi-step journeys.",
      ["timeline", "stagger", "roadmap"]),
    CatalogItem(
      "interactions/ecology-matrix",
      "Ecology Matrix",
      "Interaction motion / 01",
      "Orchid-inspired carousel that highlights one specimen while adjacent cards preview upcoming moods.",
      ["carousel", "hover", "fragrance", "orchid"])
  ]

  // ------------------------------------------------------------ tokens, score

  /** The query lower-cased and split on white space. The source's `if token`
      filter keeps every piece, since `split()` never yields an empty one. */
  function Tokens(query: string): (r: seq<string>)
    ensures forall k :: 0 <= k < |r| ==> r[k] != ""
  {
    NonEmpty(Words(ToLower(query)))
  }

  /** Title, description and space-joined tags, space-joined and lower-cased.
      Slug and kicker are not searched. */
  function Haystack(item: CatalogItem): string {
    ToLower(Join([item.title, item.description, Join(item.tags, " ")], " "))
  }

  /** How many tokens, counted with repetition, occur in the haystack. */
  function Score(tokens: seq<string>, haystack: string): (n: nat)
    ensures n <= |tokens|
    decreases |tokens|
  {
    if tokens == [] then 0
    else (if Contains(haystack, tokens[0]) then 1 else 0) + Score(tokens[1..], haystack)
  }

  function ItemScore(query: string, item: CatalogItem): nat {
    Score(Tokens(query), Haystack(item))
  }

  lemma {:induction false} ScoreAppend(a: seq<string>, b: seq<string>, haystack: string)
    ensures Score(a + b, haystack) == Score(a, haystack) + Score(b, haystack)
    decreases |a|
  {
    if a == [] {
      assert a + b == b;
    } else {
      assert (a + b)[1..] == a[1..] + b;
      ScoreAppend(a[1..], b, haystack);
    }
  }

  lemma {:induction false} ToLowerAppend(a: string, b: string)
    ensures ToLower(a + b) == ToLower(a) + ToLower(b)
  {
  }

  /** A word typed twice counts twice: tokens are not de-duplicated. */
  lemma {:induction false} RepeatedWordCountsTwice(w: string, haystack: string)
    requires w != "" && forall i :: 0 <= i < |w| ==> !IsPySpace(w[i])
    ensures Tokens(w + " " + w) == Tokens(w) + Tokens(w)
    ensures Score(Tokens(w + " " + w), haystack) == 2 * Score(Tokens(w), haystack)
  {
    var lw := ToLower(w);
    ToLowerAppend(w + " ", w);
    ToLowerAppend(w, " ");
    assert ToLower(w + " " + w) == lw + [' '] + lw;
    assert forall i :: 0 <= i < |lw| ==> !IsPySpace(lw[i]);
    WordsAtSpace(lw, ' ', lw);
    WordsOfWord(lw);
    ScoreAppend(Tokens(w), Tokens(w), haystack);
  }

  // ------------------------------------------------------- stable ordering

  /** A catalog entry paired with its score (the `(score, demo)` tuple), and its
      catalog position, by which ties are broken in a stable sort. */
  datatype Scored = Scored(score: nat, pos: nat, item: CatalogItem)

  /** The entries of `scored`, in catalog order. */
  function ScoredCatalog(tokens: seq<string>, catalog: seq<CatalogItem>): (r: seq<Scored>)
    ensures |r| == |catalog|
    ensures forall k :: 0 <= k < |r| ==> r[k] == Scored(Score(tokens, Haystack(catalog[k])), k, catalog[k])
  {
    seq(|catalog|, k requires 0 <= k < |catalog| => Scored(Score(tokens, Haystack(catalog[k])), k, catalog[k]))
  }

  /** a comes before b in a stable sort by descending score. */
  predicate Outranks(a: Scored, b: Scored) {
    a.score > b.score || (a.score == b.score && a.pos < b.pos)
  }

  predicate StrictlyRanked(s: seq<Scored>) {
    forall i, j :: 0 <= i < j < |s| ==> Outranks(s[i], s[j])
  }

  predicate PositionsIncrease(s: seq<Scored>) {
    forall i, j :: 0 <= i < j < |s| ==> s[i].pos < s[j].pos
  }

  /** x enters after every entry whose score is at least its own. */
  function Insert(x: Scored, s: seq<Scored>): (r: seq<Scored>)
    ensures multiset(r) == multiset(s) + multiset{x}
    decreases |s|
  {
    if s == [] || x.score > s[0].score then [x] + s
    else
      assert s == [s[0]] + s[1..];
      [s[0]] + Insert(x, s[1..])
  }

  lemma {:induction false} InsertKeepsRanked(x: Scored, s: seq<Scored>)
    requires StrictlyRanked(s) && forall e :: e in s ==> e.pos < x.pos
    ensures StrictlyRanked(Insert(x, s))
    decreases |s|
  {
    if s == [] || x.score > s[0].score {
      forall j | 0 <= j < |s| ensures Outranks(x, s[j]) {
        if j > 0 {
          assert Outranks(s[0], s[j]);
        }
      }
      ConsRanked(x, s);
    } else {
      var t := Insert(x, s[1..]);
      assert forall e :: e in s[1..] ==> e in s;
      InsertKeepsRanked(x, s[1..]);
      forall j | 0 <= j < |t| ensures Outranks(s[0], t[j]) {
        assert t[j] in multiset(t);
        HeadOutranksInserted(x, s, t[j]);
      }
      ConsRanked(s[0], t);
    }
  }

  /** An entry that outranks every entry of a ranked list may go in front. */
  lemma {:induction false} ConsRanked(h: Scored, t: seq<Scored>)
    requires StrictlyRanked(t) && forall j :: 0 <= j < |t| ==> Outranks(h, t[j])
    ensures StrictlyRanked([h] + t)
  {
    var r := [h] + t;
    forall i, j | 0 <= i < j < |r| ensures Outranks(r[i], r[j]) {
      assert r[j] == t[j - 1];
      if i > 0 {
        assert r[i] == t[i - 1];
      }
    }
  }

  /** The head of a ranked list outranks the rest, and an entry placed after
      it that comes later in the catalog. */
  lemma {:induction false} HeadOutranksInserted(x: Scored, s: seq<Scored>, e: Scored)
    requires StrictlyRanked(s) && s != [] && x.score <= s[0].score && s[0].pos < x.pos
    requires e in multiset(s[1..]) + multiset{x}
    ensures Outranks(s[0], e)
  {
    if e != x {
      assert e in multiset(s[1..]);
      var m :| 0 <= m < |s[1..]| && s[1..][m] == e;
      assert s[m + 1] == e;
    }
  }

  /** `scored.sort(key=lambda item: item[0], reverse=True)`: Python's sort is
      stable, also with `reverse=True`, so equal scores keep their order. */
  function SortByScore(s: seq<Scored>): (r: seq<Scored>)
    ensures multiset(r) == multiset(s)
    decreases |s|
  {
    if s == [] then []
    else
      assert s == s[..|s| - 1] + [s[|s| - 1]];
      Insert(s[|s| - 1], SortByScore(s[..|s| - 1]))
  }

  /** Sorting entries listed in catalog order ranks them by descending score,
      ties in catalog order. */
  lemma {:induction false} SortRanks(s: seq<Scored>)
    requires PositionsIncrease(s)
    ensures StrictlyRanked(SortByScore(s))
    decreases |s|
  {
    if s != [] {
      var init := s[..|s| - 1];
      var sorted := SortByScore(init);
      SortRanks(init);
      forall e | e in sorted ensures e.pos < s[|s| - 1].pos {
        assert e in multiset(init) by {
          assert e in multiset(sorted);
        }
        var m :| 0 <= m < |init| && init[m] == e;
      }
      InsertKeepsRanked(s[|s| - 1], sorted);
    }
  }

  function Positives(s: seq<Scored>): (r: seq<Scored>)
    ensures forall e :: e in r <==> e in s && e.score > 0
    decreases |s|
  {
    if s == [] then [] else (if s[0].score > 0 then [s[0]] else []) + Positives(s[1..])
  }

  function Items(s: seq<Scored>): (r: seq<CatalogItem>)
    ensures |r| == |s| && forall k :: 0 <= k < |s| ==> r[k] == s[k].item
  {
    seq(|s|, k requires 0 <= k < |s| => s[k].item)
  }

  // ----------------------------------------------------------------- slices

  /** The length of Python's `s[:limit]` for a list of length n. */
  function PyPrefixLength(n: nat, limit: int): (m: nat)
    ensures m <= n
  {
    if limit >= 0 then (if limit < n then limit else n)
    else if n + limit > 0 then n + limit else 0
  }

  /** Python's `s[:limit]`: a negative limit drops that many items from the end. */
  function PyPrefix<T>(s: seq<T>, limit: int): (r: seq<T>)
    ensures r == s[..PyPrefixLength(|s|, limit)]
  {
    s[..PyPrefixLength(|s|, limit)]
  }

  // ---------------------------------------------------------------- ranking

  /** The fallback slice's bound, `limit or 3`: zero means three. */
  function FallbackLimit(limit: int): int {
    if limit == 0 then 3 else limit
  }

  /** `rank_demos(query, limit)` over a given catalog, as the source composes it. */
  function Rank(query: string, catalog: seq<CatalogItem>, limit: int): seq<CatalogItem> {
    var sorted := SortByScore(ScoredCatalog(Tokens(query), catalog));
    var matches := PyPrefix(Items(Positives(sorted)), limit);
    if matches != [] then matches else PyPrefix(catalog, FallbackLimit(limit))
  }

  /** The loop of `rank_demos`: score every entry, then sort, filter, cut, fall back. */
  method RankDemos(query: string, catalog: seq<CatalogItem>, limit: int) returns (result: seq<CatalogItem>)
    ensures result == Rank(query, catalog, limit)
  {
    var tokens := Tokens(query);
    var scored: seq<Scored> := [];
    var i := 0;
    while i < |catalog|
      invariant 0 <= i <= |catalog|
      invariant scored == ScoredCatalog(tokens, catalog)[..i]
    {
      var haystack := Haystack(catalog[i]);
      var score := Score(tokens, haystack);
      scored := scored + [Scored(score, i, catalog[i])];
      i := i + 1;
    }
    assert scored == ScoredCatalog(tokens, catalog);
    var sorted := SortByScore(scored);
    var matches := PyPrefix(Items(Positives(sorted)), limit);
    if matches != [] {
      result := matches;
    } else {
      result := PyPrefix(catalog, FallbackLimit(limit));
    }
  }

  /** `rank_demos` on the fixed catalog. */
  function RankMotionDemos(query: string, limit: int): seq<CatalogItem> {
    Rank(query, MotionDemos, limit)
  }

  // ------------------------------------------------ counting what outranks

  /** What is counted over a list of scored entries. */
  datatype Tally = OutrankersOf(x: Scored) | PositiveScores

  predicate Counts(t: Tally, e: Scored) {
    match t
    case OutrankersOf(x) => Outranks(e, x)
    case PositiveScores => e.score > 0
  }

  function Count(s: seq<Scored>, t: Tally): (n: nat)
    ensures n <= |s|
    decreases |s|
  {
    if s == [] then 0 else (if Counts(t, s[0]) then 1 else 0) + Count(s[1..], t)
  }

  /** The number of catalog entries with a positive score. */
  function PositiveCount(query: string, catalog: seq<CatalogItem>): nat {
    Count(ScoredCatalog(Tokens(query), catalog), PositiveScores)
  }

  /** The number of catalog entries that outrank entry k: a higher score, or the
      same score and an earlier catalog position. */
  function RankOf(query: string, catalog: seq<CatalogItem>, k: nat): nat
    requires k < |catalog|
  {
    var sc := ScoredCatalog(Tokens(query), catalog);
    Count(sc, OutrankersOf(sc[k]))
  }

  lemma {:induction false} CountAppend(a: seq<Scored>, b: seq<Scored>, t: Tally)
    ensures Count(a + b, t) == Count(a, t) + Count(b, t)
    decreases |a|
  {
    if a == [] {
      assert a + b == b;
    } else {
      assert (a + b)[1..] == a[1..] + b;
      CountAppend(a[1..], b, t);
    }
  }

  /** A count depends only on the multiset of entries. */
  lemma {:induction false} CountPermutation(a: seq<Scored>, b: seq<Scored>, t: Tally)
    requires multiset(a) == multiset(b)
    ensures Count(a, t) == Count(b, t)
    decreases |a|
  {
    if a == [] {
      assert |b| == |multiset(b)| == 0;
    } else {
      var e := a[0];
      assert e in multiset(b);
      var j :| 0 <= j < |b| && b[j] == e;
      var rest := b[..j] + b[j + 1..];
      RemoveFromBoth(a, b, j);
      CountPermutation(a[1..], rest, t);
      CountRemove(b, j, t);
    }
  }

  /** Taking the first entry off a and the same entry off b keeps the
      multisets equal. */
  lemma {:induction false} RemoveFromBoth(a: seq<Scored>, b: seq<Scored>, j: nat)
    requires multiset(a) == multiset(b) && a != [] && j < |b| && b[j] == a[0]
    ensures multiset(a[1..]) == multiset(b[..j] + b[j + 1..])
  {
    var e := a[0];
    var rest := b[..j] + b[j + 1..];
    assert a == [e] + a[1..];
    assert b == b[..j] + [e] + b[j + 1..];
    assert multiset(a) == multiset{e} + multiset(a[1..]);
    assert multiset(b) == multiset(b[..j]) + multiset{e} + multiset(b[j + 1..]);
    assert multiset(rest) == multiset(b[..j]) + multiset(b[j + 1..]);
    assert multiset(a[1..]) == multiset(a) - multiset{e};
    assert multiset(rest) == multiset(b) - multiset{e};
  }

  /** Counting over a list is counting its entry j plus the rest. */
  lemma {:induction false} CountRemove(b: seq<Scored>, j: nat, t: Tally)
    requires j < |b|
    ensures Count(b, t) == (if Counts(t, b[j]) then 1 else 0) + Count(b[..j] + b[j + 1..], t)
  {
    var front, back := b[..j], b[j + 1..];
    assert b == front + ([b[j]] + back);
    CountAppend(front, [b[j]] + back, t);
    CountAppend([b[j]], back, t);
    CountAppend(front, back, t);
    assert [b[j]][1..] == [];
  }

  /** In a strictly ranked list, exactly the entries in front of position i outrank it. */
  lemma {:induction false} CountInRanked(s: seq<Scored>, i: nat)
    requires StrictlyRanked(s) && i < |s|
    ensures Count(s, OutrankersOf(s[i])) == i
  {
    var x := s[i];
    AllCount(s[..i], OutrankersOf(x));
    NoneCount(s[i..], OutrankersOf(x));
    assert s == s[..i] + s[i..];
    CountAppend(s[..i], s[i..], OutrankersOf(x));
  }

  lemma {:induction false} AllCount(s: seq<Scored>, t: Tally)
    requires forall k :: 0 <= k < |s| ==> Counts(t, s[k])
    ensures Count(s, t) == |s|
    decreases |s|
  {
    if s != [] {
      AllCount(s[1..], t);
    }
  }

  lemma {:induction false} NoneCount(s: seq<Scored>, t: Tally)
    requires forall k :: 0 <= k < |s| ==> !Counts(t, s[k])
    ensures Count(s, t) == 0
    decreases |s|
  {
    if s != [] {
      NoneCount(s[1..], t);
    }
  }

  lemma {:induction false} PositivesLength(s: seq<Scored>)
    ensures |Positives(s)| == Count(s, PositiveScores)
    decreases |s|
  {
    if s != [] {
      PositivesLength(s[1..]);
    }
  }

  /** After a positive prefix, the filter keeps position i in place. */
  lemma {:induction false} PositivesKeepPrefix(s: seq<Scored>, i: nat)
    requires i < |s| && forall k :: 0 <= k <= i ==> s[k].score > 0
    ensures i < |Positives(s)| && Positives(s)[i] == s[i]
    decreases i
  {
    if i > 0 {
      PositivesKeepPrefix(s[1..], i - 1);
    }
  }

  // --------------------------------------------------- what the ranking is

  lemma {:induction false} RankedCatalogFacts(tokens: seq<string>, catalog: seq<CatalogItem>)
    ensures PositionsIncrease(ScoredCatalog(tokens, catalog))
    ensures StrictlyRanked(SortByScore(ScoredCatalog(tokens, catalog)))
  {
    SortRanks(ScoredCatalog(tokens, catalog));
  }

  /** The entries the ranking keeps before the fallback: as many as
      `[:limit]` allows of the positively scored entries. */
  lemma {:induction false} RankedLength(query: string, catalog: seq<CatalogItem>, limit: int)
    ensures var sorted := SortByScore(ScoredCatalog(Tokens(query), catalog));
      |PyPrefix(Items(Positives(sorted)), limit)| == PyPrefixLength(PositiveCount(query, catalog), limit)
  {
    var sc := ScoredCatalog(Tokens(query), catalog);
    var sorted := SortByScore(sc);
    PositivesLength(sorted);
    CountPermutation(sorted, sc, PositiveScores);
  }

  /** Entry k of the catalog sits in the sorted list at index RankOf(k). */
  lemma {:induction false} LocateInSorted(query: string, catalog: seq<CatalogItem>, k: nat) returns (i: nat)
    requires k < |catalog|
    ensures var sorted := SortByScore(ScoredCatalog(Tokens(query), catalog));
      i < |sorted| && sorted[i] == ScoredCatalog(Tokens(query), catalog)[k]
      && i == RankOf(query, catalog, k)
  {
    var sc := ScoredCatalog(Tokens(query), catalog);
    var sorted := SortByScore(sc);
    RankedCatalogFacts(Tokens(query), catalog);
    var x := sc[k];
    assert x in multiset(sorted) by {
      assert x in multiset(sc);
    }
    i :| 0 <= i < |sorted| && sorted[i] == x;
    CountInRanked(sorted, i);
    CountPermutation(sorted, sc, OutrankersOf(x));
  }

  /** When some entry matches and the limit leaves room, the result has
      `min(limit, matching)` entries (Python-slice length), and each matching
      entry k that fits appears exactly at index RankOf(k): the entries are in
      descending score order, ties in catalog order. */
  lemma {:induction false} RankPlacesEntry(query: string, catalog: seq<CatalogItem>, limit: int, k: nat)
    requires k < |catalog| && ItemScore(query, catalog[k]) > 0
    requires RankOf(query, catalog, k) < PyPrefixLength(PositiveCount(query, catalog), limit)
    ensures |Rank(query, catalog, limit)| == PyPrefixLength(PositiveCount(query, catalog), limit)
    ensures Rank(query, catalog, limit)[RankOf(query, catalog, k)] == catalog[k]
  {
    var sorted := SortByScore(ScoredCatalog(Tokens(query), catalog));
    RankedLength(query, catalog, limit);
    RankedCatalogFacts(Tokens(query), catalog);
    var i := LocateInSorted(query, catalog, k);
    forall j | 0 <= j <= i ensures sorted[j].score > 0 {
      if j < i {
        assert Outranks(sorted[j], sorted[i]);
      }
    }
    PositivesKeepPrefix(sorted, i);
  }

  /** Every entry of the result that is not a fallback has a positive score. */
  lemma {:induction false} RankedEntriesMatch(query: string, catalog: seq<CatalogItem>, limit: int)
    requires PyPrefixLength(PositiveCount(query, catalog), limit) > 0
    ensures forall m :: m in Rank(query, catalog, limit) ==>
      exists k :: 0 <= k < |catalog| && catalog[k] == m && ItemScore(query, catalog[k]) > 0
  {
    var sc := ScoredCatalog(Tokens(query), catalog);
    var sorted := SortByScore(sc);
    RankedLength(query, catalog, limit);
    var items := Items(Positives(sorted));
    forall m | m in Rank(query, catalog, limit)
      ensures exists k :: 0 <= k < |catalog| && catalog[k] == m && ItemScore(query, catalog[k]) > 0
    {
      var j :| 0 <= j < |PyPrefix(items, limit)| && PyPrefix(items, limit)[j] == m;
      var e := Positives(sorted)[j];
      assert e in Positives(sorted);
      SortedEntryFromCatalog(query, catalog, e);
    }
  }

  /** Every sorted entry is the catalog's entry at its position, with its score. */
  lemma {:induction false} SortedEntryFromCatalog(query: string, catalog: seq<CatalogItem>, e: Scored)
    requires e in SortByScore(ScoredCatalog(Tokens(query), catalog))
    ensures e.pos < |catalog| && catalog[e.pos] == e.item && e.score == ItemScore(query, e.item)
  {
    var sc := ScoredCatalog(Tokens(query), catalog);
    assert e in multiset(sc) by {
      assert e in multiset(SortByScore(sc));
    }
    var k :| 0 <= k < |sc| && sc[k] == e;
  }

  /** Nothing matches (or the slice is empty): the result is `catalog[:limit or 3]`. */
  lemma {:induction false} RankFallback(query: string, catalog: seq<CatalogItem>, limit: int)
    requires PyPrefixLength(PositiveCount(query, catalog), limit) == 0
    ensures Rank(query, catalog, limit) == PyPrefix(catalog, FallbackLimit(limit))
  {
    RankedLength(query, catalog, limit);
  }

  /** A limit of zero keeps no match and falls back to the first three
      entries, whatever the query. */
  lemma {:induction false} ZeroLimitGivesFirstThree(query: string, catalog: seq<CatalogItem>)
    ensures Rank(query, catalog, 0) == catalog[..if |catalog| < 3 then |catalog| else 3]
  {
    RankFallback(query, catalog, 0);
  }

  /** A positive limit bounds the result, fallback included. */
  lemma {:induction false} RankWithinLimit(query: string, catalog: seq<CatalogItem>, limit: int)
    requires limit > 0
    ensures |Rank(query, catalog, limit)| <= limit
  {
    assert FallbackLimit(limit) == limit;
  }

  /** With a non-negative limit and a non-empty catalog the result is never empty. */
  lemma {:induction false} NonNegativeLimitNeverEmpty(query: string, catalog: seq<CatalogItem>, limit: int)
    requires limit >= 0 && |catalog| > 0
    ensures |Rank(query, catalog, limit)| > 0
  {
    var sc := ScoredCatalog(Tokens(query), catalog);
    var matches := PyPrefix(Items(Positives(SortByScore(sc))), limit);
    if matches == [] {
      assert PyPrefixLength(|catalog|, FallbackLimit(limit)) > 0;
    }
  }

  /** A negative limit as large as the catalog, with nothing matching, gives an empty result. */
  lemma {:induction false} NegativeLimitCanEmpty(query: string, catalog: seq<CatalogItem>)
    requires PositiveCount(query, catalog) == 0
    ensures Rank(query, catalog, -|catalog|) == []
  {
    RankFallback(query, catalog, -|catalog|);
  }

  /** Every entry of the result is an entry of the catalog. */
  lemma {:induction false} RankWithinCatalog(query: string, catalog: seq<CatalogItem>, limit: int)
    ensures forall m :: m in Rank(query, catalog, limit) ==> m in catalog
  {
    if PyPrefixLength(PositiveCount(query, catalog), limit) > 0 {
      RankedEntriesMatch(query, catalog, limit);
    } else {
      RankFallback(query, catalog, limit);
    }
  }

  lemma {:induction false} CountMonotone(s: seq<Scored>, x: Scored, y: Scored)
    requires Outranks(x, y)
    ensures Count(s, OutrankersOf(x)) <= Count(s, OutrankersOf(y))
    ensures x in s ==> Count(s, OutrankersOf(x)) < Count(s, OutrankersOf(y))
    decreases |s|
  {
    if s != [] {
      CountMonotone(s[1..], x, y);
    }
  }

  /** Stability: of two matching entries with equal score, the earlier catalog
      entry is placed first; a higher score is always placed first. */
  lemma {:induction false} HigherOrEarlierComesFirst(query: string, catalog: seq<CatalogItem>, p: nat, q: nat)
    requires p < |catalog| && q < |catalog|
    requires ItemScore(query, catalog[p]) > ItemScore(query, catalog[q])
      || (ItemScore(query, catalog[p]) == ItemScore(query, catalog[q]) && p < q)
    ensures RankOf(query, catalog, p) < RankOf(query, catalog, q)
  {
    var sc := ScoredCatalog(Tokens(query), catalog);
    CountMonotone(sc, sc[p], sc[q]);
  }
}
