/** The specimen carousel of the ecology demo: which card is active, where
    each card sits relative to it, and which cards are drawn. */
module EcologyMatrix {
  import opened Wrappers
  import opened JsMath

  /** A specimen card; its colour accent is left out. */
  datatype Specimen = Specimen(id: string, name: string, family: string, region: string)

  /** `fallbackSpecimens`. */
  const Fallback: seq<Specimen> := [
    Specimen("fallback-1", "Monstera deliciosa", "Araceae", "Tropical canopy"),
    Specimen("fallback-2", "Lavandula angustifolia", "Lamiaceae", "Mediterranean understory"),
    Specimen("fallback-3", "Aloe vera", "Asphodelaceae", "Arid floor"),
    Specimen("fallback-4", "Ficus lyrata", "Moraceae", "West African canopy"),
    Specimen("fallback-5", "Epipremnum aureum", "Araceae", "Island understory"),
    Specimen("fallback-6", "Tradescantia zebrina", "Commelinaceae", "Central American floor"),
    Specimen("fallback-7", "Calathea orbifolia", "Marantaceae", "Bolivian understory"),
    Specimen("fallback-8", "Tillandsia ionantha", "Bromeliaceae", "Mexico canopy"),
    Specimen("fallback-9", "Nepenthes alata", "Nepenthaceae", "Philippine floor")]

  /** `cards?.length ? cards : fallbackSpecimens`; None is a missing list. */
  function Dataset(cards: Option<seq<Specimen>>): (d: seq<Specimen>)
    ensures |d| > 0
    ensures cards.Some? && |cards.value| > 0 ==> d == cards.value
    ensures cards.None? || cards.value == [] ==> d == Fallback && |d| == 9
  {
    if cards.Some? && |cards.value| > 0 then cards.value else Fallback
  }

  /** `((activeIndex % n) + n) % n` with JavaScript's truncating `%`. */
  function NormalizedIndex(activeIndex: int, n: nat): int
    requires n > 0
  {
    JsRem(JsRem(activeIndex, n) + n, n)
  }

  /** The normalized index is the least non-negative residue, for negative
      active indices too. */
  lemma {:induction false} NormalizedIndexIsResidue(activeIndex: int, n: nat)
    requires n > 0
    ensures NormalizedIndex(activeIndex, n) == activeIndex % n
    ensures 0 <= NormalizedIndex(activeIndex, n) < n
  {
    if activeIndex >= 0 {
      var t := activeIndex % n;
      ModUnique(t + n, 1, t, n);
    } else {
      var t := (-activeIndex) % n;
      var q := (-activeIndex) / n;
      assert -activeIndex == q * n + t;
      if t == 0 {
        ModUnique(n, 1, 0, n);
        ModUnique(activeIndex, -q, 0, n);
      } else {
        ModUnique(n - t, 0, n - t, n);
        ModUnique(activeIndex, -q - 1, n - t, n);
      }
    }
  }

  /** Stepping the active index by one moves the active card to the
      neighbouring one, wrapping around at either end. */
  lemma {:induction false} StepWraps(activeIndex: int, n: nat)
    requires n > 0
    ensures NormalizedIndex(activeIndex + 1, n) == (NormalizedIndex(activeIndex, n) + 1) % n
    ensures NormalizedIndex(activeIndex - 1, n) == (NormalizedIndex(activeIndex, n) - 1 + n) % n
  {
    NormalizedIndexIsResidue(activeIndex, n);
    NormalizedIndexIsResidue(activeIndex + 1, n);
    NormalizedIndexIsResidue(activeIndex - 1, n);
    ResidueStep(activeIndex, n);
  }

  lemma {:induction false} ResidueStep(a: int, n: nat)
    requires n > 0
    ensures (a + 1) % n == (a % n + 1) % n
    ensures (a - 1) % n == (a % n - 1 + n) % n
  {
    ResidueUp(a, n);
    ResidueDown(a, n);
  }

  lemma {:induction false} ResidueUp(a: int, n: nat)
    requires n > 0
    ensures (a + 1) % n == (a % n + 1) % n
  {
    var q := a / n;
    var r := a % n;
    if r + 1 < n {
      ModUnique(a + 1, q, r + 1, n);
      ModUnique(r + 1, 0, r + 1, n);
    } else {
      ModUnique(a + 1, q + 1, 0, n);
      ModUnique(r + 1, 1, 0, n);
    }
  }

  lemma {:induction false} ResidueDown(a: int, n: nat)
    requires n > 0
    ensures (a - 1) % n == (a % n - 1 + n) % n
  {
    var q := a / n;
    var r := a % n;
    if r >= 1 {
      ModUnique(a - 1, q, r - 1, n);
      ModUnique(r - 1 + n, 1, r - 1, n);
    } else {
      ModUnique(a - 1, q - 1, n - 1, n);
      ModUnique(n - 1, 0, n - 1, n);
    }
  }

  /** The card position of `index` relative to the active card, folded into
      the nearest half-turn. */
  function Relative(index: int, active: int, n: nat): int
    requires n > 0
  {
    var half := FloorDiv(n, 2);
    var r0 := index - active;
    var r1 := if r0 > half then r0 - n else r0;
    if r1 < -half then r1 + n else r1
  }

  /** For cards of the dataset: the relative position differs from the
      index difference by a multiple of n (zero, one or minus one turns),
      lies within half a turn, and is zero only for the active card. */
  lemma {:induction false} RelativeShape(index: int, active: int, n: nat)
    requires n > 0 && 0 <= index < n && 0 <= active < n
    ensures var r := Relative(index, active, n);
      (r == index - active || r == index - active - n || r == index - active + n)
      && -(n / 2) <= r <= n / 2
      && (r == 0 <==> index == active)
  {
  }

  /** Two cards never share a position. */
  lemma {:induction false} RelativeDistinct(i: int, j: int, active: int, n: nat)
    requires n > 0 && 0 <= i < n && 0 <= j < n && 0 <= active < n && i != j
    ensures Relative(i, active, n) != Relative(j, active, n)
  {
    RelativeShape(i, active, n);
    RelativeShape(j, active, n);
  }

  datatype CarouselItem = CarouselItem(specimen: Specimen, relative: int, index: nat)

  /** `carouselItems`. */
  function CarouselItems(dataset: seq<Specimen>, activeIndex: int): (items: seq<CarouselItem>)
    requires |dataset| > 0
    ensures |items| == |dataset|
    ensures forall k :: 0 <= k < |items| ==>
      items[k].specimen == dataset[k] && items[k].index == k
      && items[k].relative == Relative(k, NormalizedIndex(activeIndex, |dataset|), |dataset|)
  {
    seq(|dataset|, k requires 0 <= k < |dataset| =>
      CarouselItem(dataset[k], Relative(k, NormalizedIndex(activeIndex, |dataset|), |dataset|), k))
  }

  /** `isActive`. */
  predicate IsActive(item: CarouselItem) {
    item.relative == 0
  }

  /** Cards more than two places away are not drawn. */
  predicate IsDrawn(item: CarouselItem) {
    -2 <= item.relative <= 2
  }

  /** Exactly one card is active: the one at the normalized index, and it is
      drawn. */
  lemma {:induction false} OneActiveCard(dataset: seq<Specimen>, activeIndex: int, k: nat)
    requires |dataset| > 0 && k < |dataset|
    ensures var items := CarouselItems(dataset, activeIndex);
      IsActive(items[k]) <==> k == activeIndex % |dataset|
    ensures IsDrawn(CarouselItems(dataset, activeIndex)[activeIndex % |dataset|])
  {
    NormalizedIndexIsResidue(activeIndex, |dataset|);
    RelativeShape(k, NormalizedIndex(activeIndex, |dataset|), |dataset|);
  }

  /** With at least five cards, the active card's two neighbours on each
      side are drawn. */
  lemma {:induction false} NeighboursDrawn(dataset: seq<Specimen>, activeIndex: int, d: int)
    requires |dataset| >= 5 && -2 <= d <= 2
    ensures IsDrawn(CarouselItems(dataset, activeIndex)[(activeIndex + d) % |dataset|])
    ensures CarouselItems(dataset, activeIndex)[(activeIndex + d) % |dataset|].relative == d
  {
    var n := |dataset|;
    NormalizedIndexIsResidue(activeIndex, n);
    WrappedNeighbour(activeIndex, d, n);
  }

  /** The index d places from the active one, wrapped into [0, n). */
  lemma {:induction false} WrappedNeighbour(activeIndex: int, d: int, n: nat)
    requires n >= 5 && -2 <= d <= 2
    ensures var a := activeIndex % n;
      (activeIndex + d) % n == if a + d < 0 then a + d + n else if a + d >= n then a + d - n else a + d
  {
    var a := activeIndex % n;
    var q := activeIndex / n;
    if a + d < 0 {
      ModUnique(activeIndex + d, q - 1, a + d + n, n);
    } else if a + d >= n {
      ModUnique(activeIndex + d, q + 1, a + d - n, n);
    } else {
      ModUnique(activeIndex + d, q, a + d, n);
    }
  }

  /** The carousel's state. */
  class Carousel {
    var activeIndex: int

    constructor()
      ensures activeIndex == 0
    {
      activeIndex := 0;
    }

    /** `handleCarouselChange`: no bound, the index may leave [0, n). */
    method HandleCarouselChange(direction: int)
      requires direction == -1 || direction == 1
      modifies this
      ensures activeIndex == old(activeIndex) + direction
    {
      activeIndex := activeIndex + direction;
    }

    /** A click on the card at `index`: the active card ignores it, any
        other becomes active. Either way that card is active afterwards. */
    method ClickCard(dataset: seq<Specimen>, index: nat)
      requires index < |dataset|
      modifies this
      ensures var item := CarouselItems(dataset, old(activeIndex))[index];
        activeIndex == if IsActive(item) then old(activeIndex) else index
      ensures NormalizedIndex(activeIndex, |dataset|) == index
    {
      var n := |dataset|;
      var relative := Relative(index, NormalizedIndex(activeIndex, n), n);
      NormalizedIndexIsResidue(activeIndex, n);
      RelativeShape(index, NormalizedIndex(activeIndex, n), n);
      if relative != 0 {
        activeIndex := index;
        ModUnique(index, 0, index, n);
      }
      NormalizedIndexIsResidue(activeIndex, n);
    }
  }
}
