/** The registry of motion demos and its two lookups: by route parameters
    and by translation key. */
module MotionRegistry {
  import opened Wrappers
  import opened Strings
  import opened Lookup

  /** A registry entry; its description, insights and component are left
      out. */
  datatype MotionDemo = MotionDemo(
    category: string,
    demo: string,
    slug: string,
    translationKey: string,
    kicker: string,
    title: string)

  /** The three entries of `motionDemoRegistry`, in order. */
  const HoverMorph := MotionDemo("button", "adaptive-hover-morph", "button/adaptive-hover-morph",
    "hoverSprings", "Button motion / 01", "Adaptive Hover Morph")
  const TimeReveal := MotionDemo("timeline", "time-reveal", "timeline/time-reveal",
    "timelineReveal", "Timeline motion / 01", "Timeline reveal")
  const EcologyMatrixDemo := MotionDemo("interactions", "ecology-matrix", "interactions/ecology-matrix",
    "ecologyMatrix", "Interaction motion / 01", "Ecology matrix")

  const Registry: seq<MotionDemo> := [HoverMorph, TimeReveal, EcologyMatrixDemo]

  /** The slug is the category, a "/", then the demo. */
  predicate SlugJoins(e: MotionDemo) {
    && |e.slug| == |e.category| + 1 + |e.demo|
    && e.slug[..|e.category|] == e.category
    && e.slug[|e.category|] == '/'
    && e.slug[|e.category| + 1..] == e.demo
  }

  lemma {:induction false} SlugJoinsIsConcat(e: MotionDemo)
    requires SlugJoins(e)
    ensures e.slug == e.category + "/" + e.demo
  {
    assert e.slug == e.slug[..|e.category|] + [e.slug[|e.category|]] + e.slug[|e.category| + 1..];
  }

  predicate EntryWellFormed(e: MotionDemo) {
    SlugJoins(e) && '/' !in e.category && '/' !in e.demo
  }

  /** Each slug is its category and demo joined by "/", neither of which
      holds a "/"; slugs and translation keys are all different. */
  predicate WellFormed(reg: seq<MotionDemo>) {
    && (forall k :: 0 <= k < |reg| ==> EntryWellFormed(reg[k]))
    && (forall j, k :: 0 <= j < k < |reg| ==> reg[j].slug != reg[k].slug)
    && (forall j, k :: 0 <= j < k < |reg| ==> reg[j].translationKey != reg[k].translationKey)
  }

  lemma {:induction false} RegistryWellFormed()
    ensures WellFormed(Registry)
  {
    HoverMorphWellFormed();
    TimeRevealWellFormed();
    EcologyMatrixWellFormed();
    SlugsDiffer();
    KeysDiffer();
    ThreeWellFormed(HoverMorph, TimeReveal, EcologyMatrixDemo);
  }

  lemma {:induction false} ThreeWellFormed(a: MotionDemo, b: MotionDemo, c: MotionDemo)
    requires EntryWellFormed(a) && EntryWellFormed(b) && EntryWellFormed(c)
    requires a.slug != b.slug && a.slug != c.slug && b.slug != c.slug
    requires a.translationKey != b.translationKey && a.translationKey != c.translationKey
    requires b.translationKey != c.translationKey
    ensures WellFormed([a, b, c])
  {
    var r := [a, b, c];
    assert forall k :: 0 <= k < 3 ==> r[k] == a || r[k] == b || r[k] == c;
    forall j, k | 0 <= j < k < |r|
      ensures r[j].slug != r[k].slug && r[j].translationKey != r[k].translationKey
    {
      assert (j == 0 && k == 1) || (j == 0 && k == 2) || (j == 1 && k == 2);
    }
  }

  lemma {:induction false} SlugsDiffer()
    ensures HoverMorph.slug != TimeReveal.slug && HoverMorph.slug != EcologyMatrixDemo.slug
    ensures TimeReveal.slug != EcologyMatrixDemo.slug
  {
    assert HoverMorph.slug[0] == 'b' && TimeReveal.slug[0] == 't' && EcologyMatrixDemo.slug[0] == 'i';
  }

  lemma {:induction false} KeysDiffer()
    ensures HoverMorph.translationKey != TimeReveal.translationKey
    ensures HoverMorph.translationKey != EcologyMatrixDemo.translationKey
    ensures TimeReveal.translationKey != EcologyMatrixDemo.translationKey
  {
    assert HoverMorph.translationKey[0] == 'h' && TimeReveal.translationKey[0] == 't'
      && EcologyMatrixDemo.translationKey[0] == 'e';
  }

  lemma {:induction false} HoverMorphWellFormed()
    ensures EntryWellFormed(HoverMorph)
  {
    HoverMorphSlugJoins();
    HoverMorphPartsHaveNoSlash();
  }

  lemma {:induction false} HoverMorphPartsHaveNoSlash()
    ensures '/' !in HoverMorph.category && '/' !in HoverMorph.demo
  {
    HoverMorphCategoryHasNoSlash();
  }

  lemma {:induction false} HoverMorphCategoryHasNoSlash()
    ensures '/' !in HoverMorph.category
  {
  }

  lemma {:induction false} HoverMorphSlugJoins()
    ensures SlugJoins(HoverMorph)
  {
  }

  lemma {:induction false} TimeRevealWellFormed()
    ensures EntryWellFormed(TimeReveal)
  {
    TimeRevealSlugJoins();
    TimeRevealPartsHaveNoSlash();
  }

  lemma {:induction false} TimeRevealPartsHaveNoSlash()
    ensures '/' !in TimeReveal.category && '/' !in TimeReveal.demo
  {
    TimeRevealCategoryHasNoSlash();
  }

  lemma {:induction false} TimeRevealCategoryHasNoSlash()
    ensures '/' !in TimeReveal.category
  {
  }

  lemma {:induction false} TimeRevealSlugJoins()
    ensures SlugJoins(TimeReveal)
  {
  }

  lemma {:induction false} EcologyMatrixWellFormed()
    ensures EntryWellFormed(EcologyMatrixDemo)
  {
    EcologyMatrixSlugJoins();
    EcologyMatrixPartsHaveNoSlash();
  }

  lemma {:induction false} EcologyMatrixPartsHaveNoSlash()
    ensures '/' !in EcologyMatrixDemo.category && '/' !in EcologyMatrixDemo.demo
  {
    EcologyMatrixCategoryHasNoSlash();
  }

  lemma {:induction false} EcologyMatrixCategoryHasNoSlash()
    ensures '/' !in EcologyMatrixDemo.category
  {
  }

  lemma {:induction false} EcologyMatrixSlugJoins()
    ensures SlugJoins(EcologyMatrixDemo)
  {
  }

  /** `getMotionDemoByParams`. */
  function ByParams(reg: seq<MotionDemo>, category: string, demo: string): (r: Option<MotionDemo>)
    ensures r.Some? ==> r.value in reg && r.value.slug == category + "/" + demo
    ensures r.None? <==> forall k :: 0 <= k < |reg| ==> reg[k].slug != category + "/" + demo
  {
    var slug := category + "/" + demo;
    Find(reg, (d: MotionDemo) => d.slug == slug)
  }

  /** `getMotionDemoPathByTranslationKey`: the demo's page, or null. */
  function PathByTranslationKey(reg: seq<MotionDemo>, key: string): (r: Option<string>)
    ensures r.Some? ==> exists k :: 0 <= k < |reg| && reg[k].translationKey == key && r.value == "/motions/" + reg[k].slug
    ensures r.None? <==> forall k :: 0 <= k < |reg| ==> reg[k].translationKey != key
  {
    match Find(reg, (d: MotionDemo) => d.translationKey == key)
    case Some(m) => Some("/motions/" + m.slug)
    case None => None
  }

  /** Every entry is found again from its own category and demo, and only
      from those (route parameters hold no "/"). */
  lemma {:induction false} ByParamsRoundTrip(reg: seq<MotionDemo>, k: nat, category: string, demo: string)
    requires WellFormed(reg) && k < |reg| && '/' !in category
    ensures ByParams(reg, reg[k].category, reg[k].demo) == Some(reg[k])
    ensures ByParams(reg, category, demo) == Some(reg[k]) <==> category == reg[k].category && demo == reg[k].demo
  {
    forall j | 0 <= j < |reg| ensures reg[j].slug == reg[j].category + "/" + reg[j].demo {
      SlugJoinsIsConcat(reg[j]);
    }
    FindSingle(reg, (d: MotionDemo) => d.slug == reg[k].category + "/" + reg[k].demo, k);
    if ByParams(reg, category, demo) == Some(reg[k]) {
      JoinAtChar(category, demo, reg[k].category, reg[k].demo, '/');
    }
  }

  /** Every entry's translation key leads to that entry's page. */
  lemma {:induction false} PathRoundTrip(reg: seq<MotionDemo>, k: nat)
    requires WellFormed(reg) && k < |reg|
    ensures PathByTranslationKey(reg, reg[k].translationKey) == Some("/motions/" + reg[k].slug)
  {
    FindSingle(reg, (d: MotionDemo) => d.translationKey == reg[k].translationKey, k);
  }

  /** The registry's own entries are each reachable by their route and by
      their translation key. */
  lemma {:induction false} RegistryRoutes(k: nat)
    requires k < |Registry|
    ensures ByParams(Registry, Registry[k].category, Registry[k].demo) == Some(Registry[k])
    ensures PathByTranslationKey(Registry, Registry[k].translationKey) == Some("/motions/" + Registry[k].slug)
  {
    RegistryWellFormed();
    ByParamsRoundTrip(Registry, k, Registry[k].category, Registry[k].demo);
    PathRoundTrip(Registry, k);
  }
}
