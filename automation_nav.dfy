/** The automation sidebar's open section: derived from the current path,
    overridden by the last section header clicked. */
module AutomationNav {
  import opened Wrappers
  import opened Strings
  import opened Lookup
  import opened Navigation

  /** An item is active when the path starts with its page. */
  predicate IsActive(path: string, item: NavItem) {
    StartsWith(path, item.href)
  }

  /** `section.items.some(...)`: the section holds an active item. */
  predicate HasActiveItem(path: string, s: NavSection) {
    exists i :: 0 <= i < |s.items| && IsActive(path, s.items[i])
  }

  /** The first section holding an active item. */
  function FirstActiveSection(sections: seq<NavSection>, path: string): (r: Option<NavSection>)
    ensures r.None? <==> forall k :: 0 <= k < |sections| ==> !HasActiveItem(path, sections[k])
    ensures r.Some? ==> exists k :: (0 <= k < |sections| && sections[k] == r.value && HasActiveItem(path, sections[k])
      && forall j :: 0 <= j < k ==> !HasActiveItem(path, sections[j]))
  {
    var i := FindIndex(sections, (s: NavSection) => HasActiveItem(path, s));
    if i.Some? then Some(sections[i.value]) else None
  }

  /** `derivedLabel`: the label of the first section holding an active item,
      else the first section's label (None: no sections at all). */
  function DerivedLabel(sections: seq<NavSection>, path: string): (r: Option<string>)
    ensures r.None? <==> |sections| == 0
    ensures r.Some? ==> exists k :: 0 <= k < |sections| && r.value == sections[k].sectionLabel
    ensures forall k :: (0 <= k < |sections| && HasActiveItem(path, sections[k])
      && (forall j :: 0 <= j < k ==> !HasActiveItem(path, sections[j]))) ==> r == Some(sections[k].sectionLabel)
    ensures (forall k :: 0 <= k < |sections| ==> !HasActiveItem(path, sections[k])) && |sections| > 0 ==>
      r == Some(sections[0].sectionLabel)
  {
    match FirstActiveSection(sections, path)
    case Some(s) => Some(s.sectionLabel)
    case None => if |sections| > 0 then Some(sections[0].sectionLabel) else None
  }

  /** `openSectionLabel`: the manual choice when there is one. */
  function OpenSectionLabel(manuallyOpen: Option<string>, derived: Option<string>): Option<string> {
    if manuallyOpen.Some? then manuallyOpen else derived
  }

  /** `isSectionOpen`. */
  predicate IsSectionOpen(open: Option<string>, name: string) {
    open == Some(name)
  }

  /** On the page of any item, or below it, the derived section is the
      item's own section. */
  lemma {:induction false} DerivedLabelOfItemPage(sections: seq<NavSection>, k: nat, i: nat, suffix: string)
    requires WellFormed(sections) && k < |sections| && i < |sections[k].items|
    ensures forall j :: 0 <= j < |sections| ==>
      (HasActiveItem(sections[k].items[i].href + suffix, sections[j]) <==> j == k)
    ensures DerivedLabel(sections, sections[k].items[i].href + suffix) == Some(sections[k].sectionLabel)
  {
    var path := sections[k].items[i].href + suffix;
    assert IsActive(path, sections[k].items[i]) by {
      assert path[..|sections[k].items[i].href|] == sections[k].items[i].href;
    }
    forall j | 0 <= j < |sections| && HasActiveItem(path, sections[j])
      ensures j == k
    {
      var m :| 0 <= m < |sections[j].items| && IsActive(path, sections[j].items[m]);
      var own := sections[k].items[i];
      var other := sections[j].items[m];
      SameSectionFromPath(sections[k].slug, own.slug, sections[j].slug, other.slug, path);
    }
  }

  /** On the hub's root page no item is active, so the first section is the
      derived one. */
  lemma {:induction false} HubRootOpensFirstSection(sections: seq<NavSection>)
    requires WellFormed(sections) && |sections| > 0
    ensures forall k :: 0 <= k < |sections| ==> !HasActiveItem(BasePath, sections[k])
    ensures DerivedLabel(sections, BasePath) == Some(sections[0].sectionLabel)
  {
    forall k, i | 0 <= k < |sections| && 0 <= i < |sections[k].items|
      ensures !IsActive(BasePath, sections[k].items[i])
    {
      assert |sections[k].items[i].href| > |BasePath|;
    }
  }

  /** Where a section header's click leads: the section's first item, when
      there is a section with that label and it has items. */
  function FirstItemHref(sections: seq<NavSection>, name: string): (r: Option<string>)
    ensures r.Some? ==> exists k :: (0 <= k < |sections| && sections[k].sectionLabel == name
      && |sections[k].items| > 0 && r.value == sections[k].items[0].href)
    ensures (forall k :: 0 <= k < |sections| ==> sections[k].sectionLabel != name) ==> r.None?
  {
    match Find(sections, (s: NavSection) => s.sectionLabel == name)
    case Some(s) => if |s.items| > 0 then Some(s.items[0].href) else None
    case None => None
  }

  /** In a well-formed list a header leads to its own section's first item,
      or nowhere when the section is empty. */
  lemma {:induction false} FirstItemHrefOfSection(sections: seq<NavSection>, k: nat)
    requires WellFormed(sections) && k < |sections|
    ensures FirstItemHref(sections, sections[k].sectionLabel)
      == if |sections[k].items| > 0 then Some(sections[k].items[0].href) else None
  {
    FindSingle(sections, (s: NavSection) => s.sectionLabel == sections[k].sectionLabel, k);
  }

  /** At most one section of a well-formed list is open; with no manual
      choice, or a manual choice naming a section, exactly one is. */
  lemma {:induction false} OneSectionOpen(sections: seq<NavSection>, path: string, manuallyOpen: Option<string>)
    requires WellFormed(sections)
    ensures var open := OpenSectionLabel(manuallyOpen, DerivedLabel(sections, path));
      forall j, k :: (0 <= j < |sections| && 0 <= k < |sections|
        && IsSectionOpen(open, sections[j].sectionLabel) && IsSectionOpen(open, sections[k].sectionLabel)) ==> j == k
    ensures var open := OpenSectionLabel(manuallyOpen, DerivedLabel(sections, path));
      |sections| > 0 && (manuallyOpen.None? || exists k :: 0 <= k < |sections| && manuallyOpen == Some(sections[k].sectionLabel)) ==>
        exists k :: 0 <= k < |sections| && IsSectionOpen(open, sections[k].sectionLabel)
  {
  }

  /** The hook's state. */
  class NavController {
    var manuallyOpen: Option<string>

    constructor()
      ensures manuallyOpen.None?
    {
      manuallyOpen := None;
    }

    /** `isSectionOpen` on the current path. */
    predicate IsOpen(sections: seq<NavSection>, path: string, name: string)
      reads this
    {
      IsSectionOpen(OpenSectionLabel(manuallyOpen, DerivedLabel(sections, path)), name)
    }

    /** `handleSectionClick`: returns where the router is sent, if anywhere.
        The clicked section is open afterwards on every path, a second click
        included: there is no toggle. */
    method HandleSectionClick(sections: seq<NavSection>, name: string) returns (navigateTo: Option<string>)
      modifies this
      ensures navigateTo == FirstItemHref(sections, name)
      ensures manuallyOpen == Some(name)
      ensures forall path :: IsOpen(sections, path, name)
    {
      var section := Find(sections, (s: NavSection) => s.sectionLabel == name);
      navigateTo := None;
      if section.Some? && |section.value.items| > 0 {
        navigateTo := Some(section.value.items[0].href);
      }
      manuallyOpen := Some(name);
    }
  }
}
