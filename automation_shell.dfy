/** The automation hub's frame: the active item and header title, and the
    sidebar whose section headers toggle a manual choice. */
module AutomationShell {
  import opened Wrappers
  import opened Strings
  import opened Lookup
  import opened Navigation
  import opened AutomationNav

  /** `sections.flatMap((section) => section.items)`. */
  function Flatten(sections: seq<NavSection>): (r: seq<NavItem>)
    ensures forall k, i :: 0 <= k < |sections| && 0 <= i < |sections[k].items| ==> sections[k].items[i] in r
    ensures forall x :: x in r ==> exists k :: 0 <= k < |sections| && x in sections[k].items
    decreases |sections|
  {
    if sections == [] then []
    else
      var rest := Flatten(sections[1..]);
      assert forall k :: 1 <= k < |sections| ==> sections[k] == sections[1..][k - 1];
      sections[0].items + rest
  }

  /** `activeItem`: the first item, across the sections in order, whose page
      the path starts with. */
  function ActiveItem(sections: seq<NavSection>, path: string): Option<NavItem> {
    Find(Flatten(sections), (it: NavItem) => IsActive(path, it))
  }

  /** The header's title. */
  function HeaderTitle(sections: seq<NavSection>, path: string): string {
    match ActiveItem(sections, path)
    case Some(it) => it.title
    case None => "대시보드"
  }

  /** The active item is the first active item of the first section that has
      one: the very section the sidebar derives as open. */
  lemma {:induction false} ActiveItemInFirstActiveSection(sections: seq<NavSection>, path: string)
    ensures ActiveItem(sections, path) == match FirstActiveSection(sections, path)
      case Some(s) => Find(s.items, (it: NavItem) => IsActive(path, it))
      case None => None
    decreases |sections|
  {
    var p := (it: NavItem) => IsActive(path, it);
    if sections != [] {
      var head := sections[0];
      var tail := sections[1..];
      FindAppend(head.items, Flatten(tail), p);
      ActiveItemInFirstActiveSection(tail, path);
      FirstActiveSectionStep(sections, path);
      assert AnyMatch(head.items, p) == HasActiveItem(path, head);
    }
  }

  /** The first active section is the head when it has an active item, else
      the first active section of the rest. */
  lemma {:induction false} FirstActiveSectionStep(sections: seq<NavSection>, path: string)
    requires sections != []
    ensures FirstActiveSection(sections, path) ==
      if HasActiveItem(path, sections[0]) then Some(sections[0]) else FirstActiveSection(sections[1..], path)
  {
    var q := (s: NavSection) => HasActiveItem(path, s);
    if !HasActiveItem(path, sections[0]) {
      var r := FindIndex(sections[1..], q);
      if r.Some? {
        assert sections[1..][r.value] == sections[r.value + 1];
        FirstMatchIndex(sections, q, r.value + 1);
      }
    }
  }

  /** The title names the active item; with none active, and on the hub's
      root page in particular, it is the dashboard's. */
  lemma {:induction false} HeaderTitleShowsActiveItem(sections: seq<NavSection>, path: string)
    ensures ActiveItem(sections, path).Some? ==> (HeaderTitle(sections, path) == ActiveItem(sections, path).value.title
      && IsActive(path, ActiveItem(sections, path).value))
    ensures ActiveItem(sections, path).None? <==> forall k :: 0 <= k < |sections| ==> !HasActiveItem(path, sections[k])
    ensures ActiveItem(sections, path).None? ==> HeaderTitle(sections, path) == "대시보드"
  {
    ActiveItemInFirstActiveSection(sections, path);
  }

  /** On the page of an item, or below it, the active item belongs to that
      item's section. */
  lemma {:induction false} ActiveItemOnItemPage(sections: seq<NavSection>, k: nat, i: nat, suffix: string)
    requires WellFormed(sections) && k < |sections| && i < |sections[k].items|
    ensures var a := ActiveItem(sections, sections[k].items[i].href + suffix);
      a.Some? && a.value in sections[k].items
  {
    var path := sections[k].items[i].href + suffix;
    DerivedLabelOfItemPage(sections, k, i, suffix);
    ActiveItemInFirstActiveSection(sections, path);
  }

  lemma {:induction false} HubRootTitle(sections: seq<NavSection>)
    requires WellFormed(sections) && |sections| > 0
    ensures HeaderTitle(sections, BasePath) == "대시보드"
  {
    HubRootOpensFirstSection(sections);
    HeaderTitleShowsActiveItem(sections, BasePath);
  }

  /** The header's functional update: a second click on the same label
      clears the manual choice, any other click sets it. */
  function Toggled(prev: Option<string>, name: string): (r: Option<string>)
    ensures r == Some(name) <==> prev != Some(name)
    ensures r.None? <==> prev == Some(name)
  {
    if prev == Some(name) then None else Some(name)
  }

  /** The sidebar's state. */
  class Sidebar {
    var manuallyOpen: Option<string>

    constructor()
      ensures manuallyOpen.None?
    {
      manuallyOpen := None;
    }

    /** A click on a section header. */
    method ClickSectionHeader(name: string)
      modifies this
      ensures manuallyOpen == Toggled(old(manuallyOpen), name)
    {
      if manuallyOpen == Some(name) {
        manuallyOpen := None;
      } else {
        manuallyOpen := Some(name);
      }
    }
  }

  /** As written, no click on the header of the section holding the current
      page closes it: whatever the manual choice was, that section is open
      after the click. */
  lemma {:induction false} DerivedSectionStaysOpen(sections: seq<NavSection>, path: string, prev: Option<string>)
    requires |sections| > 0
    ensures var derived := DerivedLabel(sections, path);
      IsSectionOpen(OpenSectionLabel(Toggled(prev, derived.value), derived), derived.value)
  {
  }

  /** On the logs page, two clicks on the open "실행 관리" header leave it open
      both times. */
  lemma {:induction false} LogsPageSectionCannotClose()
    ensures var derived := DerivedLabel(Sections, LogsItem.href);
      var once := Toggled(None, Operations.sectionLabel);
      var twice := Toggled(once, Operations.sectionLabel);
      && IsSectionOpen(OpenSectionLabel(None, derived), Operations.sectionLabel)
      && IsSectionOpen(OpenSectionLabel(once, derived), Operations.sectionLabel)
      && IsSectionOpen(OpenSectionLabel(twice, derived), Operations.sectionLabel)
  {
    SectionsWellFormed();
    DerivedLabelOfItemPage(Sections, 0, 0, "");
    assert LogsItem.href + "" == LogsItem.href;
  }

  /** The evidently intended sidebar choice: follow the page, a section
      opened by hand, or everything closed by hand. */
  datatype SidebarChoice = FollowPage | Opened(name: string) | AllClosed

  function ChosenOpenLabel(choice: SidebarChoice, derived: Option<string>): Option<string> {
    match choice
    case FollowPage => derived
    case Opened(n) => Some(n)
    case AllClosed => None
  }

  /** A header click closes its section when it is open and opens it
      otherwise. */
  function CorrectedToggle(choice: SidebarChoice, derived: Option<string>, name: string): SidebarChoice {
    if IsSectionOpen(ChosenOpenLabel(choice, derived), name) then AllClosed else Opened(name)
  }

  /** With the corrected toggle a click flips its own section, the section
      of the current page included, and leaves every other section closed. */
  lemma {:induction false} CorrectedToggleFlips(choice: SidebarChoice, derived: Option<string>, name: string, other: string)
    requires other != name
    ensures var after := ChosenOpenLabel(CorrectedToggle(choice, derived, name), derived);
      IsSectionOpen(after, name) == !IsSectionOpen(ChosenOpenLabel(choice, derived), name)
      && !IsSectionOpen(after, other)
  {
  }
}
