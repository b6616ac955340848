/** The automation hub's navigation: its sections, their items, and the
    lookup of an item by section and item slug. */
module Navigation {
  import opened Wrappers
  import opened Strings
  import opened Lookup

  datatype NavItem = NavItem(title: string, description: string, slug: string, href: string)

  /** A sidebar section; `sectionLabel` is the section's `label`. */
  datatype NavSection = NavSection(sectionLabel: string, slug: string, items: seq<NavItem>)

  const BasePath := "/automation"

  /** The items of `automationNavSections`, in order. */
  const LogsItem := NavItem("모니터링 · 로그", "실패 시나리오와 알림", "logs", BasePath + "/operations/logs")
  const NotificationsItem := NavItem("알림 발송", "메일 · SMS 스케줄링 및 템플릿 관리", "notifications",
    BasePath + "/operations/notifications")
  const AttendanceItem := NavItem("자동 출석 관리", "QR 코드 · GPS 기반 출석 체크 및 관리", "attendance",
    BasePath + "/operations/attendance")
  const SchedulingItem := NavItem("강의 일정 스케줄링", "강의 일정 자동 매칭 및 충돌 관리", "scheduling",
    BasePath + "/operations/scheduling")
  const MembersItem := NavItem("회원 관리", "학생 · 강의자 · 봉사자 관리", "members", BasePath + "/platform/members")
  const ExpensesItem := NavItem("비용 관리", "강의자 비용 신청 및 관리", "expenses", BasePath + "/platform/expenses")
  const ApprovalItem := NavItem("강의 신청 승인", "자동 승인 워크플로우 및 대기자 관리", "approval",
    BasePath + "/platform/approval")

  const Operations := NavSection("실행 관리", "operations", [LogsItem, NotificationsItem, AttendanceItem, SchedulingItem])
  const Platform := NavSection("연동 · 설정", "platform", [MembersItem, ExpensesItem, ApprovalItem])

  /** `automationNavSections`. */
  const Sections: seq<NavSection> := [Operations, Platform]

  /** An item's page lies under its section's path. */
  predicate HrefFollows(sectionSlug: string, item: NavItem) {
    item.href == BasePath + "/" + sectionSlug + "/" + item.slug
  }

  predicate SectionWellFormed(s: NavSection) {
    && '/' !in s.slug
    && (forall i :: 0 <= i < |s.items| ==> HrefFollows(s.slug, s.items[i]))
    && (forall i, j :: 0 <= i < j < |s.items| ==> s.items[i].slug != s.items[j].slug)
  }

  /** Every href is built from the section and item slugs, section slugs
      (free of "/") and labels are distinct, and item slugs are distinct
      within their section. */
  predicate WellFormed(sections: seq<NavSection>) {
    && (forall k :: 0 <= k < |sections| ==> SectionWellFormed(sections[k]))
    && (forall j, k :: 0 <= j < k < |sections| ==> sections[j].slug != sections[k].slug)
    && (forall j, k :: 0 <= j < k < |sections| ==> sections[j].sectionLabel != sections[k].sectionLabel)
  }

  lemma {:induction false} SectionsWellFormed()
    ensures WellFormed(Sections)
  {
    OperationsWellFormed();
    PlatformWellFormed();
    assert Operations.slug[0] == 'o' && Platform.slug[0] == 'p';
    assert Operations.sectionLabel[0] == '실' && Platform.sectionLabel[0] == '연';
  }

  lemma {:induction false} OperationsWellFormed()
    ensures SectionWellFormed(Operations)
  {
    OperationsHrefs();
    assert '/' !in Operations.slug;
    assert LogsItem.slug[0] == 'l' && NotificationsItem.slug[0] == 'n';
    assert AttendanceItem.slug[0] == 'a' && SchedulingItem.slug[0] == 's';
  }

  lemma {:induction false} OperationsHrefs()
    ensures HrefFollows("operations", LogsItem) && HrefFollows("operations", NotificationsItem)
    ensures HrefFollows("operations", AttendanceItem) && HrefFollows("operations", SchedulingItem)
  {
    LogsHref();
    NotificationsHref();
    AttendanceHref();
    SchedulingHref();
  }

  lemma {:induction false} LogsHref() ensures HrefFollows("operations", LogsItem) {}
  lemma {:induction false} NotificationsHref() ensures HrefFollows("operations", NotificationsItem) {}
  lemma {:induction false} AttendanceHref() ensures HrefFollows("operations", AttendanceItem) {}
  lemma {:induction false} SchedulingHref() ensures HrefFollows("operations", SchedulingItem) {}

  lemma {:induction false} PlatformWellFormed()
    ensures SectionWellFormed(Platform)
  {
    PlatformHrefs();
    assert '/' !in Platform.slug;
    assert MembersItem.slug[0] == 'm' && ExpensesItem.slug[0] == 'e' && ApprovalItem.slug[0] == 'a';
  }

  lemma {:induction false} PlatformHrefs()
    ensures HrefFollows("platform", MembersItem) && HrefFollows("platform", ExpensesItem)
    ensures HrefFollows("platform", ApprovalItem)
  {
    MembersHref();
    ExpensesHref();
    ApprovalHref();
  }

  lemma {:induction false} MembersHref() ensures HrefFollows("platform", MembersItem) {}
  lemma {:induction false} ExpensesHref() ensures HrefFollows("platform", ExpensesItem) {}
  lemma {:induction false} ApprovalHref() ensures HrefFollows("platform", ApprovalItem) {}

  /** Two item pages that are both prefixes of one path lie under the same
      section slug. */
  lemma {:induction false} SameSectionFromPath(a: string, x: string, b: string, y: string, path: string)
    requires '/' !in a && '/' !in b
    requires StartsWith(path, BasePath + "/" + a + "/" + x) && StartsWith(path, BasePath + "/" + b + "/" + y)
    ensures a == b
  {
    var n := |BasePath| + 1;
    var rest := path[n..];
    PrefixAfterBase(a, x, path);
    PrefixAfterBase(b, y, path);
    IndexOfCharAtJoin(a, '/', x);
    IndexOfCharAtJoin(b, '/', y);
    IndexOfCharPrefix(a + "/" + x, rest, '/');
    IndexOfCharPrefix(b + "/" + y, rest, '/');
    assert a == (a + "/" + x)[..|a|] == rest[..|a|];
    assert b == (b + "/" + y)[..|b|] == rest[..|b|];
  }

  lemma {:induction false} PrefixAfterBase(a: string, x: string, path: string)
    requires StartsWith(path, BasePath + "/" + a + "/" + x)
    ensures StartsWith(path[|BasePath| + 1..], a + "/" + x)
  {
    var h := BasePath + "/" + a + "/" + x;
    var n := |BasePath| + 1;
    assert h == (BasePath + "/") + (a + "/" + x);
    assert path[n..][..|a + "/" + x|] == h[n..];
  }

  function FindSection(sections: seq<NavSection>, slug: string): (r: Option<NavSection>)
    ensures r.Some? ==> r.value in sections && r.value.slug == slug
    ensures r.None? <==> forall k :: 0 <= k < |sections| ==> sections[k].slug != slug
  {
    Find(sections, (s: NavSection) => s.slug == slug)
  }

  function FindItem(items: seq<NavItem>, slug: string): (r: Option<NavItem>)
    ensures r.Some? ==> r.value in items && r.value.slug == slug
    ensures r.None? <==> forall i :: 0 <= i < |items| ==> items[i].slug != slug
  {
    Find(items, (it: NavItem) => it.slug == slug)
  }

  /** `getAutomationNavItem`: the item is looked up only in the first section
      with that slug. */
  function GetNavItem(sections: seq<NavSection>, sectionSlug: string, itemSlug: string): (r: Option<NavItem>)
    ensures r.Some? ==> (r.value.slug == itemSlug
      && exists k :: 0 <= k < |sections| && sections[k].slug == sectionSlug && r.value in sections[k].items)
    ensures (forall k :: 0 <= k < |sections| ==> sections[k].slug != sectionSlug) ==> r.None?
  {
    match FindSection(sections, sectionSlug)
    case None => None
    case Some(s) => FindItem(s.items, itemSlug)
  }

  /** In a well-formed list every item is found from its own section and item
      slugs, and the one found for a section slug comes from that section. */
  lemma {:induction false} GetNavItemRoundTrip(sections: seq<NavSection>, k: nat, i: nat)
    requires WellFormed(sections) && k < |sections| && i < |sections[k].items|
    ensures GetNavItem(sections, sections[k].slug, sections[k].items[i].slug) == Some(sections[k].items[i])
  {
    var s := sections[k];
    FindSingle(sections, (t: NavSection) => t.slug == s.slug, k);
    FindSingle(s.items, (it: NavItem) => it.slug == s.items[i].slug, i);
  }

  /** A lookup names an item of the section with that slug, and only one of
      its items: an item slug of another section is not found there. */
  lemma {:induction false} GetNavItemStaysInSection(sections: seq<NavSection>, k: nat, itemSlug: string)
    requires WellFormed(sections) && k < |sections|
    ensures GetNavItem(sections, sections[k].slug, itemSlug).Some?
      <==> exists i :: 0 <= i < |sections[k].items| && sections[k].items[i].slug == itemSlug
    ensures GetNavItem(sections, sections[k].slug, itemSlug).Some? ==>
      GetNavItem(sections, sections[k].slug, itemSlug).value in sections[k].items
  {
    FindSingle(sections, (t: NavSection) => t.slug == sections[k].slug, k);
  }

  /** "logs" is an item of the operations section only: under "platform" it
      is not found, and neither is anything under a section that does not
      exist. */
  lemma {:induction false} LogsOnlyUnderOperations(itemSlug: string)
    ensures GetNavItem(Sections, "operations", "logs") == Some(LogsItem)
    ensures GetNavItem(Sections, "platform", "logs") == None
    ensures GetNavItem(Sections, "reports", itemSlug) == None
  {
    SectionsWellFormed();
    GetNavItemRoundTrip(Sections, 0, 0);
    LogsNotUnderPlatform();
    NoReportsSection();
  }

  lemma {:induction false} LogsNotUnderPlatform()
    ensures GetNavItem(Sections, "platform", "logs") == None
  {
    SectionsWellFormed();
    GetNavItemStaysInSection(Sections, 1, "logs");
    assert MembersItem.slug[0] == 'm' && ExpensesItem.slug[0] == 'e' && ApprovalItem.slug[0] == 'a';
  }

  lemma {:induction false} NoReportsSection()
    ensures forall k :: 0 <= k < |Sections| ==> Sections[k].slug != "reports"
  {
    assert Operations.slug[0] == 'o' && Platform.slug[0] == 'p';
  }
}
