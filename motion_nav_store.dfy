/** The store that remembers which sections of the motion navigation list
    are expanded. */
module MotionNavStore {
  import opened Sorting

  /** `openSections[id] ?? false`: a section never seen is closed. */
  function IsOpen(m: map<string, bool>, id: string): bool {
    id in m && m[id]
  }

  /** `nextOpenSections`: exactly the given ids, each as open as it was. */
  function Reinitialized(ids: seq<string>, m: map<string, bool>): (r: map<string, bool>)
    ensures r.Keys == set id | id in ids
    ensures forall id :: id in r ==> r[id] == IsOpen(m, id)
  {
    map id | id in ids :: IsOpen(m, id)
  }

  /** The `changed` flag once the loop and the key-count test are done: some
      id is new, or the number of keys differs from the number of ids. */
  predicate NeedsReinit(ids: seq<string>, m: map<string, bool>) {
    (exists j :: 0 <= j < |ids| && ids[j] !in m) || |m.Keys| != |ids|
  }

  /** The state after `initializeSections(ids)`. */
  function Initialize(ids: seq<string>, m: map<string, bool>): map<string, bool> {
    if NeedsReinit(ids, m) then Reinitialized(ids, m) else m
  }

  /** The state after `toggleSection(id)`. */
  function Toggle(m: map<string, bool>, id: string): (r: map<string, bool>)
    ensures IsOpen(r, id) == !IsOpen(m, id) && id in r
    ensures forall k :: k != id ==> (k in r <==> k in m) && (k in m ==> r[k] == m[k])
  {
    m[id := !IsOpen(m, id)]
  }

  /** The state after `setSectionOpen(id, open)`. */
  function SetOpen(m: map<string, bool>, id: string, open: bool): (r: map<string, bool>)
    ensures id in r && r[id] == open
    ensures forall k :: k != id ==> (k in r <==> k in m) && (k in m ==> r[k] == m[k])
  {
    m[id := open]
  }

  class NavStore {
    var openSections: map<string, bool>

    constructor()
      ensures openSections == map[]
    {
      openSections := map[];
    }

    /** `initializeSections`: fill a new map and a `changed` flag id by id,
        then keep the old state unless something changed. */
    method InitializeSections(ids: seq<string>)
      modifies this
      ensures openSections == Initialize(ids, old(openSections))
    {
      var next: map<string, bool> := map[];
      var changed := false;
      var i := 0;
      while i < |ids|
        invariant 0 <= i <= |ids|
        invariant next == Reinitialized(ids[..i], openSections)
        invariant changed <==> exists j :: 0 <= j < i && ids[j] !in openSections
      {
        var id := ids[i];
        if IsOpen(openSections, id) {
          next := next[id := true];
        } else {
          next := next[id := false];
          if id !in openSections {
            changed := true;
          }
        }
        assert forall x :: x in ids[..i + 1] <==> x in ids[..i] || x == id by {
          assert ids[..i + 1] == ids[..i] + [id];
        }
        i := i + 1;
      }
      assert ids[..i] == ids;
      if |openSections.Keys| != |ids| {
        changed := true;
      }
      if changed {
        openSections := next;
      }
    }

    method ToggleSection(id: string)
      modifies this
      ensures openSections == Toggle(old(openSections), id)
    {
      openSections := openSections[id := !IsOpen(openSections, id)];
    }

    method SetSectionOpen(id: string, open: bool)
      modifies this
      ensures openSections == SetOpen(old(openSections), id, open)
    {
      openSections := openSections[id := open];
    }
  }

  /** Toggling twice restores the section's state, now stored explicitly. */
  lemma {:induction false} ToggleTwice(m: map<string, bool>, id: string)
    ensures Toggle(Toggle(m, id), id) == m[id := IsOpen(m, id)]
    ensures IsOpen(Toggle(Toggle(m, id), id), id) == IsOpen(m, id)
  {
  }

  /** Setting a section twice is the same as setting it once. */
  lemma {:induction false} SetOpenIdempotent(m: map<string, bool>, id: string, open: bool)
    ensures SetOpen(SetOpen(m, id, open), id, open) == SetOpen(m, id, open)
  {
  }

  /** When the state is replaced, it holds exactly the given ids, and an id
      is open iff it was open before. */
  lemma {:induction false} InitializeReplaces(ids: seq<string>, m: map<string, bool>)
    requires NeedsReinit(ids, m)
    ensures Initialize(ids, m).Keys == set id | id in ids
    ensures forall id :: id in ids ==> Initialize(ids, m)[id] == IsOpen(m, id)
  {
  }

  /** Initialization keeps every id's open state. */
  lemma {:induction false} InitializeKeepsOpenState(ids: seq<string>, m: map<string, bool>)
    ensures forall id :: id in ids ==> IsOpen(Initialize(ids, m), id) == IsOpen(m, id)
  {
  }

  /** Initializing twice gives the state of initializing once. */
  lemma {:induction false} InitializeIdempotent(ids: seq<string>, m: map<string, bool>)
    ensures Initialize(ids, Initialize(ids, m)) == Initialize(ids, m)
  {
    var r := Initialize(ids, m);
    if NeedsReinit(ids, m) && NeedsReinit(ids, r) {
      assert Reinitialized(ids, r) == r;
    }
  }

  /** With ids free of repetitions, an unchanged state already has exactly
      those keys. */
  lemma {:induction false} KeptStateHasExactlyIds(ids: seq<string>, m: map<string, bool>)
    requires Distinct(ids) && !NeedsReinit(ids, m)
    ensures m.Keys == set id | id in ids
  {
    var s := set id | id in ids;
    DistinctCard(ids);
    assert s <= m.Keys by {
      forall id | id in s ensures id in m {
        var j :| 0 <= j < |ids| && ids[j] == id;
      }
    }
    SubsetOfSameSize(s, m.Keys);
  }

  /** With a repeated id the key count can match by accident: a stale key
      outside the ids then survives initialization. */
  lemma {:induction false} RepeatedIdKeepsStaleKey()
    ensures var m := map["a" := true, "b" := false];
      Initialize(["a", "a"], m) == m && "b" !in ["a", "a"]
  {
    var m := map["a" := true, "b" := false];
    assert m.Keys == {"a", "b"};
    assert |m.Keys| == 2;
  }
}
