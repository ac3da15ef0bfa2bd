/** The renderer's projection of the revisioned tab registry (src/tabModel.ts) and the
    registry it follows (src-tauri/src/tabs.rs). */
module TabRegistry {
  import opened Basics

  type TabId = string

  /** A tab record: its id and its other fields by name. */
  datatype Tab = Tab(id: TabId, fields: map<string, string>)

  datatype Projection = Projection(revision: Option<nat>, tabs: seq<Tab>)

  datatype Event =
    | Snapshot(revision: nat, tabs: seq<Tab>)
    | Opened(revision: nat, tabId: TabId, tab: Tab)
    | Changed(revision: nat, tabId: TabId, tab: Tab)
    | Removed(revision: nat, tabId: TabId, requested: bool)

  datatype ApplyResult = ApplyResult(projection: Projection, needsSnapshot: bool, removed: Option<(TabId, bool)>)

  // ---------- Applying one event ----------

  /** The first index whose tab has the id, or the length when none has. */
  function FindIndex(tabs: seq<Tab>, id: TabId): (k: nat)
    ensures k <= |tabs|
    ensures k < |tabs| ==> tabs[k].id == id
    ensures forall j :: 0 <= j < k ==> tabs[j].id != id
  {
    if tabs == [] || tabs[0].id == id then 0 else 1 + FindIndex(tabs[1..], id)
  }

  /** What a lookup table built from the list in order holds for the id: the last such tab. */
  function LastById(tabs: seq<Tab>, id: TabId): (found: Option<Tab>)
  {
    if tabs == [] then None
    else if tabs[|tabs| - 1].id == id then Some(tabs[|tabs| - 1])
    else LastById(tabs[..|tabs| - 1], id)
  }

  function Without(tabs: seq<Tab>, id: TabId): (rest: seq<Tab>)
  {
    if tabs == [] then [] else (if tabs[0].id != id then [tabs[0]] else []) + Without(tabs[1..], id)
  }

  /** The spread merge: every field of the descriptor wins, the others survive. */
  function Merge(before: Option<Tab>, descriptor: Tab): Tab
  {
    if before.None? then descriptor else Tab(descriptor.id, before.value.fields + descriptor.fields)
  }

  function Put(tabs: seq<Tab>, id: TabId, descriptor: Tab): seq<Tab>
  {
    var k := FindIndex(tabs, id);
    if k == |tabs| then tabs + [Merge(None, descriptor)] else tabs[k := Merge(Some(tabs[k]), descriptor)]
  }

  function MergeAll(before: seq<Tab>, tabs: seq<Tab>): (after: seq<Tab>)
    ensures |after| == |tabs|
    ensures forall k :: 0 <= k < |tabs| ==> after[k] == Merge(LastById(before, tabs[k].id), tabs[k])
  {
    seq(|tabs|, k requires 0 <= k < |tabs| => Merge(LastById(before, tabs[k].id), tabs[k]))
  }

  /** applyTabRegistryEvent. */
  function ApplyEvent(p: Projection, e: Event): ApplyResult
  {
    if p.revision.Some? && e.revision <= p.revision.value then
      ApplyResult(p, false, None)
    else if !e.Snapshot? && (p.revision.None? || e.revision != p.revision.value + 1) then
      ApplyResult(p, true, None)
    else match e
      case Snapshot(r, tabs) => ApplyResult(Projection(Some(r), MergeAll(p.tabs, tabs)), false, None)
      case Removed(r, id, requested) =>
        ApplyResult(Projection(Some(r), Without(p.tabs, id)), false, Some((id, requested)))
      case Opened(r, id, tab) => ApplyResult(Projection(Some(r), Put(p.tabs, id, tab)), false, None)
      case Changed(r, id, tab) =>
        if FindIndex(p.tabs, id) == |p.tabs| then ApplyResult(p, true, None)
        else ApplyResult(Projection(Some(r), Put(p.tabs, id, tab)), false, None)
  }

  // ---------- The registry: one list per revision ----------

  datatype Change = Open(tab: Tab) | Alter(tab: Tab) | Drop(id: TabId, requested: bool)

  function ChangedList(tabs: seq<Tab>, c: Change): seq<Tab>
  {
    match c
    case Open(tab) => tabs + [tab]
    case Alter(tab) =>
      var k := FindIndex(tabs, tab.id);
      if k == |tabs| then tabs else tabs[k := tab]
    case Drop(id, _) => Without(tabs, id)
  }

  /** The registry's list after its first r changes. */
  function ListAt(changes: seq<Change>, r: nat): seq<Tab>
    requires r <= |changes|
  {
    if r == 0 then [] else ChangedList(ListAt(changes, r - 1), changes[r - 1])
  }

  function EventOf(r: nat, c: Change): Event
  {
    match c
    case Open(tab) => Opened(r, tab.id, tab)
    case Alter(tab) => Changed(r, tab.id, tab)
    case Drop(id, requested) => Removed(r, id, requested)
  }

  /** A descriptor carries exactly the registry's own fields. */
  ghost predicate Described(tab: Tab, owned: set<string>)
  {
    tab.fields.Keys == owned
  }

  ghost predicate DistinctIds(tabs: seq<Tab>)
  {
    forall i, j :: 0 <= i < j < |tabs| ==> tabs[i].id != tabs[j].id
  }

  ghost predicate CleanList(tabs: seq<Tab>, owned: set<string>)
  {
    DistinctIds(tabs) && forall k :: 0 <= k < |tabs| ==> Described(tabs[k], owned)
  }

  /** What the registry may do next: open under a fresh id, with full descriptors. */
  ghost predicate Allowed(tabs: seq<Tab>, c: Change, owned: set<string>)
  {
    match c
    case Open(tab) => Described(tab, owned) && FindIndex(tabs, tab.id) == |tabs|
    case Alter(tab) => Described(tab, owned)
    case Drop(_, _) => true
  }

  ghost predicate AllowedAt(changes: seq<Change>, r: nat, owned: set<string>)
  {
    r < |changes| && Allowed(ListAt(changes, r), changes[r], owned)
  }

  ghost predicate AllowedRun(changes: seq<Change>, owned: set<string>)
  {
    forall r :: 0 <= r < |changes| ==> AllowedAt(changes, r, owned)
  }

  /** The event tells the truth about a revision the registry has reached. */
  ghost predicate Genuine(changes: seq<Change>, e: Event)
  {
    e.revision <= |changes| &&
    if e.Snapshot? then e.tabs == ListAt(changes, e.revision)
    else 0 < e.revision && e == EventOf(e.revision, changes[e.revision - 1])
  }

  /** Same tabs in the same order, and every registry field has the registry's value. */
  ghost predicate Mirrors(shown: seq<Tab>, truth: seq<Tab>)
  {
    |shown| == |truth| &&
    forall k :: 0 <= k < |truth| ==> Mirror(shown[k], truth[k])
  }

  ghost predicate Mirror(shown: Tab, truth: Tab)
  {
    shown.id == truth.id && forall f :: f in truth.fields ==> f in shown.fields && shown.fields[f] == truth.fields[f]
  }

  /** The projection shows the registry at its own revision. */
  ghost predicate Faithful(changes: seq<Change>, p: Projection)
  {
    p.revision.Some? ==> p.revision.value <= |changes| && Mirrors(p.tabs, ListAt(changes, p.revision.value))
  }

  lemma {:induction false} WithoutFacts(tabs: seq<Tab>, id: TabId)
    ensures forall t :: t in Without(tabs, id) <==> t in tabs && t.id != id
    ensures DistinctIds(tabs) ==> DistinctIds(Without(tabs, id))
  {
    if tabs != [] {
      WithoutFacts(tabs[1..], id);
    }
  }

  lemma {:induction false} WithoutMirrors(shown: seq<Tab>, truth: seq<Tab>, id: TabId)
    requires Mirrors(shown, truth)
    ensures Mirrors(Without(shown, id), Without(truth, id))
  {
    if truth != [] {
      assert Mirror(shown[0], truth[0]);
      WithoutMirrors(shown[1..], truth[1..], id);
    }
  }

  lemma {:induction false} LastByIdHasId(tabs: seq<Tab>, id: TabId)
    ensures LastById(tabs, id).Some? ==> LastById(tabs, id).value in tabs && LastById(tabs, id).value.id == id
    ensures LastById(tabs, id).None? ==> forall t :: t in tabs ==> t.id != id
  {
    if tabs != [] && tabs[|tabs| - 1].id != id {
      LastByIdHasId(tabs[..|tabs| - 1], id);
      assert tabs == tabs[..|tabs| - 1] + [tabs[|tabs| - 1]];
    }
  }

  /** Every list the registry reaches has distinct ids and full descriptors. */
  lemma {:induction false} ListIsClean(changes: seq<Change>, r: nat, owned: set<string>)
    requires r <= |changes| && AllowedRun(changes, owned)
    ensures CleanList(ListAt(changes, r), owned)
  {
    if r > 0 {
      ListIsClean(changes, r - 1, owned);
      var tabs := ListAt(changes, r - 1);
      var c := changes[r - 1];
      assert AllowedAt(changes, r - 1, owned);
      if c.Drop? {
        WithoutFacts(tabs, c.id);
        forall k | 0 <= k < |Without(tabs, c.id)| ensures Described(Without(tabs, c.id)[k], owned) {
          assert Without(tabs, c.id)[k] in tabs;
        }
      }
    }
  }

  /** Later changes do not rewrite earlier revisions. */
  lemma {:induction false} ListAtStable(changes: seq<Change>, c: Change, r: nat)
    requires r <= |changes|
    ensures ListAt(changes + [c], r) == ListAt(changes, r)
  {
    if r > 0 {
      ListAtStable(changes, c, r - 1);
    }
  }

  /** A list with the registry's fields laid over whatever was shown still shows the registry. */
  lemma {:induction false} MergeAllMirrors(before: seq<Tab>, truth: seq<Tab>)
    ensures Mirrors(MergeAll(before, truth), truth)
  {
    forall k | 0 <= k < |truth| ensures Mirror(MergeAll(before, truth)[k], truth[k]) {
      LastByIdHasId(before, truth[k].id);
    }
  }

  /** An event either moves the revision to its own, past the old one, or changes nothing; it asks for a snapshot
      exactly when it changes nothing although the revision has not reached it. */
  lemma {:induction false} ApplyMoves(p: Projection, e: Event)
    ensures var applied := ApplyEvent(p, e);
            && (applied.projection != p ==>
                  applied.projection.revision == Some(e.revision) && (p.revision.Some? ==> p.revision.value < e.revision))
            && (applied.needsSnapshot <==> applied.projection.revision.None? || applied.projection.revision.value < e.revision)
            && (applied.needsSnapshot ==> applied.projection == p && !e.Snapshot?)
  {
  }

  /** One genuine event, whenever it is delivered, leaves the projection showing the registry at its revision. */
  lemma {:induction false} ApplyIsFaithful(changes: seq<Change>, p: Projection, e: Event, owned: set<string>)
    requires AllowedRun(changes, owned) && Faithful(changes, p) && Genuine(changes, e)
    ensures Faithful(changes, ApplyEvent(p, e).projection)
  {
    if p.revision.Some? && e.revision <= p.revision.value {
      assert ApplyEvent(p, e).projection == p;
    } else if e.Snapshot? {
      MergeAllMirrors(p.tabs, e.tabs);
    } else if ApplyEvent(p, e).needsSnapshot {
      ApplyMoves(p, e);
    } else {
      ApplyChange(changes, p, e.revision, owned);
    }
  }

  lemma {:induction false} ApplyChange(changes: seq<Change>, p: Projection, r: nat, owned: set<string>)
    requires 0 < r <= |changes| && AllowedRun(changes, owned)
    requires p.revision == Some(r - 1) && Mirrors(p.tabs, ListAt(changes, r - 1))
    requires !ApplyEvent(p, EventOf(r, changes[r - 1])).needsSnapshot
    ensures Mirrors(ApplyEvent(p, EventOf(r, changes[r - 1])).projection.tabs, ListAt(changes, r))
  {
    var before, c := ListAt(changes, r - 1), changes[r - 1];
    assert AllowedAt(changes, r - 1, owned);
    ListIsClean(changes, r - 1, owned);
    if c.Drop? {
      WithoutMirrors(p.tabs, before, c.id);
    } else {
    }
  }

  ghost predicate Lists(tabs: seq<Tab>, id: TabId)
  {
    exists t :: t in tabs && t.id == id
  }

  /** A change event is about a tab that the registry listed before it. */
  ghost predicate AboutListed(changes: seq<Change>, e: Event)
  {
    e.Changed? ==> 0 < e.revision <= |changes| && Lists(ListAt(changes, e.revision - 1), e.tabId)
  }

  /** The projection can follow the event: a snapshot, or the very next event, about a listed tab. */
  ghost predicate Follows(changes: seq<Change>, p: Projection, e: Event)
  {
    e.Snapshot? || (p.revision.Some? && e.revision == p.revision.value + 1 && AboutListed(changes, e))
  }

  ghost predicate Passed(p: Projection, e: Event)
  {
    p.revision.Some? && e.revision <= p.revision.value
  }

  /** The projection keeps up with the registry: an event it has passed changes nothing, one it can follow takes it to
      the registry's list at the event's revision, and for any other a snapshot is needed. */
  lemma {:induction false} AppliesExactly(changes: seq<Change>, p: Projection, e: Event, owned: set<string>)
    requires AllowedRun(changes, owned) && Faithful(changes, p) && Genuine(changes, e)
    ensures var applied := ApplyEvent(p, e);
            && (applied.needsSnapshot <==> !Passed(p, e) && !Follows(changes, p, e))
            && (Passed(p, e) || !Follows(changes, p, e) ==> applied.projection == p)
            && (!Passed(p, e) && Follows(changes, p, e) ==>
                  applied.projection.revision == Some(e.revision)
                  && Mirrors(applied.projection.tabs, ListAt(changes, e.revision)))
  {
    hide Mirrors;
    ApplyIsFaithful(changes, p, e, owned);
    if e.Changed? && p.revision == Some(e.revision - 1) {
      ListedAlike(p.tabs, ListAt(changes, e.revision - 1), e.tabId);
    }
  }

  lemma {:induction false} ListedAlike(shown: seq<Tab>, truth: seq<Tab>, id: TabId)
    requires Mirrors(shown, truth)
    ensures FindIndex(shown, id) < |shown| <==> Lists(truth, id)
  {
    if FindIndex(shown, id) < |shown| {
      assert Mirror(shown[FindIndex(shown, id)], truth[FindIndex(shown, id)]);
    }
    if Lists(truth, id) {
      var k :| 0 <= k < |truth| && truth[k].id == id;
      assert Mirror(shown[k], truth[k]);
    }
  }

  /** A removal is reported, with whether it was asked for, exactly when it is applied. */
  lemma {:induction false} RemovalsAreReported(p: Projection, e: Event, tabId: TabId, requested: bool)
    ensures ApplyEvent(p, e).removed == Some((tabId, requested)) <==>
            ApplyEvent(p, e).projection != p && e == Removed(e.revision, tabId, requested)
  {
  }

  /** Renderer-only fields of a tab that stays survive every event; a tab that appears starts with none. */
  lemma {:induction false} RendererFieldsSurvive(p: Projection, e: Event, owned: set<string>, t: Tab, f: string)
    requires DistinctIds(p.tabs) && f !in owned
    requires e.Snapshot? ==> forall k :: 0 <= k < |e.tabs| ==> Described(e.tabs[k], owned)
    requires e.Opened? || e.Changed? ==> Described(e.tab, owned) && e.tab.id == e.tabId
    requires t in ApplyEvent(p, e).projection.tabs
    ensures (forall u :: u in p.tabs ==> u.id != t.id) ==> f !in t.fields
    ensures forall u :: u in p.tabs && u.id == t.id ==>
              (f in t.fields <==> f in u.fields) && (f in u.fields ==> t.fields[f] == u.fields[f])
  {
    var applied := ApplyEvent(p, e).projection;
    var k :| 0 <= k < |applied.tabs| && applied.tabs[k] == t;
    if applied != p {
      match e
      case Snapshot(_, tabs) =>
        assert Described(tabs[k], owned);
        LastByIdHasId(p.tabs, tabs[k].id);
      case Removed(_, id, _) =>
        WithoutFacts(p.tabs, id);
      case Opened(_, id, tab) =>
      case Changed(_, id, tab) =>
    }
  }

  /** The tab's renderer-only fields are exactly those of the tab shown for it before, if there was one. */
  ghost predicate Carried(before: Option<Tab>, t: Tab, owned: set<string>)
  {
    forall f :: f !in owned ==>
      && (f in t.fields <==> before.Some? && f in before.value.fields)
      && (f in t.fields ==> t.fields[f] == before.value.fields[f])
  }

  ghost predicate CarriesOver(before: seq<Tab>, after: seq<Tab>, owned: set<string>)
  {
    forall k :: 0 <= k < |after| ==> Carried(LastById(before, after[k].id), after[k], owned)
  }

  lemma {:induction false} GenuineIsDescribed(changes: seq<Change>, e: Event, owned: set<string>)
    requires AllowedRun(changes, owned) && Genuine(changes, e)
    ensures e.Snapshot? ==> forall k :: 0 <= k < |e.tabs| ==> Described(e.tabs[k], owned)
    ensures e.Opened? || e.Changed? ==> Described(e.tab, owned) && e.tab.id == e.tabId
  {
    if e.Snapshot? {
      ListIsClean(changes, e.revision, owned);
    } else {
      assert AllowedAt(changes, e.revision - 1, owned);
    }
  }

  lemma {:induction false} MirrorsAreDistinct(shown: seq<Tab>, truth: seq<Tab>)
    requires Mirrors(shown, truth) && DistinctIds(truth)
    ensures DistinctIds(shown)
  {
    forall i, j | 0 <= i < j < |shown|
      ensures shown[i].id != shown[j].id
    {
      assert Mirror(shown[i], truth[i]) && Mirror(shown[j], truth[j]);
    }
  }

  /** Whatever genuine event moves a faithful projection, renderer-only fields are carried over. */
  lemma {:induction false} ApplyCarriesOver(changes: seq<Change>, p: Projection, e: Event, owned: set<string>)
    requires AllowedRun(changes, owned) && Faithful(changes, p) && Genuine(changes, e)
    requires ApplyEvent(p, e).projection != p
    ensures CarriesOver(p.tabs, ApplyEvent(p, e).projection.tabs, owned)
  {
    GenuineIsDescribed(changes, e, owned);
    var after := ApplyEvent(p, e).projection.tabs;
    forall k | 0 <= k < |after|
      ensures Carried(LastById(p.tabs, after[k].id), after[k], owned)
    {
      if e.Snapshot? {
        LastByIdHasId(p.tabs, after[k].id);
        assert Described(e.tabs[k], owned);
      } else {
        ListIsClean(changes, p.revision.value, owned);
        MirrorsAreDistinct(p.tabs, ListAt(changes, p.revision.value));
        TabIsCarried(p, e, owned, after[k]);
      }
    }
  }

  lemma {:induction false} TabIsCarried(p: Projection, e: Event, owned: set<string>, t: Tab)
    requires DistinctIds(p.tabs)
    requires e.Snapshot? ==> forall k :: 0 <= k < |e.tabs| ==> Described(e.tabs[k], owned)
    requires e.Opened? || e.Changed? ==> Described(e.tab, owned) && e.tab.id == e.tabId
    requires t in ApplyEvent(p, e).projection.tabs
    ensures Carried(LastById(p.tabs, t.id), t, owned)
  {
    hide ApplyEvent, DistinctIds, Described;
    LastByIdHasId(p.tabs, t.id);
    forall f | f !in owned
      ensures var before := LastById(p.tabs, t.id);
              && (f in t.fields <==> before.Some? && f in before.value.fields)
              && (f in t.fields ==> t.fields[f] == before.value.fields[f])
    {
      RendererFieldsSurvive(p, e, owned, t, f);
    }
  }
}
