/** createTabRegistryRecovery (src/tabModel.ts): snapshot recovery with a bounded event buffer, and every
    interleaving of it with the registry, the event transport and the snapshot loads. */
module TabRecovery {
  import opened Basics
  import opened TabRegistry

  const MAX_RECOVERY_EVENTS: nat := 1024

  /** The closure's variables, and everything handed to onProjection so far. */
  datatype Recovery = Recovery(
    current: Projection,
    pending: seq<Event>,
    overflowed: bool,
    inFlight: bool,
    published: seq<Projection>)

  // ---------- What each entry point does to the variables ----------

  function Committed(s: Recovery, e: Event): Recovery
  {
    var applied := ApplyEvent(s.current, e);
    if applied.needsSnapshot || applied.projection == s.current then s
    else s.(current := applied.projection, published := s.published + [applied.projection])
  }

  predicate CommitFails(s: Recovery, e: Event)
  {
    ApplyEvent(s.current, e).needsSnapshot
  }

  function Accepted(s: Recovery, e: Event): Recovery
  {
    if s.inFlight then
      if !s.overflowed && |s.pending| < MAX_RECOVERY_EVENTS then s.(pending := s.pending + [e])
      else s.(pending := [], overflowed := true)
    else if CommitFails(s, e) then s.(pending := s.pending + [e], inFlight := true)
    else Committed(s, e)
  }

  predicate Seen(p: Projection, e: Event)
  {
    p.revision.Some? && e.revision <= p.revision.value
  }

  /** The replay loop over the queued events; what it could not apply is pending again. */
  function Replayed(s: Recovery, queued: seq<Event>): Recovery
    decreases |queued|
  {
    if queued == [] then s
    else if Seen(s.current, queued[0]) then Replayed(s, queued[1..])
    else if CommitFails(s, queued[0]) then s.(pending := s.pending + queued)
    else Replayed(Committed(s, queued[0]), queued[1..])
  }

  /** What runs when a load resolves; inFlight stays set when the loop goes round to load again. */
  function Arrived(s: Recovery, revision: nat, tabs: seq<Tab>): Recovery
  {
    var s1 := Committed(s, Snapshot(revision, tabs));
    if s1.overflowed then s1.(pending := [], overflowed := false)
    else
      var s2 := Replayed(s1.(pending := []), s1.pending);
      s2.(inFlight := s2.pending != [])
  }

  /** The object, with the fields the closure captures. */
  class Renderer {
    var current: Projection
    var pending: seq<Event>
    var pendingOverflowed: bool
    var inFlight: bool
    var published: seq<Projection>

    ghost function State(): Recovery
      reads this
    {
      Recovery(current, pending, pendingOverflowed, inFlight, published)
    }

    constructor (initial: Projection)
      ensures State() == Recovery(initial, [], false, false, [])
    {
      current, pending, pendingOverflowed, inFlight, published := initial, [], false, false, [];
    }

    method Commit(e: Event) returns (ok: bool)
      modifies `current, `published
      ensures State() == Committed(old(State()), e)
      ensures ok == !CommitFails(old(State()), e)
    {
      var applied := ApplyEvent(current, e);
      if applied.needsSnapshot {
        return false;
      }
      if applied.projection != current {
        current := applied.projection;
        published := published + [current];
      }
      return true;
    }

    /** The result says whether the caller is handed a recovery to wait for. */
    method Accept(e: Event) returns (waits: bool)
      modifies this
      ensures State() == Accepted(old(State()), e)
      ensures waits == (old(inFlight) || CommitFails(old(State()), e))
    {
      if inFlight {
        if !pendingOverflowed && |pending| < MAX_RECOVERY_EVENTS {
          pending := pending + [e];
        } else {
          pending, pendingOverflowed := [], true;
        }
        return true;
      }
      var ok := Commit(e);
      if !ok {
        pending := pending + [e];
        Recover();
        return true;
      }
      return false;
    }

    method Recover()
      modifies `inFlight
      ensures State() == old(State()).(inFlight := true)
    {
      inFlight := true;
    }

    /** The body of the loop after its await; the result says that it loads again. */
    method SnapshotArrived(revision: nat, tabs: seq<Tab>) returns (again: bool)
      requires inFlight
      modifies this
      ensures State() == Arrived(old(State()), revision, tabs)
      ensures again == inFlight
    {
      var _ := Commit(Snapshot(revision, tabs));
      if pendingOverflowed {
        pending, pendingOverflowed := [], false;
        return true;
      }
      var queued := pending;
      pending := [];
      var gap, index := false, 0;
      ghost var start := State();
      while index < |queued| && !gap
        modifies `current, `published, `pending
        invariant index <= |queued|
        invariant !gap ==> pending == [] && Replayed(start, queued) == Replayed(State(), queued[index..])
        invariant gap ==> index < |queued| && State() == Replayed(start, queued) && pending != []
        decreases |queued| - index, !gap
      {
        var e := queued[index];
        assert queued[index..][1..] == queued[index + 1..];
        if Seen(current, e) {
          index := index + 1;
        } else {
          var ok := Commit(e);
          if ok {
            index := index + 1;
          } else {
            pending, gap := pending + queued[index..], true;
          }
        }
      }
      assert !gap ==> queued[index..] == [];
      inFlight := gap;
      return gap;
    }

    method SnapshotRejected()
      modifies `inFlight
      ensures State() == old(State()).(inFlight := false)
    {
      inFlight := false;
    }
  }

  // ---------- The registry, the transport and the renderer together ----------

  /** floor is the registry's revision when the load in flight was started; stale says that a load has been
      rejected since the last one was started; everRejected that one ever was. */
  datatype World = World(
    changes: seq<Change>,
    r: Recovery,
    floor: nat,
    accepted: set<Event>,
    stale: bool,
    everRejected: bool)

  datatype Step =
    | RegistryChange(change: Change)
    | Deliver(event: Event)
    | CallRecover
    | LoadResolves(revision: nat)
    | LoadRejects

  /** Events may be lost, late, repeated or out of order, as long as they are genuine; a load answers with a
      revision no older than its start. */
  ghost predicate Enabled(w: World, step: Step, owned: set<string>)
  {
    match step
    case RegistryChange(c) => Allowed(ListAt(w.changes, |w.changes|), c, owned)
    case Deliver(e) => Genuine(w.changes, e)
    case CallRecover => true
    case LoadResolves(revision) => w.r.inFlight && w.floor <= revision <= |w.changes|
    case LoadRejects => w.r.inFlight
  }

  function Started(w: World, r: Recovery): World
  {
    if !w.r.inFlight && r.inFlight then w.(r := r, floor := |w.changes|, stale := false) else w.(r := r)
  }

  function Next(w: World, step: Step): World
    requires step.LoadResolves? ==> step.revision <= |w.changes|
  {
    match step
    case RegistryChange(c) => w.(changes := w.changes + [c])
    case Deliver(e) => Started(w, Accepted(w.r, e)).(accepted := w.accepted + {e})
    case CallRecover => Started(w, w.r.(inFlight := true))
    case LoadResolves(revision) => w.(r := Arrived(w.r, revision, ListAt(w.changes, revision)), floor := |w.changes|)
    case LoadRejects => w.(r := w.r.(inFlight := false), stale := true, everRejected := true)
  }

  /** A renderer that has seen nothing; what it shows without a revision is its own. */
  function Start(tabs: seq<Tab>): World
  {
    World([], Recovery(Projection(None, tabs), [], false, false, []), 0, {}, false, false)
  }

  /** The world after the steps, when each was enabled in turn. */
  ghost predicate Reaches(w: World, steps: seq<Step>, owned: set<string>, end: World)
    decreases |steps|
  {
    if steps == [] then end == w
    else Enabled(w, steps[0], owned) && Reaches(Next(w, steps[0]), steps[1..], owned, end)
  }

  // ---------- Safety: what is published is the registry ----------

  ghost predicate Increasing(published: seq<Projection>)
  {
    && (forall k :: 0 <= k < |published| ==> published[k].revision.Some?)
    && forall i, j :: 0 <= i < j < |published| ==> published[i].revision.value < published[j].revision.value
  }

  ghost predicate PublishedWell(changes: seq<Change>, current: Projection, published: seq<Projection>)
  {
    && Faithful(changes, current)
    && Increasing(published)
    && (forall k :: 0 <= k < |published| ==> Faithful(changes, published[k]))
    && (current.revision.Some? ==> published != [] && published[|published| - 1] == current)
    && (current.revision.None? ==> published == [])
  }

  ghost predicate AllGenuine(changes: seq<Change>, events: seq<Event>)
  {
    forall k :: 0 <= k < |events| ==> Genuine(changes, events[k])
  }

  lemma {:induction false} CommittedWell(changes: seq<Change>, r: Recovery, e: Event, owned: set<string>)
    requires AllowedRun(changes, owned) && PublishedWell(changes, r.current, r.published) && Genuine(changes, e)
    ensures PublishedWell(changes, Committed(r, e).current, Committed(r, e).published)
  {
    ApplyMoves(r.current, e);
    ApplyIsFaithful(changes, r.current, e, owned);
  }

  lemma {:induction false} ReplayedWell(changes: seq<Change>, r: Recovery, queued: seq<Event>, owned: set<string>)
    requires AllowedRun(changes, owned) && PublishedWell(changes, r.current, r.published) && AllGenuine(changes, queued)
    requires r.pending == []
    ensures var s := Replayed(r, queued);
            PublishedWell(changes, s.current, s.published) && AllGenuine(changes, s.pending) && |s.pending| <= |queued|
    decreases |queued|
  {
    if queued != [] {
      assert Genuine(changes, queued[0]);
      assert AllGenuine(changes, queued[1..]);
      if Seen(r.current, queued[0]) {
        ReplayedWell(changes, r, queued[1..], owned);
      } else if !CommitFails(r, queued[0]) {
        CommittedWell(changes, r, queued[0], owned);
        ReplayedWell(changes, Committed(r, queued[0]), queued[1..], owned);
      }
    }
  }

  // ---------- Liveness of the record: no accepted event is lost ----------

  ghost predicate Covered(w: World, e: Event)
  {
    || Seen(w.r.current, e)
    || w.r.overflowed
    || e in w.r.pending
    || (w.r.inFlight && e.revision <= w.floor)
    || w.stale
  }

  ghost predicate Inv(w: World, owned: set<string>)
  {
    && AllowedRun(w.changes, owned)
    && PublishedWell(w.changes, w.r.current, w.r.published)
    && AllGenuine(w.changes, w.r.pending)
    && w.floor <= |w.changes|
    && (forall e :: e in w.accepted ==> Genuine(w.changes, e) && Covered(w, e))
    && (w.stale ==> w.everRejected)
    && (!w.everRejected ==> Bounded(w.r))
  }

  ghost predicate Bounded(r: Recovery)
  {
    && |r.pending| <= MAX_RECOVERY_EVENTS
    && (r.overflowed ==> r.pending == [])
    && (!r.inFlight ==> r.pending == [] && !r.overflowed)
  }

  /** Replaying loses nothing: each queued event is shown or pending again. */
  lemma {:induction false} ReplayedCovers(r: Recovery, queued: seq<Event>)
    requires r.pending == []
    ensures var s := Replayed(r, queued);
            && (forall k :: 0 <= k < |queued| ==> Seen(s.current, queued[k]) || queued[k] in s.pending)
            && (forall e :: Seen(r.current, e) ==> Seen(s.current, e))
            && |s.pending| <= |queued| && s.overflowed == r.overflowed && s.inFlight == r.inFlight
    decreases |queued|
  {
    if queued != [] {
      var e := queued[0];
      ApplyMoves(r.current, e);
      if Seen(r.current, e) {
        ReplayedCovers(r, queued[1..]);
      } else if !CommitFails(r, e) {
        ReplayedCovers(Committed(r, e), queued[1..]);
        assert Seen(Committed(r, e).current, e);
      }
      var s := Replayed(r, queued);
      forall k | 0 <= k < |queued| ensures Seen(s.current, queued[k]) || queued[k] in s.pending {
        if k > 0 { assert queued[k] == queued[1..][k - 1]; }
      }
    }
  }

  lemma {:induction false} GenuineGrows(changes: seq<Change>, c: Change, e: Event)
    requires Genuine(changes, e)
    ensures Genuine(changes + [c], e)
  {
    ListAtStable(changes, c, e.revision);
  }

  lemma {:induction false} FaithfulGrows(changes: seq<Change>, c: Change, p: Projection)
    requires Faithful(changes, p)
    ensures Faithful(changes + [c], p)
  {
    if p.revision.Some? {
      ListAtStable(changes, c, p.revision.value);
    }
  }

  lemma {:induction false} AllowedRunGrows(changes: seq<Change>, c: Change, owned: set<string>)
    requires AllowedRun(changes, owned) && Allowed(ListAt(changes, |changes|), c, owned)
    ensures AllowedRun(changes + [c], owned)
  {
    forall r | 0 <= r < |changes + [c]| ensures AllowedAt(changes + [c], r, owned) {
      assert r < |changes| ==> AllowedAt(changes, r, owned);
      ListAtStable(changes, c, r);
    }
  }

  lemma {:induction false} RegistryChangeKeeps(w: World, c: Change, owned: set<string>)
    requires Inv(w, owned) && Enabled(w, RegistryChange(c), owned)
    ensures Inv(Next(w, RegistryChange(c)), owned)
  {
    var after := Next(w, RegistryChange(c));
    AllowedRunGrows(w.changes, c, owned);
    FaithfulGrows(w.changes, c, w.r.current);
    forall k | 0 <= k < |w.r.published| ensures Faithful(after.changes, w.r.published[k]) {
      FaithfulGrows(w.changes, c, w.r.published[k]);
    }
    forall k | 0 <= k < |w.r.pending| ensures Genuine(after.changes, w.r.pending[k]) {
      GenuineGrows(w.changes, c, w.r.pending[k]);
    }
    forall e | e in w.accepted ensures Genuine(after.changes, e) && Covered(after, e) {
      GenuineGrows(w.changes, c, e);
      assert Covered(w, e);
    }
  }

  lemma {:induction false} DeliverKeeps(w: World, e: Event, owned: set<string>)
    requires Inv(w, owned) && Genuine(w.changes, e)
    ensures Inv(Next(w, Deliver(e)), owned)
  {
    hide AllowedRun, PublishedWell, Covered, Genuine, Bounded;
    var after := Next(w, Deliver(e));
    DeliverPublishes(w, e, owned);
    forall x | x in after.accepted ensures Genuine(after.changes, x) && Covered(after, x) {
      if x in w.accepted {
        assert Genuine(w.changes, x) && Covered(w, x);
      }
      DeliverCovers(w, e, x);
    }
  }

  lemma {:induction false} DeliverPublishes(w: World, e: Event, owned: set<string>)
    requires Inv(w, owned) && Genuine(w.changes, e)
    ensures var after := Next(w, Deliver(e));
            && PublishedWell(after.changes, after.r.current, after.r.published) && AllGenuine(after.changes, after.r.pending)
            && (after.stale ==> after.everRejected) && (!after.everRejected ==> Bounded(after.r))
            && after.changes == w.changes && after.floor <= |after.changes|
            && (forall x :: x in after.accepted ==> x in w.accepted || x == e)
  {
    hide AllowedRun, PublishedWell, Covered, Genuine, ApplyEvent;
    ApplyMoves(w.r.current, e);
    CommittedWell(w.changes, w.r, e, owned);
  }

  /** What was covered stays so, and the new event is. */
  lemma {:induction false} DeliverCovers(w: World, e: Event, x: Event)
    requires Genuine(w.changes, x) && ((x in w.accepted && Covered(w, x)) || x == e)
    ensures x in Next(w, Deliver(e)).accepted ==> Covered(Next(w, Deliver(e)), x)
  {
    ApplyMoves(w.r.current, e);
  }

  lemma {:induction false} LoadResolvesKeeps(w: World, revision: nat, owned: set<string>)
    requires Inv(w, owned) && Enabled(w, LoadResolves(revision), owned)
    ensures Inv(Next(w, LoadResolves(revision)), owned)
  {
    var after := Next(w, LoadResolves(revision));
    var e := Snapshot(revision, ListAt(w.changes, revision));
    ApplyMoves(w.r.current, e);
    CommittedWell(w.changes, w.r, e, owned);
    var s1 := Committed(w.r, e);
    if !s1.overflowed {
      ReplayedWell(w.changes, s1.(pending := []), s1.pending, owned);
      ReplayedCovers(s1.(pending := []), s1.pending);
    }
    assert PublishedWell(after.changes, after.r.current, after.r.published);
    forall x | x in after.accepted ensures Genuine(after.changes, x) && Covered(after, x) {
      assert Covered(w, x);
    }
  }

  lemma {:induction false} StepKeeps(w: World, step: Step, owned: set<string>)
    requires Inv(w, owned) && Enabled(w, step, owned)
    ensures Inv(Next(w, step), owned)
  {
    match step
    case RegistryChange(c) => RegistryChangeKeeps(w, c, owned);
    case Deliver(e) => DeliverKeeps(w, e, owned);
    case CallRecover =>
    case LoadResolves(revision) => LoadResolvesKeeps(w, revision, owned);
    case LoadRejects =>
  }

  lemma {:induction false} RunKeeps(w: World, steps: seq<Step>, owned: set<string>, end: World)
    requires Inv(w, owned) && Reaches(w, steps, owned, end)
    ensures Inv(end, owned)
    decreases |steps|
  {
    if steps != [] {
      StepKeeps(w, steps[0], owned);
      RunKeeps(Next(w, steps[0]), steps[1..], owned, end);
    }
  }

  // ---------- Safety: what the renderer adds is carried over ----------

  /** What was shown when the k-th projection was handed out. */
  function ShownBefore(tabs: seq<Tab>, published: seq<Projection>, k: nat): seq<Tab>
    requires k < |published|
  {
    if k == 0 then tabs else published[k - 1].tabs
  }

  ghost predicate AllCarried(tabs: seq<Tab>, published: seq<Projection>, owned: set<string>)
  {
    forall k :: 0 <= k < |published| ==> CarriesOver(ShownBefore(tabs, published, k), published[k].tabs, owned)
  }

  ghost predicate CarriedOn(tabs: seq<Tab>, r: Recovery, owned: set<string>)
  {
    AllCarried(tabs, r.published, owned) && (r.current.revision.None? ==> r.current.tabs == tabs)
  }

  lemma {:induction false} CommittedCarries(changes: seq<Change>, tabs: seq<Tab>, r: Recovery, e: Event, owned: set<string>)
    requires AllowedRun(changes, owned) && PublishedWell(changes, r.current, r.published) && Genuine(changes, e)
    requires CarriedOn(tabs, r, owned)
    ensures CarriedOn(tabs, Committed(r, e), owned)
  {
    hide ApplyEvent, CarriesOver, AllowedRun, Genuine, Faithful, Increasing;
    ApplyMoves(r.current, e);
    if Committed(r, e) != r {
      assert Faithful(changes, r.current);
      ApplyCarriesOver(changes, r.current, e, owned);
      var n, after := |r.published|, Committed(r, e).published;
      assert r.current.tabs == ShownBefore(tabs, after, n);
      forall k | 0 <= k <= n
        ensures CarriesOver(ShownBefore(tabs, after, k), after[k].tabs, owned)
      {
        assert k < n ==> CarriesOver(ShownBefore(tabs, r.published, k), r.published[k].tabs, owned);
      }
    }
  }

  lemma {:induction false} ReplayedCarries(changes: seq<Change>, tabs: seq<Tab>, r: Recovery, queued: seq<Event>, owned: set<string>)
    requires AllowedRun(changes, owned) && PublishedWell(changes, r.current, r.published) && AllGenuine(changes, queued)
    requires r.pending == [] && CarriedOn(tabs, r, owned)
    ensures CarriedOn(tabs, Replayed(r, queued), owned)
    decreases |queued|
  {
    hide AllowedRun, PublishedWell, Genuine;
    if queued != [] {
      assert Genuine(changes, queued[0]);
      assert AllGenuine(changes, queued[1..]);
      if Seen(r.current, queued[0]) {
        ReplayedCarries(changes, tabs, r, queued[1..], owned);
      } else if !CommitFails(r, queued[0]) {
        CommittedWell(changes, r, queued[0], owned);
        CommittedCarries(changes, tabs, r, queued[0], owned);
        ReplayedCarries(changes, tabs, Committed(r, queued[0]), queued[1..], owned);
      }
    }
  }

  lemma {:induction false} StepCarries(w: World, step: Step, tabs: seq<Tab>, owned: set<string>)
    requires Inv(w, owned) && Enabled(w, step, owned) && CarriedOn(tabs, w.r, owned)
    ensures CarriedOn(tabs, Next(w, step).r, owned)
  {
    hide AllowedRun, PublishedWell, AllCarried, ApplyEvent, Covered, Mirrors;
    match step
    case RegistryChange(_) =>
    case Deliver(e) => CommittedCarries(w.changes, tabs, w.r, e, owned);
    case CallRecover =>
    case LoadResolves(revision) =>
      var e := Snapshot(revision, ListAt(w.changes, revision));
      CommittedWell(w.changes, w.r, e, owned);
      CommittedCarries(w.changes, tabs, w.r, e, owned);
      var s1 := Committed(w.r, e);
      ReplayedCarries(w.changes, tabs, s1.(pending := []), s1.pending, owned);
    case LoadRejects =>
  }

  lemma {:induction false} RunCarries(w: World, steps: seq<Step>, tabs: seq<Tab>, owned: set<string>, end: World)
    requires Inv(w, owned) && Reaches(w, steps, owned, end) && CarriedOn(tabs, w.r, owned)
    ensures CarriedOn(tabs, end.r, owned)
    decreases |steps|
  {
    hide Inv, Next, CarriedOn;
    if steps != [] {
      StepKeeps(w, steps[0], owned);
      StepCarries(w, steps[0], tabs, owned);
      RunCarries(Next(w, steps[0]), steps[1..], tabs, owned, end);
    }
  }

  /** Every run: the projections handed out have strictly increasing revisions, each is the registry's list at its
      revision with the renderer-only fields of the one before it, and the one shown is the last of them. */
  lemma {:induction false} PublishedIsTheRegistry(tabs: seq<Tab>, steps: seq<Step>, owned: set<string>, end: World)
    requires Reaches(Start(tabs), steps, owned, end)
    ensures Increasing(end.r.published) && AllCarried(tabs, end.r.published, owned)
    ensures forall k :: 0 <= k < |end.r.published| ==>
              var p := end.r.published[k];
              p.revision.value <= |end.changes| && Mirrors(p.tabs, ListAt(end.changes, p.revision.value))
    ensures end.r.current.revision.Some? ==> end.r.published != [] && end.r.current == end.r.published[|end.r.published| - 1]
  {
    hide Mirrors, CarriesOver;
    RunKeeps(Start(tabs), steps, owned, end);
    RunCarries(Start(tabs), steps, tabs, owned, end);
    forall k | 0 <= k < |end.r.published|
      ensures var p := end.r.published[k];
              p.revision.value <= |end.changes| && Mirrors(p.tabs, ListAt(end.changes, p.revision.value))
    {
      assert Faithful(end.changes, end.r.published[k]);
    }
  }

  /** Every run: once nothing is in flight and no load was rejected since the last began, the projection has reached
      every accepted event, unless an overflow or leftovers from an older rejection are still waiting; until a first
      rejection nothing is left waiting and the buffer stays within its bound. */
  lemma {:induction false} NoAcceptedEventIsLost(tabs: seq<Tab>, steps: seq<Step>, owned: set<string>, end: World)
    requires Reaches(Start(tabs), steps, owned, end)
    ensures !end.r.inFlight && !end.everRejected ==>
              && (forall e :: e in end.accepted ==> Seen(end.r.current, e))
              && end.r.pending == [] && !end.r.overflowed
    ensures !end.everRejected ==> |end.r.pending| <= MAX_RECOVERY_EVENTS
    ensures !end.r.inFlight && !end.stale ==>
              forall e :: e in end.accepted ==> Seen(end.r.current, e) || e in end.r.pending || end.r.overflowed
  {
    RunKeeps(Start(tabs), steps, owned, end);
    forall e | e in end.accepted && !end.r.inFlight && !end.stale
      ensures Seen(end.r.current, e) || e in end.r.pending || end.r.overflowed
    {
      assert Covered(end, e);
    }
  }

  lemma {:induction false} ReplayNothingNew(r: Recovery, queued: seq<Event>)
    requires forall k :: 0 <= k < |queued| ==> Seen(r.current, queued[k])
    ensures Replayed(r, queued) == r
    decreases |queued|
  {
    if queued != [] {
      ReplayNothingNew(r, queued[1..]);
    }
  }

  // ---------- A queue without a gap is applied to its end ----------

  function Later(revision: nat, e: Event): nat
  {
    if e.revision > revision then e.revision else revision
  }

  /** The newest revision among these. */
  function Newest(revision: nat, queued: seq<Event>): nat
    decreases |queued|
  {
    if queued == [] then revision else Newest(Later(revision, queued[0]), queued[1..])
  }

  /** From a list at this revision on, each event has been passed, is a snapshot or is the very next one, about a listed
      tab. */
  ghost predicate Gapless(changes: seq<Change>, revision: nat, queued: seq<Event>)
    decreases |queued|
  {
    queued == []
    || (var e := queued[0];
        && (e.revision <= revision || e.Snapshot? || (e.revision == revision + 1 && AboutListed(changes, e)))
        && Gapless(changes, Later(revision, e), queued[1..]))
  }

  /** The replay applies the whole queue, up to its newest revision, exactly when there is no gap in it. */
  lemma {:induction false} ReplaysExactly(changes: seq<Change>, r: Recovery, queued: seq<Event>, owned: set<string>)
    requires AllowedRun(changes, owned) && PublishedWell(changes, r.current, r.published) && AllGenuine(changes, queued)
    requires r.pending == [] && r.current.revision.Some?
    ensures var s := Replayed(r, queued);
            && (s.pending == [] <==> Gapless(changes, r.current.revision.value, queued))
            && (s.pending == [] ==> s.current.revision == Some(Newest(r.current.revision.value, queued)))
            && s.current.revision.Some?
    decreases |queued|
  {
    hide AllowedRun, PublishedWell, ApplyEvent, Genuine, Faithful, Mirrors;
    if queued != [] {
      var e := queued[0];
      assert Genuine(changes, e);
      assert AllGenuine(changes, queued[1..]);
      CurrentIsFaithful(changes, r);
      AppliesExactly(changes, r.current, e, owned);
      if Seen(r.current, e) {
        ReplaysExactly(changes, r, queued[1..], owned);
      } else if !CommitFails(r, e) {
        CommittedWell(changes, r, e, owned);
        ReplaysExactly(changes, Committed(r, e), queued[1..], owned);
      }
    }
  }

  lemma {:induction false} CurrentIsFaithful(changes: seq<Change>, r: Recovery)
    requires PublishedWell(changes, r.current, r.published)
    ensures Faithful(changes, r.current)
  {
  }

  /** Recovery goes as far as it can: without an overflow a load of any revision ends it if and only if what was buffered
      has no gap from there on, and it then shows the newest revision of both. */
  lemma {:induction false} LoadEndsRecoveryExactly(w: World, revision: nat, owned: set<string>)
    requires Inv(w, owned) && Enabled(w, LoadResolves(revision), owned) && !w.r.overflowed
    ensures var after := Next(w, LoadResolves(revision)).r;
            var from := if w.r.current.revision.Some? then Later(w.r.current.revision.value, Snapshot(revision, [])) else revision;
            && (!after.inFlight <==> Gapless(w.changes, from, w.r.pending))
            && (!after.inFlight ==> after.current.revision == Some(Newest(from, w.r.pending)) && after.pending == [])
  {
    hide AllowedRun, PublishedWell, ApplyEvent, Faithful, Mirrors, Covered;
    var e := Snapshot(revision, ListAt(w.changes, revision));
    CurrentIsFaithful(w.changes, w.r);
    AppliesExactly(w.changes, w.r.current, e, owned);
    CommittedWell(w.changes, w.r, e, owned);
    var s1 := Committed(w.r, e);
    ReplaysExactly(w.changes, s1.(pending := []), s1.pending, owned);
  }

  /** Recovery ends: a load that answers with the newest revision needs no further load, unless the buffer had
      overflowed; then the next such load is the last. */
  lemma {:induction false} RecoverySettles(w: World, owned: set<string>)
    requires Inv(w, owned) && w.r.inFlight
    ensures var after := Next(w, LoadResolves(|w.changes|)).r;
            after.inFlight == w.r.overflowed && !after.overflowed && after.pending == []
            && after.current.revision == Some(|w.changes|)
  {
    var e := Snapshot(|w.changes|, ListAt(w.changes, |w.changes|));
    ApplyMoves(w.r.current, e);
    var s1 := Committed(w.r, e);
    if !s1.overflowed {
      forall k | 0 <= k < |s1.pending| ensures Seen(s1.current, s1.pending[k]) {
        assert Genuine(w.changes, w.r.pending[k]);
      }
      ReplayNothingNew(s1.(pending := []), s1.pending);
    }
  }

  // ---------- When the buffer outgrows its bound ----------

  /** The event opens a gap while no load is in flight and the buffer, left behind by a rejected one, is full. */
  predicate Overfills(w: World, step: Step)
  {
    step.Deliver? && !w.r.inFlight && CommitFails(w.r, step.event) && |w.r.pending| == MAX_RECOVERY_EVENTS
  }

  lemma {:induction false} ReplayedShrinks(r: Recovery, queued: seq<Event>)
    requires r.pending == []
    ensures |Replayed(r, queued).pending| <= |queued|
    decreases |queued|
  {
    hide ApplyEvent;
    if queued != [] {
      ReplayedShrinks(r, queued[1..]);
      if !CommitFails(r, queued[0]) { ReplayedShrinks(Committed(r, queued[0]), queued[1..]); }
    }
  }

  lemma {:induction false} OutgrowsExactlyWhen(w: World, step: Step)
    requires |w.r.pending| <= MAX_RECOVERY_EVENTS && (step.LoadResolves? ==> step.revision <= |w.changes|)
    ensures |Next(w, step).r.pending| > MAX_RECOVERY_EVENTS <==> Overfills(w, step)
  {
    hide ApplyEvent, Replayed, ListAt;
    if step.LoadResolves? {
      var s := Committed(w.r, Snapshot(step.revision, ListAt(w.changes, step.revision)));
      ReplayedShrinks(s.(pending := []), s.pending);
    }
  }

  /** The buffer is within its bound at every point of the run. */
  ghost predicate StaysBounded(w: World, steps: seq<Step>, owned: set<string>)
    decreases |steps|
  {
    |w.r.pending| <= MAX_RECOVERY_EVENTS
    && (steps != [] && Enabled(w, steps[0], owned) ==> StaysBounded(Next(w, steps[0]), steps[1..], owned))
  }

  ghost predicate NeverOverfills(w: World, steps: seq<Step>, owned: set<string>)
    decreases |steps|
  {
    steps != [] && Enabled(w, steps[0], owned) ==>
      !Overfills(w, steps[0]) && NeverOverfills(Next(w, steps[0]), steps[1..], owned)
  }

  /** Every run: the bound holds throughout if and only if no event opens a gap while a full buffer is left over. */
  lemma {:induction false} BoundedExactlyWhen(w: World, steps: seq<Step>, owned: set<string>)
    requires |w.r.pending| <= MAX_RECOVERY_EVENTS
    ensures StaysBounded(w, steps, owned) <==> NeverOverfills(w, steps, owned)
    decreases |steps|
  {
    hide Overfills, Next;
    if steps != [] && Enabled(w, steps[0], owned) {
      OutgrowsExactlyWhen(w, steps[0]);
      var after := Next(w, steps[0]);
      if |after.r.pending| <= MAX_RECOVERY_EVENTS {
        BoundedExactlyWhen(after, steps[1..], owned);
      }
    }
  }

  lemma {:induction false} Flood(w: World, e: Event, n: nat, owned: set<string>) returns (steps: seq<Step>, end: World)
    requires Genuine(w.changes, e) && w.r.inFlight && !w.r.overflowed && |w.r.pending| + n <= MAX_RECOVERY_EVENTS
    ensures Reaches(w, steps, owned, end)
    ensures end.r.inFlight && !end.r.overflowed && |end.r.pending| == |w.r.pending| + n
    ensures end.r.current == w.r.current && end.changes == w.changes
    decreases n
  {
    if n == 0 {
      steps, end := [], w;
    } else {
      var rest, last := Flood(Next(w, Deliver(e)), e, n - 1, owned);
      steps, end := [Deliver(e)] + rest, last;
      assert steps[1..] == rest;
    }
  }

  lemma {:induction false} ReachesJoin(w: World, a: seq<Step>, mid: World, b: seq<Step>, end: World, owned: set<string>)
    requires Reaches(w, a, owned, mid) && Reaches(mid, b, owned, end)
    ensures Reaches(w, a + b, owned, end)
    decreases |a|
  {
    if a == [] {
      assert a + b == b;
    } else {
      assert (a + b)[1..] == a[1..] + b;
      ReachesJoin(Next(w, a[0]), a[1..], mid, b, end, owned);
    }
  }

  /** A rejected load leaves its buffer behind, and the next gap is appended without looking at the bound. */
  lemma {:induction false} RejectionBreaksTheBound(c: Change) returns (steps: seq<Step>, end: World)
    requires c.Drop?
    ensures Reaches(Start([]), steps, {}, end)
    ensures |end.r.pending| == MAX_RECOVERY_EVENTS + 1
  {
    var e := EventOf(1, c);
    var w1 := Next(Start([]), RegistryChange(c));
    var w2 := Next(w1, CallRecover);
    assert Genuine(w2.changes, e);
    var flood, w3 := Flood(w2, e, MAX_RECOVERY_EVENTS, {});
    var w4 := Next(w3, LoadRejects);
    end := Next(w4, Deliver(e));
    var before := [RegistryChange(c), CallRecover];
    assert Reaches(w1, before[1..], {}, w2) by { assert Reaches(w2, before[1..][1..], {}, w2); }
    var after := [LoadRejects, Deliver(e)];
    assert Reaches(w4, after[1..], {}, end) by { assert Reaches(end, after[1..][1..], {}, end); }
    ReachesJoin(w2, flood, w3, after, end, {});
    ReachesJoin(Start([]), before, w2, flood + after, end, {});
    steps := before + (flood + after);
  }
}
