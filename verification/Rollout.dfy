/** Which Codex conversation a terminal's process tree owns (src-tauri/src/codex_identity.rs). One snapshot of /proc
    and of the rollout headers is a value; what is read from each is given. */
module Rollout {
  import opened Basics
  import Calendar

  type Pid = int
  type Path = string

  /** What a rollout's header says: nothing usable, not a user's root, or a root. */
  datatype Header = Unreadable | NotARoot | Root(id: string, timestamp: Option<string>)

  /** An open descriptor: one that cannot be read, one that is no rollout, or a rollout's canonical path. */
  datatype Descriptor = Failing | Unrelated | Open(path: Path)

  /** A process; descriptors are None when they cannot be listed. */
  datatype Process = Process(codex: bool, descriptors: Option<seq<Descriptor>>)

  datatype Machine = Machine(children: map<Pid, seq<Pid>>, processes: map<Pid, Process>, headers: map<Path, Header>)

  // ---------- The parent relation ----------

  /** The processes listed, each with its parent where the status names one, by parent. */
  function ByParent(listing: seq<(Pid, Option<Pid>)>): map<Pid, seq<Pid>>
  {
    if listing == [] then map[]
    else
      var rest, (pid, parent) := ByParent(listing[..|listing| - 1]), listing[|listing| - 1];
      if parent.None? then rest
      else rest[parent.value := (if parent.value in rest then rest[parent.value] else []) + [pid]]
  }

  method ListChildren(listing: seq<(Pid, Option<Pid>)>) returns (children: map<Pid, seq<Pid>>)
    ensures children == ByParent(listing)
    ensures forall parent, pid :: (parent in children && pid in children[parent]) <==> (pid, Some(parent)) in listing
  {
    children := map[];
    for i := 0 to |listing|
      invariant children == ByParent(listing[..i])
      invariant forall parent, pid :: (parent in children && pid in children[parent]) <==> (pid, Some(parent)) in listing[..i]
    {
      assert listing[..i + 1][..i] == listing[..i];
      assert listing[..i + 1] == listing[..i] + [listing[i]];
      var (pid, parent) := listing[i];
      if parent.Some? {
        children := children[parent.value := (if parent.value in children then children[parent.value] else []) + [pid]];
      }
    }
    assert listing[..|listing|] == listing;
  }

  function Children(m: Machine, pid: Pid): seq<Pid>
  {
    if pid in m.children then m.children[pid] else []
  }

  function Everyone(m: Machine, root: Pid): set<Pid>
  {
    {root} + set parent, pid | parent in m.children && pid in m.children[parent] :: pid
  }

  // ---------- The worklist ----------

  ghost predicate InPlay(m: Machine, root: Pid, pending: seq<Pid>, visited: set<Pid>)
  {
    (forall pid :: pid in pending ==> pid in Everyone(m, root)) && visited <= Everyone(m, root)
  }

  /** For the termination of the worklist: how many are not visited yet. */
  ghost function Left(m: Machine, root: Pid, visited: set<Pid>): nat
  {
    |Everyone(m, root) - visited|
  }

  lemma {:induction false} PopStaysInPlay(m: Machine, root: Pid, pending: seq<Pid>, visited: set<Pid>)
    requires InPlay(m, root, pending, visited) && pending != []
    ensures var pid, rest := pending[|pending| - 1], pending[..|pending| - 1];
            InPlay(m, root, rest, visited)
            && (pid !in visited ==>
                  InPlay(m, root, rest + Children(m, pid), visited + {pid}) && Left(m, root, visited + {pid}) < Left(m, root, visited))
  {
    var pid := pending[|pending| - 1];
    if pid !in visited {
      assert Everyone(m, root) - visited == (Everyone(m, root) - (visited + {pid})) + {pid};
    }
  }

  /** The order in which the stack visits the processes. */
  function Order(m: Machine, root: Pid, pending: seq<Pid>, visited: set<Pid>): seq<Pid>
    requires InPlay(m, root, pending, visited)
    decreases Left(m, root, visited), |pending|
  {
    if pending == [] then []
    else
      var pid, rest := pending[|pending| - 1], pending[..|pending| - 1];
      PopStaysInPlay(m, root, pending, visited);
      if pid in visited then Order(m, root, rest, visited)
      else
        [pid] + Order(m, root, rest + Children(m, pid), visited + {pid})
  }

  lemma {:induction false} Starting(m: Machine, root: Pid)
    ensures InPlay(m, root, [root], {})
  {
  }

  function VisitOrder(m: Machine, root: Pid): seq<Pid>
  {
    Starting(m, root);
    Order(m, root, [root], {})
  }

  // ---------- What each process owns ----------

  /** The paths seen so far, and the roots first seen in each process, in the order seen. */
  datatype Found = Found(paths: set<Path>, owners: map<Pid, seq<Path>>)

  function HeaderOf(m: Machine, path: Path): Header
  {
    if path in m.headers then m.headers[path] else Unreadable
  }

  function OwnedBy(owners: map<Pid, seq<Path>>, pid: Pid): seq<Path>
  {
    if pid in owners then owners[pid] else []
  }

  /** One descriptor of a Codex process; None ends the search without an answer. */
  function Noted(m: Machine, pid: Pid, descriptor: Descriptor, found: Found): Option<Found>
  {
    match descriptor
    case Failing => None
    case Unrelated => Some(found)
    case Open(path) =>
      if path in found.paths then Some(found)
      else
        match HeaderOf(m, path)
        case Unreadable => None
        case NotARoot => Some(found.(paths := found.paths + {path}))
        case Root(_, _) => Some(Found(found.paths + {path}, found.owners[pid := OwnedBy(found.owners, pid) + [path]]))
  }

  function NotedAll(m: Machine, pid: Pid, descriptors: seq<Descriptor>, found: Found): Option<Found>
  {
    if descriptors == [] then Some(found)
    else
      match Noted(m, pid, descriptors[0], found)
      case None => None
      case Some(next) => NotedAll(m, pid, descriptors[1..], next)
  }

  predicate IsCodex(m: Machine, pid: Pid)
  {
    pid in m.processes && m.processes[pid].codex
  }

  function Visited(m: Machine, pid: Pid, found: Found): Option<Found>
  {
    if !IsCodex(m, pid) then Some(found)
    else if m.processes[pid].descriptors.None? then None
    else NotedAll(m, pid, m.processes[pid].descriptors.value, found)
  }

  function Scan(m: Machine, order: seq<Pid>, found: Found): Option<Found>
  {
    if order == [] then Some(found)
    else
      match Visited(m, order[0], found)
      case None => None
      case Some(next) => Scan(m, order[1..], next)
  }

  // ---------- The choice ----------

  /** The creation stamp, if it has the one accepted form. */
  function Stamp(m: Machine, path: Path): Option<string>
  {
    match HeaderOf(m, path)
    case Root(_, Some(t)) => if Calendar.StampShape(t) then Some(t) else None
    case _ => None
  }

  function IdOf(m: Machine, path: Path): string
  {
    if HeaderOf(m, path).Root? then HeaderOf(m, path).id else ""
  }

  predicate Older(m: Machine, a: Path, b: Path)
  {
    Stamp(m, a).Some? && Stamp(m, b).Some? && Calendar.Less(Stamp(m, a).value, Stamp(m, b).value)
  }

  /** A stable sort by stamp. */
  function Insert(m: Machine, sorted: seq<Path>, path: Path): seq<Path>
  {
    if sorted == [] || !Older(m, path, sorted[|sorted| - 1]) then sorted + [path]
    else Insert(m, sorted[..|sorted| - 1], path) + [sorted[|sorted| - 1]]
  }

  function Sorted(m: Machine, paths: seq<Path>): seq<Path>
  {
    if paths == [] then [] else Insert(m, Sorted(m, paths[..|paths| - 1]), paths[|paths| - 1])
  }

  function Chosen(m: Machine, roots: seq<Path>): Option<string>
    requires roots != []
  {
    if |roots| == 1 then Some(IdOf(m, roots[0]))
    else if exists path :: path in roots && Stamp(m, path).None? then None
    else
      SortedLength(m, roots);
      var sorted := Sorted(m, roots);
      var newest, second := sorted[|sorted| - 1], sorted[|sorted| - 2];
      if Stamp(m, second) == Stamp(m, newest) then None else Some(IdOf(m, newest))
  }

  lemma {:induction false} SortedLength(m: Machine, paths: seq<Path>)
    ensures |Sorted(m, paths)| == |paths|
  {
    if paths != [] {
      SortedLength(m, paths[..|paths| - 1]);
      InsertLength(m, Sorted(m, paths[..|paths| - 1]), paths[|paths| - 1]);
    }
  }

  lemma {:induction false} InsertLength(m: Machine, sorted: seq<Path>, path: Path)
    ensures |Insert(m, sorted, path)| == |sorted| + 1
  {
    if sorted != [] && Older(m, path, sorted[|sorted| - 1]) {
      InsertLength(m, sorted[..|sorted| - 1], path);
    }
  }

  /** The answer from the owners found. */
  ghost function Answer(m: Machine, owners: map<Pid, seq<Path>>): Option<string>
  {
    if exists pid :: owners.Keys == {pid} && owners[pid] != [] then
      var pid :| owners.Keys == {pid} && owners[pid] != [];
      Chosen(m, owners[pid])
    else
      None
  }

  ghost function AnswerFor(m: Machine, order: seq<Pid>): Option<string>
  {
    match Scan(m, order, Found({}, map[]))
    case None => None
    case Some(found) => Answer(m, found.owners)
  }

  method Sort(m: Machine, paths: seq<Path>) returns (sorted: seq<Path>)
    ensures sorted == Sorted(m, paths)
  {
    sorted := [];
    for i := 0 to |paths|
      invariant sorted == Sorted(m, paths[..i])
    {
      assert paths[..i + 1][..i] == paths[..i];
      sorted := Insert(m, sorted, paths[i]);
    }
    assert paths[..|paths|] == paths;
  }

  method Choose(m: Machine, roots: seq<Path>) returns (id: Option<string>)
    requires roots != []
    ensures id == Chosen(m, roots)
  {
    if |roots| == 1 {
      return Some(IdOf(m, roots[0]));
    }
    for i := 0 to |roots|
      invariant forall k :: 0 <= k < i ==> Stamp(m, roots[k]).Some?
    {
      if Stamp(m, roots[i]).None? {
        return None;
      }
    }
    var sorted := Sort(m, roots);
    SortedLength(m, roots);
    var newest, second := sorted[|sorted| - 1], sorted[|sorted| - 2];
    id := if Stamp(m, second) == Stamp(m, newest) then None else Some(IdOf(m, newest));
  }

  method NoteAll(m: Machine, pid: Pid, descriptors: seq<Descriptor>, before: Found) returns (found: Option<Found>)
    ensures found == NotedAll(m, pid, descriptors, before)
  {
    var now := before;
    for i := 0 to |descriptors|
      invariant NotedAll(m, pid, descriptors, before) == NotedAll(m, pid, descriptors[i..], now)
    {
      assert descriptors[i..][1..] == descriptors[i + 1..];
      var next := Noted(m, pid, descriptors[i], now);
      if next.None? {
        return None;
      }
      now := next.value;
    }
    found := Some(now);
  }

  /** The owners of every user's root open in the process tree, or None where something could not be read. */
  method Walk(m: Machine, root: Pid) returns (found: Option<Found>)
    ensures found == Scan(m, VisitOrder(m, root), Found({}, map[]))
  {
    hide NotedAll, Noted, Visited, InPlay, Left;
    Starting(m, root);
    var pending, visited, now: Found := [root], {}, Found({}, map[]);
    while pending != []
      invariant InPlay(m, root, pending, visited)
      invariant Scan(m, VisitOrder(m, root), Found({}, map[])) == Scan(m, Order(m, root, pending, visited), now)
      decreases Left(m, root, visited), |pending|
    {
      var pid := pending[|pending| - 1];
      ghost var order := Order(m, root, pending, visited);
      PopStaysInPlay(m, root, pending, visited);
      pending := pending[..|pending| - 1];
      if pid !in visited {
        visited := visited + {pid};
        pending := pending + Children(m, pid);
        assert order == [pid] + Order(m, root, pending, visited);
        assert order[1..] == Order(m, root, pending, visited);
        var next := Visit(m, pid, now);
        if next.None? {
          return None;
        }
        now := next.value;
      }
    }
    found := Some(now);
  }

  method Visit(m: Machine, pid: Pid, before: Found) returns (found: Option<Found>)
    ensures found == Visited(m, pid, before)
  {
    if !IsCodex(m, pid) {
      return Some(before);
    }
    var descriptors := m.processes[pid].descriptors;
    if descriptors.None? {
      return None;
    }
    found := NoteAll(m, pid, descriptors.value, before);
  }

  method Resolve(m: Machine, root: Pid) returns (id: Option<string>)
    ensures id == AnswerFor(m, VisitOrder(m, root))
  {
    hide Scan, Order, Chosen, VisitOrder;
    var found := Walk(m, root);
    if found.None? {
      return None;
    }
    var owners := found.value.owners;
    if |owners| != 1 {
      assert forall pid :: owners.Keys == {pid} ==> |owners.Keys| == 1;
      return None;
    }
    HasKey(owners);
    var pid :| pid in owners.Keys;
    OnlyKey(owners, pid);
    if owners[pid] == [] {
      return None;
    }
    id := Choose(m, owners[pid]);
  }

  lemma {:induction false} HasKey(owners: map<Pid, seq<Path>>)
    requires |owners| == 1
    ensures exists pid :: pid in owners.Keys
  {
    assert |owners.Keys| == 1;
    assert (forall pid :: pid !in owners.Keys) ==> owners.Keys == {};
  }

  lemma {:induction false} OnlyKey(owners: map<Pid, seq<Path>>, pid: Pid)
    requires |owners| == 1 && pid in owners
    ensures owners.Keys == {pid}
  {
    assert |owners.Keys| == 1;
    assert |owners.Keys - {pid}| == 0;
    assert owners.Keys == (owners.Keys - {pid}) + {pid};
  }

  // ---------- The tree ----------

  /** A line of descent from root to pid. */
  ghost predicate Descent(m: Machine, chain: seq<Pid>, root: Pid, pid: Pid)
  {
    && chain != [] && chain[0] == root && chain[|chain| - 1] == pid
    && forall k :: 0 < k < |chain| ==> IsChild(m, chain[k - 1], chain[k])
  }

  predicate IsChild(m: Machine, parent: Pid, pid: Pid)
  {
    pid in Children(m, parent)
  }

  ghost predicate Descends(m: Machine, root: Pid, pid: Pid)
  {
    exists chain :: Descent(m, chain, root, pid)
  }

  lemma {:induction false} DescentGrows(m: Machine, root: Pid, parent: Pid, pid: Pid)
    requires Descends(m, root, parent) && IsChild(m, parent, pid)
    ensures Descends(m, root, pid)
  {
    var chain :| Descent(m, chain, root, parent);
    assert Descent(m, chain + [pid], root, pid);
  }

  ghost predicate Closed(m: Machine, seen: seq<Pid>, visited: set<Pid>)
  {
    forall parent, pid :: parent in seen && IsChild(m, parent, pid) ==> pid in seen || pid in visited
  }

  /** The rest of a walk visits no process twice. */
  lemma {:induction false} OrderIsOnce(m: Machine, root: Pid, pending: seq<Pid>, visited: set<Pid>)
    requires InPlay(m, root, pending, visited)
    ensures var order := Order(m, root, pending, visited);
            && (forall pid :: pid in order ==> pid !in visited)
            && (forall j, k :: 0 <= j < k < |order| ==> order[j] != order[k])
    decreases Left(m, root, visited), |pending|
  {
    hide InPlay, Left, Children;
    if pending != [] {
      var pid, rest := pending[|pending| - 1], pending[..|pending| - 1];
      PopStaysInPlay(m, root, pending, visited);
      if pid in visited {
        OrderIsOnce(m, root, rest, visited);
      } else {
        OrderIsOnce(m, root, rest + Children(m, pid), visited + {pid});
      }
    }
  }

  lemma {:induction false} ChildrenDescend(m: Machine, root: Pid, pid: Pid)
    requires Descends(m, root, pid)
    ensures forall child :: child in Children(m, pid) ==> Descends(m, root, child)
  {
    hide Descends;
    forall child | child in Children(m, pid)
      ensures Descends(m, root, child)
    {
      assert IsChild(m, pid, child);
      DescentGrows(m, root, pid, child);
    }
  }

  /** It visits only what descends from the root. */
  lemma {:induction false} OrderDescends(m: Machine, root: Pid, pending: seq<Pid>, visited: set<Pid>)
    requires InPlay(m, root, pending, visited)
    requires forall pid :: pid in pending ==> Descends(m, root, pid)
    ensures forall pid :: pid in Order(m, root, pending, visited) ==> Descends(m, root, pid)
    decreases Left(m, root, visited), |pending|
  {
    hide Descends, InPlay, Left, Children;
    if pending != [] {
      var pid, rest := pending[|pending| - 1], pending[..|pending| - 1];
      PopStaysInPlay(m, root, pending, visited);
      if pid in visited {
        OrderDescends(m, root, rest, visited);
      } else {
        ChildrenDescend(m, root, pid);
        OrderDescends(m, root, rest + Children(m, pid), visited + {pid});
      }
    }
  }

  lemma {:induction false} CoversOneMore(m: Machine, pid: Pid, rest: seq<Pid>, later: seq<Pid>, visited: set<Pid>)
    requires forall p :: p in rest + Children(m, pid) ==> p in later || p in visited + {pid}
    requires Closed(m, later, visited + {pid})
    ensures forall p :: p in rest + [pid] ==> p in [pid] + later || p in visited
    ensures Closed(m, [pid] + later, visited)
  {
    assert forall p :: p in rest ==> p in rest + Children(m, pid);
    assert forall child :: IsChild(m, pid, child) ==> child in rest + Children(m, pid);
  }

  /** It visits all that is pending and everything below what it visits. */
  lemma {:induction false} OrderCovers(m: Machine, root: Pid, pending: seq<Pid>, visited: set<Pid>)
    requires InPlay(m, root, pending, visited)
    ensures var order := Order(m, root, pending, visited);
            (forall pid :: pid in pending ==> pid in order || pid in visited) && Closed(m, order, visited)
    decreases Left(m, root, visited), |pending|
  {
    hide InPlay, Left, Children;
    if pending != [] {
      var pid, rest := pending[|pending| - 1], pending[..|pending| - 1];
      PopStaysInPlay(m, root, pending, visited);
      assert pending == rest + [pid];
      if pid in visited {
        OrderCovers(m, root, rest, visited);
      } else {
        var later := Order(m, root, rest + Children(m, pid), visited + {pid});
        OrderCovers(m, root, rest + Children(m, pid), visited + {pid});
        CoversOneMore(m, pid, rest, later, visited);
      }
    }
  }

  lemma {:induction false} ChainStays(m: Machine, order: seq<Pid>, chain: seq<Pid>, root: Pid, k: nat)
    requires root in order && Closed(m, order, {}) && k < |chain| && Descent(m, chain, root, chain[|chain| - 1])
    ensures chain[k] in order
  {
    if k > 0 {
      ChainStays(m, order, chain, root, k - 1);
      assert IsChild(m, chain[k - 1], chain[k]);
    }
  }

  /** An order that visits each descendant of the root once, and nothing else. */
  ghost predicate Visits(m: Machine, order: seq<Pid>, root: Pid)
  {
    && (forall pid :: pid in order <==> Descends(m, root, pid))
    && (forall j, k :: 0 <= j < k < |order| ==> order[j] != order[k])
  }

  /** Whatever the parent relation, cycles included, the worklist ends after visiting each descendant exactly once. */
  lemma {:induction false} WorklistVisitsTheTree(m: Machine, root: Pid)
    ensures Visits(m, VisitOrder(m, root), root)
  {
    assert Descent(m, [root], root, root);
    OrderCovers(m, root, [root], {});
    OrderDescends(m, root, [root], {});
    OrderIsOnce(m, root, [root], {});
    var order := VisitOrder(m, root);
    assert root in [root];
    forall pid | Descends(m, root, pid)
      ensures pid in order
    {
      var chain :| Descent(m, chain, root, pid);
      ChainStays(m, order, chain, root, |chain| - 1);
    }
  }

  // ---------- What a scan finds, in any order ----------

  /** The rollouts a process has open. */
  ghost predicate Holds(m: Machine, pid: Pid, path: Path)
  {
    IsCodex(m, pid) && m.processes[pid].descriptors.Some? && Open(path) in m.processes[pid].descriptors.value
  }

  ghost predicate OwnsRoot(m: Machine, pid: Pid, path: Path)
  {
    Holds(m, pid, path) && HeaderOf(m, path).Root?
  }

  /** Everything the process has open can be read. */
  ghost predicate ReadableAt(m: Machine, pid: Pid)
  {
    IsCodex(m, pid) ==>
      && m.processes[pid].descriptors.Some?
      && Failing !in m.processes[pid].descriptors.value
      && forall path :: Holds(m, pid, path) ==> HeaderOf(m, path) != Unreadable
  }

  ghost predicate Distinct(paths: seq<Path>)
  {
    forall j, k :: 0 <= j < k < |paths| ==> paths[j] != paths[k]
  }

  /** Some descriptors noted for pid: the paths among them are added, the new roots are pid's, and no one else's change. */
  ghost predicate NotedFor(m: Machine, pid: Pid, descriptors: seq<Descriptor>, before: Found, after: Found)
  {
    && (forall path :: path in after.paths <==> path in before.paths || Open(path) in descriptors)
    && (forall path :: path in OwnedBy(after.owners, pid) <==>
          path in OwnedBy(before.owners, pid) || (path !in before.paths && Open(path) in descriptors && HeaderOf(m, path).Root?))
    && (forall other :: other != pid ==> OwnedBy(after.owners, other) == OwnedBy(before.owners, other))
  }

  ghost predicate Tidy(found: Found)
  {
    && (forall pid :: pid in found.owners ==> found.owners[pid] != [])
    && (forall pid :: Distinct(OwnedBy(found.owners, pid)))
    && (forall pid, path :: path in OwnedBy(found.owners, pid) ==> path in found.paths)
  }

  lemma {:induction false} NotedOnce(m: Machine, pid: Pid, descriptor: Descriptor, found: Found)
    requires Tidy(found) && Noted(m, pid, descriptor, found).Some?
    ensures NotedFor(m, pid, [descriptor], found, Noted(m, pid, descriptor, found).value)
    ensures Tidy(Noted(m, pid, descriptor, found).value)
  {
    if descriptor.Open? {
      var after := Noted(m, pid, descriptor, found).value;
      assert descriptor.path !in OwnedBy(found.owners, pid) || descriptor.path in found.paths;
    }
  }

  lemma {:induction false} NotedEach(m: Machine, pid: Pid, descriptors: seq<Descriptor>, found: Found)
    requires Tidy(found)
    ensures NotedAll(m, pid, descriptors, found).Some? <==>
            Failing !in descriptors && forall path :: Open(path) in descriptors && path !in found.paths ==> HeaderOf(m, path) != Unreadable
    ensures var after := NotedAll(m, pid, descriptors, found);
            after.Some? ==> NotedFor(m, pid, descriptors, found, after.value) && Tidy(after.value)
  {
    hide Tidy;
    if descriptors != [] {
      assert descriptors == [descriptors[0]] + descriptors[1..];
      var next := Noted(m, pid, descriptors[0], found);
      if next.Some? {
        NotedOnce(m, pid, descriptors[0], found);
        NotedEach(m, pid, descriptors[1..], next.value);
      }
    }
  }

  ghost predicate HeldIn(m: Machine, pids: seq<Pid>, path: Path)
  {
    exists pid :: pid in pids && Holds(m, pid, path)
  }

  /** The first process of the order to have the rollout open. */
  ghost predicate FirstHolder(m: Machine, order: seq<Pid>, pid: Pid, path: Path)
  {
    exists k :: 0 <= k < |order| && order[k] == pid && Holds(m, pid, path) && !HeldIn(m, order[..k], path)
  }

  /** After a scan of order: the paths of those processes, and, for each, exactly the roots that it is the first to hold. */
  ghost predicate Complete(m: Machine, order: seq<Pid>, found: Found)
  {
    && Tidy(found)
    && (forall path :: path in found.paths <==> HeldIn(m, order, path))
    && (forall pid, path :: path in OwnedBy(found.owners, pid) <==> HeaderOf(m, path).Root? && FirstHolder(m, order, pid, path))
  }

  lemma {:induction false} FirstHolderNext(m: Machine, order: seq<Pid>, last: Pid, pid: Pid, path: Path)
    ensures FirstHolder(m, order + [last], pid, path) <==>
            FirstHolder(m, order, pid, path) || (pid == last && Holds(m, pid, path) && !HeldIn(m, order, path))
  {
    hide Holds, HeldIn;
    var all := order + [last];
    assert forall k :: 0 <= k <= |order| ==> all[..k] == order[..k];
    assert order[..|order|] == order;
    if FirstHolder(m, order, pid, path) {
      var k :| 0 <= k < |order| && order[k] == pid && Holds(m, pid, path) && !HeldIn(m, order[..k], path);
      assert all[k] == pid && !HeldIn(m, all[..k], path);
    }
    if pid == last && Holds(m, pid, path) && !HeldIn(m, order, path) {
      assert all[|order|] == pid && !HeldIn(m, all[..|order|], path);
    }
  }

  lemma {:induction false} HeldNext(m: Machine, order: seq<Pid>, last: Pid, path: Path)
    ensures HeldIn(m, order + [last], path) <==> HeldIn(m, order, path) || Holds(m, last, path)
  {
    hide Holds;
    if HeldIn(m, order, path) {
      var pid :| pid in order && Holds(m, pid, path);
      assert pid in order + [last];
    }
    assert last in order + [last];
  }

  lemma {:induction false} VisitedCompletes(m: Machine, order: seq<Pid>, pid: Pid, found: Found)
    requires Complete(m, order, found) && pid !in order && ReadableAt(m, pid)
    ensures Visited(m, pid, found).Some? && Complete(m, order + [pid], Visited(m, pid, found).value)
  {
    hide Tidy, NotedAll, FirstHolder, HeldIn;
    if IsCodex(m, pid) {
      var descriptors := m.processes[pid].descriptors.value;
      assert forall path :: Open(path) in descriptors <==> Holds(m, pid, path);
      NotedEach(m, pid, descriptors, found);
      assert Visited(m, pid, found) == NotedAll(m, pid, descriptors, found);
      var after := Visited(m, pid, found).value;
      NotedCompletes(m, order, pid, found, after);
    } else {
      forall path
        ensures HeldIn(m, order + [pid], path) <==> HeldIn(m, order, path)
      {
        HeldNext(m, order, pid, path);
      }
      forall p, path
        ensures FirstHolder(m, order + [pid], p, path) <==> FirstHolder(m, order, p, path)
      {
        FirstHolderNext(m, order, pid, p, path);
      }
    }
  }

  lemma {:induction false} NotedCompletes(m: Machine, order: seq<Pid>, pid: Pid, found: Found, after: Found)
    requires Complete(m, order, found) && pid !in order && Tidy(after) && IsCodex(m, pid) && m.processes[pid].descriptors.Some?
    requires NotedFor(m, pid, m.processes[pid].descriptors.value, found, after)
    ensures Complete(m, order + [pid], after)
  {
    hide Tidy, HeldIn;
    forall path
      ensures path in after.paths <==> HeldIn(m, order + [pid], path)
    {
      HeldNext(m, order, pid, path);
    }
    forall p, path
      ensures path in OwnedBy(after.owners, p) <==> HeaderOf(m, path).Root? && FirstHolder(m, order + [pid], p, path)
    {
      FirstHolderNext(m, order, pid, p, path);
      assert !FirstHolder(m, order, pid, path);
    }
  }

  ghost predicate AllReadable(m: Machine, pids: seq<Pid>)
  {
    forall pid :: pid in pids ==> ReadableAt(m, pid)
  }

  lemma {:induction false} ScanCompletes(m: Machine, done: seq<Pid>, order: seq<Pid>, found: Found)
    requires Complete(m, done, found) && AllReadable(m, order)
    requires forall j, k :: 0 <= j < k < |done + order| ==> (done + order)[j] != (done + order)[k]
    ensures Scan(m, order, found).Some? && Complete(m, done + order, Scan(m, order, found).value)
    decreases |order|
  {
    hide Complete, ReadableAt, Visited;
    if order == [] {
      assert done + order == done;
    } else {
      var pid := order[0];
      assert (done + order)[|done|] == pid;
      assert forall j :: 0 <= j < |done| ==> (done + order)[j] == done[j];
      VisitedCompletes(m, done, pid, found);
      assert done + [pid] + order[1..] == done + order;
      ScanCompletes(m, done + [pid], order[1..], Visited(m, pid, found).value);
    }
  }

  /** If anything open in the tree cannot be read there is no answer. */
  lemma {:induction false} UnreadableStops(m: Machine, done: seq<Pid>, order: seq<Pid>, found: Found)
    requires Tidy(found) && !AllReadable(m, order)
    requires forall path :: path in found.paths ==> HeaderOf(m, path) != Unreadable
    ensures Scan(m, order, found) == None
    decreases |order|
  {
    hide NotedAll;
    if order != [] {
      var pid := order[0];
      assert order == [pid] + order[1..];
      var next := Visited(m, pid, found);
      if IsCodex(m, pid) && m.processes[pid].descriptors.Some? {
        NotedEach(m, pid, m.processes[pid].descriptors.value, found);
      }
      if next.Some? {
        assert ReadableAt(m, pid) by { StillReadable(m, pid, found); }
        assert !AllReadable(m, order[1..]);
        UnreadableStops(m, done, order[1..], next.value);
      }
    }
  }

  lemma {:induction false} StillReadable(m: Machine, pid: Pid, found: Found)
    requires Tidy(found) && Visited(m, pid, found).Some?
    requires forall path :: path in found.paths ==> HeaderOf(m, path) != Unreadable
    ensures ReadableAt(m, pid)
  {
    hide NotedAll, Tidy;
    if IsCodex(m, pid) && m.processes[pid].descriptors.Some? {
      NotedEach(m, pid, m.processes[pid].descriptors.value, found);
    }
  }

  // ---------- The newest root ----------

  ghost predicate Stamped(m: Machine, paths: seq<Path>)
  {
    forall path :: path in paths ==> Stamp(m, path).Some?
  }

  ghost predicate Ordered(m: Machine, paths: seq<Path>)
  {
    forall j, k :: 0 <= j < k < |paths| ==> !Older(m, paths[k], paths[j])
  }

  lemma {:induction false} NotOlderThen(m: Machine, a: Path, b: Path, c: Path)
    requires Stamp(m, a).Some? && Stamp(m, b).Some? && Stamp(m, c).Some?
    requires !Older(m, b, a) && !Older(m, c, b)
    ensures !Older(m, c, a)
    ensures Stamp(m, a) == Stamp(m, c) ==> Stamp(m, b) == Stamp(m, c)
  {
    hide Calendar.Less;
    var x, y, z := Stamp(m, a).value, Stamp(m, b).value, Stamp(m, c).value;
    Calendar.LessIsTotal(x, y);
    Calendar.LessIsTotal(y, z);
    Calendar.LessIsTotal(x, z);
    if Calendar.Less(x, y) && Calendar.Less(y, z) { Calendar.LessThen(x, y, z); }
  }

  lemma {:induction false} OlderIsOneWay(m: Machine, a: Path, b: Path)
    requires Older(m, a, b)
    ensures !Older(m, b, a) && Stamp(m, a) != Stamp(m, b)
  {
    hide Calendar.Less;
    Calendar.LessIsTotal(Stamp(m, a).value, Stamp(m, b).value);
  }

  lemma {:induction false} InsertOrders(m: Machine, sorted: seq<Path>, path: Path)
    requires Ordered(m, sorted) && Stamped(m, sorted) && Stamp(m, path).Some?
    ensures var r := Insert(m, sorted, path);
            Ordered(m, r) && (forall q :: q in r <==> q in sorted || q == path)
            && (Distinct(sorted) && path !in sorted ==> Distinct(r))
  {
    hide Older;
    if sorted != [] {
      var init, last := sorted[..|sorted| - 1], sorted[|sorted| - 1];
      assert sorted == init + [last];
      if Older(m, path, last) {
        InsertOrders(m, init, path);
        OlderIsOneWay(m, path, last);
        var front := Insert(m, init, path);
        forall k | 0 <= k < |front|
          ensures !Older(m, last, front[k]) && (path !in sorted && Distinct(sorted) ==> front[k] != last)
        {
          assert front[k] in init || front[k] == path;
        }
        assert Insert(m, sorted, path) == front + [last];
      } else {
        forall k | 0 <= k < |sorted|
          ensures !Older(m, path, sorted[k])
        {
          assert sorted[k] in sorted && last in sorted;
          if k < |sorted| - 1 { NotOlderThen(m, sorted[k], last, path); }
        }
      }
    }
  }

  lemma {:induction false} SortOrders(m: Machine, paths: seq<Path>)
    requires Stamped(m, paths) && Distinct(paths)
    ensures var r := Sorted(m, paths);
            Ordered(m, r) && Distinct(r) && forall q :: q in r <==> q in paths
  {
    hide Older;
    if paths != [] {
      var init, last := paths[..|paths| - 1], paths[|paths| - 1];
      assert paths == init + [last];
      SortOrders(m, init);
      InsertOrders(m, Sorted(m, init), last);
    }
  }

  /** Strictly newer than every other path, or the only one. */
  ghost predicate NewestOf(m: Machine, paths: seq<Path>, path: Path)
  {
    path in paths && forall q :: q in paths && q != path ==> Older(m, q, path)
  }

  lemma {:induction false} LastIsNewest(m: Machine, paths: seq<Path>, path: Path)
    requires |paths| > 1 && Stamped(m, paths) && Distinct(paths)
    ensures |Sorted(m, paths)| == |paths|
    ensures var r := Sorted(m, paths);
            NewestOf(m, paths, path) <==>
            path == r[|r| - 1] && Stamp(m, r[|r| - 2]) != Stamp(m, r[|r| - 1])
  {
    hide Older, Sorted, Stamp;
    SortOrders(m, paths);
    SortedLength(m, paths);
    var r := Sorted(m, paths);
    var last, second := r[|r| - 1], r[|r| - 2];
    assert last in r && second in r;
    forall q | q in r && q != last
      ensures !Older(m, last, q)
    {
      var j :| 0 <= j < |r| && r[j] == q;
    }
    if NewestOf(m, paths, path) {
      assert path in r;
      OlderIsOneWay(m, second, last);
    }
    if path == last && Stamp(m, second) != Stamp(m, last) {
      forall q | q in paths && q != path
        ensures Older(m, q, path)
      {
        var j :| 0 <= j < |r| && r[j] == q;
        assert q in r;
        if j < |r| - 2 { NotOlderThen(m, q, second, last); }
        StampsCompare(m, q, last);
      }
    }
  }

  lemma {:induction false} StampsCompare(m: Machine, a: Path, b: Path)
    requires Stamp(m, a).Some? && Stamp(m, b).Some?
    ensures Older(m, a, b) || Older(m, b, a) || Stamp(m, a) == Stamp(m, b)
  {
    hide Calendar.Less;
    Calendar.LessIsTotal(Stamp(m, a).value, Stamp(m, b).value);
  }

  /** The choice is the id of the only root, or of the one created strictly after all others, all well stamped. */
  lemma {:induction false} ChosenIsNewest(m: Machine, roots: seq<Path>, id: string)
    requires roots != [] && Distinct(roots)
    ensures Chosen(m, roots) == Some(id) <==> exists path :: NewestOf(m, roots, path) && IdOf(m, path) == id
  {
    hide Sorted, IdOf, Stamp;
    if |roots| == 1 {
      assert NewestOf(m, roots, roots[0]);
      assert forall path :: path in roots ==> path == roots[0];
    } else if exists path :: path in roots && Stamp(m, path).None? {
      var bad :| bad in roots && Stamp(m, bad).None?;
      forall path | NewestOf(m, roots, path)
        ensures false
      {
        NewestIsStamped(m, roots, path, bad);
      }
    } else {
      var r := Sorted(m, roots);
      SortedLength(m, roots);
      forall path
        ensures NewestOf(m, roots, path) <==> path == r[|r| - 1] && Stamp(m, r[|r| - 2]) != Stamp(m, r[|r| - 1])
      {
        LastIsNewest(m, roots, path);
      }
    }
  }

  lemma {:induction false} NewestIsStamped(m: Machine, roots: seq<Path>, path: Path, other: Path)
    requires |roots| > 1 && Distinct(roots) && NewestOf(m, roots, path) && other in roots
    ensures Stamp(m, other).Some?
  {
    hide Stamp;
    if other == path {
      var k := if roots[0] == path then 1 else 0;
      assert roots[k] in roots && roots[k] != path;
    }
  }

  // ---------- The answer ----------

  /** The one process of the tree that has a user's root open. */
  ghost predicate SoleOwner(m: Machine, root: Pid, pid: Pid)
  {
    && Descends(m, root, pid) && (exists path :: OwnsRoot(m, pid, path))
    && forall other :: Descends(m, root, other) && (exists path :: OwnsRoot(m, other, path)) ==> other == pid
  }

  /** The process's only root, or its strictly newest, all well stamped. */
  ghost predicate NewestRoot(m: Machine, pid: Pid, path: Path)
  {
    OwnsRoot(m, pid, path) && forall q :: OwnsRoot(m, pid, q) && q != path ==> Older(m, q, path)
  }

  ghost predicate ReadableTree(m: Machine, root: Pid)
  {
    forall pid :: Descends(m, root, pid) ==> ReadableAt(m, pid)
  }

  /** No rollout is open in two processes of the tree. */
  ghost predicate UnsharedTree(m: Machine, root: Pid)
  {
    forall pid, other, path :: Descends(m, root, pid) && Descends(m, root, other) && Holds(m, pid, path) && Holds(m, other, path) ==>
      pid == other
  }

  ghost predicate OwnsSome(m: Machine, pid: Pid)
  {
    exists path :: OwnsRoot(m, pid, path)
  }

  /** The first process visited that has a user's root open. */
  ghost predicate FirstOwner(m: Machine, order: seq<Pid>, k: nat)
  {
    k < |order| && OwnsSome(m, order[k]) && forall j :: 0 <= j < k ==> !OwnsSome(m, order[j])
  }

  /** Every root that any process of the tree has open, this one has open too. */
  ghost predicate HasEveryRoot(m: Machine, root: Pid, pid: Pid)
  {
    forall other, path :: Descends(m, root, other) && OwnsRoot(m, other, path) ==> OwnsRoot(m, pid, path)
  }

  lemma {:induction false} FindFirstOwner(m: Machine, order: seq<Pid>, pid: Pid) returns (k: nat)
    requires pid in order && OwnsSome(m, pid)
    ensures FirstOwner(m, order, k)
  {
    hide OwnsSome;
    if OwnsSome(m, order[0]) {
      k := 0;
    } else {
      assert order == [order[0]] + order[1..];
      k := FindFirstOwner(m, order[1..], pid);
      k := k + 1;
    }
  }

  lemma {:induction false} FindFirstHolder(m: Machine, order: seq<Pid>, path: Path) returns (pid: Pid)
    requires HeldIn(m, order, path)
    ensures FirstHolder(m, order, pid, path)
  {
    hide Holds;
    if order != [] {
      var init, last := order[..|order| - 1], order[|order| - 1];
      assert order == init + [last];
      HeldNext(m, init, last, path);
      if HeldIn(m, init, path) {
        pid := FindFirstHolder(m, init, path);
      } else {
        pid := last;
      }
      FirstHolderNext(m, init, last, pid, path);
    }
  }

  /** The first owner is found to own exactly its roots. */
  lemma {:induction false} FirstOwnerKeepsItsRoots(m: Machine, order: seq<Pid>, found: Found, k: nat)
    requires Complete(m, order, found) && FirstOwner(m, order, k)
    requires forall i, j :: 0 <= i < j < |order| ==> order[i] != order[j]
    ensures order[k] in found.owners && forall path :: path in OwnedBy(found.owners, order[k]) <==> OwnsRoot(m, order[k], path)
  {
    hide Tidy;
    var pid := order[k];
    forall path
      ensures path in OwnedBy(found.owners, pid) <==> OwnsRoot(m, pid, path)
    {
      if OwnsRoot(m, pid, path) {
        forall j | 0 <= j < k
          ensures !Holds(m, order[j], path)
        {
          assert !OwnsSome(m, order[j]);
          assert !OwnsRoot(m, order[j], path);
        }
        assert !HeldIn(m, order[..k], path);
        assert FirstHolder(m, order, pid, path);
      }
      assert path in OwnedBy(found.owners, pid) <==> HeaderOf(m, path).Root? && FirstHolder(m, order, pid, path);
      assert FirstHolder(m, order, pid, path) ==> Holds(m, pid, path);
    }
    var path :| OwnsRoot(m, pid, path);
    assert path in OwnedBy(found.owners, pid);
  }

  /** The first owner is the only one found exactly when it has every root open. */
  lemma {:induction false} SoleExactlyWithEveryRoot(m: Machine, root: Pid, order: seq<Pid>, found: Found, k: nat)
    requires Visits(m, order, root) && Complete(m, order, found) && FirstOwner(m, order, k)
    ensures found.owners.Keys == {order[k]} <==> HasEveryRoot(m, root, order[k])
  {
    hide Descends, Holds;
    var owners, pid := found.owners, order[k];
    FirstOwnerKeepsItsRoots(m, order, found, k);
    if HasEveryRoot(m, root, pid) {
      forall other | other in owners
        ensures other == pid
      {
        var path := owners[other][0];
        assert path in OwnedBy(owners, other);
        assert FirstHolder(m, order, other, path);
        assert OwnsRoot(m, other, path) && OwnsRoot(m, pid, path);
        forall j | k < j < |order|
          ensures HeldIn(m, order[..j], path)
        {
          assert order[..j][k] == pid;
        }
        var j :| 0 <= j < |order| && order[j] == other && Holds(m, other, path) && !HeldIn(m, order[..j], path);
        assert OwnsSome(m, other);
      }
      assert owners.Keys == {pid};
    } else {
      var other, path :| Descends(m, root, other) && OwnsRoot(m, other, path) && !OwnsRoot(m, pid, path);
      assert other in order && HeldIn(m, order, path);
      var holder := FindFirstHolder(m, order, path);
      assert path in OwnedBy(owners, holder);
      assert holder in owners && holder != pid;
    }
  }

  lemma {:induction false} AnswerIsTheFirstOwners(m: Machine, root: Pid, order: seq<Pid>, found: Found, id: string)
    requires Visits(m, order, root) && Complete(m, order, found)
    ensures Answer(m, found.owners) == Some(id) <==> Resolves(m, root, order, id)
  {
    hide Descends, OwnsRoot, Older, Chosen, IdOf, HasEveryRoot, FirstHolder, OwnsSome, NewestRoot;
    var owners := found.owners;
    if forall pid :: pid !in owners.Keys {
      assert owners.Keys == {} && Answer(m, owners) == None;
      forall k: nat
        ensures !FirstOwner(m, order, k)
      {
        NoneFoundNoneOwns(m, order, found, k);
      }
    } else {
      var some :| some in owners.Keys;
      assert owners[some][0] in OwnedBy(owners, some);
      SomeFoundSomeOwns(m, order, found, some, owners[some][0]);
      var k := FindFirstOwner(m, order, some);
      SoleExactlyWithEveryRoot(m, root, order, found, k);
      FirstOwnerKeepsItsRoots(m, order, found, k);
      assert forall j: nat :: FirstOwner(m, order, j) ==> j == k;
      if owners.Keys == {order[k]} {
        assert forall other :: owners.Keys == {other} ==> other == order[k];
        OnlyItsRoots(m, order, found, order[k], id);
        assert Answer(m, owners) == Chosen(m, owners[order[k]]);
      } else {
        assert forall other :: owners.Keys == {other} ==> other == order[k];
      }
    }
  }

  lemma {:induction false} NoneFoundNoneOwns(m: Machine, order: seq<Pid>, found: Found, k: nat)
    requires Complete(m, order, found) && found.owners.Keys == {}
    requires forall i, j :: 0 <= i < j < |order| ==> order[i] != order[j]
    ensures !FirstOwner(m, order, k)
  {
    hide Complete, OwnsSome;
    if FirstOwner(m, order, k) { FirstOwnerKeepsItsRoots(m, order, found, k); }
  }

  lemma {:induction false} SomeFoundSomeOwns(m: Machine, order: seq<Pid>, found: Found, pid: Pid, path: Path)
    requires Complete(m, order, found) && path in OwnedBy(found.owners, pid)
    ensures pid in order && OwnsSome(m, pid)
  {
    hide Tidy, HeldIn;
    assert FirstHolder(m, order, pid, path);
    assert OwnsRoot(m, pid, path);
  }

  lemma {:induction false} OnlyItsRoots(m: Machine, order: seq<Pid>, found: Found, pid: Pid, id: string)
    requires Complete(m, order, found) && pid in found.owners
    requires forall path :: path in OwnedBy(found.owners, pid) <==> OwnsRoot(m, pid, path)
    ensures found.owners[pid] != []
    ensures Chosen(m, found.owners[pid]) == Some(id) <==> exists path :: NewestRoot(m, pid, path) && IdOf(m, path) == id
  {
    hide OwnsRoot, Older, Chosen, IdOf, FirstHolder;
    var roots := OwnedBy(found.owners, pid);
    ChosenIsNewest(m, roots, id);
    forall path
      ensures NewestRoot(m, pid, path) <==> NewestOf(m, roots, path)
    {
    }
  }

  /** The first owner visited has every root of the tree open, and the id is that of its only or strictly newest root. */
  ghost predicate Resolves(m: Machine, root: Pid, order: seq<Pid>, id: string)
  {
    exists k: nat, path :: FirstOwner(m, order, k) && HasEveryRoot(m, root, order[k]) && NewestRoot(m, order[k], path) && IdOf(m, path) == id
  }

  /** With everything readable, whatever is shared and in whatever order the tree is visited, an id comes back exactly
      when the first owner visited has every root of the tree open and the id is that of its only or newest root. */
  lemma {:induction false} ResolvesToTheNewestRoot(m: Machine, root: Pid, order: seq<Pid>, id: string)
    requires ReadableTree(m, root) && Visits(m, order, root)
    ensures AnswerFor(m, order) == Some(id) <==> Resolves(m, root, order, id)
  {
    hide Descends, Scan, ReadableAt, Holds, Complete, Answer, Resolves;
    var start := Found({}, map[]);
    assert [] + order == order;
    NothingFoundYet(m);
    ScanCompletes(m, [], order, start);
    AnswerIsTheFirstOwners(m, root, order, Scan(m, order, start).value, id);
  }

  lemma {:induction false} NothingFoundYet(m: Machine)
    ensures Complete(m, [], Found({}, map[]))
  {
  }

  /** Where no rollout is open in two processes, that is the newest root of the one process that owns any. */
  lemma {:induction false} UnsharedResolvesToTheSoleOwner(m: Machine, root: Pid, order: seq<Pid>, id: string)
    requires ReadableTree(m, root) && UnsharedTree(m, root) && Visits(m, order, root)
    ensures AnswerFor(m, order) == Some(id) <==>
            exists pid, path :: SoleOwner(m, root, pid) && NewestRoot(m, pid, path) && IdOf(m, path) == id
  {
    hide Descends, ReadableAt, Holds, AnswerFor, IdOf, Older;
    ResolvesToTheNewestRoot(m, root, order, id);
    forall k: nat | FirstOwner(m, order, k)
      ensures HasEveryRoot(m, root, order[k]) <==> SoleOwner(m, root, order[k])
    {
      assert Descends(m, root, order[k]);
    }
    if exists pid, path :: SoleOwner(m, root, pid) && NewestRoot(m, pid, path) && IdOf(m, path) == id {
      var pid, path :| SoleOwner(m, root, pid) && NewestRoot(m, pid, path) && IdOf(m, path) == id;
      var k := FindFirstOwner(m, order, pid);
      assert order[k] in order && order[k] == pid;
    }
  }

  // ---------- When the listing does not matter ----------

  ghost predicate TreeRoot(m: Machine, root: Pid, path: Path)
  {
    exists pid :: Descends(m, root, pid) && OwnsRoot(m, pid, path)
  }

  /** Of all the roots open in the tree, the only one, or the strictly newest. */
  ghost predicate NewestInTree(m: Machine, root: Pid, path: Path)
  {
    TreeRoot(m, root, path) && forall q :: TreeRoot(m, root, q) && q != path ==> Older(m, q, path)
  }

  lemma {:induction false} NewestOfAll(m: Machine, root: Pid, pid: Pid, path: Path)
    requires Descends(m, root, pid) && HasEveryRoot(m, root, pid)
    ensures NewestRoot(m, pid, path) <==> NewestInTree(m, root, path)
  {
    hide Descends, OwnsRoot, Older;
    forall q
      ensures TreeRoot(m, root, q) <==> OwnsRoot(m, pid, q)
    {
    }
  }

  lemma {:induction false} ResolvesInTree(m: Machine, root: Pid, order: seq<Pid>, k: nat, id: string)
    requires Visits(m, order, root) && FirstOwner(m, order, k)
    ensures Resolves(m, root, order, id) <==>
            HasEveryRoot(m, root, order[k]) && exists path :: NewestInTree(m, root, path) && IdOf(m, path) == id
  {
    hide Descends, OwnsSome, HasEveryRoot, NewestRoot, NewestInTree, IdOf;
    assert order[k] in order && forall j: nat :: FirstOwner(m, order, j) ==> j == k;
    if HasEveryRoot(m, root, order[k]) {
      forall path
        ensures NewestRoot(m, order[k], path) <==> NewestInTree(m, root, path)
      {
        NewestOfAll(m, root, order[k], path);
      }
    }
  }

  /** A process whose descriptors cannot be read could own another root: then there is no answer at all. */
  lemma {:induction false} UnreadableMeansNoAnswer(m: Machine, root: Pid, order: seq<Pid>)
    requires !ReadableTree(m, root) && Visits(m, order, root)
    ensures AnswerFor(m, order) == None
  {
    hide Descends, Scan, ReadableAt;
    UnreadableStops(m, [], order, Found({}, map[]));
  }

  /** What resolve returns for a machine. */
  lemma {:induction false} ResolveIsCorrect(m: Machine, root: Pid, id: string)
    ensures AnswerFor(m, VisitOrder(m, root)) == Some(id) <==> ReadableTree(m, root) && Resolves(m, root, VisitOrder(m, root), id)
  {
    hide ReadableTree, Visits, AnswerFor, Resolves, VisitOrder;
    WorklistVisitsTheTree(m, root);
    if ReadableTree(m, root) {
      ResolvesToTheNewestRoot(m, root, VisitOrder(m, root), id);
    } else {
      UnreadableMeansNoAnswer(m, root, VisitOrder(m, root));
    }
  }

  // ---------- Which owners can be visited first ----------

  /** A line of descent with no owner above its end. */
  ghost predicate OwnerlessAbove(m: Machine, chain: seq<Pid>, root: Pid, pid: Pid)
  {
    Descent(m, chain, root, pid) && forall k :: 0 <= k < |chain| - 1 ==> !OwnsSome(m, chain[k])
  }

  /** An owner that some line of descent reaches before any other. */
  ghost predicate TopOwner(m: Machine, root: Pid, pid: Pid)
  {
    OwnsSome(m, pid) && exists chain :: OwnerlessAbove(m, chain, root, pid)
  }

  /** No root of the tree is the newest, or the top owners all have every root open, or none of them has. */
  ghost predicate Settled(m: Machine, root: Pid)
  {
    || (forall path :: !NewestInTree(m, root, path))
    || (forall pid :: TopOwner(m, root, pid) ==> HasEveryRoot(m, root, pid))
    || (forall pid :: TopOwner(m, root, pid) ==> !HasEveryRoot(m, root, pid))
  }

  ghost predicate ParentBefore(m: Machine, order: seq<Pid>, j: nat)
    requires j < |order|
  {
    exists i :: 0 <= i < j && IsChild(m, order[i], order[j])
  }

  /** Pending at first, or visited after a parent. */
  ghost predicate Reached(m: Machine, pending: seq<Pid>, order: seq<Pid>, j: nat)
    requires j < |order|
  {
    order[j] in pending || ParentBefore(m, order, j)
  }

  ghost predicate AllReached(m: Machine, pending: seq<Pid>, order: seq<Pid>)
  {
    forall j :: 0 <= j < |order| ==> Reached(m, pending, order, j)
  }

  /** Whatever was not pending at first is visited after a parent. */
  lemma {:induction false} ParentsComeFirst(m: Machine, root: Pid, pending: seq<Pid>, visited: set<Pid>)
    requires InPlay(m, root, pending, visited)
    ensures AllReached(m, pending, Order(m, root, pending, visited))
    decreases Left(m, root, visited), |pending|
  {
    hide InPlay, Left, Children, AllReached;
    if pending == [] {
      NoneReached(m);
    } else {
      var pid, rest := pending[|pending| - 1], pending[..|pending| - 1];
      assert pending == rest + [pid];
      PopStaysInPlay(m, root, pending, visited);
      if pid in visited {
        ParentsComeFirst(m, root, rest, visited);
        StillReached(m, rest, pid, Order(m, root, rest, visited));
      } else {
        ParentsComeFirst(m, root, rest + Children(m, pid), visited + {pid});
        ReachedThrough(m, rest, pid, Order(m, root, rest + Children(m, pid), visited + {pid}));
      }
    }
  }

  lemma {:induction false} NoneReached(m: Machine)
    ensures AllReached(m, [], [])
  {
  }

  lemma {:induction false} StillReached(m: Machine, rest: seq<Pid>, pid: Pid, order: seq<Pid>)
    requires AllReached(m, rest, order)
    ensures AllReached(m, rest + [pid], order)
  {
    forall j | 0 <= j < |order|
      ensures Reached(m, rest + [pid], order, j)
    {
      assert Reached(m, rest, order, j);
    }
  }

  lemma {:induction false} ReachedThrough(m: Machine, rest: seq<Pid>, pid: Pid, later: seq<Pid>)
    requires AllReached(m, rest + Children(m, pid), later)
    ensures AllReached(m, rest + [pid], [pid] + later)
  {
    hide ParentBefore;
    forall j | 0 <= j < |later| + 1
      ensures Reached(m, rest + [pid], [pid] + later, j)
    {
      if j > 0 {
        assert Reached(m, rest + Children(m, pid), later, j - 1);
        LaterParent(m, pid, rest, later, j - 1);
      }
    }
  }

  lemma {:induction false} LaterParent(m: Machine, pid: Pid, rest: seq<Pid>, later: seq<Pid>, j: nat)
    requires j < |later| && (later[j] in rest + Children(m, pid) || ParentBefore(m, later, j))
    ensures later[j] in rest || ParentBefore(m, [pid] + later, j + 1)
  {
    var order := [pid] + later;
    if ParentBefore(m, later, j) {
      var i :| 0 <= i < j && IsChild(m, later[i], later[j]);
      assert order[i + 1] == later[i];
    } else {
      assert later[j] in Children(m, pid) ==> IsChild(m, order[0], order[j + 1]);
    }
  }

  /** So a line of descent to it has been visited before it. */
  lemma {:induction false} DescentIsVisitedBefore(m: Machine, root: Pid, order: seq<Pid>, j: nat) returns (chain: seq<Pid>)
    requires AllReached(m, [root], order)
    requires j < |order|
    ensures Descent(m, chain, root, order[j]) && forall k :: 0 <= k < |chain| - 1 ==> chain[k] in order[..j]
  {
    hide IsChild;
    if order[j] == root {
      chain := [root];
    } else {
      assert Reached(m, [root], order, j);
      var i :| 0 <= i < j && IsChild(m, order[i], order[j]);
      var above := DescentIsVisitedBefore(m, root, order, i);
      chain := above + [order[j]];
      forall k | 0 <= k < |above|
        ensures above[k] in order[..j]
      {
        assert order[i] == order[..j][i];
        assert k < |above| - 1 ==> above[k] in order[..i] && order[..i] <= order[..j];
      }
    }
  }

  /** The first owner that the worklist visits is a top owner. */
  lemma {:induction false} FirstOwnerIsTop(m: Machine, root: Pid, k: nat)
    requires FirstOwner(m, VisitOrder(m, root), k)
    ensures TopOwner(m, root, VisitOrder(m, root)[k])
  {
    hide OwnsSome, Order, Descent, Reached;
    ParentsComeFirst(m, root, [root], {});
    var order := VisitOrder(m, root);
    var chain := DescentIsVisitedBefore(m, root, order, k);
    assert forall p :: p in order[..k] ==> !OwnsSome(m, p);
    assert OwnerlessAbove(m, chain, root, order[k]);
  }

  // ---------- Listing a line of descent first ----------

  ghost predicate NoRepeats(chain: seq<Pid>)
  {
    forall i, j :: 0 <= i < j < |chain| ==> chain[i] != chain[j]
  }

  /** A line of descent needs no process twice. */
  lemma {:induction false} Shortened(m: Machine, chain: seq<Pid>, root: Pid, pid: Pid) returns (short: seq<Pid>)
    requires OwnerlessAbove(m, chain, root, pid)
    ensures OwnerlessAbove(m, short, root, pid) && NoRepeats(short)
    decreases |chain|
  {
    hide OwnsSome, IsChild;
    if NoRepeats(chain) {
      short := chain;
    } else {
      var i, j :| 0 <= i < j < |chain| && chain[i] == chain[j];
      var cut := chain[..i] + chain[j..];
      forall k | 0 <= k < |cut|
        ensures cut[k] == (if k < i then chain[k] else chain[k + j - i]) && (k == i ==> cut[k] == chain[i])
      {
      }
      assert forall k :: 0 < k < |cut| ==> IsChild(m, cut[k - 1], cut[k]);
      short := Shortened(m, cut, root, pid);
    }
  }

  /** Each member of the line is the last listed child of the one above, so the worklist takes the line first. */
  ghost predicate ListedLast(m: Machine, chain: seq<Pid>)
  {
    forall k :: 0 < k < |chain| ==> LastChild(m, chain[k - 1], chain[k])
  }

  predicate LastChild(m: Machine, parent: Pid, pid: Pid)
  {
    var children := Children(m, parent);
    children != [] && children[|children| - 1] == pid
  }

  lemma {:induction false} LineIsVisitedFirst(m: Machine, root: Pid, chain: seq<Pid>, i: nat, pending: seq<Pid>, visited: set<Pid>)
    requires InPlay(m, root, pending, visited) && NoRepeats(chain) && ListedLast(m, chain)
    requires i < |chain| && pending != [] && pending[|pending| - 1] == chain[i]
    requires forall pid :: pid in visited ==> pid in chain[..i]
    ensures chain[i..] <= Order(m, root, pending, visited)
    decreases |chain| - i
  {
    hide InPlay, Left, Children;
    var pid, rest := pending[|pending| - 1], pending[..|pending| - 1];
    PopStaysInPlay(m, root, pending, visited);
    assert chain[i..] == [chain[i]] + chain[i + 1..];
    var after := rest + Children(m, pid);
    if i + 1 < |chain| {
      assert LastChild(m, chain[i], chain[i + 1]);
      assert chain[..i + 1] == chain[..i] + [pid];
      LineIsVisitedFirst(m, root, chain, i + 1, after, visited + {pid});
    }
  }

  /** The children listed under a parent. */
  function Kids(listing: seq<(Pid, Option<Pid>)>, parent: Pid): seq<Pid>
  {
    if listing == [] then []
    else
      var (pid, above) := listing[|listing| - 1];
      Kids(listing[..|listing| - 1], parent) + if above == Some(parent) then [pid] else []
  }

  function Listed(listing: seq<(Pid, Option<Pid>)>, m: Machine): Machine
  {
    m.(children := ByParent(listing))
  }

  lemma {:induction false} KidsAreChildren(listing: seq<(Pid, Option<Pid>)>, m: Machine, parent: Pid)
    ensures Children(Listed(listing, m), parent) == Kids(listing, parent)
  {
    if listing != [] {
      KidsAreChildren(listing[..|listing| - 1], m, parent);
    }
  }

  lemma {:induction false} KidsAppend(a: seq<(Pid, Option<Pid>)>, b: seq<(Pid, Option<Pid>)>, parent: Pid)
    ensures Kids(a + b, parent) == Kids(a, parent) + Kids(b, parent)
  {
    if b == [] {
      assert a + b == a;
    } else {
      assert (a + b)[..|a + b| - 1] == a + b[..|b| - 1];
      KidsAppend(a, b[..|b| - 1], parent);
    }
  }

  lemma {:induction false} KidsAreListed(listing: seq<(Pid, Option<Pid>)>, parent: Pid, pid: Pid)
    ensures pid in Kids(listing, parent) <==> (pid, Some(parent)) in listing
  {
    if listing != [] {
      var init, last := listing[..|listing| - 1], listing[|listing| - 1];
      assert listing == init + [last];
      KidsAreListed(init, parent, pid);
      assert last == (pid, Some(parent)) <==> last.0 == pid && last.1 == Some(parent);
    }
  }

  /** One process listed last: it is its parent's last child, and no one else's children change. */
  lemma {:induction false} MovedLast(listing: seq<(Pid, Option<Pid>)>, pid: Pid, parent: Pid) returns (moved: seq<(Pid, Option<Pid>)>)
    requires (pid, Some(parent)) in listing
    ensures multiset(moved) == multiset(listing)
    ensures Kids(moved, parent) != [] && Kids(moved, parent)[|Kids(moved, parent)| - 1] == pid
    ensures forall other :: other != parent ==> Kids(moved, other) == Kids(listing, other)
  {
    hide Kids;
    var one := [(pid, Some(parent))];
    var i :| 0 <= i < |listing| && listing[i] == one[0];
    var a, b := listing[..i], listing[i + 1..];
    assert listing == a + one + b;
    moved := a + b + one;
    forall other
      ensures Kids(moved, other) == Kids(a, other) + Kids(b, other) + Kids(one, other)
      ensures Kids(listing, other) == Kids(a, other) + Kids(one, other) + Kids(b, other)
      ensures Kids(one, other) == if other == parent then [pid] else []
    {
      KidsAppend(a + b, one, other);
      KidsAppend(a, b, other);
      KidsAppend(a + one, b, other);
      KidsAppend(a, one, other);
      KidsOfOne(pid, parent, other);
    }
  }

  lemma {:induction false} KidsOfOne(pid: Pid, parent: Pid, other: Pid)
    ensures Kids([(pid, Some(parent))], other) == if other == parent then [pid] else []
  {
    var one := [(pid, Some(parent))];
    assert one[..0] == [] && Kids(one[..0], other) == [];
  }

  /** The same processes listed so that the worklist takes a given line of descent first. */
  lemma {:induction false} LineListedLast(listing: seq<(Pid, Option<Pid>)>, m: Machine, chain: seq<Pid>) returns (moved: seq<(Pid, Option<Pid>)>)
    requires NoRepeats(chain) && chain != [] && forall k :: 0 < k < |chain| ==> IsChild(Listed(listing, m), chain[k - 1], chain[k])
    ensures multiset(moved) == multiset(listing) && ListedLast(Listed(moved, m), chain)
    decreases |chain|
  {
    hide ByParent, Kids, Children;
    moved := listing;
    var n := |chain| - 1;
    if n > 0 {
      var line := chain[..n];
      var before := LineListedLast(listing, m, line);
      assert IsChild(Listed(listing, m), chain[n - 1], chain[n]);
      KidsAreChildren(listing, m, chain[n - 1]);
      KidsAreListed(listing, chain[n - 1], chain[n]);
      assert (chain[n], Some(chain[n - 1])) in multiset(before);
      moved := MovedLast(before, chain[n], chain[n - 1]);
      forall k | 0 < k <= n
        ensures LastChild(Listed(moved, m), chain[k - 1], chain[k])
      {
        KidsAreChildren(before, m, chain[k - 1]);
        KidsAreChildren(moved, m, chain[k - 1]);
        assert k < n ==> LastChild(Listed(before, m), line[k - 1], line[k]);
      }
    }
  }

  // ---------- Listings of the same processes ----------

  /** The same processes with the same parents. */
  ghost predicate SameTree(m: Machine, n: Machine)
  {
    m.processes == n.processes && m.headers == n.headers && forall parent, pid :: IsChild(m, parent, pid) <==> IsChild(n, parent, pid)
  }

  lemma {:induction false} RelistedIsTheSameTree(listing: seq<(Pid, Option<Pid>)>, other: seq<(Pid, Option<Pid>)>, m: Machine)
    requires multiset(listing) == multiset(other)
    ensures SameTree(Listed(listing, m), Listed(other, m))
  {
    hide ByParent, Kids, Children;
    forall parent, pid
      ensures IsChild(Listed(listing, m), parent, pid) <==> IsChild(Listed(other, m), parent, pid)
    {
      KidsAreChildren(listing, m, parent);
      KidsAreChildren(other, m, parent);
      KidsAreListed(listing, parent, pid);
      KidsAreListed(other, parent, pid);
      assert (pid, Some(parent)) in multiset(listing) <==> (pid, Some(parent)) in multiset(other);
    }
  }

  lemma {:induction false} SameDescent(m: Machine, n: Machine, root: Pid)
    requires SameTree(m, n)
    ensures forall chain, pid :: Descent(m, chain, root, pid) <==> Descent(n, chain, root, pid)
    ensures forall pid :: Descends(m, root, pid) <==> Descends(n, root, pid)
  {
    hide IsChild;
    forall chain, pid
      ensures Descent(m, chain, root, pid) <==> Descent(n, chain, root, pid)
    {
    }
    hide Descent;
  }

  lemma {:induction false} SameOwners(m: Machine, n: Machine, root: Pid)
    requires SameTree(m, n)
    ensures forall pid :: OwnsSome(m, pid) <==> OwnsSome(n, pid)
    ensures forall pid :: TopOwner(m, root, pid) <==> TopOwner(n, root, pid)
  {
    hide Descent, IsChild;
    SameDescent(m, n, root);
    forall pid, path
      ensures OwnsRoot(m, pid, path) <==> OwnsRoot(n, pid, path)
    {
    }
    forall pid
      ensures OwnsSome(m, pid) <==> OwnsSome(n, pid)
    {
    }
    hide OwnsSome;
    forall chain, pid
      ensures OwnerlessAbove(m, chain, root, pid) <==> OwnerlessAbove(n, chain, root, pid)
    {
    }
  }

  lemma {:induction false} SameReading(m: Machine, n: Machine, pid: Pid)
    requires m.processes == n.processes && m.headers == n.headers
    ensures ReadableAt(m, pid) <==> ReadableAt(n, pid)
  {
    forall path
      ensures Holds(m, pid, path) <==> Holds(n, pid, path)
      ensures HeaderOf(m, path) == HeaderOf(n, path)
    {
    }
  }

  lemma {:induction false} SameRoots(m: Machine, n: Machine, root: Pid)
    requires SameTree(m, n)
    ensures ReadableTree(m, root) <==> ReadableTree(n, root)
    ensures forall pid :: HasEveryRoot(m, root, pid) <==> HasEveryRoot(n, root, pid)
    ensures forall path :: (NewestInTree(m, root, path) <==> NewestInTree(n, root, path)) && IdOf(m, path) == IdOf(n, path)
  {
    hide Descends, IsChild;
    SameDescent(m, n, root);
    forall pid, path
      ensures OwnsRoot(m, pid, path) <==> OwnsRoot(n, pid, path)
    {
    }
    forall pid
      ensures ReadableAt(m, pid) <==> ReadableAt(n, pid)
    {
      SameReading(m, n, pid);
    }
    forall a, b
      ensures Older(m, a, b) <==> Older(n, a, b)
    {
    }
    hide OwnsRoot, ReadableAt, Older;
    forall path
      ensures TreeRoot(m, root, path) <==> TreeRoot(n, root, path)
    {
    }
  }

  /** What resolve answers for a listing of the processes. */
  ghost function AnswerOf(listing: seq<(Pid, Option<Pid>)>, m: Machine, root: Pid): Option<string>
  {
    AnswerFor(Listed(listing, m), VisitOrder(Listed(listing, m), root))
  }

  /** The answer is an id exactly when the first owner has every root and the tree has a newest one. */
  lemma {:induction false} AnswersById(m: Machine, root: Pid, k: nat, id: string)
    requires ReadableTree(m, root) && FirstOwner(m, VisitOrder(m, root), k)
    ensures AnswerFor(m, VisitOrder(m, root)) == Some(id) <==>
            HasEveryRoot(m, root, VisitOrder(m, root)[k]) && exists path :: NewestInTree(m, root, path) && IdOf(m, path) == id
  {
    hide ReadableTree, Visits, AnswerFor, Resolves, VisitOrder, FirstOwner, HasEveryRoot, NewestInTree;
    WorklistVisitsTheTree(m, root);
    ResolveIsCorrect(m, root, id);
    ResolvesInTree(m, root, VisitOrder(m, root), k, id);
  }

  lemma {:induction false} SettledListingsAgree(m: Machine, n: Machine, root: Pid, id: string)
    requires SameTree(m, n) && (ReadableTree(m, root) ==> Settled(m, root))
    ensures AnswerFor(m, VisitOrder(m, root)) == Some(id) ==> AnswerFor(n, VisitOrder(n, root)) == Some(id)
  {
    hide Descends, OwnsSome, HasEveryRoot, NewestInTree, IdOf, NewestRoot, AnswerFor, ReadableTree, VisitOrder, TopOwner, SameTree;
    ResolveIsCorrect(m, root, id);
    var a, b := VisitOrder(m, root), VisitOrder(n, root);
    if AnswerFor(m, a) == Some(id) {
      SameRoots(m, n, root);
      SameOwners(m, n, root);
      SameDescent(m, n, root);
      WorklistVisitsTheTree(m, root);
      WorklistVisitsTheTree(n, root);
      var k: nat, path :| FirstOwner(m, a, k) && HasEveryRoot(m, root, a[k]) && NewestRoot(m, a[k], path) && IdOf(m, path) == id;
      assert a[k] in a && a[k] in b;
      var j := FindFirstOwner(n, b, a[k]);
      FirstOwnerIsTop(m, root, k);
      FirstOwnerIsTop(n, root, j);
      AnswersById(m, root, k, id);
      AnswersById(n, root, j, id);
    }
  }

  /** Any top owner is the first owner visited in some listing of the same processes. */
  lemma {:induction false} TopOwnerCanBeFirst(listing: seq<(Pid, Option<Pid>)>, m: Machine, root: Pid, pid: Pid)
      returns (other: seq<(Pid, Option<Pid>)>, k: nat)
    requires TopOwner(Listed(listing, m), root, pid)
    ensures multiset(other) == multiset(listing)
    ensures FirstOwner(Listed(other, m), VisitOrder(Listed(other, m), root), k) && VisitOrder(Listed(other, m), root)[k] == pid
  {
    hide OwnsSome, ByParent, Order, ListedLast, IsChild;
    var chain :| OwnerlessAbove(Listed(listing, m), chain, root, pid);
    chain := Shortened(Listed(listing, m), chain, root, pid);
    other := LineListedLast(listing, m, chain);
    var n := Listed(other, m);
    RelistedIsTheSameTree(listing, other, m);
    SameOwners(Listed(listing, m), n, root);
    Starting(n, root);
    LineIsVisitedFirst(n, root, chain, 0, [root], {});
    assert chain[0..] == chain;
    k := |chain| - 1;
    assert forall j :: 0 <= j <= k ==> VisitOrder(n, root)[j] == chain[j];
  }

  ghost predicate ListedAlike(listing: seq<(Pid, Option<Pid>)>, other: seq<(Pid, Option<Pid>)>, m: Machine, root: Pid)
  {
    AnswerOf(listing, m, root) == AnswerOf(other, m, root)
  }

  /** The order in which the processes are listed never changes the answer, exactly when something in the tree cannot be
      read or the tree is settled. */
  lemma {:induction false} ListingDoesNotMatterExactlyWhenSettled(listing: seq<(Pid, Option<Pid>)>, m: Machine, root: Pid)
    ensures (forall other :: multiset(other) == multiset(listing) ==> ListedAlike(listing, other, m, root))
            <==> (ReadableTree(Listed(listing, m), root) ==> Settled(Listed(listing, m), root))
  {
    hide ReadableTree, Settled, ByParent, VisitOrder, AnswerFor;
    var here := Listed(listing, m);
    if ReadableTree(here, root) ==> Settled(here, root) {
      forall other | multiset(other) == multiset(listing)
        ensures ListedAlike(listing, other, m, root)
      {
        var there := Listed(other, m);
        RelistedIsTheSameTree(listing, other, m);
        RelistedIsTheSameTree(other, listing, m);
        SettledAlike(here, there, root);
        if AnswerOf(listing, m, root).Some? { SettledListingsAgree(here, there, root, AnswerOf(listing, m, root).value); }
        if AnswerOf(other, m, root).Some? { SettledListingsAgree(there, here, root, AnswerOf(other, m, root).value); }
      }
    } else {
      var a, b := UnsettledListings(listing, m, root);
      assert !ListedAlike(listing, a, m, root) || !ListedAlike(listing, b, m, root);
    }
  }

  lemma {:induction false} SettledAlike(m: Machine, n: Machine, root: Pid)
    requires SameTree(m, n)
    ensures ReadableTree(m, root) <==> ReadableTree(n, root)
    ensures Settled(m, root) <==> Settled(n, root)
  {
    hide ReadableTree, HasEveryRoot, TopOwner, NewestInTree, SameTree;
    SameRoots(m, n, root);
    SameOwners(m, n, root);
  }

  lemma {:induction false} UnsettledListings(listing: seq<(Pid, Option<Pid>)>, m: Machine, root: Pid)
      returns (a: seq<(Pid, Option<Pid>)>, b: seq<(Pid, Option<Pid>)>)
    requires ReadableTree(Listed(listing, m), root) && !Settled(Listed(listing, m), root)
    ensures multiset(a) == multiset(listing) && multiset(b) == multiset(listing)
    ensures AnswerOf(a, m, root).Some? && AnswerOf(b, m, root) == None
  {
    hide ReadableTree, HasEveryRoot, TopOwner, NewestInTree, SameTree, VisitOrder, AnswerFor, ByParent, FirstOwner, IdOf;
    var here := Listed(listing, m);
    var path :| NewestInTree(here, root, path);
    var p :| TopOwner(here, root, p) && HasEveryRoot(here, root, p);
    var q :| TopOwner(here, root, q) && !HasEveryRoot(here, root, q);
    var i, j: nat;
    a, i := TopOwnerCanBeFirst(listing, m, root, p);
    b, j := TopOwnerCanBeFirst(listing, m, root, q);
    RelistedIsTheSameTree(listing, a, m);
    RelistedIsTheSameTree(listing, b, m);
    SameRoots(here, Listed(a, m), root);
    SameRoots(here, Listed(b, m), root);
    AnswersById(Listed(a, m), root, i, IdOf(here, path));
    if AnswerOf(b, m, root).Some? { AnswersById(Listed(b, m), root, j, AnswerOf(b, m, root).value); }
  }

  // ---------- Shared rollouts ----------

  /** Two Codex processes under one shell: the first has both rollouts open, the second only the older. */
  function Shared(siblings: seq<Pid>, early: string, late: string): Machine
  {
    Machine(map[1 := siblings],
            map[2 := Process(true, Some([Open("a"), Open("b")])), 3 := Process(true, Some([Open("a")]))],
            map["a" := Root("old", Some(early)), "b" := Root("new", Some(late))])
  }

  lemma {:induction false} SiblingOrder(m: Machine, first: Pid, second: Pid)
    requires m.children == map[1 := [second, first]] && first != 1 && second != 1 && first != second
    ensures VisitOrder(m, 1) == [1, first, second]
  {
    var all := Everyone(m, 1);
    assert first in m.children[1] && second in m.children[1];
    assert first in all && second in all;
    var none: seq<Pid> := [];
    assert Order(m, 1, [second], {1, first}) == [second] by {
      assert [second][..0] + Children(m, second) == none;
      assert Order(m, 1, none, {1, first} + {second}) == none;
    }
    assert Order(m, 1, [second, first], {1}) == [first, second] by {
      assert [second, first][..1] + Children(m, first) == [second];
      assert {1} + {first} == {1, first};
    }
    assert [1][..0] + Children(m, 1) == [second, first];
    assert {} + {1} == {1};
  }

  /** For example: here the order of two siblings decides between an answer and none. */
  lemma {:induction false} SharedRolloutsDependOnOrder(early: string, late: string)
    requires Calendar.StampShape(early) && Calendar.StampShape(late) && Calendar.Less(early, late)
    ensures var m := Shared([3, 2], early, late);
            AnswerFor(m, VisitOrder(m, 1)) == Some("new")
    ensures var m := Shared([2, 3], early, late);
            AnswerFor(m, VisitOrder(m, 1)) == None
  {
    hide VisitOrder, Calendar.StampShape, Calendar.Less, AnswerFor;
    var m, n := Shared([3, 2], early, late), Shared([2, 3], early, late);
    SiblingOrder(m, 2, 3);
    SiblingOrder(n, 3, 2);
    SharedOwners(m, [3, 2], early, late);
    SharedOwners(n, [2, 3], early, late);
    WorklistVisitsTheTree(m, 1);
    WorklistVisitsTheTree(n, 1);
    ResolveIsCorrect(m, 1, "new");
    assert "a"[0] != "b"[0];
    assert OwnsRoot(m, 2, "b") && Stamp(m, "a") == Some(early) && Stamp(m, "b") == Some(late);
    var order := [1, 2, 3];
    assert FirstOwner(m, order, 1) && order[1] == 2 && NewestRoot(m, 2, "b") && IdOf(m, "b") == "new";
    assert Resolves(m, 1, order, "new");
    assert OwnsRoot(n, 3, "a") && OwnsRoot(n, 2, "b") && !OwnsRoot(n, 3, "b");
    assert Descends(n, 1, 2) by { assert 2 in [1, 3, 2]; }
    var answer := AnswerFor(n, VisitOrder(n, 1));
    Unresolved(n, 1, [1, 3, 2], 1, answer.Or(""));
    ResolveIsCorrect(n, 1, answer.Or(""));
  }

  lemma {:induction false} Unresolved(m: Machine, root: Pid, order: seq<Pid>, k: nat, id: string)
    requires FirstOwner(m, order, k) && !HasEveryRoot(m, root, order[k])
    ensures !Resolves(m, root, order, id)
  {
    hide OwnsSome, HasEveryRoot, NewestRoot;
  }

  lemma {:induction false} SharedOwners(m: Machine, siblings: seq<Pid>, early: string, late: string)
    requires m == Shared(siblings, early, late)
    ensures ReadableTree(m, 1) && HasEveryRoot(m, 1, 2) && !OwnsSome(m, 1)
    ensures forall path :: OwnsRoot(m, 2, path) <==> path == "a" || path == "b"
    ensures forall path :: OwnsRoot(m, 3, path) <==> path == "a"
  {
    hide Descends;
    var one: seq<Descriptor>, two: seq<Descriptor> := [Open("a")], [Open("a"), Open("b")];
    assert forall path :: Open(path) in one <==> path == "a";
    assert forall path :: Open(path) in two <==> path == "a" || path == "b";
  }
}
