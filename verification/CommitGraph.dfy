/** Commit-graph lanes (src/graph.ts, computeGraph). Each lane holds the id it waits for, or nothing. */
module CommitGraph {
  import opened Basics

  type Id = string
  type Lanes = seq<Option<Id>>

  datatype Commit = Commit(id: Id, parents: seq<Id>)

  /** A line from one lane to another. */
  datatype Line = Line(start: nat, end: nat)

  datatype Row = Row(commit: Commit, lane: nat, inputs: seq<Line>, outputs: seq<Line>, maxLane: nat)

  // ---------- The parts of one row ----------

  function Claiming(lanes: Lanes, id: Id): (r: seq<nat>)
    ensures forall j :: 0 <= j < |r| ==> r[j] < |lanes| && lanes[r[j]] == Some(id)
    ensures forall i :: 0 <= i < |lanes| && lanes[i] == Some(id) ==> i in r
    ensures forall j, k :: 0 <= j < k < |r| ==> r[j] < r[k]
  {
    if lanes == [] then []
    else
      var n := |lanes| - 1;
      Claiming(lanes[..n], id) + if lanes[n] == Some(id) then [n] else []
  }

  function Passing(lanes: Lanes, id: Id): (r: seq<Line>)
    ensures forall line: Line ::
              line in r <==> line.start == line.end < |lanes| && lanes[line.start].Some? && lanes[line.start] != Some(id)
    ensures forall j, k :: 0 <= j < k < |r| ==> r[j].start < r[k].start
  {
    if lanes == [] then []
    else
      var n := |lanes| - 1;
      Passing(lanes[..n], id) + if lanes[n].Some? && lanes[n] != Some(id) then [Line(n, n)] else []
  }

  /** The first empty lane, or the next new one. */
  function Free(lanes: Lanes): (k: nat)
    ensures k <= |lanes| && (k < |lanes| ==> lanes[k] == None)
    ensures forall i :: 0 <= i < k ==> lanes[i].Some?
  {
    if lanes == [] || lanes[0] == None then 0 else 1 + Free(lanes[1..])
  }

  function Put(lanes: Lanes, k: nat, id: Id): Lanes
    requires k <= |lanes|
  {
    if k < |lanes| then lanes[k := Some(id)] else lanes + [Some(id)]
  }

  function Converging(claiming: seq<nat>, lane: nat): (r: seq<Line>)
    ensures |r| == |claiming| && forall j :: 0 <= j < |r| ==> r[j] == Line(claiming[j], lane)
  {
    seq(|claiming|, j requires 0 <= j < |claiming| => Line(claiming[j], lane))
  }

  function Closed(lanes: Lanes, which: seq<nat>): (r: Lanes)
    requires forall j :: 0 <= j < |which| ==> which[j] < |lanes|
    ensures |r| == |lanes| && forall i :: 0 <= i < |r| ==> r[i] == if i in which then None else lanes[i]
  {
    if which == [] then lanes
    else Closed(lanes, which[..|which| - 1])[which[|which| - 1] := None]
  }

  /** The first lane other than the dot's that waits for id, or the number of lanes. */
  function Waiting(lanes: Lanes, id: Id, lane: nat): (k: nat)
    ensures k <= |lanes| && (k < |lanes| ==> lanes[k] == Some(id) && k != lane)
    ensures forall i :: 0 <= i < k && i != lane ==> lanes[i] != Some(id)
  {
    WaitingFrom(lanes, id, lane, 0)
  }

  function WaitingFrom(lanes: Lanes, id: Id, lane: nat, from: nat): (k: nat)
    requires from <= |lanes|
    ensures from <= k <= |lanes| && (k < |lanes| ==> lanes[k] == Some(id) && k != lane)
    ensures forall i :: from <= i < k && i != lane ==> lanes[i] != Some(id)
    decreases |lanes| - from
  {
    if from == |lanes| || (lanes[from] == Some(id) && from != lane) then from
    else WaitingFrom(lanes, id, lane, from + 1)
  }

  datatype Fan = Fan(lanes: Lanes, lines: seq<Line>)

  /** The lane that takes an extra parent: one already waiting for it, or a free one. */
  function Target(lanes: Lanes, lane: nat, parent: Id): (k: nat)
    ensures k <= |lanes|
  {
    var k := Waiting(lanes, parent, lane);
    if k < |lanes| then k else Free(lanes)
  }

  function FanOut(lanes: Lanes, lane: nat, parents: seq<Id>): Fan
  {
    if parents == [] then Fan(lanes, [])
    else
      var fan := FanOut(lanes, lane, parents[..|parents| - 1]);
      var parent := parents[|parents| - 1];
      var k := Target(fan.lanes, lane, parent);
      Fan(Put(fan.lanes, k, parent), fan.lines + [Line(lane, k)])
  }

  function Popped(lanes: Lanes): (r: Lanes)
    ensures r <= lanes && (r != [] ==> r[|r| - 1].Some?)
    ensures forall i :: |r| <= i < |lanes| ==> lanes[i] == None
  {
    if lanes != [] && lanes[|lanes| - 1] == None then Popped(lanes[..|lanes| - 1]) else lanes
  }

  function Highest(lines: seq<Line>, floor: nat): (r: nat)
    ensures floor <= r && forall line :: line in lines ==> line.start <= r && line.end <= r
    ensures r == floor || exists line :: line in lines && (r == line.start || r == line.end)
  {
    if lines == [] then floor
    else
      var rest := Highest(lines[..|lines| - 1], floor);
      var last := lines[|lines| - 1];
      if last.start > rest && last.start >= last.end then last.start
      else if last.end > rest then last.end
      else rest
  }

  // ---------- One row ----------

  function DotLane(lanes: Lanes, id: Id): (lane: nat)
    ensures lane <= |lanes|
  {
    var claiming := Claiming(lanes, id);
    if claiming != [] then claiming[0] else Free(lanes)
  }

  /** The lanes with the dot's own lane taken. */
  function Opened(lanes: Lanes, id: Id): Lanes
  {
    if Claiming(lanes, id) != [] then lanes else Put(lanes, DotLane(lanes, id), id)
  }

  function Inputs(lanes: Lanes, id: Id): seq<Line>
  {
    Passing(Opened(lanes, id), id) + Converging(Claiming(lanes, id), DotLane(lanes, id))
  }

  function Merged(lanes: Lanes, id: Id): (r: Lanes)
    ensures DotLane(lanes, id) < |r|
  {
    var claiming := Claiming(lanes, id);
    assert claiming == [] ==> DotLane(lanes, id) == Free(lanes);
    Closed(Opened(lanes, id), if claiming != [] then claiming[1..] else [])
  }

  /** The first parent continues in the dot's lane and the others fan out; without parents the lane is empty. */
  function Descended(lanes: Lanes, lane: nat, parents: seq<Id>): Fan
    requires lane < |lanes|
  {
    if parents == [] then Fan(lanes[lane := None], [])
    else
      var fan := FanOut(lanes[lane := Some(parents[0])], lane, parents[1..]);
      Fan(fan.lanes, [Line(lane, lane)] + fan.lines)
  }

  /** The lines from the dot to its parents, and the lanes after them. */
  function Parents(lanes: Lanes, commit: Commit): Fan
  {
    Descended(Merged(lanes, commit.id), DotLane(lanes, commit.id), commit.parents)
  }

  function Outputs(lanes: Lanes, commit: Commit): seq<Line>
  {
    Passing(Opened(lanes, commit.id), commit.id) + Parents(lanes, commit).lines
  }

  function After(lanes: Lanes, commit: Commit): Lanes
  {
    Popped(Parents(lanes, commit).lanes)
  }

  function RowOf(lanes: Lanes, commit: Commit): Row
  {
    var lane, inputs, outputs := DotLane(lanes, commit.id), Inputs(lanes, commit.id), Outputs(lanes, commit);
    var after := After(lanes, commit);
    var floor := if |after| > lane then |after| - 1 else lane;
    Row(commit, lane, inputs, outputs, Highest(inputs + outputs, floor))
  }

  // ---------- The whole graph ----------

  function LanesAfter(commits: seq<Commit>): Lanes
  {
    if commits == [] then [] else After(LanesAfter(commits[..|commits| - 1]), commits[|commits| - 1])
  }

  function Rows(commits: seq<Commit>): seq<Row>
  {
    if commits == [] then []
    else Rows(commits[..|commits| - 1]) + [RowOf(LanesAfter(commits[..|commits| - 1]), commits[|commits| - 1])]
  }

  class LaneTable {
    var lanes: Lanes

    constructor ()
      ensures lanes == []
    {
      lanes := [];
    }

    method Alloc(id: Id) returns (k: nat)
      modifies this
      ensures k == Free(old(lanes)) && lanes == Put(old(lanes), k, id)
    {
      k := 0;
      while k < |lanes| && lanes[k] != None
        invariant k <= |lanes| && lanes == old(lanes) && Free(lanes) == k + Free(lanes[k..])
      {
        assert lanes[k..][1..] == lanes[k + 1..];
        k := k + 1;
      }
      if k < |lanes| {
        lanes := lanes[k := Some(id)];
      } else {
        lanes := lanes + [Some(id)];
      }
    }

    method FindClaiming(id: Id) returns (claiming: seq<nat>)
      ensures claiming == Claiming(lanes, id)
    {
      claiming := [];
      for i := 0 to |lanes|
        invariant claiming == Claiming(lanes[..i], id)
      {
        assert lanes[..i + 1][..i] == lanes[..i];
        if lanes[i] == Some(id) {
          claiming := claiming + [i];
        }
      }
      assert lanes[..|lanes|] == lanes;
    }

    method FindPassing(id: Id) returns (passing: seq<Line>)
      ensures passing == Passing(lanes, id)
    {
      passing := [];
      for i := 0 to |lanes|
        invariant passing == Passing(lanes[..i], id)
      {
        assert lanes[..i + 1][..i] == lanes[..i];
        if lanes[i].Some? && lanes[i] != Some(id) {
          passing := passing + [Line(i, i)];
        }
      }
      assert lanes[..|lanes|] == lanes;
    }

    method Close(which: seq<nat>)
      requires forall j :: 0 <= j < |which| ==> which[j] < |lanes|
      modifies this
      ensures lanes == Closed(old(lanes), which)
    {
      for i := 0 to |which|
        invariant |lanes| == |old(lanes)| && lanes == Closed(old(lanes), which[..i])
      {
        assert which[..i + 1][..i] == which[..i];
        lanes := lanes[which[i] := None];
      }
      assert which[..|which|] == which;
    }

    method FanToParents(lane: nat, parents: seq<Id>) returns (lines: seq<Line>)
      modifies this
      ensures lanes == FanOut(old(lanes), lane, parents).lanes && lines == FanOut(old(lanes), lane, parents).lines
    {
      lines := [];
      for i := 0 to |parents|
        invariant lanes == FanOut(old(lanes), lane, parents[..i]).lanes
        invariant lines == FanOut(old(lanes), lane, parents[..i]).lines
      {
        assert parents[..i + 1][..i] == parents[..i];
        var existing := Waiting(lanes, parents[i], lane);
        if existing < |lanes| {
          assert Put(lanes, existing, parents[i]) == lanes;
          lines := lines + [Line(lane, existing)];
        } else {
          var k := Alloc(parents[i]);
          lines := lines + [Line(lane, k)];
        }
      }
      assert parents[..|parents|] == parents;
    }

    method Pop()
      modifies this
      ensures lanes == Popped(old(lanes))
    {
      while |lanes| > 0 && lanes[|lanes| - 1] == None
        invariant Popped(lanes) == Popped(old(lanes))
      {
        lanes := lanes[..|lanes| - 1];
      }
    }

    method Descend(lane: nat, parents: seq<Id>) returns (lines: seq<Line>)
      requires lane < |lanes|
      modifies this
      ensures Descended(old(lanes), lane, parents) == Fan(lanes, lines)
    {
      lines := [];
      if parents == [] {
        lanes := lanes[lane := None];
      } else {
        lanes := lanes[lane := Some(parents[0])];
        var more := FanToParents(lane, parents[1..]);
        lines := [Line(lane, lane)] + more;
      }
    }

    /** Finds the dot's lane and the lines entering the row, and closes the lanes that end here. */
    method Enter(commit: Commit, first: bool) returns (lane: nat, inputs: seq<Line>, passing: seq<Line>)
      requires first ==> lanes == []
      modifies this
      ensures lane == DotLane(old(lanes), commit.id) && lanes == Merged(old(lanes), commit.id)
      ensures inputs == Inputs(old(lanes), commit.id) && passing == Passing(Opened(old(lanes), commit.id), commit.id)
    {
      hide Claiming, Passing, Closed, Free, Put, Converging;
      var claiming := FindClaiming(commit.id);
      if claiming != [] {
        lane := claiming[0];
      } else {
        lane := Alloc(commit.id);
      }
      passing := FindPassing(commit.id);
      inputs := passing;
      if !first {
        inputs := inputs + Converging(claiming, lane);
      }
      assert inputs == Inputs(old(lanes), commit.id) by { assert first ==> claiming == []; }
      Close(if claiming != [] then claiming[1..] else []);
    }

    /** One commit's row; the first row has no lines entering it. */
    method Place(commit: Commit, first: bool) returns (row: Row)
      requires first ==> lanes == []
      modifies this
      ensures row == RowOf(old(lanes), commit) && lanes == After(old(lanes), commit)
    {
      hide Passing, Descended, Popped, Highest, Merged, DotLane, Inputs, Opened;
      var lane, inputs, passing := Enter(commit, first);
      row := Finish(commit, lane, inputs, passing);
    }

    method Finish(commit: Commit, lane: nat, inputs: seq<Line>, passing: seq<Line>) returns (row: Row)
      requires lane < |lanes|
      modifies this
      ensures var fan := Descended(old(lanes), lane, commit.parents);
              var floor := if |Popped(fan.lanes)| > lane then |Popped(fan.lanes)| - 1 else lane;
              && lanes == Popped(fan.lanes)
              && row == Row(commit, lane, inputs, passing + fan.lines, Highest(inputs + (passing + fan.lines), floor))
    {
      var lines := Descend(lane, commit.parents);
      var outputs := passing + lines;
      Pop();
      var floor := if |lanes| > lane then |lanes| - 1 else lane;
      row := Row(commit, lane, inputs, outputs, Highest(inputs + outputs, floor));
    }
  }

  method ComputeGraph(commits: seq<Commit>) returns (rows: seq<Row>)
    ensures rows == Rows(commits)
  {
    hide RowOf, After;
    rows := [];
    var table := new LaneTable();
    for i := 0 to |commits|
      invariant |rows| == i && rows == Rows(commits[..i]) && table.lanes == LanesAfter(commits[..i])
    {
      assert commits[..i + 1][..i] == commits[..i];
      var row := table.Place(commits[i], |rows| == 0);
      rows := rows + [row];
    }
    assert commits[..|commits|] == commits;
  }

  // ---------- What one row draws ----------

  predicate Expects(lanes: Lanes, k: nat, id: Id)
  {
    k < |lanes| && lanes[k] == Some(id)
  }

  /** The dot takes the leftmost lane that waits for it, or the leftmost empty one. */
  lemma {:induction false} DotIsLeftmost(lanes: Lanes, id: Id)
    ensures var lane := DotLane(lanes, id);
            forall i :: 0 <= i < lane && i < |lanes| ==> lanes[i] != Some(id)
    ensures (exists i :: Expects(lanes, i, id)) <==> Expects(lanes, DotLane(lanes, id), id)
    ensures !Expects(lanes, DotLane(lanes, id), id) ==> DotLane(lanes, id) == Free(lanes)
  {
    var claiming := Claiming(lanes, id);
    if claiming != [] {
      assert claiming[0] in claiming;
    } else {
      forall i: nat
        ensures !Expects(lanes, i, id)
      {
        assert i !in claiming;
      }
    }
  }

  lemma {:induction false} PassingKeepsOff(lanes: Lanes, id: Id, line: Line)
    ensures line in Passing(Opened(lanes, id), id) <==>
            line.start == line.end < |lanes| && lanes[line.start].Some? && lanes[line.start] != Some(id)
    ensures line in Passing(Opened(lanes, id), id) ==> line.start != DotLane(lanes, id)
  {
    DotIsLeftmost(lanes, id);
  }

  /** Every lane in use enters the row once: straight, or into the dot if it waited for this commit. */
  lemma {:induction false} InputsAreTheLanes(lanes: Lanes, id: Id, line: Line)
    ensures line in Inputs(lanes, id) <==>
            line.start < |lanes| && lanes[line.start].Some?
            && line.end == if lanes[line.start] == Some(id) then DotLane(lanes, id) else line.start
  {
    hide Free, Passing, Claiming, Converging, DotLane, Opened;
    PassingKeepsOff(lanes, id, line);
  }

  /** The extra parents' lines leave the dot, in order, for lanes that then wait for them; nothing else changes. */
  lemma {:induction false} FanLands(lanes: Lanes, lane: nat, parents: seq<Id>)
    ensures var fan := FanOut(lanes, lane, parents);
            && |fan.lines| == |parents| && |lanes| <= |fan.lanes|
            && (forall i :: 0 <= i < |lanes| && lanes[i].Some? ==> fan.lanes[i] == lanes[i])
            && (forall j :: 0 <= j < |parents| ==>
                  fan.lines[j].start == lane && Expects(fan.lanes, fan.lines[j].end, parents[j]))
  {
    if parents != [] {
      var init, parent := parents[..|parents| - 1], parents[|parents| - 1];
      FanLands(lanes, lane, init);
      var fan := FanOut(lanes, lane, init);
      var k := Target(fan.lanes, lane, parent);
      assert k < |fan.lanes| && fan.lanes[k].Some? ==> fan.lanes[k] == Some(parent);
      var put := Put(fan.lanes, k, parent);
      assert forall i :: 0 <= i < |fan.lanes| && fan.lanes[i].Some? ==> put[i] == fan.lanes[i];
      assert FanOut(lanes, lane, parents) == Fan(put, fan.lines + [Line(lane, k)]);
    }
  }

  lemma {:induction false} FanOnlyAdds(lanes: Lanes, lane: nat, parents: seq<Id>, i: nat)
    requires i < |FanOut(lanes, lane, parents).lanes| && FanOut(lanes, lane, parents).lanes[i].Some?
    requires !(i < |lanes| && lanes[i] == FanOut(lanes, lane, parents).lanes[i])
    ensures exists j :: 0 <= j < |FanOut(lanes, lane, parents).lines| && FanOut(lanes, lane, parents).lines[j] == Line(lane, i)
  {
    if parents != [] {
      var init, parent := parents[..|parents| - 1], parents[|parents| - 1];
      var fan, whole := FanOut(lanes, lane, init), FanOut(lanes, lane, parents);
      var k := Target(fan.lanes, lane, parent);
      assert whole.lines[..|fan.lines|] == fan.lines && whole.lines[|fan.lines|] == Line(lane, k);
      if i != k {
        assert fan.lanes[i] == whole.lanes[i];
        FanOnlyAdds(lanes, lane, init, i);
        var j :| 0 <= j < |fan.lines| && fan.lines[j] == Line(lane, i);
        assert whole.lines[j] == Line(lane, i);
      }
    }
  }

  lemma {:induction false} MergedClears(lanes: Lanes, id: Id)
    ensures var merged := Merged(lanes, id);
            var lane := DotLane(lanes, id);
            && |lanes| <= |merged| <= |lanes| + 1
            && (forall i :: 0 <= i < |merged| && i != lane ==>
                  i < |lanes| && merged[i] == if lanes[i] == Some(id) then None else lanes[i])
  {
    hide Passing, Free;
    var claiming := Claiming(lanes, id);
    var rest := if claiming != [] then claiming[1..] else [];
    assert claiming != [] ==> claiming == [claiming[0]] + rest;
    assert forall i :: i in claiming <==> 0 <= i < |lanes| && lanes[i] == Some(id);
    assert forall i :: i in rest ==> i in claiming;
  }

  /** A lane that waits for another commit is passed straight through. */
  lemma {:induction false} OthersPass(lanes: Lanes, commit: Commit, k: nat, id: Id)
    requires Expects(lanes, k, id) && id != commit.id
    ensures Expects(After(lanes, commit), k, id)
    ensures Line(k, k) in Inputs(lanes, commit.id) && Line(k, k) in Outputs(lanes, commit)
    ensures k != DotLane(lanes, commit.id)
  {
    hide Passing, Claiming, Free, FanOut, Opened, Merged, DotLane, Inputs, Converging;
    InputsAreTheLanes(lanes, commit.id, Line(k, k));
    PassingKeepsOff(lanes, commit.id, Line(k, k));
    MergedClears(lanes, commit.id);
    var lane, merged := DotLane(lanes, commit.id), Merged(lanes, commit.id);
    if commit.parents != [] {
      FanLands(merged[lane := Some(commit.parents[0])], lane, commit.parents[1..]);
    }
    assert Parents(lanes, commit).lanes[k] == Some(id);
  }

  /** Every parent has its own line from the dot, in the parents' order, to a lane that then waits for it. */
  lemma {:induction false} ParentsAreDrawn(lanes: Lanes, commit: Commit, j: nat)
    requires j < |commit.parents|
    ensures var lines := Parents(lanes, commit).lines;
            && |lines| == |commit.parents| && lines[j] in Outputs(lanes, commit)
            && lines[j].start == DotLane(lanes, commit.id) && Expects(After(lanes, commit), lines[j].end, commit.parents[j])
  {
    hide Passing, Claiming, Free, FanOut, Opened, Merged, DotLane;
    var lane, merged := DotLane(lanes, commit.id), Merged(lanes, commit.id);
    var start := merged[lane := Some(commit.parents[0])];
    FanLands(start, lane, commit.parents[1..]);
    var fan := FanOut(start, lane, commit.parents[1..]);
    assert fan.lanes[lane] == Some(commit.parents[0]);
    assert j > 0 ==> Parents(lanes, commit).lines[j] == fan.lines[j - 1] && commit.parents[1..][j - 1] == commit.parents[j];
  }

  /** A lane in use below the row was passed through it, or its line left the dot for one of the parents. */
  lemma {:induction false} LanesHaveALine(lanes: Lanes, commit: Commit, k: nat, id: Id)
    requires Expects(After(lanes, commit), k, id)
    ensures (Expects(lanes, k, id) && id != commit.id)
            || exists j :: 0 <= j < |commit.parents| && commit.parents[j] == id && Drawn(lanes, commit, j) == Line(DotLane(lanes, commit.id), k)
  {
    hide Passing, Claiming, Free, FanOut, Opened, Merged, DotLane;
    var lane, merged := DotLane(lanes, commit.id), Merged(lanes, commit.id);
    MergedClears(lanes, commit.id);
    var lines := Parents(lanes, commit).lines;
    if commit.parents != [] {
      var start := merged[lane := Some(commit.parents[0])];
      var fan := FanOut(start, lane, commit.parents[1..]);
      FanLands(start, lane, commit.parents[1..]);
      if k == lane {
        assert fan.lanes[lane] == start[lane];
        assert Drawn(lanes, commit, 0) == Line(lane, k);
      } else if !(k < |start| && start[k] == fan.lanes[k]) {
        FanOnlyAdds(start, lane, commit.parents[1..], k);
        var j :| 0 <= j < |fan.lines| && fan.lines[j] == Line(lane, k);
        assert Drawn(lanes, commit, j + 1) == Line(lane, k);
      }
    }
  }

  /** The line drawn to a commit's j-th parent. */
  function Drawn(lanes: Lanes, commit: Commit, j: nat): Line
    requires j < |commit.parents|
  {
    ParentsAreDrawn(lanes, commit, j);
    Parents(lanes, commit).lines[j]
  }

  lemma {:induction false} DrawnLeavesTheDot(lanes: Lanes, commit: Commit, j: nat)
    requires j < |commit.parents|
    ensures Drawn(lanes, commit, j) in Outputs(lanes, commit) && Drawn(lanes, commit, j).start == DotLane(lanes, commit.id)
    ensures Expects(After(lanes, commit), Drawn(lanes, commit, j).end, commit.parents[j])
  {
    hide Outputs, DotLane, After, Parents;
    ParentsAreDrawn(lanes, commit, j);
  }

  // ---------- Whole edges ----------

  lemma {:induction false} RowAt(commits: seq<Commit>, k: nat)
    requires k < |commits|
    ensures |Rows(commits)| == |commits| && Rows(commits)[k] == RowOf(LanesAfter(commits[..k]), commits[k])
    ensures LanesAfter(commits[..k + 1]) == After(LanesAfter(commits[..k]), commits[k])
  {
    hide RowOf, After;
    assert commits[..k + 1][..k] == commits[..k];
    var n := |commits| - 1;
    if k < n {
      RowAt(commits[..n], k);
      assert commits[..n][..k] == commits[..k];
    } else {
      assert commits[..n] == commits[..k];
      RowsLength(commits);
    }
  }

  lemma {:induction false} RowsLength(commits: seq<Commit>)
    ensures |Rows(commits)| == |commits|
  {
    hide RowOf;
    if commits != [] {
      RowsLength(commits[..|commits| - 1]);
    }
  }

  /** Commits k + 1 up to m are not id. */
  predicate Absent(commits: seq<Commit>, k: nat, m: nat, id: Id)
    requires m <= |commits|
  {
    forall i :: k < i < m ==> commits[i].id != id
  }

  /** One unbroken straight line in a lane through the rows strictly between k and m, past every dot there. */
  predicate Straight(rows: seq<Row>, l: nat, k: nat, m: nat)
    requires m <= |rows|
  {
    forall i :: k < i < m ==> Line(l, l) in rows[i].inputs && Line(l, l) in rows[i].outputs && l != rows[i].lane
  }

  lemma {:induction false} StaysStraight(commits: seq<Commit>, k: nat, m: nat, l: nat, id: Id)
    requires k < m <= |commits| && Expects(LanesAfter(commits[..k + 1]), l, id) && Absent(commits, k, m, id)
    ensures |Rows(commits)| == |commits| && Straight(Rows(commits), l, k, m)
    ensures Expects(LanesAfter(commits[..m]), l, id)
  {
    hide LanesAfter, Rows, After, Inputs, Outputs, DotLane;
    RowsLength(commits);
    if k + 1 < m {
      StaysStraight(commits, k, m - 1, l, id);
      RowAt(commits, m - 1);
      OthersPass(LanesAfter(commits[..m - 1]), commits[m - 1], l, id);
    }
  }

  /** Every edge from a commit to the next listing of its parent is drawn whole: out of the child's dot, straight down
      one lane past every dot between, and into the parent's dot. */
  lemma {:induction false} EdgeIsDrawn(commits: seq<Commit>, k: nat, j: nat, m: nat) returns (l: nat)
    requires k < m < |commits| && j < |commits[k].parents|
    requires commits[k].parents[j] == commits[m].id && Absent(commits, k, m, commits[m].id)
    ensures |Rows(commits)| == |commits|
    ensures var rows := Rows(commits);
            Line(rows[k].lane, l) in rows[k].outputs && Straight(rows, l, k, m) && Line(l, rows[m].lane) in rows[m].inputs
  {
    hide LanesAfter, Rows, After, Inputs, Outputs, DotLane;
    var id := commits[m].id;
    RowAt(commits, k);
    RowAt(commits, m);
    var before := LanesAfter(commits[..k]);
    DrawnLeavesTheDot(before, commits[k], j);
    l := Drawn(before, commits[k], j).end;
    StaysStraight(commits, k, m, l, id);
    InputsAreTheLanes(LanesAfter(commits[..m]), id, Line(l, DotLane(LanesAfter(commits[..m]), id)));
  }

  /** And nothing else is drawn: a lane in use after n rows was opened by an edge to the commit it waits for, which has
      not been listed since. */
  lemma {:induction false} LaneIsAnEdge(commits: seq<Commit>, n: nat, l: nat, id: Id) returns (k: nat)
    requires n <= |commits| && Expects(LanesAfter(commits[..n]), l, id)
    ensures k < n && id in commits[k].parents && Absent(commits, k, n, id)
    ensures |Rows(commits)| == |commits| && Straight(Rows(commits), l, k, n)
    ensures Line(Rows(commits)[k].lane, l) in Rows(commits)[k].outputs
  {
    hide Rows, After, Inputs, Outputs, DotLane, Drawn, LanesAfter;
    RowsLength(commits);
    NoLanesNoInputs(id);
    assert commits[..0] == [];
    RowAt(commits, n - 1);
    var before, commit := LanesAfter(commits[..n - 1]), commits[n - 1];
    LanesHaveALine(before, commit, l, id);
    if Expects(before, l, id) && id != commit.id {
      k := LaneIsAnEdge(commits, n - 1, l, id);
      OthersPass(before, commit, l, id);
    } else {
      k := n - 1;
      var j :| 0 <= j < |commit.parents| && commit.parents[j] == id && Drawn(before, commit, j) == Line(DotLane(before, commit.id), l);
      DrawnLeavesTheDot(before, commit, j);
    }
  }

  /** Every line into a dot is an edge from a listed child. */
  lemma {:induction false} InputsAreEdges(commits: seq<Commit>, m: nat, l: nat) returns (k: nat)
    requires m < |commits| && |Rows(commits)| == |commits| && Line(l, Rows(commits)[m].lane) in Rows(commits)[m].inputs
    ensures k < m && commits[m].id in commits[k].parents && Absent(commits, k, m, commits[m].id)
    ensures Straight(Rows(commits), l, k, m) && Line(Rows(commits)[k].lane, l) in Rows(commits)[k].outputs
  {
    hide LanesAfter, Rows, After, Inputs, Outputs, DotLane;
    RowAt(commits, m);
    var before, id := LanesAfter(commits[..m]), commits[m].id;
    InputsAreTheLanes(before, id, Line(l, DotLane(before, id)));
    DotIsLeftmost(before, id);
    if before[l] != Some(id) {
    }
    k := LaneIsAnEdge(commits, m, l, id);
  }

  // ---------- Rows fit together ----------

  function Starts(lines: seq<Line>): set<nat>
  {
    set line | line in lines :: line.start
  }

  function Ends(lines: seq<Line>): set<nat>
  {
    set line | line in lines :: line.end
  }

  function InUse(lanes: Lanes): set<nat>
  {
    set k: nat | k < |lanes| && lanes[k].Some?
  }

  lemma {:induction false} InputsStartInUse(lanes: Lanes, id: Id)
    ensures Starts(Inputs(lanes, id)) == InUse(lanes)
  {
    hide Inputs, DotLane;
    forall k: nat
      ensures k in Starts(Inputs(lanes, id)) <==> k in InUse(lanes)
    {
      if k in InUse(lanes) {
        var line := Line(k, if lanes[k] == Some(id) then DotLane(lanes, id) else k);
        InputsAreTheLanes(lanes, id, line);
      } else if k in Starts(Inputs(lanes, id)) {
        var line :| line in Inputs(lanes, id) && line.start == k;
        InputsAreTheLanes(lanes, id, line);
      }
    }
  }

  lemma {:induction false} OutputsEndInUse(lanes: Lanes, commit: Commit)
    ensures Ends(Outputs(lanes, commit)) == InUse(After(lanes, commit))
  {
    hide DotLane, Parents, Opened, Passing;
    forall k: nat
      ensures k in Ends(Outputs(lanes, commit)) <==> k in InUse(After(lanes, commit))
    {
      if k in InUse(After(lanes, commit)) {
        UsedHasOutput(lanes, commit, k);
      }
      if k in Ends(Outputs(lanes, commit)) {
        var line :| line in Outputs(lanes, commit) && line.end == k;
        OutputLeadsToUsed(lanes, commit, line);
      }
    }
  }

  lemma {:induction false} UsedHasOutput(lanes: Lanes, commit: Commit, k: nat)
    requires k < |After(lanes, commit)| && After(lanes, commit)[k].Some?
    ensures exists line :: line in Outputs(lanes, commit) && line.end == k
  {
    hide DotLane, Parents, Opened, Passing, After, Outputs;
    var id := After(lanes, commit)[k].value;
    LanesHaveALine(lanes, commit, k, id);
    if Expects(lanes, k, id) && id != commit.id {
      OthersPass(lanes, commit, k, id);
      assert Line(k, k).end == k;
    } else {
      var j :| 0 <= j < |commit.parents| && commit.parents[j] == id && Drawn(lanes, commit, j) == Line(DotLane(lanes, commit.id), k);
      DrawnLeavesTheDot(lanes, commit, j);
      assert Drawn(lanes, commit, j).end == k;
    }
  }

  lemma {:induction false} OutputLeadsToUsed(lanes: Lanes, commit: Commit, line: Line)
    requires line in Outputs(lanes, commit)
    ensures line.end < |After(lanes, commit)| && After(lanes, commit)[line.end].Some?
    ensures line.start == line.end || line.start == DotLane(lanes, commit.id)
  {
    hide DotLane, Parents, Opened, Passing, After;
    var passing, lines := Passing(Opened(lanes, commit.id), commit.id), Parents(lanes, commit).lines;
    assert line in passing || line in lines;
    if line in passing {
      PassingKeepsOff(lanes, commit.id, line);
      OthersPass(lanes, commit, line.end, lanes[line.end].value);
    } else {
      LinesPerParent(lanes, commit);
      var j :| 0 <= j < |lines| && lines[j] == line;
      ParentsAreDrawn(lanes, commit, j);
    }
  }

  lemma {:induction false} LinesPerParent(lanes: Lanes, commit: Commit)
    ensures |Parents(lanes, commit).lines| == |commit.parents|
  {
    if commit.parents != [] { ParentsAreDrawn(lanes, commit, 0); }
  }

  /** The lines that leave the upper row end exactly in the lanes where the lower row's lines start. */
  ghost predicate Meet(above: Row, below: Row)
  {
    Ends(above.outputs) == Starts(below.inputs)
  }

  /** Every row's lines go on in the next row. */
  lemma {:induction false} RowsFitTogether(commits: seq<Commit>, k: nat)
    requires k + 1 < |commits|
    ensures |Rows(commits)| == |commits| && Meet(Rows(commits)[k], Rows(commits)[k + 1])
  {
    hide Rows, After, Inputs, Outputs, DotLane, LanesAfter, InUse, Starts, Ends;
    RowAt(commits, k);
    RowAt(commits, k + 1);
    OutputsEndInUse(LanesAfter(commits[..k]), commits[k]);
    InputsStartInUse(LanesAfter(commits[..k + 1]), commits[k + 1].id);
  }

  /** Nothing enters the first row. */
  lemma {:induction false} NothingEntersTheFirstRow(commits: seq<Commit>)
    requires commits != []
    ensures |Rows(commits)| == |commits| && Rows(commits)[0].inputs == []
  {
    hide Rows, After, Inputs, Outputs, DotLane, LanesAfter;
    RowAt(commits, 0);
    assert commits[..0] == [];
    NoLanesNoInputs(commits[0].id);
  }

  lemma {:induction false} NoLanesNoInputs(id: Id)
    ensures LanesAfter([]) == [] && Inputs([], id) == []
  {
    hide DotLane;
    var inputs := Inputs([], id);
    if inputs != [] {
      InputsAreTheLanes([], id, inputs[0]);
    }
  }

  // ---------- What the lanes wait for ----------

  /** Named as a parent and not listed since. */
  predicate Unseen(commits: seq<Commit>, n: nat, id: Id)
    requires n <= |commits|
  {
    exists k :: 0 <= k < n && id in commits[k].parents && Absent(commits, k, n, id)
  }

  /** The lanes hold exactly the commits that were named as parents and have not been listed since. */
  lemma {:induction false} LanesAwaitTheUnseen(commits: seq<Commit>, n: nat, id: Id)
    requires n <= |commits|
    ensures Some(id) in LanesAfter(commits[..n]) <==> Unseen(commits, n, id)
  {
    hide LanesAfter, Rows, After, Inputs, Outputs, DotLane;
    if Some(id) in LanesAfter(commits[..n]) {
      var l: nat :| l < |LanesAfter(commits[..n])| && LanesAfter(commits[..n])[l] == Some(id);
      var k := LaneIsAnEdge(commits, n, l, id);
    }
    if Unseen(commits, n, id) {
      var k :| 0 <= k < n && id in commits[k].parents && Absent(commits, k, n, id);
      var j :| 0 <= j < |commits[k].parents| && commits[k].parents[j] == id;
      RowAt(commits, k);
      DrawnLeavesTheDot(LanesAfter(commits[..k]), commits[k], j);
      StaysStraight(commits, k, n, Drawn(LanesAfter(commits[..k]), commits[k], j).end, id);
    }
  }

  /** Distinct commits, children before parents. */
  predicate Topological(commits: seq<Commit>)
  {
    && (forall i, j :: 0 <= i < j < |commits| ==> commits[i].id != commits[j].id)
    && (forall i, j :: 0 <= i <= j < |commits| ==> commits[i].id !in commits[j].parents)
  }

  /** For distinct commits, children before parents, that is: referenced, and not listed at all so far. */
  lemma {:induction false} LanesAwaitReferencedButUnlisted(commits: seq<Commit>, n: nat, id: Id)
    requires Topological(commits) && n <= |commits|
    ensures Some(id) in LanesAfter(commits[..n]) <==>
            (exists k :: 0 <= k < n && id in commits[k].parents) && (forall k :: 0 <= k < n ==> commits[k].id != id)
  {
    hide LanesAfter;
    LanesAwaitTheUnseen(commits, n, id);
    if Unseen(commits, n, id) {
      var k :| 0 <= k < n && id in commits[k].parents && Absent(commits, k, n, id);
      assert forall i :: 0 <= i <= k ==> commits[i].id != id;
    }
    if (exists k :: 0 <= k < n && id in commits[k].parents) && (forall k :: 0 <= k < n ==> commits[k].id != id) {
      var k :| 0 <= k < n && id in commits[k].parents;
      assert Absent(commits, k, n, id);
    }
  }

  /** For such commits every edge to a listed parent is drawn whole. */
  lemma {:induction false} EveryListedEdgeIsDrawn(commits: seq<Commit>, k: nat, m: nat) returns (l: nat)
    requires Topological(commits) && k < |commits| && m < |commits| && commits[m].id in commits[k].parents
    ensures k < m && |Rows(commits)| == |commits|
    ensures var rows := Rows(commits);
            Line(rows[k].lane, l) in rows[k].outputs && Straight(rows, l, k, m) && Line(l, rows[m].lane) in rows[m].inputs
  {
    hide Rows;
    assert k < m;
    var j :| 0 <= j < |commits[k].parents| && commits[k].parents[j] == commits[m].id;
    l := EdgeIsDrawn(commits, k, j, m);
  }

  // ---------- No wider than it must be ----------

  /** How many lanes are in use. */
  function Busy(lanes: Lanes): (n: nat)
    ensures n <= |lanes| && (n == |lanes| <==> forall i :: 0 <= i < |lanes| ==> lanes[i].Some?)
  {
    if lanes == [] then 0
    else Busy(lanes[..|lanes| - 1]) + if lanes[|lanes| - 1].Some? then 1 else 0
  }

  function Max(a: nat, b: nat): nat
  {
    if a < b then b else a
  }

  lemma {:induction false} BusyPut(lanes: Lanes, k: nat, id: Id)
    requires k <= |lanes|
    ensures Busy(lanes) <= Busy(Put(lanes, k, id)) <= Busy(lanes) + 1
  {
    var put := Put(lanes, k, id);
    if k == |lanes| {
      assert put[..|lanes|] == lanes;
    } else {
      var n := |lanes| - 1;
      if k == n {
        assert put[..n] == lanes[..n];
      } else {
        BusyPut(lanes[..n], k, id);
        assert put[..n] == Put(lanes[..n], k, id) && put[n] == lanes[n];
      }
    }
  }

  lemma {:induction false} FanIsNarrow(lanes: Lanes, lane: nat, parents: seq<Id>)
    ensures var fan := FanOut(lanes, lane, parents).lanes;
            Busy(lanes) <= Busy(fan) && |fan| <= Max(|lanes|, Busy(fan))
  {
    if parents != [] {
      var init, parent := parents[..|parents| - 1], parents[|parents| - 1];
      FanIsNarrow(lanes, lane, init);
      var fan := FanOut(lanes, lane, init).lanes;
      BusyPut(fan, Target(fan, lane, parent), parent);
    }
  }

  lemma {:induction false} PoppedIsAsBusy(lanes: Lanes)
    ensures Busy(Popped(lanes)) == Busy(lanes) && |Popped(lanes)| <= |lanes|
  {
    if lanes != [] && lanes[|lanes| - 1] == None {
      PoppedIsAsBusy(lanes[..|lanes| - 1]);
    }
  }

  /** A new lane is opened only when every lane is in use. */
  lemma {:induction false} RowIsNarrow(lanes: Lanes, commit: Commit)
    ensures var width := Max(|lanes|, Max(Busy(lanes) + 1, Busy(After(lanes, commit))));
            |After(lanes, commit)| <= width && |Opened(lanes, commit.id)| <= width
  {
    hide Passing, Claiming, FanOut, Popped, Busy;
    var lane, merged := DotLane(lanes, commit.id), Merged(lanes, commit.id);
    if commit.parents != [] {
      FanIsNarrow(merged[lane := Some(commit.parents[0])], lane, commit.parents[1..]);
    }
    PoppedIsAsBusy(Parents(lanes, commit).lanes);
  }

  lemma {:induction false} RowFits(lanes: Lanes, commit: Commit)
    ensures RowOf(lanes, commit).maxLane < Max(|Opened(lanes, commit.id)|, |After(lanes, commit)|)
  {
    hide Passing, Claiming, FanOut, Popped, Parents, Outputs, Inputs, After;
    var row, width := RowOf(lanes, commit), Max(|Opened(lanes, commit.id)|, |After(lanes, commit)|);
    assert DotLane(lanes, commit.id) < |Opened(lanes, commit.id)| by { assert Merged(lanes, commit.id) != []; }
    forall line | line in row.inputs + row.outputs
      ensures line.start < width && line.end < width
    {
      if line in row.inputs {
        InputsAreTheLanes(lanes, commit.id, line);
      } else {
        OutputLeadsToUsed(lanes, commit, line);
      }
    }
  }

  /** The most lanes in use at once in the first n rows, counting each row's own dot. */
  function Peak(commits: seq<Commit>, n: nat): nat
    requires n <= |commits|
  {
    if n == 0 then 0
    else Max(Peak(commits, n - 1), Max(Busy(LanesAfter(commits[..n - 1])) + 1, Busy(LanesAfter(commits[..n]))))
  }

  lemma {:induction false} LanesFitThePeak(commits: seq<Commit>, n: nat)
    requires n <= |commits|
    ensures |LanesAfter(commits[..n])| <= Peak(commits, n)
  {
    hide RowOf, Rows, After, Busy;
    if n > 0 {
      LanesFitThePeak(commits, n - 1);
      RowAt(commits, n - 1);
      RowIsNarrow(LanesAfter(commits[..n - 1]), commits[n - 1]);
    } else {
      assert commits[..0] == [];
    }
  }

  /** The drawing is never wider than the most lanes in use at once: closed lanes are used again first. */
  lemma {:induction false} TheGraphIsNarrow(commits: seq<Commit>, k: nat)
    requires k < |commits|
    ensures |Rows(commits)| == |commits| && Rows(commits)[k].maxLane < Peak(commits, k + 1)
  {
    hide RowOf, Rows, After, Busy, Opened;
    RowAt(commits, k);
    LanesFitThePeak(commits, k);
    RowIsNarrow(LanesAfter(commits[..k]), commits[k]);
    RowFits(LanesAfter(commits[..k]), commits[k]);
  }

  /** Each row is its commit's, and its width is the greatest lane of its dot, its lines and the lanes after it. */
  lemma {:induction false} TheWidthIsExact(commits: seq<Commit>, k: nat)
    requires k < |commits|
    ensures |Rows(commits)| == |commits| && Rows(commits)[k].commit == commits[k]
    ensures var row, after := Rows(commits)[k], LanesAfter(commits[..k + 1]);
            && row.lane <= row.maxLane && |after| <= row.maxLane + 1
            && (forall line :: line in row.inputs || line in row.outputs ==> line.start <= row.maxLane && line.end <= row.maxLane)
            && (row.maxLane == row.lane || row.maxLane == |after| - 1
                || exists line :: (line in row.inputs || line in row.outputs) && (row.maxLane == line.start || row.maxLane == line.end))
  {
    hide Rows, After, Inputs, Outputs, DotLane;
    RowAt(commits, k);
    assert commits[..k + 1][..k] == commits[..k];
  }

  /** Behind the lanes in use no empty one is kept. */
  lemma {:induction false} LanesEndInUse(commits: seq<Commit>)
    ensures var lanes := LanesAfter(commits);
            lanes == [] || lanes[|lanes| - 1].Some?
  {
    hide Parents;
  }

  lemma {:induction false} FanJoins(lanes: Lanes, lane: nat, parents: seq<Id>, id: Id, l: nat)
    requires l < |lanes| && l != lane && lanes[l] == Some(id)
    ensures var fan := FanOut(lanes, lane, parents).lanes;
            && |lanes| <= |fan| && fan[l] == Some(id)
            && forall k :: 0 <= k < |fan| ==> (fan[k] == Some(id) <==> k < |lanes| && lanes[k] == Some(id))
  {
    if parents != [] {
      FanJoins(lanes, lane, parents[..|parents| - 1], id, l);
    }
  }

  /** An extra parent for which another lane waits joins it: no further lane waits for it afterwards. */
  lemma {:induction false} ExtraParentsJoin(lanes: Lanes, commit: Commit, id: Id, l: nat)
    requires commit.parents != [] && commit.parents[0] != id
    requires var merged := Merged(lanes, commit.id); l < |merged| && l != DotLane(lanes, commit.id) && merged[l] == Some(id)
    ensures var merged, after := Merged(lanes, commit.id), Parents(lanes, commit).lanes;
            forall k :: 0 <= k < |after| ==>
              (after[k] == Some(id) <==> k < |merged| && k != DotLane(lanes, commit.id) && merged[k] == Some(id))
  {
    hide Merged, DotLane, FanOut;
    var merged, lane := Merged(lanes, commit.id), DotLane(lanes, commit.id);
    FanJoins(merged[lane := Some(commit.parents[0])], lane, commit.parents[1..], id, l);
  }
}
