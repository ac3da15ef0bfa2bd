/** Ordered, coalesced terminal writes (src/writeQueue.ts). Sends are settled by the environment, in any order. */
module WriteQueue {
  import opened Basics

  type Id = int

  /** A full target; its id is the stable identity writes are queued under. */
  datatype Target = Target(id: Id, detail: string)

  /** What waits in the outbox, and what is handed to send. */
  datatype Send = Send(target: Target, data: string)

  /** A promise in flight is known by its number. */
  datatype Queue = Queue(outbox: map<Id, Send>, inflight: map<Id, nat>)

  datatype Outcome = Outcome(queue: Queue, promise: nat, handed: Option<Send>)

  // ---------- The queue's own steps ----------

  function Queued(queue: Queue, id: Id): string
  {
    if id in queue.outbox then queue.outbox[id].data else ""
  }

  /** One turn of the drain loop: hand over what waits, or end the drain. */
  function Turned(queue: Queue, id: Id): (Queue, Option<Send>)
  {
    if id in queue.outbox then (queue.(outbox := queue.outbox - {id}), Some(queue.outbox[id]))
    else (queue.(inflight := queue.inflight - {id}), None)
  }

  /** A write; number is the number of the promise made if one is made. */
  function Written(queue: Queue, target: Target, data: string, number: nat): Outcome
  {
    if data == "" then Outcome(queue, number, None)
    else
      var queued := queue.(outbox := queue.outbox[target.id := Send(target, Queued(queue, target.id) + data)]);
      if target.id in queue.inflight then Outcome(queued, queue.inflight[target.id], None)
      else
        var (taken, handed) := Turned(queued, target.id);
        Outcome(taken.(inflight := taken.inflight[target.id := number]), number, handed)
  }

  /** A failed send ends the drain, and what waited behind it is dropped. */
  function Failed(queue: Queue, id: Id): Queue
  {
    Queue(queue.outbox - {id}, queue.inflight - {id})
  }

  class Writer {
    var outbox: map<Id, Send>
    var inflight: map<Id, nat>
    var promises: nat

    function State(): Queue
      reads this
    {
      Queue(outbox, inflight)
    }

    constructor ()
      ensures State() == Queue(map[], map[]) && promises == 0
    {
      outbox, inflight, promises := map[], map[], 0;
    }

    /** What is returned is the promise, and what the drain hands to send before its first await. */
    method Write(target: Target, data: string) returns (promise: nat, handed: Option<Send>)
      modifies this
      ensures var o := Written(old(State()), target, data, old(promises));
              State() == o.queue && promise == o.promise && handed == o.handed
      ensures promises == if data != "" && target.id in old(inflight) then old(promises) else old(promises) + 1
    {
      handed := None;
      if data == "" {
        promise := promises;
        promises := promises + 1;
        return;
      }
      var before := if target.id in outbox then outbox[target.id].data else "";
      outbox := outbox[target.id := Send(target, before + data)];
      if target.id in inflight {
        promise := inflight[target.id];
        return;
      }
      handed := Turn(target.id);
      promise := promises;
      promises := promises + 1;
      inflight := inflight[target.id := promise];
    }

    method Turn(id: Id) returns (handed: Option<Send>)
      modifies this
      ensures (State(), handed) == Turned(old(State()), id) && promises == old(promises)
    {
      if id in outbox {
        handed := Some(outbox[id]);
        outbox := outbox - {id};
      } else {
        handed := None;
        inflight := inflight - {id};
      }
    }

    /** The drain resumes when its send settles; finished says that its promise settles with it. */
    method Resume(id: Id, ok: bool) returns (handed: Option<Send>, finished: bool)
      modifies this
      ensures ok ==> (State(), handed) == Turned(old(State()), id) && (finished <==> handed.None?)
      ensures !ok ==> State() == Failed(old(State()), id) && handed == None && finished
      ensures promises == old(promises)
    {
      if ok {
        handed := Turn(id);
        finished := handed.None?;
      } else {
        outbox := outbox - {id};
        inflight := inflight - {id};
        handed, finished := None, true;
      }
    }
  }

  // ---------- Runs, with a record of what happened ----------

  datatype Promise = Waiting | Resolved | Rejected

  /** A caller's write, and the promise it was given. */
  datatype Call = Call(target: Target, data: string, promise: nat)

  datatype Status = Sending | Sent | Lost | Dropped

  /** Calls start up to end of a target, taken from the outbox together. */
  datatype Burst = Burst(send: Send, start: nat, end: nat, status: Status)

  datatype Log = Log(calls: seq<Call>, bursts: seq<Burst>)

  datatype World = World(queue: Queue, promises: seq<Promise>, outstanding: seq<Send>, logs: map<Id, Log>)

  datatype Step = Write(target: Target, data: string) | Settle(index: nat, ok: bool)

  function LogOf(w: World, id: Id): Log
  {
    if id in w.logs then w.logs[id] else Log([], [])
  }

  /** How many of a target's calls have left the outbox. */
  function Covered(log: Log): nat
  {
    if log.bursts == [] then 0 else log.bursts[|log.bursts| - 1].end
  }

  function Took(log: Log, send: Send, status: Status): Log
  {
    log.(bursts := log.bursts + [Burst(send, Covered(log), |log.calls|, status)])
  }

  function Marked(log: Log, status: Status): Log
  {
    if log.bursts == [] then log
    else
      var last := |log.bursts| - 1;
      log.(bursts := log.bursts[last := log.bursts[last].(status := status)])
  }

  function Handed(outstanding: seq<Send>, handed: Option<Send>): seq<Send>
  {
    if handed.Some? then outstanding + [handed.value] else outstanding
  }

  function TookIf(log: Log, handed: Option<Send>, status: Status): Log
  {
    if handed.Some? then Took(log, handed.value, status) else log
  }

  function AfterWrite(w: World, target: Target, data: string): World
  {
    var o := Written(w.queue, target, data, |w.promises|);
    if data == "" then w.(promises := w.promises + [Resolved])
    else
      var log := LogOf(w, target.id);
      var called := log.(calls := log.calls + [Call(target, data, o.promise)]);
      World(o.queue,
            if target.id in w.queue.inflight then w.promises else w.promises + [Waiting],
            Handed(w.outstanding, o.handed),
            w.logs[target.id := TookIf(called, o.handed, Sending)])
  }

  function Settled(promises: seq<Promise>, which: nat, outcome: Promise): seq<Promise>
  {
    if which < |promises| then promises[which := outcome] else promises
  }

  function Without(outstanding: seq<Send>, index: nat): seq<Send>
    requires index < |outstanding|
  {
    outstanding[..index] + outstanding[index + 1..]
  }

  function AfterSettle(w: World, index: nat, ok: bool): World
  {
    if index >= |w.outstanding| || w.outstanding[index].target.id !in w.queue.inflight then w
    else
      var id, rest := w.outstanding[index].target.id, Without(w.outstanding, index);
      var chain := w.queue.inflight[id];
      if ok then
        var (queue, handed) := Turned(w.queue, id);
        World(queue,
              if handed.Some? then w.promises else Settled(w.promises, chain, Resolved),
              Handed(rest, handed),
              w.logs[id := TookIf(Marked(LogOf(w, id), Sent), handed, Sending)])
      else
        var dropped := if id in w.queue.outbox then Some(w.queue.outbox[id]) else None;
        World(Failed(w.queue, id), Settled(w.promises, chain, Rejected), rest,
              w.logs[id := TookIf(Marked(LogOf(w, id), Lost), dropped, Dropped)])
  }

  function Next(w: World, step: Step): World
  {
    match step
    case Write(target, data) => AfterWrite(w, target, data)
    case Settle(index, ok) => AfterSettle(w, index, ok)
  }

  function Run(w: World, steps: seq<Step>): World
  {
    if steps == [] then w else Next(Run(w, steps[..|steps| - 1]), steps[|steps| - 1])
  }

  const START := World(Queue(map[], map[]), [], [], map[])

  // ---------- What every run keeps ----------

  function Text(calls: seq<Call>): string
  {
    if calls == [] then "" else Text(calls[..|calls| - 1]) + calls[|calls| - 1].data
  }

  /** This burst is exactly these callers' writes, whole and in order, for the latest of their targets. */
  ghost predicate IsBlock(log: Log, burst: Burst)
  {
    && burst.start < burst.end <= |log.calls|
    && burst.send == Send(log.calls[burst.end - 1].target, Text(log.calls[burst.start..burst.end]))
  }

  predicate Follows(bursts: seq<Burst>, k: nat)
    requires k < |bursts|
  {
    bursts[k].start == if k == 0 then 0 else bursts[k - 1].end
  }

  /** The bursts are consecutive blocks of the target's calls, from the first call on. */
  ghost predicate Tiled(log: Log)
  {
    && (forall k :: 0 <= k < |log.bursts| ==> IsBlock(log, log.bursts[k]))
    && (forall k :: 0 <= k < |log.bursts| ==> Follows(log.bursts, k))
  }

  /** The outbox is the calls no burst has taken. */
  ghost predicate Waits(w: World, id: Id)
  {
    var log := LogOf(w, id);
    var covered := Covered(log);
    && covered <= |log.calls|
    && (forall i :: 0 <= i < |log.calls| ==> log.calls[i].target.id == id)
    && (id in w.queue.outbox <==> covered < |log.calls|)
    && (id in w.queue.outbox ==>
          w.queue.outbox[id] == Send(log.calls[|log.calls| - 1].target, Text(log.calls[covered..])))
  }

  /** A drain runs exactly while one send, the last burst, is outstanding; only a running drain leaves bytes waiting. */
  ghost predicate Drains(w: World, id: Id)
  {
    var bursts := LogOf(w, id).bursts;
    var n := |bursts|;
    && (id in w.queue.outbox ==> id in w.queue.inflight)
    && (forall k :: 0 <= k < n - 1 ==> bursts[k].status != Sending)
    && (id in w.queue.inflight <==> n > 0 && bursts[n - 1].status == Sending)
    && (id in w.queue.inflight ==> bursts[n - 1].send in w.outstanding)
  }

  ghost predicate OnePerTarget(w: World)
  {
    && (forall j, k :: 0 <= j < k < |w.outstanding| ==> w.outstanding[j].target.id != w.outstanding[k].target.id)
    && (forall j :: 0 <= j < |w.outstanding| ==> w.outstanding[j].target.id in w.queue.inflight)
  }

  ghost predicate Chains(w: World)
  {
    && (forall id :: id in w.queue.inflight ==> w.queue.inflight[id] < |w.promises| && w.promises[w.queue.inflight[id]] == Waiting)
    && (forall id, other :: id in w.queue.inflight && other in w.queue.inflight && id != other ==>
          w.queue.inflight[id] != w.queue.inflight[other])
  }

  /** The i-th call's bytes left in a burst with this status. */
  ghost predicate Went(log: Log, i: nat, status: Status)
  {
    exists k :: 0 <= k < |log.bursts| && log.bursts[k].start <= i < log.bursts[k].end && log.bursts[k].status == status
  }

  /** A resolved promise means that the caller's bytes were sent; one still waiting is the running drain's, and its
      bytes are sent, being sent or in the outbox. */
  ghost predicate Kept(w: World, id: Id, i: nat)
    requires i < |LogOf(w, id).calls|
  {
    var log := LogOf(w, id);
    var p := log.calls[i].promise;
    && p < |w.promises|
    && (w.promises[p] == Resolved ==> Went(log, i, Sent))
    && (w.promises[p] == Waiting ==>
          && id in w.queue.inflight && w.queue.inflight[id] == p
          && (i >= Covered(log) || Went(log, i, Sent) || Went(log, i, Sending)))
  }

  ghost predicate Promised(w: World, id: Id)
  {
    forall i :: 0 <= i < |LogOf(w, id).calls| ==> Kept(w, id, i)
  }

  ghost predicate InvAt(w: World, id: Id)
  {
    Tiled(LogOf(w, id)) && Waits(w, id) && Drains(w, id) && Promised(w, id)
  }

  ghost predicate Inv(w: World)
  {
    OnePerTarget(w) && Chains(w) && forall id :: InvAt(w, id)
  }

  // ---------- A write keeps it ----------

  lemma {:induction false} CalledStaysTiled(log: Log, call: Call)
    requires Tiled(log)
    ensures Tiled(log.(calls := log.calls + [call]))
  {
    var called := log.(calls := log.calls + [call]);
    forall k | 0 <= k < |log.bursts|
      ensures IsBlock(called, log.bursts[k])
    {
      var burst := log.bursts[k];
      assert IsBlock(log, burst);
      assert called.calls[burst.start..burst.end] == log.calls[burst.start..burst.end];
      assert Follows(log.bursts, k);
    }
  }

  lemma {:induction false} TookStaysTiled(log: Log, send: Send, status: Status)
    requires Tiled(log) && Covered(log) < |log.calls|
    requires send == Send(log.calls[|log.calls| - 1].target, Text(log.calls[Covered(log)..]))
    ensures Tiled(Took(log, send, status))
  {
    var took := Took(log, send, status);
    assert log.calls[Covered(log)..|log.calls|] == log.calls[Covered(log)..];
    forall k | 0 <= k < |took.bursts|
      ensures IsBlock(took, took.bursts[k]) && Follows(took.bursts, k)
    {
      assert k < |log.bursts| ==> IsBlock(log, log.bursts[k]) && Follows(log.bursts, k);
    }
  }

  lemma {:induction false} MarkedStaysTiled(log: Log, status: Status)
    requires Tiled(log)
    ensures Tiled(Marked(log, status)) && Covered(Marked(log, status)) == Covered(log)
    ensures |Marked(log, status).bursts| == |log.bursts| && Marked(log, status).calls == log.calls
  {
    hide Text;
    var marked := Marked(log, status);
    forall k | 0 <= k < |marked.bursts|
      ensures IsBlock(marked, marked.bursts[k]) && Follows(marked.bursts, k)
    {
      assert IsBlock(log, log.bursts[k]) && Follows(log.bursts, k);
      assert marked.bursts[k] == log.bursts[k].(status := marked.bursts[k].status);
    }
  }

  /** The outbox after a write, before anything is taken. */
  lemma {:induction false} QueuedText(w: World, target: Target, data: string, promise: nat)
    requires Waits(w, target.id)
    ensures var log := LogOf(w, target.id);
            var called := log.(calls := log.calls + [Call(target, data, promise)]);
            Queued(w.queue, target.id) + data == Text(called.calls[Covered(log)..])
  {
    var log := LogOf(w, target.id);
    var call := Call(target, data, promise);
    var calls := log.calls + [call];
    assert calls[Covered(log)..] == log.calls[Covered(log)..] + [call];
    assert Covered(log) == |log.calls| ==> log.calls[Covered(log)..] == [];
  }

  /** A target's log after a write: one more call, taken at once if no drain was running. */
  lemma {:induction false} WrittenLog(w: World, target: Target, data: string, called: Log)
    requires Inv(w) && data != ""
    requires called == Log(LogOf(w, target.id).calls + [Call(target, data, Written(w.queue, target, data, |w.promises|).promise)],
                           LogOf(w, target.id).bursts)
    requires Covered(called) <= |called.calls|
    ensures var after := AfterWrite(w, target, data);
            var send := Send(target, Text(called.calls[Covered(called)..]));
            if target.id in w.queue.inflight then
              LogOf(after, target.id) == called && after.outstanding == w.outstanding
              && after.queue == w.queue.(outbox := w.queue.outbox[target.id := send])
            else
              LogOf(after, target.id) == Took(called, send, Sending) && after.outstanding == w.outstanding + [send]
              && target.id !in after.queue.outbox && target.id in after.queue.inflight
  {
    hide Text, Tiled, Drains, OnePerTarget, Chains, Promised;
    assert InvAt(w, target.id);
    QueuedText(w, target, data, Written(w.queue, target, data, |w.promises|).promise);
  }

  lemma {:induction false} WriteKeepsLog(w: World, target: Target, data: string)
    requires Inv(w) && data != ""
    ensures var after := AfterWrite(w, target, data);
            Tiled(LogOf(after, target.id)) && Waits(after, target.id) && Drains(after, target.id)
  {
    hide Text, AfterWrite, Tiled, OnePerTarget, Chains, Promised;
    var id := target.id;
    assert InvAt(w, id);
    var call := Call(target, data, Written(w.queue, target, data, |w.promises|).promise);
    var called := Log(LogOf(w, id).calls + [call], LogOf(w, id).bursts);
    assert Covered(called) == Covered(LogOf(w, id));
    WrittenLog(w, target, data, called);
    CalledStaysTiled(LogOf(w, id), call);
    if id in w.queue.inflight {
    } else {
      TookStaysTiled(called, Send(target, Text(called.calls[Covered(called)..])), Sending);
    }
  }

  lemma {:induction false} WriteKeepsShape(w: World, target: Target, data: string)
    requires Inv(w)
    ensures OnePerTarget(AfterWrite(w, target, data)) && Chains(AfterWrite(w, target, data))
  {
    hide InvAt;
  }

  lemma {:induction false} WriteKeepsPromise(w: World, target: Target, data: string, id: Id, i: nat)
    requires Inv(w) && i < |LogOf(AfterWrite(w, target, data), id).calls|
    ensures Kept(AfterWrite(w, target, data), id, i)
  {
    hide Text, Tiled, OnePerTarget, Queued;
    var after := AfterWrite(w, target, data);
    var log, log' := LogOf(w, id), LogOf(after, id);
    assert InvAt(w, id);
    if i < |log.calls| {
      assert Kept(w, id, i) && log'.calls[i] == log.calls[i];
      WentStays(log, log', i);
    }
    assert id == target.id && id !in w.queue.inflight && data != "" ==> Covered(log') == |log'.calls|;
    if id == target.id && id !in w.queue.inflight && data != "" {
      var last := log'.bursts[|log.bursts|];
      assert last.end == |log'.calls| && last.status == Sending;
      assert last.start <= i ==> Went(log', i, Sending);
    }
  }

  /** A log that only gained bursts still shows where the earlier bytes went. */
  lemma {:induction false} WentStays(log: Log, log': Log, i: nat)
    requires log.bursts <= log'.bursts
    ensures forall status :: Went(log, i, status) ==> Went(log', i, status)
  {
    forall status | Went(log, i, status)
      ensures Went(log', i, status)
    {
      var k :| 0 <= k < |log.bursts| && log.bursts[k].start <= i < log.bursts[k].end && log.bursts[k].status == status;
      assert log'.bursts[k] == log.bursts[k];
    }
  }

  lemma {:induction false} WriteKeepsOthers(w: World, target: Target, data: string, id: Id)
    requires Inv(w) && (id != target.id || data == "")
    ensures var after := AfterWrite(w, target, data);
            Tiled(LogOf(after, id)) && Waits(after, id) && Drains(after, id)
  {
    hide Text, Tiled, Promised;
    assert InvAt(w, id);
  }

  lemma {:induction false} WriteKeeps(w: World, target: Target, data: string)
    requires Inv(w)
    ensures Inv(AfterWrite(w, target, data))
  {
    hide AfterWrite, OnePerTarget, Chains, Tiled, Waits, Drains, Kept;
    var after := AfterWrite(w, target, data);
    WriteKeepsShape(w, target, data);
    forall id
      ensures InvAt(after, id)
    {
      if id == target.id && data != "" { WriteKeepsLog(w, target, data); } else { WriteKeepsOthers(w, target, data, id); }
      forall i | 0 <= i < |LogOf(after, id).calls|
        ensures Kept(after, id, i)
      {
        WriteKeepsPromise(w, target, data, id, i);
      }
    }
  }

  // ---------- A settled send keeps it ----------

  ghost predicate Settles(w: World, index: nat, id: Id)
  {
    index < |w.outstanding| && w.outstanding[index].target.id == id && id in w.queue.inflight
  }

  lemma {:induction false} SettleKeepsLog(w: World, index: nat, ok: bool, id: Id)
    requires Inv(w) && Settles(w, index, id)
    ensures var after := AfterSettle(w, index, ok);
            Tiled(LogOf(after, id)) && Waits(after, id) && Drains(after, id)
  {
    hide Text, OnePerTarget, Chains, Promised;
    assert InvAt(w, id);
    var after, log := AfterSettle(w, index, ok), LogOf(w, id);
    var marked := Marked(log, if ok then Sent else Lost);
    MarkedStaysTiled(log, if ok then Sent else Lost);
    if id in w.queue.outbox {
      var send := w.queue.outbox[id];
      TookStaysTiled(marked, send, if ok then Sending else Dropped);
      assert LogOf(after, id) == Took(marked, send, if ok then Sending else Dropped);
      assert ok ==> after.outstanding[|after.outstanding| - 1] == send;
    } else {
      assert LogOf(after, id) == marked;
    }
  }

  lemma {:induction false} SettleKeepsShape(w: World, index: nat, ok: bool, id: Id)
    requires Inv(w) && Settles(w, index, id)
    ensures OnePerTarget(AfterSettle(w, index, ok)) && Chains(AfterSettle(w, index, ok))
  {
    hide Tiled, Promised, Text, Waits, Drains, Marked, Took, LogOf;
    assert InvAt(w, id);
    var rest := Without(w.outstanding, index);
    assert forall j :: 0 <= j < |rest| ==> rest[j] == w.outstanding[if j < index then j else j + 1];
    assert forall j :: 0 <= j < |rest| ==> rest[j].target.id != id;
    if id in w.queue.outbox { assert w.queue.outbox[id].target.id == id by { TargetsMatch(w, id); } }
  }

  /** What is queued under an id is for a target with that id. */
  lemma {:induction false} TargetsMatch(w: World, id: Id)
    requires Inv(w) && id in w.queue.outbox
    ensures w.queue.outbox[id].target.id == id
  {
    assert InvAt(w, id);
  }

  /** The send of a running drain is for its own target. */
  lemma {:induction false} SendingTarget(w: World, id: Id)
    requires Inv(w) && id in w.queue.inflight
    ensures var bursts := LogOf(w, id).bursts;
            bursts != [] && bursts[|bursts| - 1].send in w.outstanding && bursts[|bursts| - 1].send.target.id == id
  {
    hide Text, OnePerTarget, Chains, Promised;
    assert InvAt(w, id);
    var log := LogOf(w, id);
    assert IsBlock(log, log.bursts[|log.bursts| - 1]);
  }

  lemma {:induction false} StaysOutstanding(outstanding: seq<Send>, index: nat, send: Send, handed: Option<Send>)
    requires index < |outstanding| && send in outstanding && send != outstanding[index]
    ensures send in Handed(Without(outstanding, index), handed)
  {
    var k :| 0 <= k < |outstanding| && outstanding[k] == send;
    assert Without(outstanding, index)[if k < index then k else k - 1] == send;
  }

  lemma {:induction false} SettleLeavesOthers(w: World, index: nat, ok: bool, id: Id, other: Id)
    requires Inv(w) && Settles(w, index, id) && other != id
    ensures var after := AfterSettle(w, index, ok);
            Tiled(LogOf(after, other)) && Waits(after, other) && Drains(after, other)
  {
    hide Text, Tiled, Promised, Without, OnePerTarget, Chains;
    assert InvAt(w, other);
    var after := AfterSettle(w, index, ok);
    assert LogOf(after, other) == LogOf(w, other);
    assert other in after.queue.outbox <==> other in w.queue.outbox;
    assert other in w.queue.outbox ==> after.queue.outbox[other] == w.queue.outbox[other];
    if other in w.queue.inflight {
      SendingTarget(w, other);
      var send := LogOf(w, other).bursts[|LogOf(w, other).bursts| - 1].send;
      StaysOutstanding(w.outstanding, index, send, None);
      StaysOutstanding(w.outstanding, index, send, Turned(w.queue, id).1);
    }
  }

  lemma {:induction false} SettleKeepsOthers(w: World, index: nat, ok: bool, id: Id, other: Id)
    requires Inv(w) && Settles(w, index, id) && other != id
    ensures InvAt(AfterSettle(w, index, ok), other)
  {
    hide Text, Tiled, Waits, Drains, Went, OnePerTarget, Marked, Took;
    assert InvAt(w, other);
    SettleLeavesOthers(w, index, ok, id, other);
    var after := AfterSettle(w, index, ok);
    forall i | 0 <= i < |LogOf(after, other).calls|
      ensures Kept(after, other, i)
    {
      assert Kept(w, other, i);
    }
  }

  /** Marking the burst that was being sent changes where its own bytes went, and no others'. */
  lemma {:induction false} MarkedWent(log: Log, i: nat, status: Status)
    requires log.bursts != [] && log.bursts[|log.bursts| - 1].status == Sending
    requires forall k :: 0 <= k < |log.bursts| - 1 ==> log.bursts[k].status != Sending
    ensures Went(log, i, Sent) ==> Went(Marked(log, status), i, Sent)
    ensures Went(log, i, Sending) ==> Went(Marked(log, status), i, status)
  {
    var marked, n := Marked(log, status), |log.bursts| - 1;
    if Went(log, i, Sent) {
      var k :| 0 <= k < |log.bursts| && log.bursts[k].start <= i < log.bursts[k].end && log.bursts[k].status == Sent;
      assert marked.bursts[k] == log.bursts[k];
    }
    if Went(log, i, Sending) {
      var k :| 0 <= k < |log.bursts| && log.bursts[k].start <= i < log.bursts[k].end && log.bursts[k].status == Sending;
      assert k == n && marked.bursts[n].status == status;
    }
  }

  lemma {:induction false} SettleKeepsPromise(w: World, index: nat, ok: bool, id: Id, i: nat)
    requires Inv(w) && Settles(w, index, id) && i < |LogOf(w, id).calls|
    ensures Kept(AfterSettle(w, index, ok), id, i)
  {
    hide Text, Tiled, OnePerTarget, Went, Marked;
    assert InvAt(w, id) && Kept(w, id, i);
    var log, after := LogOf(w, id), AfterSettle(w, index, ok);
    var status := if ok then Sent else Lost;
    var marked, log' := Marked(log, status), LogOf(after, id);
    MarkedWent(log, i, status);
    MarkedKeepsRest(log, status);
    WentStays(marked, log', i);
    if ok && id in w.queue.outbox && i >= Covered(log) {
      NewestBurst(marked, w.queue.outbox[id], i);
    }
  }

  lemma {:induction false} MarkedKeepsRest(log: Log, status: Status)
    ensures Covered(Marked(log, status)) == Covered(log) && Marked(log, status).calls == log.calls
  {
  }

  lemma {:induction false} NewestBurst(log: Log, send: Send, i: nat)
    requires Covered(log) <= i < |log.calls|
    ensures Went(Took(log, send, Sending), i, Sending)
  {
    assert Took(log, send, Sending).bursts[|log.bursts|].status == Sending;
  }

  lemma {:induction false} SettleKeeps(w: World, index: nat, ok: bool)
    requires Inv(w)
    ensures Inv(AfterSettle(w, index, ok))
  {
    hide Tiled, Waits, Drains, Kept, Chains;
    if index < |w.outstanding| {
      var id := w.outstanding[index].target.id;
      SettleKeepsShape(w, index, ok, id);
      SettleKeepsLog(w, index, ok, id);
      var after := AfterSettle(w, index, ok);
      forall other
        ensures InvAt(after, other)
      {
        if other != id {
          SettleKeepsOthers(w, index, ok, id, other);
        } else {
          forall i | 0 <= i < |LogOf(after, id).calls|
            ensures Kept(after, id, i)
          {
            SettleKeepsPromise(w, index, ok, id, i);
          }
        }
      }
    }
  }

  /** Every interleaving of writes and settled sends keeps it. */
  lemma {:induction false} RunKeeps(steps: seq<Step>)
    ensures Inv(Run(START, steps))
  {
    hide Inv, AfterWrite, AfterSettle;
    if steps == [] {
      StartHolds();
    } else {
      RunKeeps(steps[..|steps| - 1]);
      var before := Run(START, steps[..|steps| - 1]);
      match steps[|steps| - 1]
      case Write(target, data) => WriteKeeps(before, target, data);
      case Settle(index, ok) => SettleKeeps(before, index, ok);
    }
  }

  lemma {:induction false} StartHolds()
    ensures Inv(START)
  {
  }

  // ---------- What it says about every run ----------

  function BurstText(bursts: seq<Burst>): string
  {
    if bursts == [] then "" else BurstText(bursts[..|bursts| - 1]) + bursts[|bursts| - 1].send.data
  }

  lemma {:induction false} TextAppend(a: seq<Call>, b: seq<Call>)
    ensures Text(a + b) == Text(a) + Text(b)
  {
    if b == [] {
      assert a + b == a;
    } else {
      assert (a + b)[..|a + b| - 1] == a + b[..|b| - 1];
      TextAppend(a, b[..|b| - 1]);
    }
  }

  lemma {:induction false} BurstsCover(log: Log, k: nat)
    requires Tiled(log) && k <= |log.bursts|
    ensures var end := if k == 0 then 0 else log.bursts[k - 1].end;
            end <= |log.calls| && BurstText(log.bursts[..k]) == Text(log.calls[..end])
  {
    hide Text;
    if k > 0 {
      BurstsCover(log, k - 1);
      var burst := log.bursts[k - 1];
      assert IsBlock(log, burst) && Follows(log.bursts, k - 1);
      assert log.bursts[..k][..k - 1] == log.bursts[..k - 1];
      assert log.calls[..burst.end] == log.calls[..burst.start] + log.calls[burst.start..burst.end];
      TextAppend(log.calls[..burst.start], log.calls[burst.start..burst.end]);
    } else {
      assert log.calls[..0] == [] && log.bursts[..0] == [];
      NoText([]);
    }
  }

  /** After every run, for every target: the bursts taken so far, each a whole block of writes, and then the outbox are
      all its writes in order; only the latest can be on its way; bytes wait only behind a running drain. */
  lemma {:induction false} NothingIsLostOrReordered(steps: seq<Step>, id: Id)
    ensures var w := Run(START, steps);
            var log := LogOf(w, id);
            && BurstText(log.bursts) + Queued(w.queue, id) == Text(log.calls)
            && (forall k :: 0 <= k < |log.bursts| ==> IsBlock(log, log.bursts[k]))
            && (forall k :: 0 <= k < |log.bursts| - 1 ==> log.bursts[k].status != Sending)
            && (id in w.queue.outbox ==> id in w.queue.inflight)
  {
    hide Text, Promised, OnePerTarget, Chains, Run, BurstText;
    var w := Run(START, steps);
    RunKeeps(steps);
    assert InvAt(w, id);
    var log := LogOf(w, id);
    var n := |log.bursts|;
    BurstsCover(log, n);
    assert log.bursts[..n] == log.bursts;
    var covered := Covered(log);
    assert log.calls == log.calls[..covered] + log.calls[covered..];
    TextAppend(log.calls[..covered], log.calls[covered..]);
    NoText(log.calls[covered..]);
  }

  lemma {:induction false} NoText(calls: seq<Call>)
    ensures calls == [] ==> Text(calls) == ""
  {
  }

  /** At most one send per target is outstanding, and exactly while its drain runs. */
  lemma {:induction false} OneSendInFlight(steps: seq<Step>, id: Id)
    ensures var w := Run(START, steps);
            && (forall j, k :: 0 <= j < k < |w.outstanding| ==> w.outstanding[j].target.id != w.outstanding[k].target.id)
            && (id in w.queue.inflight <==> exists j :: 0 <= j < |w.outstanding| && w.outstanding[j].target.id == id)
  {
    hide Text, Run, Tiled, Waits, Promised, Drains;
    var w := Run(START, steps);
    RunKeeps(steps);
    if id in w.queue.inflight { SendingTarget(w, id); }
  }

  /** A resolved promise means that its caller's bytes were sent, in one piece. */
  lemma {:induction false} ResolvedMeansSent(steps: seq<Step>, id: Id, i: nat)
    requires i < |LogOf(Run(START, steps), id).calls|
    ensures var w := Run(START, steps);
            var call := LogOf(w, id).calls[i];
            && call.promise < |w.promises|
            && (w.promises[call.promise] == Resolved ==> Went(LogOf(w, id), i, Sent))
  {
    hide Text, Run, Tiled, Waits, Drains, Went;
    RunKeeps(steps);
    assert InvAt(Run(START, steps), id) && Kept(Run(START, steps), id, i);
  }

  /** When every send has settled nothing is left waiting. */
  lemma {:induction false} QuietMeansEmpty(steps: seq<Step>)
    requires Run(START, steps).outstanding == []
    ensures Run(START, steps).queue == Queue(map[], map[])
  {
    hide Run, Text, Tiled, Waits, Promised;
    var w := Run(START, steps);
    RunKeeps(steps);
    forall id
      ensures id !in w.queue.inflight && id !in w.queue.outbox
    {
      assert InvAt(w, id);
    }
  }

  // ---------- How promises settle ----------

  /** The calls of the burst being sent, and those behind it, wait for the running drain. */
  ghost predicate OwnChain(w: World, id: Id)
  {
    var log := LogOf(w, id);
    id in w.queue.inflight ==>
      log.bursts != [] && forall i :: log.bursts[|log.bursts| - 1].start <= i < |log.calls| ==>
        log.calls[i].promise == w.queue.inflight[id]
  }

  /** A call with this promise whose bytes were in a failed send. */
  ghost predicate LostWith(log: Log, j: nat, promise: nat)
  {
    j < |log.calls| && log.calls[j].promise == promise && Went(log, j, Lost)
  }

  ghost predicate Blamed(w: World, id: Id, i: nat)
    requires i < |LogOf(w, id).calls|
  {
    var log := LogOf(w, id);
    var p := log.calls[i].promise;
    p < |w.promises| && w.promises[p] == Rejected ==> exists j: nat :: LostWith(log, j, p)
  }

  ghost predicate Accounted(w: World, id: Id)
  {
    OwnChain(w, id) && forall i :: 0 <= i < |LogOf(w, id).calls| ==> Blamed(w, id, i)
  }

  lemma {:induction false} StillLost(log: Log, log': Log, j: nat, promise: nat)
    requires LostWith(log, j, promise) && log.calls <= log'.calls && log.bursts <= log'.bursts
    ensures LostWith(log', j, promise)
  {
    WentStays(log, log', j);
  }

  lemma {:induction false} WriteAccounts(w: World, target: Target, data: string, id: Id)
    requires Inv(w) && Accounted(w, id)
    ensures Accounted(AfterWrite(w, target, data), id)
  {
    hide Text, Tiled, OnePerTarget, Queued, Went, LostWith;
    var after := AfterWrite(w, target, data);
    var log, log' := LogOf(w, id), LogOf(after, id);
    assert InvAt(w, id);
    assert log.calls <= log'.calls && log.bursts <= log'.bursts;
    forall i | 0 <= i < |log'.calls|
      ensures Blamed(after, id, i)
    {
      if i < |log.calls| {
        assert Kept(w, id, i) && Blamed(w, id, i);
        forall j: nat | LostWith(log, j, log.calls[i].promise)
          ensures LostWith(log', j, log.calls[i].promise)
        {
          StillLost(log, log', j, log.calls[i].promise);
        }
      }
    }
  }

  lemma {:induction false} MarkedLost(log: Log, j: nat, promise: nat, status: Status)
    requires LostWith(log, j, promise) && log.bursts != [] && log.bursts[|log.bursts| - 1].status == Sending
    ensures LostWith(Marked(log, status), j, promise)
  {
    var marked := Marked(log, status);
    var k :| 0 <= k < |log.bursts| && log.bursts[k].start <= j < log.bursts[k].end && log.bursts[k].status == Lost;
    assert marked.bursts[k] == log.bursts[k];
  }

  /** What a failed send of the target blames. */
  lemma {:induction false} LastIsLost(w: World, id: Id) returns (j: nat)
    requires Inv(w) && OwnChain(w, id) && id in w.queue.inflight
    ensures LostWith(Marked(LogOf(w, id), Lost), j, w.queue.inflight[id])
  {
    hide Text, OnePerTarget, Chains, Promised, Waits;
    assert InvAt(w, id);
    var log := LogOf(w, id);
    var n := |log.bursts| - 1;
    assert IsBlock(log, log.bursts[n]);
    j := log.bursts[n].start;
    assert Marked(log, Lost).bursts[n].status == Lost;
  }

  lemma {:induction false} SettleKeepsChain(w: World, index: nat, ok: bool, id: Id)
    requires Inv(w) && OwnChain(w, id) && Settles(w, index, id)
    ensures OwnChain(AfterSettle(w, index, ok), id)
  {
    hide Text, OnePerTarget, Promised, Waits, Without, Chains;
    assert InvAt(w, id);
    var log := LogOf(w, id);
    assert IsBlock(log, log.bursts[|log.bursts| - 1]);
    assert log.bursts[|log.bursts| - 1].start <= Covered(log);
  }

  lemma {:induction false} SettleAccounts(w: World, index: nat, ok: bool, id: Id)
    requires Inv(w) && Accounted(w, id) && Settles(w, index, id)
    ensures Accounted(AfterSettle(w, index, ok), id)
  {
    hide Text, Tiled, OnePerTarget, Went, LostWith, Marked, Without, OwnChain;
    SettleKeepsChain(w, index, ok, id);
    var after, log := AfterSettle(w, index, ok), LogOf(w, id);
    var status := if ok then Sent else Lost;
    var marked, log' := Marked(log, status), LogOf(after, id);
    assert InvAt(w, id);
    MarkedKeepsRest(log, status);
    MarkedBursts(log, status);
    assert log'.calls == log.calls && marked.bursts <= log'.bursts;
    var blamed := LastIsLost(w, id);
    if !ok { StillLost(marked, log', blamed, w.queue.inflight[id]); }
    forall i | 0 <= i < |log'.calls|
      ensures Blamed(after, id, i)
    {
      assert Kept(w, id, i) && Blamed(w, id, i);
      forall j: nat | LostWith(log, j, log.calls[i].promise)
        ensures LostWith(log', j, log.calls[i].promise)
      {
        MarkedLost(log, j, log.calls[i].promise, status);
        StillLost(marked, log', j, log.calls[i].promise);
      }
    }
  }

  lemma {:induction false} MarkedBursts(log: Log, status: Status)
    ensures |Marked(log, status).bursts| == |log.bursts|
    ensures forall k :: 0 <= k < |log.bursts| ==>
              Marked(log, status).bursts[k].start == log.bursts[k].start && Marked(log, status).bursts[k].end == log.bursts[k].end
  {
  }

  lemma {:induction false} SettleAccountsOthers(w: World, index: nat, ok: bool, id: Id, other: Id)
    requires Inv(w) && Accounted(w, other) && Settles(w, index, id) && other != id
    ensures Accounted(AfterSettle(w, index, ok), other)
  {
    hide Text, Tiled, OnePerTarget, Went, LostWith, Marked, Took, Without, Waits, Drains;
    var after := AfterSettle(w, index, ok);
    assert InvAt(w, other);
    assert LogOf(after, other) == LogOf(w, other);
    forall i | 0 <= i < |LogOf(after, other).calls|
      ensures Blamed(after, other, i)
    {
      assert Kept(w, other, i) && Blamed(w, other, i);
    }
  }

  lemma {:induction false} RunAccounts(steps: seq<Step>, id: Id)
    ensures Accounted(Run(START, steps), id)
  {
    hide Inv, AfterWrite, AfterSettle, Accounted;
    if steps == [] {
      StartAccounts(id);
    } else {
      RunKeeps(steps[..|steps| - 1]);
      RunAccounts(steps[..|steps| - 1], id);
      var before := Run(START, steps[..|steps| - 1]);
      match steps[|steps| - 1]
      case Write(target, data) => WriteAccounts(before, target, data, id);
      case Settle(index, ok) =>
        if index < |before.outstanding| && before.outstanding[index].target.id in before.queue.inflight {
          var settled := before.outstanding[index].target.id;
          if settled == id { SettleAccounts(before, index, ok, id); } else { SettleAccountsOthers(before, index, ok, settled, id); }
        } else {
          NothingSettles(before, index, ok);
        }
    }
  }

  lemma {:induction false} NothingSettles(w: World, index: nat, ok: bool)
    requires index >= |w.outstanding| || w.outstanding[index].target.id !in w.queue.inflight
    ensures AfterSettle(w, index, ok) == w
  {
  }

  lemma {:induction false} StartAccounts(id: Id)
    ensures Accounted(START, id)
  {
  }

  lemma {:induction false} BurstsApart(log: Log, j: nat, k: nat)
    requires Tiled(log) && j < k < |log.bursts|
    ensures log.bursts[j].end <= log.bursts[k].start
  {
    hide Text;
    assert Follows(log.bursts, k) && IsBlock(log, log.bursts[k - 1]);
    if j < k - 1 { BurstsApart(log, j, k - 1); }
  }

  lemma {:induction false} WentOnce(log: Log, i: nat, a: Status, b: Status)
    requires Tiled(log) && Went(log, i, a) && Went(log, i, b)
    ensures a == b
  {
    hide Tiled;
    var j :| 0 <= j < |log.bursts| && log.bursts[j].start <= i < log.bursts[j].end && log.bursts[j].status == a;
    var k :| 0 <= k < |log.bursts| && log.bursts[k].start <= i < log.bursts[k].end && log.bursts[k].status == b;
    if j < k { BurstsApart(log, j, k); }
    if k < j { BurstsApart(log, k, j); }
  }

  /** After every run, for every call: its promise is rejected if and only if it is no longer waiting and some call with
      that promise was in a failed send; so when all its sends succeed it resolves. With nothing outstanding none waits. */
  lemma {:induction false} SettlesExactly(steps: seq<Step>, id: Id, i: nat)
    requires i < |LogOf(Run(START, steps), id).calls|
    ensures var w := Run(START, steps);
            var log := LogOf(w, id);
            var p := log.calls[i].promise;
            && p < |w.promises|
            && (w.promises[p] != Waiting ==> (w.promises[p] == Rejected <==> exists j: nat :: LostWith(log, j, p)))
            && (w.promises[p] == Waiting ==> id in w.queue.inflight && w.queue.inflight[id] == p)
            && (w.outstanding == [] ==> w.promises[p] != Waiting)
  {
    hide Text, Run, Tiled, Waits, Drains, Went, OnePerTarget;
    RunKeeps(steps);
    RunAccounts(steps, id);
    var w := Run(START, steps);
    var log := LogOf(w, id);
    var p := log.calls[i].promise;
    assert InvAt(w, id) && Kept(w, id, i) && Blamed(w, id, i);
    if w.promises[p] == Resolved {
      forall j: nat
        ensures !LostWith(log, j, p)
      {
        if LostWith(log, j, p) {
          assert Kept(w, id, j);
          WentOnce(log, j, Sent, Lost);
        }
      }
    }
    if w.outstanding == [] { QuietMeansEmpty(steps); }
  }

  // ---------- Sends that throw before they return a promise ----------

  /** An event is a step whose send, if it hands one over, returns a promise, or one whose send throws instead. */
  datatype Event = Calm(step: Step) | Throwing(step: Step)

  /** The drain has not awaited anything yet: it ends, and is recorded as in flight only after that. */
  function ThrowingWrite(w: World, target: Target, data: string): World
  {
    var o := Written(w.queue, target, data, |w.promises|);
    var ended := Failed(o.queue, target.id);
    var log := LogOf(w, target.id);
    var called := log.(calls := log.calls + [Call(target, data, o.promise)]);
    w.(queue := ended.(inflight := ended.inflight[target.id := o.promise]),
       promises := w.promises + [Rejected],
       logs := w.logs[target.id := TookIf(called, o.handed, Lost)])
  }

  /** On a later turn the drain is on record: it ends and is taken off the record, and its promise rejects. */
  function ThrowingSettle(w: World, index: nat): World
  {
    if index >= |w.outstanding| || w.outstanding[index].target.id !in w.queue.inflight then w
    else
      var id := w.outstanding[index].target.id;
      var chain := w.queue.inflight[id];
      var (queue, handed) := Turned(w.queue, id);
      World(Failed(queue, id),
            Settled(w.promises, chain, if handed.Some? then Rejected else Resolved),
            Without(w.outstanding, index),
            w.logs[id := TookIf(Marked(LogOf(w, id), Sent), handed, Lost)])
  }

  function React(w: World, event: Event): World
  {
    match event
    case Calm(step) => Next(w, step)
    case Throwing(Write(target, data)) =>
      if data == "" || target.id in w.queue.inflight then AfterWrite(w, target, data) else ThrowingWrite(w, target, data)
    case Throwing(Settle(index, ok)) =>
      if ok then ThrowingSettle(w, index) else AfterSettle(w, index, false)
  }

  function Reaction(w: World, events: seq<Event>): World
  {
    if events == [] then w else React(Reaction(w, events[..|events| - 1]), events[|events| - 1])
  }

  /** On record, with no send left that could take it off. */
  ghost predicate Wedged(w: World, id: Id)
  {
    id in w.queue.inflight && forall k :: 0 <= k < |w.outstanding| ==> w.outstanding[k].target.id != id
  }

  /** The event's send throws, and its target was idle. */
  predicate HitsIdle(w: World, event: Event, id: Id)
  {
    event.Throwing? && event.step.Write? && event.step.data != "" && event.step.target.id == id && id !in w.queue.inflight
  }

  predicate HitIdle(events: seq<Event>, id: Id)
  {
    events != [] && (HitIdle(events[..|events| - 1], id) || HitsIdle(Reaction(START, events[..|events| - 1]), events[|events| - 1], id))
  }

  ghost predicate Orderly(w: World)
  {
    OnePerTarget(w) && forall id :: id in w.queue.outbox ==> w.queue.outbox[id].target.id == id
  }

  lemma {:induction false} RestOf(w: World, index: nat)
    requires OnePerTarget(w) && index < |w.outstanding|
    ensures forall send :: send in w.outstanding && send.target.id != w.outstanding[index].target.id ==>
              send in Without(w.outstanding, index)
    ensures forall send :: send in Without(w.outstanding, index) ==>
              send in w.outstanding && send.target.id != w.outstanding[index].target.id
  {
    var rest := Without(w.outstanding, index);
    assert forall k :: 0 <= k < |rest| ==> rest[k] == w.outstanding[if k < index then k else k + 1];
    forall send | send in w.outstanding && send.target.id != w.outstanding[index].target.id
      ensures send in rest
    {
      StaysOutstanding(w.outstanding, index, send, None);
    }
  }

  lemma {:induction false} RestStaysOrderly(w: World, index: nat)
    requires OnePerTarget(w) && index < |w.outstanding|
    ensures var rest := Without(w.outstanding, index);
            forall j, k :: 0 <= j < k < |rest| ==> rest[j].target.id != rest[k].target.id
  {
    var rest := Without(w.outstanding, index);
    assert forall k :: 0 <= k < |rest| ==> rest[k] == w.outstanding[if k < index then k else k + 1];
  }

  lemma {:induction false} ReactStaysOrderly(w: World, event: Event)
    requires Orderly(w)
    ensures Orderly(React(w, event))
  {
    hide Marked, Took, LogOf, Without;
    if event.step.Settle? && event.step.index < |w.outstanding| {
      RestStaysOrderly(w, event.step.index);
      RestOf(w, event.step.index);
      var rest := Without(w.outstanding, event.step.index);
      assert forall j :: 0 <= j < |rest| ==> rest[j] in rest;
    }
  }

  lemma {:induction false} IdleSendsNothing(w: World, id: Id)
    requires Orderly(w) && id !in w.queue.inflight
    ensures forall k :: 0 <= k < |w.outstanding| ==> w.outstanding[k].target.id != id
  {
  }

  lemma {:induction false} WriteWedges(w: World, event: Event, id: Id)
    requires Orderly(w) && event.step.Write?
    ensures Wedged(React(w, event), id) <==> Wedged(w, id) || HitsIdle(w, event, id)
    ensures Wedged(w, id) ==> LogOf(React(w, event), id).bursts == LogOf(w, id).bursts
  {
    hide Orderly, Queued;
    if id !in w.queue.inflight { IdleSendsNothing(w, id); }
    var after := React(w, event);
    var target, data := event.step.target, event.step.data;
    var send := Send(target, Queued(w.queue, target.id) + data);
    if target.id !in w.queue.inflight && data != "" && event.Calm? {
      assert after.outstanding == w.outstanding + [send];
      assert after.outstanding[|w.outstanding|] == send;
      assert forall k :: 0 <= k < |w.outstanding| ==> after.outstanding[k] == w.outstanding[k];
    } else {
      assert after.outstanding == w.outstanding;
    }
  }

  lemma {:induction false} SettleWedges(w: World, event: Event, id: Id)
    requires Orderly(w) && event.step.Settle?
    ensures Wedged(React(w, event), id) <==> Wedged(w, id)
    ensures Wedged(w, id) ==> LogOf(React(w, event), id).bursts == LogOf(w, id).bursts
  {
    hide Marked, Took, Without;
    var after := React(w, event);
    assert Wedged(w, id) <==> id in w.queue.inflight && forall send :: send in w.outstanding ==> send.target.id != id;
    assert Wedged(after, id) <==> id in after.queue.inflight && forall send :: send in after.outstanding ==> send.target.id != id;
    if event.step.index < |w.outstanding| {
      RestOf(w, event.step.index);
    }
  }

  /** One event wedges a target exactly when its send throws while the target is idle; nothing frees a wedged one, and
      no send of it is handed over again. */
  lemma {:induction false} ReactWedges(w: World, event: Event, id: Id)
    requires Orderly(w)
    ensures Wedged(React(w, event), id) <==> Wedged(w, id) || HitsIdle(w, event, id)
    ensures Wedged(w, id) ==> LogOf(React(w, event), id).bursts == LogOf(w, id).bursts
  {
    hide React, Wedged, Orderly;
    if event.step.Write? { WriteWedges(w, event, id); } else { SettleWedges(w, event, id); }
  }

  lemma {:induction false} ReactionStaysOrderly(events: seq<Event>)
    ensures Orderly(Reaction(START, events))
  {
    hide React;
    if events != [] {
      ReactionStaysOrderly(events[..|events| - 1]);
      ReactStaysOrderly(Reaction(START, events[..|events| - 1]), events[|events| - 1]);
    }
  }

  /** After every run, whatever was written, settled and thrown: a target is wedged if and only if a send of it once threw
      while it was idle. */
  lemma {:induction false} WedgedExactlyWhenHitIdle(events: seq<Event>, id: Id)
    ensures Wedged(Reaction(START, events), id) <==> HitIdle(events, id)
  {
    hide React, HitsIdle;
    if events != [] {
      WedgedExactlyWhenHitIdle(events[..|events| - 1], id);
      ReactionStaysOrderly(events[..|events| - 1]);
      ReactWedges(Reaction(START, events[..|events| - 1]), events[|events| - 1], id);
    }
  }

  /** A wedged target takes no burst again, whatever is written, settled and thrown later. */
  lemma {:induction false} WedgedForGood(events: seq<Event>, later: seq<Event>, id: Id)
    requires HitIdle(events, id)
    ensures var w := Reaction(START, events);
            Orderly(Reaction(w, later)) && Wedged(Reaction(w, later), id)
            && LogOf(Reaction(w, later), id).bursts == LogOf(w, id).bursts
    decreases |later|
  {
    hide React, HitIdle;
    var w := Reaction(START, events);
    if later == [] {
      ReactionStaysOrderly(events);
      WedgedExactlyWhenHitIdle(events, id);
    } else {
      var before := Reaction(w, later[..|later| - 1]);
      WedgedForGood(events, later[..|later| - 1], id);
      ReactWedges(before, later[|later| - 1], id);
      ReactStaysOrderly(before, later[|later| - 1]);
    }
  }

  /** A throw on a later turn is an ordinary failed send: the send before it settles, and it fails at once. */
  lemma {:induction false} ALaterThrowIsAFailedSend(w: World, index: nat)
    requires Orderly(w)
    ensures ThrowingSettle(w, index)
            == if index < |w.outstanding| && w.outstanding[index].target.id in w.queue.outbox
               then AfterSettle(AfterSettle(w, index, true), |w.outstanding| - 1, false)
               else AfterSettle(w, index, true)
  {
    hide Without;
    if index < |w.outstanding| {
      var id := w.outstanding[index].target.id;
      var rest := Without(w.outstanding, index);
      assert |rest| == |w.outstanding| - 1 by { WithoutIsShorter(w.outstanding, index); }
      if id in w.queue.outbox {
        var send := w.queue.outbox[id];
        var mid := AfterSettle(w, index, true);
        var log := Took(Marked(LogOf(w, id), Sent), send, Sending);
        assert mid.outstanding == rest + [send] && mid.outstanding[|rest|] == send;
        WithoutLast(rest, send);
        assert Marked(log, Lost) == Took(Marked(LogOf(w, id), Sent), send, Lost);
        var end := AfterSettle(mid, |rest|, false);
        assert end.logs == ThrowingSettle(w, index).logs;
        assert end.queue == ThrowingSettle(w, index).queue;
      } else {
        assert Failed(Turned(w.queue, id).0, id) == Turned(w.queue, id).0;
      }
    }
  }

  lemma {:induction false} WithoutIsShorter(outstanding: seq<Send>, index: nat)
    requires index < |outstanding|
    ensures |Without(outstanding, index)| == |outstanding| - 1
  {
  }

  lemma {:induction false} WithoutLast(rest: seq<Send>, send: Send)
    ensures Without(rest + [send], |rest|) == rest
  {
  }

  /** On an idle target it is a failed send too, but for the drain that stays on record. */
  lemma {:induction false} AnIdleThrowStaysOnRecord(w: World, target: Target, data: string)
    requires data != "" && target.id !in w.queue.inflight
    ensures var failed := AfterSettle(AfterWrite(w, target, data), |w.outstanding|, false);
            ThrowingWrite(w, target, data)
            == failed.(queue := failed.queue.(inflight := failed.queue.inflight[target.id := |w.promises|]))
  {
    hide Without;
    var id := target.id;
    var after := AfterWrite(w, target, data);
    var o := Written(w.queue, target, data, |w.promises|);
    var called := LogOf(w, id).(calls := LogOf(w, id).calls + [Call(target, data, o.promise)]);
    var send := Send(target, Queued(w.queue, id) + data);
    assert o.handed == Some(send) && after.outstanding == w.outstanding + [send];
    WithoutLast(w.outstanding, send);
    assert Marked(Took(called, send, Sending), Lost) == Took(called, send, Lost);
    assert (w.promises + [Waiting])[|w.promises| := Rejected] == w.promises + [Rejected];
  }

  /** So a run in which no send throws on an idle target is a run without throws, and keeps all that is promised. */
  lemma {:induction false} OtherThrowsAreFailedSends(events: seq<Event>) returns (steps: seq<Step>)
    requires forall id :: !HitIdle(events, id)
    ensures Run(START, steps) == Reaction(START, events) && Inv(Reaction(START, events))
  {
    hide Inv, ThrowingSettle, ThrowingWrite, AfterSettle, AfterWrite, Orderly;
    steps := [];
    if events != [] {
      var init, event := events[..|events| - 1], events[|events| - 1];
      forall id
        ensures !HitIdle(init, id) && !HitsIdle(Reaction(START, init), event, id)
      {
        assert !HitIdle(events, id);
      }
      var before := OtherThrowsAreFailedSends(init);
      var w := Reaction(START, init);
      assert event.step.Write? ==> !HitsIdle(w, event, event.step.target.id);
      RunSnoc(before, event.step);
      steps := before + [event.step];
      if event.Throwing? && event.step.Settle? && event.step.ok {
        ReactionStaysOrderly(init);
        ALaterThrowIsAFailedSend(w, event.step.index);
        if event.step.index < |w.outstanding| && w.outstanding[event.step.index].target.id in w.queue.outbox {
          RunSnoc(steps, Settle(|w.outstanding| - 1, false));
          steps := steps + [Settle(|w.outstanding| - 1, false)];
        }
      }
    }
    RunKeeps(steps);
  }

  lemma {:induction false} RunSnoc(steps: seq<Step>, step: Step)
    ensures Run(START, steps + [step]) == Next(Run(START, steps), step)
  {
    assert (steps + [step])[..|steps|] == steps;
  }
}
