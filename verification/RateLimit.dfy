/** allow_provision_attempt in relay/src/lib.rs: a fixed window per address, with old windows reaped. Times are clock
    readings in nanoseconds. */
module RateLimit {
  import opened Basics

  type Ip = string

  const SECOND: nat := 1_000_000_000
  const MINUTE: nat := 60 * SECOND
  const REAP_AFTER: nat := 300 * SECOND
  const MAX_PROVISION_ATTEMPTS_PER_MINUTE: nat := 30

  datatype Window = Window(started: nat, count: nat)

  type Attempts = map<Ip, Window>

  /** duration_since, which saturates at zero. */
  function Since(now: nat, earlier: nat): nat
  {
    if now >= earlier then now - earlier else 0
  }

  function Reaped(attempts: Attempts, now: nat): Attempts
  {
    map ip | ip in attempts && Since(now, attempts[ip].started) < REAP_AFTER :: attempts[ip]
  }

  /** The window the attempt is counted in. */
  function Current(attempts: Attempts, ip: Ip, now: nat): Window
  {
    if ip !in attempts || Since(now, attempts[ip].started) >= MINUTE then Window(now, 0) else attempts[ip]
  }

  predicate Admits(attempts: Attempts, ip: Ip, now: nat)
  {
    Current(Reaped(attempts, now), ip, now).count < MAX_PROVISION_ATTEMPTS_PER_MINUTE
  }

  function Attempted(attempts: Attempts, ip: Ip, now: nat): Attempts
  {
    var kept := Reaped(attempts, now);
    var w := Current(kept, ip, now);
    kept[ip := if Admits(attempts, ip, now) then w.(count := w.count + 1) else w]
  }

  class Limiter {
    var attempts: Attempts

    constructor ()
      ensures attempts == map[]
    {
      attempts := map[];
    }

    method AllowProvisionAttempt(ip: Ip, now: nat) returns (allowed: bool)
      modifies this
      ensures attempts == Attempted(old(attempts), ip, now)
      ensures allowed == Admits(old(attempts), ip, now)
    {
      attempts := Reaped(attempts, now);
      if ip !in attempts {
        attempts := attempts[ip := Window(now, 0)];
      }
      if Since(now, attempts[ip].started) >= MINUTE {
        attempts := attempts[ip := Window(now, 0)];
      }
      if attempts[ip].count >= MAX_PROVISION_ATTEMPTS_PER_MINUTE {
        return false;
      }
      attempts := attempts[ip := attempts[ip].(count := attempts[ip].count + 1)];
      return true;
    }
  }

  // ---------- Runs ----------

  datatype Call = Call(ip: Ip, now: nat)

  function AfterCalls(calls: seq<Call>): Attempts
  {
    if calls == [] then map[]
    else
      var last := calls[|calls| - 1];
      Attempted(AfterCalls(calls[..|calls| - 1]), last.ip, last.now)
  }

  /** When the attempts of one address were admitted, in order. */
  function Admitted(calls: seq<Call>, ip: Ip): (times: seq<nat>)
  {
    if calls == [] then []
    else
      var last := calls[|calls| - 1];
      var before := calls[..|calls| - 1];
      Admitted(before, ip)
      + if last.ip == ip && Admits(AfterCalls(before), ip, last.now) then [last.now] else []
  }

  ghost predicate Nondecreasing(calls: seq<Call>)
  {
    forall i, j :: 0 <= i <= j < |calls| ==> calls[i].now <= calls[j].now
  }

  ghost predicate Sorted(times: seq<nat>)
  {
    forall i, j :: 0 <= i <= j < |times| ==> times[i] <= times[j]
  }

  ghost predicate AllBelow(times: seq<nat>, n: int, bound: int)
  {
    n <= |times| && forall k :: 0 <= k < n ==> times[k] < bound
  }

  /** Sixty admissions always take more than a minute. */
  ghost predicate Spread(times: seq<nat>)
  {
    forall k :: 0 <= k && k + 60 < |times| ==> times[k] + MINUTE < times[k + 60]
  }

  /** How the admissions so far sit in the current window w and the one before it: at most thirty since cut, all of
      them before w; the earlier ones all before a previous window that began a minute or more before w. */
  ghost predicate Windowed(times: seq<nat>, w: Window, cut: int, previous: int)
  {
    && w.count <= MAX_PROVISION_ATTEMPTS_PER_MINUTE
    && 0 <= cut <= |times| - w.count <= cut + MAX_PROVISION_ATTEMPTS_PER_MINUTE
    && previous + MINUTE <= w.started
    && AllBelow(times, cut, previous)
    && AllBelow(times, |times| - w.count, w.started)
    && AllBelow(times, |times|, w.started + MINUTE)
  }

  ghost predicate Tracked(times: seq<nat>, attempts: Attempts, ip: Ip, now: nat)
  {
    && Sorted(times) && Spread(times) && AllBelow(times, |times|, now + 1)
    && (ip in attempts ==> attempts[ip].started <= now && exists cut, previous :: Windowed(times, attempts[ip], cut, previous))
    && (ip !in attempts ==> AllBelow(times, |times|, now - MINUTE))
  }

  /** The window an attempt is counted in is always a tracked one. */
  lemma {:induction false} CurrentWindowed(times: seq<nat>, attempts: Attempts, ip: Ip, last: nat, now: nat)
    returns (cut: int, previous: int)
    requires Tracked(times, attempts, ip, last) && last <= now
    ensures var w := Current(Reaped(attempts, now), ip, now);
            w.started <= now && Since(now, w.started) < MINUTE && Windowed(times, w, cut, previous)
  {
    var kept := Reaped(attempts, now);
    if ip in attempts {
      cut, previous :| Windowed(times, attempts[ip], cut, previous);
      var w := attempts[ip];
      if ip !in kept {
        cut, previous := |times|, now - MINUTE;
      } else if Since(now, w.started) >= MINUTE {
        cut, previous := |times| - w.count, w.started;
      }
    } else {
      cut, previous := |times|, now - MINUTE;
    }
  }

  lemma {:induction false} AttemptKeeps(times: seq<nat>, attempts: Attempts, ip: Ip, last: nat, now: nat)
    requires Tracked(times, attempts, ip, last) && last <= now
    ensures Tracked(times + if Admits(attempts, ip, now) then [now] else [], Attempted(attempts, ip, now), ip, now)
  {
    var cut, previous := CurrentWindowed(times, attempts, ip, last, now);
    var w := Current(Reaped(attempts, now), ip, now);
    if Admits(attempts, ip, now) {
      var grown := times + [now];
      assert Windowed(grown, w.(count := w.count + 1), cut, previous);
      if |times| >= 60 {
        assert times[|times| - 60] < previous;
      }
    } else {
      assert Windowed(times, w, cut, previous);
      assert times + [] == times;
    }
  }

  lemma {:induction false} CallsKeep(calls: seq<Call>, ip: Ip)
    requires calls != [] && Nondecreasing(calls)
    ensures Tracked(Admitted(calls, ip), AfterCalls(calls), ip, calls[|calls| - 1].now)
  {
    var before, last := calls[..|calls| - 1], calls[|calls| - 1];
    var earlier := if before == [] then last.now else before[|before| - 1].now;
    if before == [] {
      assert Tracked([], map[], ip, earlier);
    } else {
      CallsKeep(before, ip);
    }
    if last.ip == ip {
      AttemptKeeps(Admitted(before, ip), AfterCalls(before), ip, earlier, last.now);
    } else {
      assert Admitted(calls, ip) == Admitted(before, ip);
    }
  }

  function Within(times: seq<nat>, from: nat): set<int>
  {
    set k | 0 <= k < |times| && from <= times[k] <= from + MINUTE
  }

  lemma {:induction false} SpreadBounds(times: seq<nat>, from: nat)
    requires Sorted(times) && Spread(times)
    ensures |Within(times, from)| <= 60
  {
    var s := Within(times, from);
    if s != {} {
      var low := FirstAtLeast(times, from);
      forall k | k in s ensures low <= k < low + 60 {
        assert low + 60 < |times| ==> times[low] + MINUTE < times[low + 60];
        assert Sorted(times);
      }
      assert s <= Range(low, 60);
      SubsetSize(s, Range(low, 60));
    }
  }

  function FirstAtLeast(times: seq<nat>, from: nat): (k: nat)
    ensures k <= |times|
    ensures forall j :: 0 <= j < k ==> times[j] < from
    ensures k < |times| ==> from <= times[k]
  {
    if times == [] || from <= times[0] then 0 else 1 + FirstAtLeast(times[1..], from)
  }

  /** With clock readings that never go back, no minute, both ends included, admits more than sixty attempts of one
      address, whatever the others do. */
  lemma {:induction false} AtMostSixtyAMinute(calls: seq<Call>, ip: Ip, from: nat)
    requires Nondecreasing(calls)
    ensures |Within(Admitted(calls, ip), from)| <= 60
  {
    if calls == [] {
      assert Within([], from) == {};
    } else {
      CallsKeep(calls, ip);
      SpreadBounds(Admitted(calls, ip), from);
    }
  }

  // ---------- Exactly which attempts are admitted ----------

  /** The readings of all attempts of an address, admitted or not. */
  function Readings(calls: seq<Call>, ip: Ip): seq<nat>
  {
    if calls == [] then []
    else
      var last := calls[|calls| - 1];
      Readings(calls[..|calls| - 1], ip) + if last.ip == ip then [last.now] else []
  }

  /** Which attempt opened the window of the last one: the first does, and then each a minute or more after the one
      before it to do so. */
  function Opener(times: seq<nat>): (k: nat)
    requires times != []
    ensures k < |times|
  {
    if |times| == 1 then 0
    else
      var last := |times| - 1;
      var k := Opener(times[..last]);
      if times[last] >= times[k] + MINUTE then last else k
  }

  /** What the table holds of an address with these readings when the clock reads now. */
  ghost predicate Recorded(times: seq<nat>, attempts: Attempts, ip: Ip, now: nat)
  {
    if times == [] then ip !in attempts
    else
      var k := Opener(times);
      && times[k] <= now
      && (ip in attempts ==> attempts[ip] == Window(times[k], if |times| - k < 30 then |times| - k else 30))
      && (ip !in attempts ==> now >= times[k] + MINUTE)
  }

  lemma {:induction false} OpenerNext(times: seq<nat>, now: nat)
    ensures var all := times + [now];
            Opener(all) == if times == [] || now >= times[Opener(times)] + MINUTE then |times| else Opener(times)
  {
    assert (times + [now])[..|times|] == times;
  }

  lemma {:induction false} AttemptRecords(times: seq<nat>, attempts: Attempts, ip: Ip, last: nat, now: nat)
    requires Recorded(times, attempts, ip, last) && last <= now
    ensures Recorded(times + [now], Attempted(attempts, ip, now), ip, now)
    ensures Admits(attempts, ip, now) <==> |times| + 1 - Opener(times + [now]) <= 30
  {
    OpenerNext(times, now);
  }

  lemma {:induction false} OtherRecords(times: seq<nat>, attempts: Attempts, ip: Ip, other: Ip, last: nat, now: nat)
    requires Recorded(times, attempts, ip, last) && last <= now && ip != other
    ensures Recorded(times, Attempted(attempts, other, now), ip, now)
  {
  }

  lemma {:induction false} CallsRecord(calls: seq<Call>, ip: Ip)
    requires Nondecreasing(calls)
    ensures Recorded(Readings(calls, ip), AfterCalls(calls), ip, if calls == [] then 0 else calls[|calls| - 1].now)
  {
    hide Recorded, Attempted;
    if calls == [] {
      NothingRecorded(ip);
    } else {
      var before, last := calls[..|calls| - 1], calls[|calls| - 1];
      CallsRecord(before, ip);
      var now := if before == [] then 0 else before[|before| - 1].now;
      if last.ip == ip {
        AttemptRecords(Readings(before, ip), AfterCalls(before), ip, now, last.now);
      } else {
        OtherRecords(Readings(before, ip), AfterCalls(before), ip, last.ip, now, last.now);
        assert Readings(before, ip) + [] == Readings(before, ip);
      }
    }
  }

  lemma {:induction false} NothingRecorded(ip: Ip)
    ensures Recorded([], map[], ip, 0)
  {
  }

  /** With nondecreasing readings an attempt is admitted exactly when it is among the first thirty of its address in its
      window: neither refusals nor other addresses nor the clearing of old entries move a window. */
  lemma {:induction false} AdmitsExactly(calls: seq<Call>, ip: Ip, now: nat)
    requires Nondecreasing(calls + [Call(ip, now)])
    ensures var times := Readings(calls, ip) + [now];
            Admits(AfterCalls(calls), ip, now) <==> |times| - Opener(times) <= 30
  {
    hide Recorded, Admits, Opener;
    var all := calls + [Call(ip, now)];
    assert forall i :: 0 <= i < |calls| ==> all[i] == calls[i];
    assert all[|calls|].now == now;
    CallsRecord(calls, ip);
    AttemptRecords(Readings(calls, ip), AfterCalls(calls), ip, if calls == [] then 0 else calls[|calls| - 1].now, now);
  }

  // ---------- Why the readings must not go back ----------

  lemma {:induction false} OneMore(calls: seq<Call>, ip: Ip, now: nat)
    ensures var all := calls + [Call(ip, now)];
            && AfterCalls(all) == Attempted(AfterCalls(calls), ip, now)
            && Admitted(all, ip) == Admitted(calls, ip) + if Admits(AfterCalls(calls), ip, now) then [now] else []
  {
    assert (calls + [Call(ip, now)])[..|calls|] == calls;
  }

  /** The attempts at the reading now are counted in the window w. */
  ghost predicate Counting(attempts: Attempts, ip: Ip, now: nat, w: Window)
  {
    ip in attempts && attempts[ip] == w && Since(now, w.started) < MINUTE
  }

  lemma {:induction false} AttemptCounts(attempts: Attempts, ip: Ip, now: nat, w: Window)
    requires Counting(attempts, ip, now, w) && w.count < MAX_PROVISION_ATTEMPTS_PER_MINUTE
    ensures Admits(attempts, ip, now) && Counting(Attempted(attempts, ip, now), ip, now, w.(count := w.count + 1))
  {
  }

  /** Attempts with one reading are all admitted until their window is full. */
  lemma {:induction false} Burst(calls: seq<Call>, ip: Ip, now: nat, w: Window, n: nat)
    requires Counting(AfterCalls(calls), ip, now, w) && w.count + n <= MAX_PROVISION_ATTEMPTS_PER_MINUTE
    ensures var all := calls + Copies(Call(ip, now), n);
            && Counting(AfterCalls(all), ip, now, w.(count := w.count + n))
            && Admitted(all, ip) == Admitted(calls, ip) + Copies(now, n)
  {
    hide Counting, Admits, AfterCalls, Admitted;
    var all := calls + Copies(Call(ip, now), n);
    if n == 0 {
      assert all == calls;
    } else {
      var fewer := calls + Copies(Call(ip, now), n - 1);
      Burst(calls, ip, now, w, n - 1);
      assert all == fewer + [Call(ip, now)];
      AttemptCounts(AfterCalls(fewer), ip, now, w.(count := w.count + n - 1));
      OneMore(fewer, ip, now);
      assert Copies(now, n) == Copies(now, n - 1) + [now];
    }
  }

  lemma {:induction false} FirstCounts(attempts: Attempts, ip: Ip, now: nat)
    requires Current(Reaped(attempts, now), ip, now) == Window(now, 0)
    ensures Admits(attempts, ip, now) && Counting(Attempted(attempts, ip, now), ip, now, Window(now, 1))
  {
  }

  /** A first attempt opens a window, and more up to its limit are counted in it. */
  lemma {:induction false} OpensWindow(calls: seq<Call>, ip: Ip, now: nat, n: nat)
    requires Current(Reaped(AfterCalls(calls), now), ip, now) == Window(now, 0)
    requires 0 < n <= MAX_PROVISION_ATTEMPTS_PER_MINUTE
    ensures var all := calls + Copies(Call(ip, now), n);
            && Counting(AfterCalls(all), ip, now, Window(now, n))
            && Admitted(all, ip) == Admitted(calls, ip) + Copies(now, n)
  {
    hide Counting, Admits, AfterCalls, Admitted, Attempted, Reaped, Current;
    var one := calls + [Call(ip, now)];
    FirstCounts(AfterCalls(calls), ip, now);
    OneMore(calls, ip, now);
    Burst(one, ip, now, Window(now, 1), n - 1);
    assert one + Copies(Call(ip, now), n - 1) == calls + Copies(Call(ip, now), n);
    assert [now] + Copies(now, n - 1) == Copies(now, n);
  }

  lemma {:induction false} NextWindow(calls: seq<Call>, ip: Ip, started: nat, w: Window, now: nat)
    requires Counting(AfterCalls(calls), ip, started, w) && now == w.started + MINUTE
    ensures Current(Reaped(AfterCalls(calls), now), ip, now) == Window(now, 0)
  {
  }

  /** A window counts every reading that is less than a minute after its start, or before it. */
  lemma {:induction false} StillCounting(attempts: Attempts, ip: Ip, before: nat, now: nat, w: Window)
    requires Counting(attempts, ip, before, w) && now < w.started + MINUTE
    ensures Counting(attempts, ip, now, w)
  {
  }

  /** No reading is more than lag behind an earlier one. */
  ghost predicate LagsAtMost(calls: seq<Call>, lag: nat)
  {
    forall i, j :: 0 <= i <= j < |calls| ==> calls[i].now <= calls[j].now + lag
  }

  /** The minute that starts at from, both ends included, admits at most sixty attempts of the address. */
  ghost predicate MinuteBounded(calls: seq<Call>, ip: Ip, from: nat)
  {
    |Within(Admitted(calls, ip), from)| <= 60
  }

  /** The readings of the run below, with a first reading and four bursts. */
  function LateBurst(ip: Ip): seq<Call>
  {
    Copies(Call(ip, 0), 1) + Copies(Call(ip, MINUTE - 1), 29) + Copies(Call(ip, MINUTE), 30)
    + Copies(Call(ip, 2 * MINUTE), 1) + Copies(Call(ip, 2 * MINUTE - 1), 2)
  }

  /** A reading one nanosecond late is counted in the window that began after it: sixty-one attempts within a minute. */
  lemma {:induction false} OneNanosecondBreaksTheBound(ip: Ip)
    ensures LagsAtMost(LateBurst(ip), 1) && !MinuteBounded(LateBurst(ip), ip, MINUTE - 1)
  {
    hide Admitted, AfterCalls, Admits, Counting, Current, Reaped, Within, Copies;
    var none: seq<Call> := [];
    Untouched(ip);
    var a := none + Copies(Call(ip, 0), 1);
    OpensWindow(none, ip, 0, 1);
    var b := a + Copies(Call(ip, MINUTE - 1), 29);
    StillCounting(AfterCalls(a), ip, 0, MINUTE - 1, Window(0, 1));
    Burst(a, ip, MINUTE - 1, Window(0, 1), 29);
    var c := b + Copies(Call(ip, MINUTE), 30);
    NextWindow(b, ip, MINUTE - 1, Window(0, 30), MINUTE);
    OpensWindow(b, ip, MINUTE, 30);
    var d := c + Copies(Call(ip, 2 * MINUTE), 1);
    NextWindow(c, ip, MINUTE, Window(MINUTE, 30), 2 * MINUTE);
    OpensWindow(c, ip, 2 * MINUTE, 1);
    StillCounting(AfterCalls(d), ip, 2 * MINUTE, 2 * MINUTE - 1, Window(2 * MINUTE, 1));
    Burst(d, ip, 2 * MINUTE - 1, Window(2 * MINUTE, 1), 2);
    assert a == Copies(Call(ip, 0), 1);
    assert LateBurst(ip) == d + Copies(Call(ip, 2 * MINUTE - 1), 2);
    var times := Copies(0, 1) + Copies(MINUTE - 1, 29) + Copies(MINUTE, 30) + Copies(2 * MINUTE, 1) + Copies(2 * MINUTE - 1, 2);
    assert [] + Copies(0, 1) == Copies(0, 1);
    assert Admitted(LateBurst(ip), ip) == times;
    CountLate(times);
    LateByOne(ip);
  }

  lemma {:induction false} Untouched(ip: Ip)
    ensures Admitted([], ip) == [] && Current(Reaped(AfterCalls([]), 0), ip, 0) == Window(0, 0)
  {
  }

  lemma {:induction false} LateByOne(ip: Ip)
    ensures LagsAtMost(LateBurst(ip), 1)
  {
    hide Copies;
    var calls := LateBurst(ip);
    assert |calls| == 63;
    forall k | 0 <= k < 63
      ensures calls[k].now == if k == 0 then 0 else if k < 30 then MINUTE - 1 else if k < 60 then MINUTE else if k == 60 then 2 * MINUTE else 2 * MINUTE - 1
    {
    }
  }

  lemma {:induction false} CountLate(times: seq<nat>)
    requires times == Copies(0, 1) + Copies(MINUTE - 1, 29) + Copies(MINUTE, 30) + Copies(2 * MINUTE, 1) + Copies(2 * MINUTE - 1, 2)
    ensures |Within(times, MINUTE - 1)| > 60
  {
    hide *;
    LateTimes(times);
    ManyWithin(times);
  }

  lemma {:induction false} ManyWithin(times: seq<nat>)
    requires |times| == 63 && times[61] == times[62] == 2 * MINUTE - 1
    requires forall k :: 1 <= k < 60 ==> MINUTE - 1 <= times[k] <= MINUTE
    ensures |Within(times, MINUTE - 1)| > 60
  {
    hide Range;
    var s, early := Within(times, MINUTE - 1), Range(1, 59);
    assert |early + {61}| == 60;
    assert |early + {61} + {62}| == 61;
    assert early + {61} + {62} <= s;
    SubsetSize(early + {61} + {62}, s);
  }

  lemma {:induction false} LateTimes(times: seq<nat>)
    requires times == Copies(0, 1) + Copies(MINUTE - 1, 29) + Copies(MINUTE, 30) + Copies(2 * MINUTE, 1) + Copies(2 * MINUTE - 1, 2)
    ensures |times| == 63 && times[61] == times[62] == 2 * MINUTE - 1
    ensures forall k :: 1 <= k < 60 ==> MINUTE - 1 <= times[k] <= MINUTE
  {
    hide Copies;
    forall k | 1 <= k < 60
      ensures MINUTE - 1 <= times[k] <= MINUTE
    {
      assert times[k] == if k < 30 then Copies(MINUTE - 1, 29)[k - 1] else Copies(MINUTE, 30)[k - 30];
    }
  }

  /** How late readings may come for the bound to hold: not at all. */
  lemma {:induction false} BoundHoldsExactlyWithoutLag(lag: nat)
    ensures (forall calls: seq<Call>, ip, from: nat :: LagsAtMost(calls, lag) ==> MinuteBounded(calls, ip, from)) <==> lag == 0
  {
    if lag == 0 {
      forall calls: seq<Call>, ip, from: nat | LagsAtMost(calls, lag)
        ensures MinuteBounded(calls, ip, from)
      {
        assert Nondecreasing(calls);
        AtMostSixtyAMinute(calls, ip, from);
      }
    } else {
      OneNanosecondBreaksTheBound("");
      assert LagsAtMost(LateBurst(""), lag);
    }
  }
}
