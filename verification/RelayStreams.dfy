/** Stream multiplexing in relay/src/lib.rs: the tasks of serve_connector and serve_phone, interleaved at their
    lock-held sections and channel operations. */
module RelayStreams {
  import opened Basics
  import opened BigEndian
  import RP = RelayProtocol

  type Frame = RP.Frame
  type Payload = seq<byte>

  const CONNECTOR_QUEUE: nat := 256
  const STREAM_QUEUE: nat := 32
  const MAX_STREAMS_PER_CONNECTOR: nat := 128

  /** Connectors that may connect before the generation counter wraps. */
  const GENERATIONS: nat := U64 - 1
  /** Nonzero stream ids; the counter skips zero, so it repeats with this period. */
  const IDS: nat := U64 - 1

  // ---------- Stream ids ----------

  /** next_nonzero on the wrapping counter. */
  method NextNonzero(counter: u64) returns (id: u64, next: u64)
    ensures id != 0 && id == (if counter == 0 then 1 else counter)
    ensures next == (id + 1) % U64
  {
    next := counter;
    id := 0;
    while id == 0
      invariant id == 0 ==> next == counter || (counter == 0 && next == 1)
      invariant id != 0 ==> id == (if counter == 0 then 1 else counter) && next == (id + 1) % U64
      decreases id == 0, next == 0
    {
      id, next := next, (next + 1) % U64;
    }
  }

  /** The k-th id the counter hands out, starting from one. */
  function StreamIdOf(k: nat): (id: u64)
    ensures id != 0
  {
    k % IDS + 1
  }

  /** The counter's value when k ids have been handed out. */
  function CounterAfter(k: nat): u64
  {
    (k % IDS + 1) % U64
  }

  lemma {:induction false} SuccessorId(k: nat)
    ensures (k + 1) % IDS == if k % IDS + 1 == IDS then 0 else k % IDS + 1
  {
    assert k + 1 == IDS * (k / IDS) + (k % IDS + 1);
    if k % IDS + 1 == IDS {
      assert k + 1 == IDS * (k / IDS + 1);
    } else {
    }
  }

  /** An id comes back only when the whole cycle has been used up in between. */
  lemma {:induction false} IdsRepeatOnlyAfterACycle(i: nat, j: nat)
    requires i <= j
    ensures StreamIdOf(i) == StreamIdOf(j) <==> (j - i) % IDS == 0
  {
    var d := j - i;
    assert i == IDS * (i / IDS) + i % IDS && d == IDS * (d / IDS) + d % IDS;
    var sum := i % IDS + d % IDS;
    assert j == IDS * (i / IDS + d / IDS) + sum;
    if sum < IDS {
    } else {
      assert j == IDS * (i / IDS + d / IDS + 1) + (sum - IDS);
    }
  }

  // ---------- State ----------

  datatype Life = Serving | Closing | Finished

  /** What serve_connector holds between its lookup of a stream and the end of that message. */
  datatype Hand = Idle | Holding(id: u64, payload: Payload) | Dropping(id: u64)

  /** One run of serve_connector. received and enqueued are histories: the Data frames read from the desktop, and the
      frames phones have put on the outgoing queue. */
  datatype Conn = Conn(
    route: string,
    life: Life,
    queue: seq<Frame>,
    streams: set<u64>,
    hand: Hand,
    received: seq<(u64, Payload)>,
    enqueued: seq<Frame>)

  datatype Phase = Arrived | Registered | Streaming | Draining | Unregistered | Gone

  /** One run of serve_phone. since is the length of its connector's received when it registered; accepted and taken
      count the payloads put into and taken out of its channel; torn says that a write failed midway. */
  datatype Phone = Phone(
    conn: nat,
    phase: Phase,
    since: nat,
    inbox: seq<Payload>,
    accepted: nat,
    taken: nat,
    torn: bool,
    written: seq<byte>)

  datatype Relay = Relay(
    current: map<string, nat>,
    conns: map<nat, Conn>,
    phones: map<u64, Phone>,
    nextGeneration: nat,
    issued: nat)

  const IDLE: Relay := Relay(map[], map[], map[], 1, 0)

  // ---------- Steps ----------

  datatype Step =
    // the desktop's task
    | Connect(route: string)
    | SendOut(g: nat)
    | ReceiveData(g: nat, id: u64, payload: Payload)
    | HandOver(g: nat)
    | DropSlow(g: nat)
    | ReceiveClose(g: nat, id: u64)
    | Leave(g: nat)
    | Finish(g: nat)
    // by the task itself, by its successor, or by deprovisioning
    | CloseAllStreams(g: nat)
    | Deprovision(route: string)
    // the phone's task
    | Arrive(route: string)
    | Register(id: u64)
    | SendOpen(id: u64)
    | OpenFails(id: u64)
    | ReadPhone(id: u64, bytes: Payload)
    | WritePhone(id: u64)
    | WriteTorn(id: u64, k: nat)
    | HangUp(id: u64)
    | Unregister(id: u64)
    | SendClose(id: u64)
    | CloseFails(id: u64)

  predicate Sized(bytes: Payload)
  {
    0 < |bytes| <= RP.MAX_DATA_BYTES
  }

  predicate Working(s: Relay, g: nat)
  {
    g in s.conns && s.conns[g].life == Serving && s.conns[g].hand == Idle
  }

  predicate At(s: Relay, id: u64, phase: Phase)
  {
    id in s.phones && s.phones[id].phase == phase && s.phones[id].conn in s.conns
  }

  predicate Room(s: Relay, id: u64)
    requires id in s.phones && s.phones[id].conn in s.conns
  {
    var c := s.conns[s.phones[id].conn];
    c.life != Finished && |c.queue| < CONNECTOR_QUEUE
  }

  predicate Enabled(s: Relay, step: Step)
  {
    match step
    case Connect(_) => s.nextGeneration <= GENERATIONS
    case SendOut(g) => Working(s, g) && s.conns[g].queue != []
    case ReceiveData(g, id, payload) => Working(s, g) && id != 0 && Sized(payload)
    case HandOver(g) => g in s.conns && s.conns[g].hand.Holding? && s.conns[g].hand.id in s.phones
    case DropSlow(g) => g in s.conns && s.conns[g].hand.Dropping?
    case ReceiveClose(g, _) => Working(s, g)
    case Leave(g) => Working(s, g)
    case Finish(g) => g in s.conns && s.conns[g].life == Closing
    case CloseAllStreams(g) => g in s.conns
    case Deprovision(_) => true
    case Arrive(route) => route in s.current && s.issued < IDS
    case Register(id) => At(s, id, Arrived)
    case SendOpen(id) => At(s, id, Registered) && Room(s, id)
    case OpenFails(id) => At(s, id, Registered) && s.conns[s.phones[id].conn].life == Finished
    case ReadPhone(id, bytes) => At(s, id, Streaming) && Room(s, id) && Sized(bytes)
    case WritePhone(id) => At(s, id, Streaming) && s.phones[id].inbox != []
    case WriteTorn(id, k) => At(s, id, Streaming) && s.phones[id].inbox != [] && k <= |s.phones[id].inbox[0]|
    case HangUp(id) => At(s, id, Streaming)
    case Unregister(id) => At(s, id, Draining)
    case SendClose(id) => At(s, id, Unregistered) && Room(s, id)
    case CloseFails(id) => At(s, id, Unregistered) && s.conns[s.phones[id].conn].life == Finished
  }

  function PutConn(s: Relay, g: nat, c: Conn): Relay
  {
    s.(conns := s.conns[g := c])
  }

  function PutPhone(s: Relay, id: u64, p: Phone): Relay
  {
    s.(phones := s.phones[id := p])
  }

  /** A phone's step: its own record and its connector's. */
  function PutBoth(s: Relay, id: u64, p: Phone, c: Conn): Relay
  {
    PutConn(PutPhone(s, id, p), p.conn, c)
  }

  function Enqueue(c: Conn, f: Frame): Conn
  {
    c.(queue := c.queue + [f], enqueued := c.enqueued + [f])
  }

  predicate Accepts(p: Phone)
  {
    |p.inbox| < STREAM_QUEUE && p.phase != Gone
  }

  function Next(s: Relay, step: Step): Relay
    requires Enabled(s, step)
  {
    match step
    case Connect(route) =>
      s.(current := s.current[route := s.nextGeneration],
         conns := s.conns[s.nextGeneration := Conn(route, Serving, [], {}, Idle, [], [])],
         nextGeneration := s.nextGeneration + 1)
    case SendOut(g) => PutConn(s, g, s.conns[g].(queue := s.conns[g].queue[1..]))
    case ReceiveData(g, id, payload) =>
      var c := s.conns[g];
      PutConn(s, g, c.(received := c.received + [(id, payload)], hand := if id in c.streams then Holding(id, payload) else Idle))
    case HandOver(g) =>
      var c := s.conns[g];
      var p := s.phones[c.hand.id];
      if Accepts(p) then
        PutConn(PutPhone(s, c.hand.id, p.(inbox := p.inbox + [c.hand.payload], accepted := p.accepted + 1)),
                g, c.(hand := Idle))
      else PutConn(s, g, c.(hand := Dropping(c.hand.id)))
    case DropSlow(g) =>
      var c := s.conns[g];
      PutConn(s, g, c.(streams := c.streams - {c.hand.id}, hand := Idle))
    case ReceiveClose(g, id) => PutConn(s, g, s.conns[g].(streams := s.conns[g].streams - {id}))
    case Leave(g) => PutConn(s, g, s.conns[g].(life := Closing))
    case Finish(g) =>
      var c := s.conns[g];
      PutConn(s, g, c.(life := Finished)).(
        current := if c.route in s.current && s.current[c.route] == g then s.current - {c.route} else s.current)
    case CloseAllStreams(g) => PutConn(s, g, s.conns[g].(streams := {}))
    case Deprovision(route) => s.(current := s.current - {route})
    case Arrive(route) =>
      PutPhone(s, StreamIdOf(s.issued), Phone(s.current[route], Arrived, 0, [], 0, 0, false, [])).(issued := s.issued + 1)
    case Register(id) =>
      var p := s.phones[id];
      var c := s.conns[p.conn];
      if |c.streams| >= MAX_STREAMS_PER_CONNECTOR then PutPhone(s, id, p.(phase := Gone))
      else PutBoth(s, id, p.(phase := Registered, since := |c.received|), c.(streams := c.streams + {id}))
    case SendOpen(id) =>
      var p := s.phones[id];
      PutBoth(s, id, p.(phase := Streaming), Enqueue(s.conns[p.conn], RP.Open(id)))
    case OpenFails(id) =>
      var p := s.phones[id];
      PutBoth(s, id, p.(phase := Gone), s.conns[p.conn].(streams := s.conns[p.conn].streams - {id}))
    case ReadPhone(id, bytes) =>
      var p := s.phones[id];
      PutBoth(s, id, p, Enqueue(s.conns[p.conn], RP.Data(id, bytes)))
    case WritePhone(id) =>
      var p := s.phones[id];
      PutPhone(s, id, p.(written := p.written + p.inbox[0], inbox := p.inbox[1..], taken := p.taken + 1))
    case WriteTorn(id, k) =>
      var p := s.phones[id];
      PutPhone(s, id, p.(written := p.written + p.inbox[0][..k], inbox := p.inbox[1..], taken := p.taken + 1,
                         torn := true, phase := Draining))
    case HangUp(id) => PutPhone(s, id, s.phones[id].(phase := Draining))
    case Unregister(id) =>
      var p := s.phones[id];
      PutBoth(s, id, p.(phase := Unregistered), s.conns[p.conn].(streams := s.conns[p.conn].streams - {id}))
    case SendClose(id) =>
      var p := s.phones[id];
      PutBoth(s, id, p.(phase := Gone), Enqueue(s.conns[p.conn], RP.Close(id, [])))
    case CloseFails(id) => PutPhone(s, id, s.phones[id].(phase := Gone))
  }

  ghost predicate Reaches(s: Relay, steps: seq<Step>, end: Relay)
    decreases |steps|
  {
    if steps == [] then end == s
    else Enabled(s, steps[0]) && Reaches(Next(s, steps[0]), steps[1..], end)
  }

  // ---------- What one stream sees of its connector ----------

  function PayloadsFor(log: seq<(u64, Payload)>, id: u64): (payloads: seq<Payload>)
  {
    if log == [] then []
    else
      var last := log[|log| - 1];
      PayloadsFor(log[..|log| - 1], id) + if last.0 == id then [last.1] else []
  }

  function StreamOf(f: Frame): u64
  {
    match f
    case Open(id) => id
    case Data(id, _) => id
    case Close(id, _) => id
    case Ping => 0
    case Pong => 0
  }

  function FramesOf(frames: seq<Frame>, id: u64): (own: seq<Frame>)
  {
    if frames == [] then []
    else
      var last := frames[|frames| - 1];
      FramesOf(frames[..|frames| - 1], id) + if StreamOf(last) == id then [last] else []
  }

  /** An Open and then only Data. */
  ghost predicate OpenRun(frames: seq<Frame>)
  {
    frames != [] && frames[0].Open? && forall k :: 1 <= k < |frames| ==> frames[k].Data?
  }

  /** Nothing, or Open Data* Close?. */
  ghost predicate WellFormed(frames: seq<Frame>)
  {
    || frames == []
    || OpenRun(frames)
    || (frames[|frames| - 1].Close? && OpenRun(frames[..|frames| - 1]))
  }

  predicate About(h: Hand, id: u64)
  {
    !h.Idle? && h.id == id
  }

  ghost predicate FramesFit(phase: Phase, frames: seq<Frame>)
  {
    match phase
    case Arrived => frames == []
    case Registered => frames == []
    case Streaming => OpenRun(frames)
    case Draining => OpenRun(frames)
    case Unregistered => OpenRun(frames)
    case Gone => WellFormed(frames)
  }

  ghost predicate Delivered(p: Phone, payloads: seq<Payload>)
  {
    && p.taken <= p.accepted <= |payloads|
    && p.inbox == payloads[p.taken..p.accepted]
    && (!p.torn ==> p.written == Flatten(payloads[..p.taken]))
    && (p.torn ==> p.written <= Flatten(payloads[..p.taken]) && p.phase != Registered && p.phase != Streaming)
  }

  ghost predicate PhoneOk(id: u64, p: Phone, c: Conn)
  {
    && p.since <= |c.received|
    && Delivered(p, PayloadsFor(c.received[p.since..], id))
    && (c.hand.Holding? && c.hand.id == id ==>
          PayloadsFor(c.received[p.since..], id) == PayloadsFor(c.received[p.since..], id)[..p.accepted] + [c.hand.payload])
    && (id in c.streams && !About(c.hand, id) ==> p.accepted == |PayloadsFor(c.received[p.since..], id)|)
    && (p.phase == Arrived ==> p.accepted == 0 && p.written == [] && !p.torn && id !in c.streams && !About(c.hand, id))
    && FramesFit(p.phase, FramesOf(c.enqueued, id))
  }

  /** Two states of a connector look the same to one of its streams, except that the stream may have been removed. */
  ghost predicate Alike(id: u64, since: nat, c: Conn, d: Conn)
  {
    && since <= |c.received| && since <= |d.received|
    && PayloadsFor(c.received[since..], id) == PayloadsFor(d.received[since..], id)
    && FramesOf(c.enqueued, id) == FramesOf(d.enqueued, id)
    && (id in d.streams ==> id in c.streams)
    && (About(d.hand, id) ==> d.hand == c.hand)
    && (About(c.hand, id) && id in d.streams ==> d.hand == c.hand)
  }

  lemma {:induction false} AlikeKeeps(id: u64, p: Phone, c: Conn, d: Conn)
    requires PhoneOk(id, p, c) && Alike(id, p.since, c, d)
    ensures PhoneOk(id, p, d)
  {
  }

  lemma {:induction false} PayloadsSnoc(log: seq<(u64, Payload)>, since: nat, x: (u64, Payload), id: u64)
    requires since <= |log|
    ensures PayloadsFor((log + [x])[since..], id) == PayloadsFor(log[since..], id) + if x.0 == id then [x.1] else []
  {
    var t := (log + [x])[since..];
    assert t[|t| - 1] == x && t[..|t| - 1] == log[since..];
  }

  lemma {:induction false} EnqueueAlike(id: u64, since: nat, c: Conn, f: Frame)
    requires since <= |c.received| && StreamOf(f) != id
    ensures Alike(id, since, c, Enqueue(c, f))
  {
  }

  // ---------- The invariant ----------

  ghost predicate MapLive(s: Relay)
  {
    && (forall g :: g in s.conns ==> g < s.nextGeneration)
    && forall route :: route in s.current ==>
         s.current[route] in s.conns && s.conns[s.current[route]].route == route && s.conns[s.current[route]].life != Finished
  }

  ghost predicate IsStreamOf(s: Relay, g: nat, id: u64)
  {
    id in s.phones && s.phones[id].conn == g
  }

  ghost predicate ConnOk(s: Relay, g: nat, c: Conn)
  {
    && |c.streams| <= MAX_STREAMS_PER_CONNECTOR
    && |c.queue| <= |c.enqueued| && c.queue == c.enqueued[|c.enqueued| - |c.queue|..]
    && |c.queue| <= CONNECTOR_QUEUE
    && (forall id :: id in c.streams || About(c.hand, id) ==> IsStreamOf(s, g, id))
    && (forall k :: 0 <= k < |c.enqueued| ==> RP.Encoded(c.enqueued[k]).Ok? && IsStreamOf(s, g, StreamOf(c.enqueued[k])))
    && (forall k :: 0 <= k < |c.received| ==> c.received[k].0 != 0)
  }

  ghost predicate IdIssued(s: Relay, id: u64)
  {
    0 < id <= s.issued
  }

  ghost predicate Inv(s: Relay)
  {
    && s.issued <= IDS
    && MapLive(s)
    && (forall id :: id in s.phones ==> IdIssued(s, id) && s.phones[id].conn in s.conns)
    && (forall id :: id in s.phones ==> PhoneOk(id, s.phones[id], s.conns[s.phones[id].conn]))
    && (forall g :: g in s.conns ==> ConnOk(s, g, s.conns[g]))
  }

  ghost predicate SiblingsAlike(s: Relay, g: nat, but: u64, c: Conn, d: Conn)
  {
    forall id :: id in s.phones && id != but && s.phones[id].conn == g ==> Alike(id, s.phones[id].since, c, d)
  }

  lemma {:induction false} ConnOkMoves(s: Relay, t: Relay, g: nat, c: Conn)
    requires ConnOk(s, g, c) && forall x :: IsStreamOf(s, g, x) ==> IsStreamOf(t, g, x)
    ensures ConnOk(t, g, c)
  {
  }

  /** A step that touches one connector and at most one of its streams keeps the invariant if it does so locally. */
  lemma {:induction false} LocalStep(s: Relay, id: u64, p: Phone, d: Conn)
    requires Inv(s) && id in s.phones && p.conn == s.phones[id].conn
    requires var c := s.conns[p.conn];
             && PhoneOk(id, p, d) && ConnOk(s, p.conn, d) && SiblingsAlike(s, p.conn, id, c, d)
             && d.route == c.route && d.life == c.life
    ensures Inv(PutBoth(s, id, p, d))
  {
    hide PhoneOk, ConnOk, Alike;
    var t := PutBoth(s, id, p, d);
    forall x | x in t.phones ensures PhoneOk(x, t.phones[x], t.conns[t.phones[x].conn]) {
      if x != id && s.phones[x].conn == p.conn {
        AlikeKeeps(x, s.phones[x], s.conns[p.conn], d);
      }
    }
    forall g | g in t.conns ensures ConnOk(t, g, t.conns[g]) {
      ConnOkMoves(s, t, g, t.conns[g]);
    }
  }

  /** A step that touches one connector only. */
  lemma {:induction false} ConnStep(s: Relay, g: nat, d: Conn)
    requires Inv(s) && g in s.conns && ConnOk(s, g, d) && MapLive(PutConn(s, g, d))
    requires forall id :: id in s.phones && s.phones[id].conn == g ==> Alike(id, s.phones[id].since, s.conns[g], d)
    ensures Inv(PutConn(s, g, d))
  {
    hide PhoneOk, ConnOk, Alike, MapLive;
    var t := PutConn(s, g, d);
    forall x | x in t.phones ensures PhoneOk(x, t.phones[x], t.conns[t.phones[x].conn]) {
      if s.phones[x].conn == g {
        AlikeKeeps(x, s.phones[x], s.conns[g], d);
      }
    }
    forall h | h in t.conns ensures ConnOk(t, h, t.conns[h]) {
      ConnOkMoves(s, t, h, t.conns[h]);
    }
  }

  /** A step that touches one phone only. */
  lemma {:induction false} PhoneStep(s: Relay, id: u64, p: Phone)
    requires Inv(s) && id in s.phones && p.conn == s.phones[id].conn
    requires PhoneOk(id, p, s.conns[p.conn])
    ensures Inv(PutPhone(s, id, p))
  {
    hide PhoneOk, ConnOk;
    var c := s.conns[p.conn];
    forall x | x in s.phones && x != id && s.phones[x].conn == p.conn ensures Alike(x, s.phones[x].since, c, c) {
      assert PhoneOk(x, s.phones[x], c);
      AlikeSelf(x, s.phones[x], c);
    }
    LocalStep(s, id, p, c);
    assert PutBoth(s, id, p, c).conns == s.conns;
  }

  lemma {:induction false} AlikeSelf(id: u64, p: Phone, c: Conn)
    requires PhoneOk(id, p, c)
    ensures Alike(id, p.since, c, c)
  {
  }

  lemma {:induction false} ConnectKeeps(s: Relay, route: string)
    requires Inv(s) && Enabled(s, Connect(route))
    ensures Inv(Next(s, Connect(route)))
  {
    hide PhoneOk, ConnOk;
    var t := Next(s, Connect(route));
    forall g | g in t.conns ensures ConnOk(t, g, t.conns[g]) {
      if g in s.conns { ConnOkMoves(s, t, g, t.conns[g]); } else { FreshConn(t, route); }
    }
  }

  lemma {:induction false} FreshConn(s: Relay, route: string)
    ensures forall g :: ConnOk(s, g, Conn(route, Serving, [], {}, Idle, [], []))
  {
  }

  /** What a step does to its connector, as far as the other streams can tell. */
  lemma {:induction false} SiblingsOfReceive(s: Relay, g: nat, id: u64, payload: Payload, hand: Hand)
    requires Inv(s) && g in s.conns && s.conns[g].hand == Idle && (hand == Idle || hand == Holding(id, payload))
    ensures var c := s.conns[g];
            SiblingsAlike(s, g, id, c, c.(received := c.received + [(id, payload)], hand := hand))
  {
    hide ConnOk;
    var c := s.conns[g];
    forall x | x in s.phones && x != id && s.phones[x].conn == g
      ensures Alike(x, s.phones[x].since, c, c.(received := c.received + [(id, payload)], hand := hand))
    {
      assert PhoneOk(x, s.phones[x], c);
      PayloadsSnoc(c.received, s.phones[x].since, (id, payload), x);
    }
  }

  lemma {:induction false} SiblingsOfForget(s: Relay, g: nat, id: u64, streams: set<u64>, hand: Hand)
    requires Inv(s) && g in s.conns && streams <= s.conns[g].streams + {id}
    requires hand == s.conns[g].hand || (hand == Idle && About(s.conns[g].hand, id))
             || (About(hand, id) && About(s.conns[g].hand, id))
    ensures SiblingsAlike(s, g, id, s.conns[g], s.conns[g].(streams := streams, hand := hand))
  {
    hide ConnOk;
    forall x | x in s.phones && x != id && s.phones[x].conn == g
      ensures Alike(x, s.phones[x].since, s.conns[g], s.conns[g].(streams := streams, hand := hand))
    {
      assert PhoneOk(x, s.phones[x], s.conns[g]);
    }
  }

  lemma {:induction false} SiblingsOfEnqueue(s: Relay, g: nat, id: u64, f: Frame)
    requires Inv(s) && g in s.conns && StreamOf(f) == id
    ensures SiblingsAlike(s, g, id, s.conns[g], Enqueue(s.conns[g], f))
  {
    hide ConnOk, Alike;
    var c := s.conns[g];
    forall x | x in s.phones && x != id && s.phones[x].conn == g
      ensures Alike(x, s.phones[x].since, c, Enqueue(c, f))
    {
      assert PhoneOk(x, s.phones[x], c);
      EnqueueAlike(x, s.phones[x].since, c, f);
    }
  }

  // ---------- One stream at a time ----------

  lemma {:induction false} PhoneReceives(id: u64, p: Phone, c: Conn, payload: Payload)
    requires PhoneOk(id, p, c) && c.hand == Idle
    requires id in c.streams ==> p.phase != Arrived
    ensures PhoneOk(id, p, c.(received := c.received + [(id, payload)],
                              hand := if id in c.streams then Holding(id, payload) else Idle))
  {
    PayloadsSnoc(c.received, p.since, (id, payload), id);
    var before := PayloadsFor(c.received[p.since..], id);
    var after := before + [payload];
    assert after[..p.accepted] == before[..p.accepted] && after[..p.taken] == before[..p.taken];
    assert after[p.taken..p.accepted] == before[p.taken..p.accepted];
    if id in c.streams {
      assert before[..p.accepted] == before;
    }
  }

  lemma {:induction false} PhoneTakesOver(id: u64, p: Phone, c: Conn)
    requires PhoneOk(id, p, c) && c.hand.Holding? && c.hand.id == id
    ensures PhoneOk(id, p.(inbox := p.inbox + [c.hand.payload], accepted := p.accepted + 1), c.(hand := Idle))
    ensures PhoneOk(id, p, c.(hand := Dropping(id)))
  {
    var all := PayloadsFor(c.received[p.since..], id);
    assert all[p.taken..p.accepted + 1] == all[p.taken..p.accepted] + [c.hand.payload];
  }

  lemma {:induction false} PhoneForgotten(id: u64, p: Phone, c: Conn, streams: set<u64>)
    requires PhoneOk(id, p, c) && id !in streams
    ensures PhoneOk(id, p, c.(streams := streams))
    ensures c.hand == Dropping(id) ==> PhoneOk(id, p, c.(streams := streams, hand := Idle))
  {
  }

  lemma {:induction false} PhoneMovesOn(id: u64, p: Phone, c: Conn, phase: Phase)
    requires PhoneOk(id, p, c)
    requires (p.phase == Streaming && phase == Draining) || (p.phase == Unregistered && phase == Gone)
             || (p.phase == Draining && phase == Unregistered) || (p.phase == Registered && phase == Gone)
             || (p.phase == Arrived && phase == Gone)
    ensures PhoneOk(id, p.(phase := phase), c)
  {
  }

  lemma {:induction false} PhoneRegisters(id: u64, p: Phone, c: Conn)
    requires PhoneOk(id, p, c) && p.phase == Arrived && !About(c.hand, id)
    ensures PhoneOk(id, p.(phase := Registered, since := |c.received|), c.(streams := c.streams + {id}))
  {
    assert c.received[|c.received|..] == [];
    assert p.written == [] && p.inbox == [];
  }

  lemma {:induction false} PhoneEnqueues(id: u64, p: Phone, c: Conn, phase: Phase, f: Frame)
    requires PhoneOk(id, p, c) && StreamOf(f) == id && p.phase != Arrived && phase != Arrived
    requires phase == Streaming ==> !p.torn
    requires FramesFit(phase, FramesOf(c.enqueued, id) + [f])
    ensures PhoneOk(id, p.(phase := phase), Enqueue(c, f))
  {
  }

  lemma {:induction false} PhoneWrites(id: u64, p: Phone, c: Conn, k: nat)
    requires PhoneOk(id, p, c) && p.phase == Streaming && p.inbox != [] && k <= |p.inbox[0]|
    ensures PhoneOk(id, p.(written := p.written + p.inbox[0], inbox := p.inbox[1..], taken := p.taken + 1), c)
    ensures PhoneOk(id, p.(written := p.written + p.inbox[0][..k], inbox := p.inbox[1..], taken := p.taken + 1,
                           torn := true, phase := Draining), c)
  {
    var all := PayloadsFor(c.received[p.since..], id);
    assert p.inbox[0] == all[p.taken] && all[..p.taken + 1] == all[..p.taken] + [p.inbox[0]];
    FlattenSnoc(all[..p.taken], p.inbox[0]);
    assert p.inbox[1..] == all[p.taken + 1..p.accepted];
    assert p.inbox[0][..k] <= p.inbox[0];
  }

  // ---------- The steps ----------

  lemma {:induction false} SendOutKeeps(s: Relay, g: nat)
    requires Inv(s) && Enabled(s, SendOut(g))
    ensures Inv(Next(s, SendOut(g)))
  {
    hide Alike, PhoneOk;
    var c := s.conns[g];
    assert ConnOk(s, g, c);
    forall x | x in s.phones && s.phones[x].conn == g ensures Alike(x, s.phones[x].since, c, c.(queue := c.queue[1..])) {
      assert PhoneOk(x, s.phones[x], c);
      AlikeSelf(x, s.phones[x], c);
      AlikeQueue(x, s.phones[x].since, c, c.queue[1..]);
    }
    ConnStep(s, g, c.(queue := c.queue[1..]));
  }

  lemma {:induction false} AlikeQueue(id: u64, since: nat, c: Conn, queue: seq<Frame>)
    requires Alike(id, since, c, c)
    ensures Alike(id, since, c, c.(queue := queue))
  {
  }

  lemma {:induction false} HandConnOk(s: Relay, g: nat, c: Conn, received: seq<(u64, Payload)>, hand: Hand)
    requires ConnOk(s, g, c) && (hand == Idle || hand.id in c.streams || About(c.hand, hand.id))
    requires received == c.received || (|received| > 0 && received[..|received| - 1] == c.received && received[|received| - 1].0 != 0)
    ensures ConnOk(s, g, c.(received := received, hand := hand))
  {
  }

  lemma {:induction false} ReceiveDataKeeps(s: Relay, g: nat, id: u64, payload: Payload)
    requires Inv(s) && Enabled(s, ReceiveData(g, id, payload))
    ensures Inv(Next(s, ReceiveData(g, id, payload)))
  {
    hide Alike, PhoneOk, ConnOk;
    var c := s.conns[g];
    var hand := if id in c.streams then Holding(id, payload) else Idle;
    var d := c.(received := c.received + [(id, payload)], hand := hand);
    assert ConnOk(s, g, c);
    HandConnOk(s, g, c, d.received, hand);
    SiblingsOfReceive(s, g, id, payload, hand);
    if IsStreamOf(s, g, id) {
      var p := s.phones[id];
      assert PhoneOk(id, p, c);
      StreamsHaveArrived(id, p, c);
      PhoneReceives(id, p, c, payload);
      LocalStep(s, id, p, d);
      assert PutPhone(s, id, p) == s;
    } else {
      ConnStep(s, g, d);
    }
  }

  lemma {:induction false} StreamsHaveArrived(id: u64, p: Phone, c: Conn)
    requires PhoneOk(id, p, c)
    ensures p.phase == Arrived ==> id !in c.streams && !About(c.hand, id)
    ensures p.torn ==> p.phase != Registered && p.phase != Streaming
    ensures FramesFit(p.phase, FramesOf(c.enqueued, id))
  {
  }

  lemma {:induction false} HeldIsOwn(s: Relay, g: nat, c: Conn)
    requires ConnOk(s, g, c) && c.hand != Idle
    ensures IsStreamOf(s, g, c.hand.id)
  {
    assert About(c.hand, c.hand.id);
  }

  lemma {:induction false} HandOverKeeps(s: Relay, g: nat)
    requires Inv(s) && Enabled(s, HandOver(g))
    ensures Inv(Next(s, HandOver(g)))
  {
    hide Alike, PhoneOk, ConnOk;
    var c := s.conns[g];
    var id := c.hand.id;
    assert ConnOk(s, g, c);
    HeldIsOwn(s, g, c);
    HandConnOk(s, g, c, c.received, Idle);
    HandConnOk(s, g, c, c.received, Dropping(id));
    var p := s.phones[id];
    assert PhoneOk(id, p, c);
    PhoneTakesOver(id, p, c);
    SiblingsOfForget(s, g, id, c.streams, Idle);
    SiblingsOfForget(s, g, id, c.streams, Dropping(id));
    if Accepts(p) {
      LocalStep(s, id, p.(inbox := p.inbox + [c.hand.payload], accepted := p.accepted + 1), c.(hand := Idle));
    } else {
      LocalStep(s, id, p, c.(hand := Dropping(id)));
      assert PutPhone(s, id, p) == s;
    }
  }

  /** Removing streams never disturbs what the remaining ones see. */
  lemma {:induction false} ForgetKeeps(s: Relay, g: nat, keep: set<u64>, hand: Hand)
    requires Inv(s) && g in s.conns && keep <= s.conns[g].streams
    requires hand == s.conns[g].hand || (hand == Idle && s.conns[g].hand.Dropping? && s.conns[g].hand.id !in keep)
    ensures Inv(PutConn(s, g, s.conns[g].(streams := keep, hand := hand)))
  {
    hide PhoneOk, Alike;
    var c := s.conns[g];
    SubsetSize(keep, c.streams);
    assert ConnOk(s, g, c);
    forall x | x in s.phones && s.phones[x].conn == g
      ensures Alike(x, s.phones[x].since, c, c.(streams := keep, hand := hand))
    {
      assert PhoneOk(x, s.phones[x], c);
      AlikeSelf(x, s.phones[x], c);
      AlikeForget(x, s.phones[x].since, c, keep, hand);
    }
    ConnStep(s, g, c.(streams := keep, hand := hand));
  }

  lemma {:induction false} AlikeForget(id: u64, since: nat, c: Conn, keep: set<u64>, hand: Hand)
    requires Alike(id, since, c, c) && keep <= c.streams
    requires hand == c.hand || (hand == Idle && c.hand.Dropping? && c.hand.id !in keep)
    ensures Alike(id, since, c, c.(streams := keep, hand := hand))
  {
  }

  lemma {:induction false} RegisterKeeps(s: Relay, id: u64)
    requires Inv(s) && Enabled(s, Register(id))
    ensures Inv(Next(s, Register(id)))
  {
    hide Alike, PhoneOk, ConnOk;
    var p := s.phones[id];
    var c := s.conns[p.conn];
    assert PhoneOk(id, p, c) && ConnOk(s, p.conn, c);
    StreamsHaveArrived(id, p, c);
    if |c.streams| >= MAX_STREAMS_PER_CONNECTOR {
      PhoneMovesOn(id, p, c, Gone);
      PhoneStep(s, id, p.(phase := Gone));
    } else {
      PhoneRegisters(id, p, c);
      SiblingsOfForget(s, p.conn, id, c.streams + {id}, c.hand);
      RegisteredConnOk(s, p.conn, c, id);
      LocalStep(s, id, p.(phase := Registered, since := |c.received|), c.(streams := c.streams + {id}));
    }
  }

  lemma {:induction false} RegisteredConnOk(s: Relay, g: nat, c: Conn, id: u64)
    requires ConnOk(s, g, c) && IsStreamOf(s, g, id) && |c.streams| < MAX_STREAMS_PER_CONNECTOR
    ensures ConnOk(s, g, c.(streams := c.streams + {id}))
  {
  }

  lemma {:induction false} EnqueuedConnOk(s: Relay, g: nat, c: Conn, f: Frame)
    requires ConnOk(s, g, c) && |c.queue| < CONNECTOR_QUEUE && RP.Encoded(f).Ok? && IsStreamOf(s, g, StreamOf(f))
    ensures ConnOk(s, g, Enqueue(c, f))
  {
    hide RP.Encoded, IsStreamOf;
    var d := Enqueue(c, f);
    assert d.enqueued[|d.enqueued| - |d.queue|..] == c.enqueued[|c.enqueued| - |c.queue|..] + [f];
  }

  lemma {:induction false} EnqueueKeeps(s: Relay, id: u64, phase: Phase, f: Frame)
    requires Inv(s) && id in s.phones && Room(s, id)
    requires StreamOf(f) == id && RP.Encoded(f).Ok? && s.phones[id].phase != Arrived && phase != Arrived
    requires phase == Streaming ==> !s.phones[id].torn
    requires FramesFit(phase, FramesOf(s.conns[s.phones[id].conn].enqueued, id) + [f])
    ensures var p := s.phones[id];
            Inv(PutBoth(s, id, p.(phase := phase), Enqueue(s.conns[p.conn], f)))
  {
    hide Alike, PhoneOk, FramesFit, ConnOk;
    var p := s.phones[id];
    var c := s.conns[p.conn];
    assert PhoneOk(id, p, c) && ConnOk(s, p.conn, c);
    EnqueuedConnOk(s, p.conn, c, f);
    PhoneEnqueues(id, p, c, phase, f);
    SiblingsOfEnqueue(s, p.conn, id, f);
    LocalStep(s, id, p.(phase := phase), Enqueue(c, f));
  }

  lemma {:induction false} WriteKeeps(s: Relay, id: u64)
    requires Inv(s) && Enabled(s, WritePhone(id))
    ensures Inv(Next(s, WritePhone(id)))
  {
    hide Alike, PhoneOk, ConnOk;
    var p := s.phones[id];
    assert PhoneOk(id, p, s.conns[p.conn]);
    PhoneWrites(id, p, s.conns[p.conn], 0);
    PhoneStep(s, id, p.(written := p.written + p.inbox[0], inbox := p.inbox[1..], taken := p.taken + 1));
  }

  lemma {:induction false} WriteTornKeeps(s: Relay, id: u64, k: nat)
    requires Inv(s) && Enabled(s, WriteTorn(id, k))
    ensures Inv(Next(s, WriteTorn(id, k)))
  {
    hide Alike, PhoneOk, ConnOk;
    var p := s.phones[id];
    assert PhoneOk(id, p, s.conns[p.conn]);
    PhoneWrites(id, p, s.conns[p.conn], k);
    PhoneStep(s, id, p.(written := p.written + p.inbox[0][..k], inbox := p.inbox[1..], taken := p.taken + 1,
                        torn := true, phase := Draining));
  }

  lemma {:induction false} LeaveKeeps(s: Relay, id: u64, phase: Phase)
    requires Inv(s) && id in s.phones
    requires (phase == Gone && s.phones[id].phase == Registered) || (phase == Unregistered && s.phones[id].phase == Draining)
    ensures var p := s.phones[id];
            var c := s.conns[p.conn];
            Inv(PutBoth(s, id, p.(phase := phase), c.(streams := c.streams - {id})))
  {
    hide Alike, PhoneOk;
    var p := s.phones[id];
    var c := s.conns[p.conn];
    assert PhoneOk(id, p, c) && ConnOk(s, p.conn, c);
    SubsetSize(c.streams - {id}, c.streams);
    PhoneMovesOn(id, p, c, phase);
    PhoneForgotten(id, p.(phase := phase), c, c.streams - {id});
    SiblingsOfForget(s, p.conn, id, c.streams - {id}, c.hand);
    LocalStep(s, id, p.(phase := phase), c.(streams := c.streams - {id}));
  }

  lemma {:induction false} MovesOnKeeps(s: Relay, id: u64, phase: Phase)
    requires Inv(s) && id in s.phones
    requires (s.phones[id].phase == Streaming && phase == Draining) || (s.phones[id].phase == Unregistered && phase == Gone)
    ensures Inv(PutPhone(s, id, s.phones[id].(phase := phase)))
  {
    hide PhoneOk, ConnOk;
    var p := s.phones[id];
    assert PhoneOk(id, p, s.conns[p.conn]);
    PhoneMovesOn(id, p, s.conns[p.conn], phase);
    PhoneStep(s, id, p.(phase := phase));
  }

  lemma {:induction false} NoFrames(frames: seq<Frame>, id: u64)
    requires forall k :: 0 <= k < |frames| ==> StreamOf(frames[k]) != id
    ensures FramesOf(frames, id) == []
  {
    if frames != [] {
      NoFrames(frames[..|frames| - 1], id);
    }
  }

  lemma {:induction false} PhoneArrives(s: Relay, g: nat, id: u64, c: Conn)
    requires ConnOk(s, g, c) && id !in s.phones
    ensures PhoneOk(id, Phone(g, Arrived, 0, [], 0, 0, false, []), c)
  {
    forall k | 0 <= k < |c.enqueued| ensures StreamOf(c.enqueued[k]) != id {
      assert IsStreamOf(s, g, StreamOf(c.enqueued[k]));
    }
    NoFrames(c.enqueued, id);
    assert !IsStreamOf(s, g, id);
  }

  lemma {:induction false} ArriveKeeps(s: Relay, route: string)
    requires Inv(s) && Enabled(s, Arrive(route))
    ensures Inv(Next(s, Arrive(route)))
  {
    hide PhoneOk, ConnOk;
    var id := StreamIdOf(s.issued);
    assert !IdIssued(s, id);
    var t := Next(s, Arrive(route));
    assert ConnOk(s, s.current[route], s.conns[s.current[route]]);
    PhoneArrives(s, s.current[route], id, s.conns[s.current[route]]);
    forall h | h in t.conns ensures ConnOk(t, h, t.conns[h]) {
      ConnOkMoves(s, t, h, t.conns[h]);
    }
  }

  lemma {:induction false} ChangeLife(s: Relay, g: nat, life: Life)
    requires Inv(s) && g in s.conns && MapLive(PutConn(s, g, s.conns[g].(life := life)))
    ensures Inv(PutConn(s, g, s.conns[g].(life := life)))
  {
    hide PhoneOk, MapLive;
    var c := s.conns[g];
    assert ConnOk(s, g, c);
    forall x | x in s.phones && s.phones[x].conn == g ensures Alike(x, s.phones[x].since, c, c.(life := life)) {
      assert PhoneOk(x, s.phones[x], c);
      AlikeSelf(x, s.phones[x], c);
    }
    ConnStep(s, g, c.(life := life));
  }

  lemma {:induction false} SameRecords(s: Relay, t: Relay)
    requires Inv(s) && t == s.(current := t.current) && MapLive(t)
    ensures Inv(t)
  {
    hide PhoneOk, ConnOk, MapLive;
    forall g | g in t.conns ensures ConnOk(t, g, t.conns[g]) {
      ConnOkMoves(s, t, g, t.conns[g]);
    }
  }

  lemma {:induction false} FinishKeeps(s: Relay, g: nat)
    requires Inv(s) && Enabled(s, Finish(g))
    ensures Inv(Next(s, Finish(g)))
  {
    hide PhoneOk, ConnOk;
    var c := s.conns[g];
    var t := s.(current := if c.route in s.current && s.current[c.route] == g then s.current - {c.route} else s.current);
    SameRecords(s, t);
    assert MapLive(PutConn(t, g, c.(life := Finished)));
    ChangeLife(t, g, Finished);
  }

  lemma {:induction false} DeprovisionKeeps(s: Relay, route: string)
    requires Inv(s)
    ensures Inv(Next(s, Deprovision(route)))
  {
    hide PhoneOk, ConnOk;
    SameRecords(s, Next(s, Deprovision(route)));
  }

  lemma {:induction false} OpenKeeps(s: Relay, id: u64)
    requires Inv(s) && Enabled(s, SendOpen(id))
    ensures Inv(Next(s, SendOpen(id)))
  {
    hide ConnOk, PhoneOk;
    var p := s.phones[id];
    assert PhoneOk(id, p, s.conns[p.conn]) && IdIssued(s, id);
    StreamsHaveArrived(id, p, s.conns[p.conn]);
    EnqueueKeeps(s, id, Streaming, RP.Open(id));
  }

  lemma {:induction false} ReadKeeps(s: Relay, id: u64, bytes: Payload)
    requires Inv(s) && Enabled(s, ReadPhone(id, bytes))
    ensures Inv(Next(s, ReadPhone(id, bytes)))
  {
    hide ConnOk, PhoneOk;
    var p := s.phones[id];
    assert PhoneOk(id, p, s.conns[p.conn]) && IdIssued(s, id);
    StreamsHaveArrived(id, p, s.conns[p.conn]);
    EnqueueKeeps(s, id, Streaming, RP.Data(id, bytes));
    assert p.(phase := Streaming) == p;
  }

  lemma {:induction false} CloseKeeps(s: Relay, id: u64)
    requires Inv(s) && Enabled(s, SendClose(id))
    ensures Inv(Next(s, SendClose(id)))
  {
    hide ConnOk, PhoneOk;
    var p := s.phones[id];
    assert PhoneOk(id, p, s.conns[p.conn]) && IdIssued(s, id);
    StreamsHaveArrived(id, p, s.conns[p.conn]);
    var own := FramesOf(s.conns[p.conn].enqueued, id);
    assert (own + [RP.Close(id, [])])[..|own|] == own;
    EnqueueKeeps(s, id, Gone, RP.Close(id, []));
  }

  lemma {:induction false} StepKeeps(s: Relay, step: Step)
    requires Inv(s) && Enabled(s, step)
    ensures Inv(Next(s, step))
  {
    hide ConnOk, PhoneOk, MapLive;
    match step
    case Connect(route) => ConnectKeeps(s, route);
    case SendOut(g) => SendOutKeeps(s, g);
    case ReceiveData(g, id, payload) => ReceiveDataKeeps(s, g, id, payload);
    case HandOver(g) => HandOverKeeps(s, g);
    case DropSlow(g) => ForgetKeeps(s, g, s.conns[g].streams - {s.conns[g].hand.id}, Idle);
    case ReceiveClose(g, id) => ForgetKeeps(s, g, s.conns[g].streams - {id}, s.conns[g].hand);
    case Leave(g) => BeginClosing(s, g);
    case Finish(g) => FinishKeeps(s, g);
    case CloseAllStreams(g) => ForgetKeeps(s, g, {}, s.conns[g].hand);
    case Deprovision(route) => DeprovisionKeeps(s, route);
    case Arrive(route) => ArriveKeeps(s, route);
    case Register(id) => RegisterKeeps(s, id);
    case SendOpen(id) => OpenKeeps(s, id);
    case OpenFails(id) => LeaveKeeps(s, id, Gone);
    case ReadPhone(id, bytes) => ReadKeeps(s, id, bytes);
    case WritePhone(id) => WriteKeeps(s, id);
    case WriteTorn(id, k) => WriteTornKeeps(s, id, k);
    case HangUp(id) => MovesOnKeeps(s, id, Draining);
    case Unregister(id) => LeaveKeeps(s, id, Unregistered);
    case SendClose(id) => CloseKeeps(s, id);
    case CloseFails(id) => MovesOnKeeps(s, id, Gone);
  }

  lemma {:induction false} BeginClosing(s: Relay, g: nat)
    requires Inv(s) && Enabled(s, Leave(g))
    ensures Inv(Next(s, Leave(g)))
  {
    hide ConnOk, PhoneOk;
    assert MapLive(PutConn(s, g, s.conns[g].(life := Closing)));
    ChangeLife(s, g, Closing);
  }

  lemma {:induction false} RunKeeps(s: Relay, steps: seq<Step>, end: Relay)
    requires Inv(s) && Reaches(s, steps, end)
    ensures Inv(end)
    decreases |steps|
  {
    hide Inv;
    if steps != [] {
      StepKeeps(s, steps[0]);
      RunKeeps(Next(s, steps[0]), steps[1..], end);
    }
  }

  lemma {:induction false} StartOk()
    ensures Inv(IDLE)
  {
  }

  // ---------- Main results, for every run ----------

  lemma {:induction false} PayloadsSplit(log: seq<(u64, Payload)>, k: nat, id: u64)
    requires k <= |log|
    ensures PayloadsFor(log, id) == PayloadsFor(log[..k], id) + PayloadsFor(log[k..], id)
    decreases |log|
  {
    if k == |log| {
      assert log[..k] == log && log[k..] == [];
    } else {
      var front, tail := log[..|log| - 1], log[k..];
      PayloadsSplit(front, k, id);
      assert front[..k] == log[..k] && front[k..] == tail[..|tail| - 1];
    }
  }

  /** What a phone is sent is a prefix of the payloads its own connector received for its stream since it registered;
      of all it ever received for that id, when none came before. */
  lemma {:induction false} WrittenIsOwnPrefix(steps: seq<Step>, end: Relay, id: u64)
    requires Reaches(IDLE, steps, end) && id in end.phones
    ensures end.phones[id].conn in end.conns
    ensures var p, log := end.phones[id], end.conns[end.phones[id].conn].received;
            && p.since <= |log|
            && p.written <= Flatten(PayloadsFor(log[p.since..], id))
            && (PayloadsFor(log[..p.since], id) == [] ==> p.written <= Flatten(PayloadsFor(log, id)))
  {
    hide ConnOk, MapLive;
    StartOk();
    RunKeeps(IDLE, steps, end);
    var p := end.phones[id];
    var log := end.conns[p.conn].received;
    assert PhoneOk(id, p, end.conns[p.conn]);
    var own := PayloadsFor(log[p.since..], id);
    assert own == own[..p.taken] + own[p.taken..];
    FlattenAppend(own[..p.taken], own[p.taken..]);
    PayloadsSplit(log, p.since, id);
    if PayloadsFor(log[..p.since], id) == [] {
      assert PayloadsFor(log, id) == own;
    }
  }

  lemma {:induction false} Prepend(s: Relay, step: Step, rest: seq<Step>, end: Relay)
    requires Enabled(s, step) && Reaches(Next(s, step), rest, end)
    ensures Reaches(s, [step] + rest, end)
  {
    assert ([step] + rest)[1..] == rest;
  }

  // ---------- When it is a prefix of all that was received ----------

  /** The payloads received for the stream before its phone had registered. */
  function Early(s: Relay, id: u64): seq<Payload>
    requires Present(s, id)
  {
    var p := s.phones[id];
    PayloadsFor(s.conns[p.conn].received[..p.since], id)
  }

  predicate Present(s: Relay, id: u64)
  {
    id in s.phones && s.phones[id].conn in s.conns && s.phones[id].since <= |s.conns[s.phones[id].conn].received|
  }

  /** What the phone was sent is a prefix of all its connector ever received for the stream. */
  ghost predicate PrefixOfAll(s: Relay, id: u64)
  {
    Present(s, id) && s.phones[id].written <= Flatten(PayloadsFor(s.conns[s.phones[id].conn].received, id))
  }

  /** The phone's loop and its connector's task can take the stream's next payload through. */
  predicate CanDeliver(s: Relay, id: u64)
  {
    At(s, id, Streaming) && Working(s, s.phones[id].conn) && id in s.conns[s.phones[id].conn].streams
  }

  ghost predicate NoneEmpty(s: Relay)
  {
    forall g :: g in s.conns ==> AllSized(s.conns[g].received)
  }

  ghost predicate AllSized(log: seq<(u64, Payload)>)
  {
    forall k :: 0 <= k < |log| ==> Sized(log[k].1)
  }

  /** A step leaves a connector's record of what it received as it was, adds one sized payload, or starts it. */
  lemma {:induction false} LogGrows(s: Relay, step: Step, g: nat)
    requires Enabled(s, step) && g in Next(s, step).conns
    ensures var log := Next(s, step).conns[g].received;
            || log == []
            || (g in s.conns && log == s.conns[g].received)
            || (g in s.conns && step.ReceiveData? && Sized(step.payload) && log == s.conns[g].received + [(step.id, step.payload)])
  {
    hide Sized, StreamIdOf, Accepts;
  }

  lemma {:induction false} ConnStays(s: Relay, step: Step, g: nat)
    requires Enabled(s, step) && g in s.conns && g != s.nextGeneration
    ensures g in Next(s, step).conns && s.conns[g].received <= Next(s, step).conns[g].received
  {
    hide Sized, StreamIdOf, Accepts;
  }

  lemma {:induction false} PhoneStays(s: Relay, step: Step, id: u64)
    requires Enabled(s, step) && id in s.phones && s.phones[id].phase != Arrived
    requires step.Arrive? ==> id != StreamIdOf(s.issued)
    ensures var t := Next(s, step);
            id in t.phones && t.phones[id].phase != Arrived
            && t.phones[id].conn == s.phones[id].conn && t.phones[id].since == s.phones[id].since
  {
    hide Sized, StreamIdOf, Accepts;
  }

  lemma {:induction false} StepStaysNonempty(s: Relay, step: Step)
    requires NoneEmpty(s) && Enabled(s, step)
    ensures NoneEmpty(Next(s, step))
  {
    hide Sized, Next, Enabled;
    forall g | g in Next(s, step).conns
      ensures AllSized(Next(s, step).conns[g].received)
    {
      LogGrows(s, step, g);
      assert g in s.conns ==> AllSized(s.conns[g].received);
    }
  }

  lemma {:induction false} RunStaysNonempty(s: Relay, steps: seq<Step>, end: Relay)
    requires NoneEmpty(s) && Reaches(s, steps, end)
    ensures NoneEmpty(end)
    decreases |steps|
  {
    hide NoneEmpty;
    if steps != [] {
      StepStaysNonempty(s, steps[0]);
      RunStaysNonempty(Next(s, steps[0]), steps[1..], end);
    }
  }

  lemma {:induction false} NothingFlat(log: seq<(u64, Payload)>, id: u64)
    requires AllSized(log)
    ensures PayloadsFor(log, id) == [] <==> Flatten(PayloadsFor(log, id)) == []
  {
    if log != [] {
      var init, last := log[..|log| - 1], log[|log| - 1];
      assert AllSized(init) && Sized(log[|log| - 1].1);
      NothingFlat(init, id);
      assert PayloadsFor(init, id) + [] == PayloadsFor(init, id);
      if last.0 == id { FlattenSnoc(PayloadsFor(init, id), last.1); }
    }
  }

  /** Once a phone has registered, what came before stays what it was. */
  lemma {:induction false} StepKeepsEarly(s: Relay, step: Step, id: u64)
    requires Inv(s) && Enabled(s, step) && Present(s, id) && s.phones[id].phase != Arrived
    ensures var t := Next(s, step);
            Present(t, id) && t.phones[id].phase != Arrived && t.phones[id].conn == s.phones[id].conn && Early(t, id) == Early(s, id)
  {
    hide ConnOk, PhoneOk, PayloadsFor, Next;
    assert IdIssued(s, id);
    var p, t := s.phones[id], Next(s, step);
    assert s.issued < IDS ==> StreamIdOf(s.issued) == s.issued + 1;
    PhoneStays(s, step, id);
    ConnStays(s, step, p.conn);
    assert t.conns[p.conn].received[..p.since] == s.conns[p.conn].received[..p.since];
  }

  lemma {:induction false} RunKeepsEarly(s: Relay, steps: seq<Step>, end: Relay, id: u64)
    requires Inv(s) && Reaches(s, steps, end) && Present(s, id) && s.phones[id].phase != Arrived
    ensures Present(end, id) && Early(end, id) == Early(s, id)
    decreases |steps|
  {
    hide Inv, Early;
    if steps != [] {
      StepKeeps(s, steps[0]);
      StepKeepsEarly(s, steps[0], id);
      RunKeepsEarly(Next(s, steps[0]), steps[1..], end, id);
    }
  }

  lemma {:induction false} InvPresent(s: Relay, id: u64)
    requires Inv(s) && id in s.phones
    ensures Present(s, id) && PhoneOk(id, s.phones[id], s.conns[s.phones[id].conn])
  {
  }

  /** All that was received for the stream is what came early and then its own. */
  lemma {:induction false} AllIsEarlyThenOwn(s: Relay, id: u64)
    requires Inv(s) && id in s.phones
    ensures Present(s, id)
    ensures var p := s.phones[id];
            var own := PayloadsFor(s.conns[p.conn].received[p.since..], id);
            && Flatten(PayloadsFor(s.conns[p.conn].received, id)) == Flatten(Early(s, id)) + Flatten(own)
            && p.written <= Flatten(own)
            && (CanDeliver(s, id) && p.inbox == [] ==> p.written == Flatten(own))
  {
    hide Inv, FramesFit;
    InvPresent(s, id);
    var p := s.phones[id];
    var log := s.conns[p.conn].received;
    var own := PayloadsFor(log[p.since..], id);
    PayloadsSplit(log, p.since, id);
    FlattenAppend(Early(s, id), own);
    assert own == own[..p.taken] + own[p.taken..];
    FlattenAppend(own[..p.taken], own[p.taken..]);
    assert CanDeliver(s, id) && p.inbox == [] ==> own[..p.taken] == own;
  }

  lemma {:induction false} ReachesJoin(s: Relay, a: seq<Step>, mid: Relay, b: seq<Step>, end: Relay)
    requires Reaches(s, a, mid) && Reaches(mid, b, end)
    ensures Reaches(s, a + b, end)
    decreases |a|
  {
    hide Next, Enabled;
    if a == [] {
      assert a + b == b;
    } else {
      ReachesJoin(Next(s, a[0]), a[1..], mid, b, end);
      assert (a + b)[1..] == a[1..] + b;
    }
  }

  /** The phone's loop empties its channel. */
  lemma {:induction false} Drained(s: Relay, id: u64) returns (steps: seq<Step>, end: Relay)
    requires CanDeliver(s, id)
    ensures Reaches(s, steps, end) && CanDeliver(end, id) && end.conns == s.conns
    ensures end.phones[id].inbox == [] && end.phones[id].conn == s.phones[id].conn && end.phones[id].since == s.phones[id].since
    decreases |s.phones[id].inbox|
  {
    if s.phones[id].inbox == [] {
      steps, end := [], s;
    } else {
      var rest;
      rest, end := Drained(Next(s, WritePhone(id)), id);
      steps := [WritePhone(id)] + rest;
      Prepend(s, WritePhone(id), rest, end);
    }
  }

  /** One more byte from the desktop reaches a phone whose channel is empty. */
  lemma {:induction false} OneByteMore(s: Relay, id: u64, b: byte) returns (steps: seq<Step>, end: Relay)
    requires CanDeliver(s, id) && s.phones[id].inbox == [] && id != 0
    ensures Reaches(s, steps, end) && id in end.phones && end.phones[id].conn == s.phones[id].conn && s.phones[id].conn in end.conns
    ensures end.phones[id].written == s.phones[id].written + [b]
    ensures end.conns[s.phones[id].conn].received == s.conns[s.phones[id].conn].received + [(id, [b])]
  {
    hide Reaches;
    var g, payload: Payload := s.phones[id].conn, [b];
    var s1 := Next(s, ReceiveData(g, id, payload));
    var s2 := Next(s1, HandOver(g));
    end := Next(s2, WritePhone(id));
    NoSteps(end);
    Prepend(s2, WritePhone(id), [], end);
    Prepend(s1, HandOver(g), [WritePhone(id)] + [], end);
    steps := [ReceiveData(g, id, payload)] + ([HandOver(g)] + ([WritePhone(id)] + []));
    Prepend(s, ReceiveData(g, id, payload), [HandOver(g)] + ([WritePhone(id)] + []), end);
  }

  lemma {:induction false} NoSteps(s: Relay)
    ensures Reaches(s, [], s)
  {
  }

  lemma {:induction false} NotAPrefix(early: seq<byte>, own: seq<byte>, b: byte)
    requires early != [] && b != (early + own)[|own|]
    ensures !(own + [b] <= early + (own + [b]))
  {
    assert (own + [b])[|own|] == b;
    assert (early + (own + [b]))[|own|] == (early + own)[|own|];
  }

  lemma {:induction false} EarlyDataShows(s: Relay, id: u64) returns (steps: seq<Step>, end: Relay)
    requires Inv(s) && CanDeliver(s, id) && Present(s, id) && Flatten(Early(s, id)) != []
    ensures Reaches(s, steps, end) && !PrefixOfAll(end, id)
  {
    hide Inv, PayloadsFor, CanDeliver, Reaches, Early;
    var first, mid := Drained(s, id);
    RunKeeps(s, first, mid);
    StreamingIsPresent(mid, id);
    AllIsEarlyThenOwn(mid, id);
    var p := mid.phones[id];
    assert Early(mid, id) == Early(s, id) by { SameEarly(s, mid, id); }
    var early, own := Flatten(Early(s, id)), p.written;
    var b: byte := if (early + own)[|own|] == 0 then 1 else 0;
    NonzeroId(mid, id);
    var second;
    second, end := OneByteMore(mid, id, b);
    ReachesJoin(s, first, mid, second, end);
    steps := first + second;
    var log := mid.conns[p.conn].received;
    PayloadsSnoc(log, 0, (id, [b]), id);
    assert (log + [(id, [b])])[0..] == log + [(id, [b])] && log[0..] == log;
    FlattenSnoc(PayloadsFor(log, id), [b]);
    NotAPrefix(early, own, b);
    assert early + own + [b] == early + (own + [b]);
  }

  lemma {:induction false} SameEarly(s: Relay, t: Relay, id: u64)
    requires Present(s, id) && Present(t, id) && s.conns == t.conns
    requires t.phones[id].conn == s.phones[id].conn && t.phones[id].since == s.phones[id].since
    ensures Early(t, id) == Early(s, id)
  {
  }

  lemma {:induction false} NonzeroId(s: Relay, id: u64)
    requires Inv(s) && id in s.phones
    ensures id != 0
  {
    assert IdIssued(s, id);
  }

  ghost predicate StaysPrefix(s: Relay, id: u64)
  {
    forall steps, end :: Reaches(s, steps, end) ==> PrefixOfAll(end, id)
  }

  /** After every run, while the stream can take data: what the phone is sent stays a prefix of all that is received for
      it, whatever happens next, exactly when nothing came before it had registered. */
  lemma {:induction false} PrefixOfAllExactlyWhenNothingCameEarly(steps: seq<Step>, s: Relay, id: u64)
    requires Reaches(IDLE, steps, s) && CanDeliver(s, id)
    ensures Present(s, id) && (StaysPrefix(s, id) <==> Early(s, id) == [])
  {
    hide Inv, PayloadsFor, Reaches, Early, CanDeliver, Next, PrefixOfAll, NoneEmpty;
    StartOk();
    RunKeeps(IDLE, steps, s);
    StreamingIsPresent(s, id);
    InvPresent(s, id);
    NothingReceived();
    RunStaysNonempty(IDLE, steps, s);
    EarlyIsFlat(s, id);
    if Early(s, id) == [] {
      forall more, end | Reaches(s, more, end)
        ensures PrefixOfAll(end, id)
      {
        RunKeeps(s, more, end);
        RunKeepsEarly(s, more, end, id);
        AllIsEarlyThenOwn(end, id);
        PrefixWithoutEarly(end, id);
      }
    } else {
      var more, end := EarlyDataShows(s, id);
      assert !PrefixOfAll(end, id);
    }
  }

  lemma {:induction false} NothingReceived()
    ensures NoneEmpty(IDLE)
  {
  }

  lemma {:induction false} StreamingIsPresent(s: Relay, id: u64)
    requires CanDeliver(s, id)
    ensures id in s.phones && s.phones[id].phase == Streaming
  {
  }

  lemma {:induction false} EarlyIsFlat(s: Relay, id: u64)
    requires Present(s, id) && NoneEmpty(s)
    ensures Early(s, id) == [] <==> Flatten(Early(s, id)) == []
  {
    var p := s.phones[id];
    NothingFlat(s.conns[p.conn].received[..p.since], id);
  }

  lemma {:induction false} PrefixWithoutEarly(s: Relay, id: u64)
    requires Inv(s) && Present(s, id) && Early(s, id) == []
    ensures PrefixOfAll(s, id)
  {
    hide Inv, PayloadsFor;
    AllIsEarlyThenOwn(s, id);
  }

  // ---------- A run in which data comes early ----------

  /** A relay with one connector and one phone. */
  function Duo(c: Conn, p: Phone): Relay
  {
    Relay(map[c.route := 1], map[1 := c], map[1 := p], 2, 1)
  }

  /** Data a desktop sends for a stream that is not there yet is skipped, not delivered late. */
  lemma {:induction false} EarlyDataIsSkipped() returns (steps: seq<Step>, end: Relay)
    ensures Reaches(IDLE, steps, end) && 1 in end.phones && end.phones[1].conn in end.conns
    ensures var log := end.conns[end.phones[1].conn].received;
            PayloadsFor(log, 1) == [[7], [8]] && end.phones[1].written == [8]
            && !(end.phones[1].written <= Flatten(PayloadsFor(log, 1)))
  {
    hide Reaches;
    var route := "desk-0001";
    var first: seq<(u64, Payload)> := [(1, [7])];
    var log := first + [(1, [8])];
    var c0 := Conn(route, Serving, [], {}, Idle, [], []);
    var c := c0.(received := first);
    var p := Phone(1, Arrived, 0, [], 0, 0, false, []);
    var s1 := Relay(map[route := 1], map[1 := c0], map[], 2, 0);
    var s2 := Relay(map[route := 1], map[1 := c], map[], 2, 0);
    var open := Enqueue(c.(streams := {1}), RP.Open(1));
    var q := p.(phase := Streaming, since := 1);
    var s6 := Duo(open.(received := log, hand := Holding(1, [8])), q);
    var s7 := Duo(open.(received := log), q.(inbox := [[8]], accepted := 1));
    end := Duo(open.(received := log), q.(accepted := 1, taken := 1, written := [8]));
    LastSteps(open, q, log, s6, s7, end);
    var rest := MiddleSteps(route, c, open, p, q, log, end);
    FirstSteps(route, c0, c, p, s1, s2, Duo(c, p), rest, end);
    steps := [Connect(route)] + ([ReceiveData(1, 1, [7])] + ([Arrive(route)] + rest));
    assert log[..1] == first && first[..0] == [];
    assert PayloadsFor(first, 1) == [[7]];
    assert PayloadsFor(log, 1) == [[7], [8]];
    var both: seq<Payload> := [[7], [8]];
    assert Flatten(both) == both[0] + Flatten(both[1..]);
    assert Flatten(both)[0] == 7;
  }

  lemma {:induction false} MiddleSteps(route: string, c: Conn, open: Conn, p: Phone, q: Phone, log: seq<(u64, Payload)>, end: Relay)
    returns (rest: seq<Step>)
    requires c == Conn(route, Serving, [], {}, Idle, [(1, [7])], []) && log == c.received + [(1, [8])]
    requires p == Phone(1, Arrived, 0, [], 0, 0, false, []) && q == p.(phase := Streaming, since := 1)
    requires open == Enqueue(c.(streams := {1}), RP.Open(1))
    requires Reaches(Duo(open.(received := log, hand := Holding(1, [8])), q), [HandOver(1), WritePhone(1)], end)
    ensures Reaches(Duo(c, p), rest, end)
  {
    hide Reaches, Next, Enabled;
    var tail := [HandOver(1), WritePhone(1)];
    var s5 := Duo(open, q);
    ReceiveStep(open, q, log);
    Prepend(s5, ReceiveData(1, 1, [8]), tail, end);
    var joined := c.(streams := {1});
    OpenStep(joined, p.(phase := Registered, since := 1));
    Prepend(Duo(joined, p.(phase := Registered, since := 1)), SendOpen(1), [ReceiveData(1, 1, [8])] + tail, end);
    rest := [SendOpen(1)] + ([ReceiveData(1, 1, [8])] + tail);
    RegisterStep(c, p);
    Prepend(Duo(c, p), Register(1), rest, end);
    rest := [Register(1)] + rest;
  }

  lemma {:induction false} ReceiveStep(c: Conn, q: Phone, log: seq<(u64, Payload)>)
    requires c.life == Serving && c.hand == Idle && c.streams == {1} && log == c.received + [(1, [8])]
    ensures Enabled(Duo(c, q), ReceiveData(1, 1, [8]))
    ensures Next(Duo(c, q), ReceiveData(1, 1, [8])) == Duo(c.(received := log, hand := Holding(1, [8])), q)
  {
    assert Next(Duo(c, q), ReceiveData(1, 1, [8])).conns == map[1 := c.(received := log, hand := Holding(1, [8]))];
  }

  lemma {:induction false} OpenStep(c: Conn, p: Phone)
    requires c.life == Serving && c.queue == [] && p.phase == Registered && p.conn == 1
    ensures Enabled(Duo(c, p), SendOpen(1))
    ensures Next(Duo(c, p), SendOpen(1)) == Duo(Enqueue(c, RP.Open(1)), p.(phase := Streaming))
  {
    var t := Next(Duo(c, p), SendOpen(1));
    assert t.conns == map[1 := Enqueue(c, RP.Open(1))] && t.phones == map[1 := p.(phase := Streaming)];
  }

  lemma {:induction false} RegisterStep(c: Conn, p: Phone)
    requires c.streams == {} && p.phase == Arrived && p.conn == 1
    ensures Enabled(Duo(c, p), Register(1))
    ensures Next(Duo(c, p), Register(1))
            == Duo(c.(streams := {1}), p.(phase := Registered, since := |c.received|))
  {
    var t := Next(Duo(c, p), Register(1));
    assert c.streams + {1} == {1};
    assert t.conns == map[1 := c.(streams := {1})] && t.phones == map[1 := p.(phase := Registered, since := |c.received|)];
  }

  lemma {:induction false} FirstSteps(route: string, c0: Conn, c: Conn, p: Phone, s1: Relay, s2: Relay, s3: Relay, rest: seq<Step>, end: Relay)
    requires c0 == Conn(route, Serving, [], {}, Idle, [], []) && c == c0.(received := [(1, [7])])
    requires p == Phone(1, Arrived, 0, [], 0, 0, false, [])
    requires s1 == Relay(map[route := 1], map[1 := c0], map[], 2, 0) && s2 == s1.(conns := map[1 := c])
    requires s3 == Duo(c, p) && Reaches(s3, rest, end)
    ensures Reaches(IDLE, [Connect(route)] + ([ReceiveData(1, 1, [7])] + ([Arrive(route)] + rest)), end)
  {
    assert Next(s2, Arrive(route)).phones == s3.phones;
    Prepend(s2, Arrive(route), rest, end);
    assert c0.received + [(1, [7])] == c.received;
    assert Next(s1, ReceiveData(1, 1, [7])).conns == s2.conns;
    Prepend(s1, ReceiveData(1, 1, [7]), [Arrive(route)] + rest, end);
    assert Next(IDLE, Connect(route)).conns == s1.conns;
    Prepend(IDLE, Connect(route), [ReceiveData(1, 1, [7])] + ([Arrive(route)] + rest), end);
  }

  lemma {:induction false} LastSteps(c: Conn, q: Phone, log: seq<(u64, Payload)>, s6: Relay, s7: Relay, end: Relay)
    requires q == Phone(1, Streaming, 1, [], 0, 0, false, []) && c.hand == Idle
    requires s6 == Duo(c.(received := log, hand := Holding(1, [8])), q)
    requires s7 == Duo(c.(received := log), q.(inbox := [[8]], accepted := 1))
    requires end == Duo(c.(received := log), q.(accepted := 1, taken := 1, written := [8]))
    ensures Reaches(s6, [HandOver(1), WritePhone(1)], end)
  {
    hide Next, Enabled;
    HandOverStep(c.(received := log, hand := Holding(1, [8])), q);
    WriteStep(c.(received := log), q.(inbox := [[8]], accepted := 1));
    assert q.written + [8] == [8];
    Prepend(s7, WritePhone(1), [], end);
    Prepend(s6, HandOver(1), [WritePhone(1)], end);
    assert [HandOver(1)] + [WritePhone(1)] == [HandOver(1), WritePhone(1)];
  }

  lemma {:induction false} HandOverStep(c: Conn, q: Phone)
    requires c.hand == Holding(1, [8]) && q.phase == Streaming && q.inbox == [] && q.accepted == 0
    ensures Enabled(Duo(c, q), HandOver(1))
    ensures Next(Duo(c, q), HandOver(1)) == Duo(c.(hand := Idle), q.(inbox := [[8]], accepted := 1))
  {
    var none: seq<Payload>, one: seq<Payload> := [], [[8]];
    assert none + one == one;
    var t := Next(Duo(c, q), HandOver(1));
    assert t.conns == map[1 := c.(hand := Idle)] && t.phones == map[1 := q.(inbox := one, accepted := 1)];
  }

  lemma {:induction false} WriteStep(c: Conn, q: Phone)
    requires q.phase == Streaming && q.conn == 1 && q.inbox == [[8]] && q.taken == 0
    ensures Enabled(Duo(c, q), WritePhone(1))
    ensures Next(Duo(c, q), WritePhone(1)) == Duo(c, q.(inbox := [], taken := 1, written := q.written + [8]))
  {
    var one: seq<Payload> := [[8]];
    assert one[1..] == [];
    assert Next(Duo(c, q), WritePhone(1)).phones == map[1 := q.(inbox := [], taken := 1, written := q.written + [8])];
  }

  /** The connector map only names connectors whose task still runs, each under its own route. */
  lemma {:induction false} MapNamesLiveConnectors(steps: seq<Step>, end: Relay, route: string)
    requires Reaches(IDLE, steps, end) && route in end.current
    ensures end.current[route] in end.conns
    ensures var c := end.conns[end.current[route]]; c.route == route && c.life != Finished
  {
    hide ConnOk, PhoneOk;
    StartOk();
    RunKeeps(IDLE, steps, end);
  }

  lemma {:induction false} MapChanges(s: Relay, step: Step)
    requires Enabled(s, step) && !step.Connect? && !step.Finish? && !step.Deprovision?
    ensures Next(s, step).current == s.current
  {
  }

  lemma {:induction false} FinishEvicts(s: Relay, g: nat, route: string)
    requires Enabled(s, Finish(g)) && route in s.current && s.current[route] != g
    ensures route in Next(s, Finish(g)).current && Next(s, Finish(g)).current[route] == s.current[route]
  {
  }

  /** An entry goes away only with its own task, for a newer connector of the route, or by deprovisioning: a stale
      task's end never evicts its successor. */
  lemma {:induction false} OnlyItsOwnEndEvicts(s: Relay, step: Step, route: string)
    requires Inv(s) && Enabled(s, step) && route in s.current
    requires route !in Next(s, step).current || Next(s, step).current[route] != s.current[route]
    ensures step == Connect(route) || step == Finish(s.current[route]) || step == Deprovision(route)
    ensures step == Connect(route) ==> route in Next(s, step).current && s.current[route] < Next(s, step).current[route]
  {
    hide ConnOk, PhoneOk, Enabled;
    match step
    case Connect(_) =>
    case Deprovision(_) =>
    case Finish(g) => if s.current[route] != g { FinishEvicts(s, g, route); }
    case _ => MapChanges(s, step);
  }

  /** Per connector: the stream and queue bounds, and that every queued frame has an encoding, so the branch that
      gives up on a frame that does not encode is never taken. */
  lemma {:induction false} QueuesAreSound(steps: seq<Step>, end: Relay, g: nat)
    requires Reaches(IDLE, steps, end) && g in end.conns
    ensures var c := end.conns[g];
            && |c.streams| <= MAX_STREAMS_PER_CONNECTOR && 0 !in c.streams
            && |c.queue| <= CONNECTOR_QUEUE
            && forall f :: f in c.queue ==> RP.Encoded(f).Ok?
  {
    hide PhoneOk, MapLive;
    StartOk();
    RunKeeps(IDLE, steps, end);
    assert ConnOk(end, g, end.conns[g]);
    forall id | id in end.conns[g].streams ensures id != 0 {
      assert IsStreamOf(end, g, id);
      assert IdIssued(end, id);
    }
  }

  /** Each stream's frames, over the whole life of its connector's queue, read Open Data* Close?; a phone that gave up
      before opening, or whose connector ended, leaves a shorter form of the same. */
  lemma {:induction false} FramesOfAStream(steps: seq<Step>, end: Relay, id: u64)
    requires Reaches(IDLE, steps, end) && id in end.phones
    ensures end.phones[id].conn in end.conns
    ensures var frames := FramesOf(end.conns[end.phones[id].conn].enqueued, id);
            && WellFormed(frames)
            && (end.phones[id].phase != Gone ==> forall k :: 0 <= k < |frames| ==> !frames[k].Close?)
  {
    hide ConnOk, MapLive;
    StartOk();
    RunKeeps(IDLE, steps, end);
    assert PhoneOk(id, end.phones[id], end.conns[end.phones[id].conn]);
  }

  /** No other connector's queue ever carries a frame of the stream. */
  lemma {:induction false} FramesStayHome(steps: seq<Step>, end: Relay, id: u64, g: nat)
    requires Reaches(IDLE, steps, end) && id in end.phones && g in end.conns && g != end.phones[id].conn
    ensures FramesOf(end.conns[g].enqueued, id) == [] && id !in end.conns[g].streams
  {
    hide PhoneOk, MapLive;
    StartOk();
    RunKeeps(IDLE, steps, end);
    var c := end.conns[g];
    assert ConnOk(end, g, c);
    forall k | 0 <= k < |c.enqueued| ensures StreamOf(c.enqueued[k]) != id {
      assert IsStreamOf(end, g, StreamOf(c.enqueued[k]));
    }
    NoFrames(c.enqueued, id);
    assert !IsStreamOf(end, g, id);
  }

  // ---------- What goes to the desktop ----------

  /** The bytes of the stream's Data frames, end to end. */
  function DataFor(frames: seq<Frame>, id: u64): seq<byte>
  {
    if frames == [] then []
    else
      var last := frames[|frames| - 1];
      DataFor(frames[..|frames| - 1], id) + if last.Data? && StreamOf(last) == id then last.bytes else []
  }

  function ReadIn(step: Step, id: u64): seq<byte>
  {
    if step.ReadPhone? && step.id == id then step.bytes else []
  }

  /** All that the steps read from the phone. */
  function ReadFrom(steps: seq<Step>, id: u64): seq<byte>
  {
    if steps == [] then [] else ReadIn(steps[0], id) + ReadFrom(steps[1..], id)
  }

  ghost function Queued(s: Relay, g: nat): seq<Frame>
  {
    if g in s.conns then s.conns[g].queue else []
  }

  ghost function Enqueued(s: Relay, g: nat): seq<Frame>
  {
    if g in s.conns then s.conns[g].enqueued else []
  }

  ghost function SentIn(s: Relay, step: Step, g: nat): seq<Frame>
  {
    if step == SendOut(g) && Queued(s, g) != [] then [Queued(s, g)[0]] else []
  }

  /** All that the steps take off the connector's queue to send. */
  ghost function SentTo(s: Relay, steps: seq<Step>, g: nat): seq<Frame>
    decreases |steps|
  {
    if steps == [] || !Enabled(s, steps[0]) then []
    else SentIn(s, steps[0], g) + SentTo(Next(s, steps[0]), steps[1..], g)
  }

  /** What a step puts on the connector's queue. */
  ghost function Added(s: Relay, step: Step, g: nat): seq<Frame>
  {
    match step
    case SendOpen(id) => if IsStreamOf(s, g, id) then [RP.Open(id)] else []
    case ReadPhone(id, bytes) => if IsStreamOf(s, g, id) then [RP.Data(id, bytes)] else []
    case SendClose(id) => if IsStreamOf(s, g, id) then [RP.Close(id, [])] else []
    case _ => []
  }

  lemma {:induction false} EnqueuedGrows(s: Relay, step: Step, g: nat)
    requires Enabled(s, step) && s.nextGeneration !in s.conns
    ensures Enqueued(Next(s, step), g) == Enqueued(s, g) + Added(s, step, g)
  {
    hide Sized, StreamIdOf, Accepts;
  }

  /** The phone's steps that change its connector too. */
  predicate TouchesBoth(step: Step)
  {
    step.Register? || step.SendOpen? || step.OpenFails? || step.ReadPhone? || step.Unregister? || step.SendClose?
  }

  lemma {:induction false} PhoneMovesQueue(s: Relay, step: Step, g: nat)
    requires Enabled(s, step) && TouchesBoth(step)
    ensures Queued(s, g) + Added(s, step, g) == Queued(Next(s, step), g)
  {
    hide Sized, Room;
  }

  lemma {:induction false} TaskMovesQueue(s: Relay, step: Step, g: nat)
    requires Enabled(s, step) && s.nextGeneration !in s.conns && !TouchesBoth(step)
    ensures Queued(s, g) == SentIn(s, step, g) + Queued(Next(s, step), g) && Added(s, step, g) == []
  {
    hide Sized, StreamIdOf, Accepts;
  }

  lemma {:induction false} QueueMoves(s: Relay, step: Step, g: nat)
    requires Enabled(s, step) && s.nextGeneration !in s.conns
    ensures Queued(s, g) + Added(s, step, g) == SentIn(s, step, g) + Queued(Next(s, step), g)
  {
    hide Next, Enabled, Queued, Added;
    if TouchesBoth(step) { PhoneMovesQueue(s, step, g); } else { TaskMovesQueue(s, step, g); }
  }

  lemma {:induction false} QueuesGrow(s: Relay, step: Step, g: nat)
    requires Enabled(s, step) && s.nextGeneration !in s.conns
    ensures var t := Next(s, step);
            && Enqueued(t, g) == Enqueued(s, g) + Added(s, step, g)
            && Queued(s, g) + Added(s, step, g) == SentIn(s, step, g) + Queued(t, g)
  {
    hide Next, Enabled, Enqueued, Queued, Added, SentIn;
    EnqueuedGrows(s, step, g);
    QueueMoves(s, step, g);
  }

  lemma {:induction false} NextGenerationIsNew(s: Relay)
    requires Inv(s)
    ensures s.nextGeneration !in s.conns
  {
  }

  lemma {:induction false} QueueAccounts(s: Relay, steps: seq<Step>, end: Relay, g: nat)
    requires Inv(s) && Reaches(s, steps, end)
    ensures Enqueued(s, g) <= Enqueued(end, g)
    ensures SentTo(s, steps, g) + Queued(end, g) == Queued(s, g) + Enqueued(end, g)[|Enqueued(s, g)|..]
    decreases |steps|
  {
    hide Inv, Enabled, Next, Added, Queued, Enqueued, SentIn;
    if steps != [] {
      var t := Next(s, steps[0]);
      StepKeeps(s, steps[0]);
      NextGenerationIsNew(s);
      QueuesGrow(s, steps[0], g);
      QueueAccounts(t, steps[1..], end, g);
      Accounts(Enqueued(s, g), Queued(s, g), Added(s, steps[0], g), SentIn(s, steps[0], g), Queued(t, g), Enqueued(end, g),
               SentTo(t, steps[1..], g), Queued(end, g));
    }
  }

  lemma {:induction false} Accounts(enqueued: seq<Frame>, queue: seq<Frame>, added: seq<Frame>, first: seq<Frame>, queue': seq<Frame>,
                                    enqueued': seq<Frame>, rest: seq<Frame>, queue'': seq<Frame>)
    requires enqueued + added <= enqueued' && queue + added == first + queue'
    requires rest + queue'' == queue' + enqueued'[|enqueued + added|..]
    ensures enqueued <= enqueued' && (first + rest) + queue'' == queue + enqueued'[|enqueued|..]
  {
    assert enqueued'[|enqueued|..] == added + enqueued'[|enqueued + added|..];
    assert (first + rest) + queue'' == first + (rest + queue'');
    assert first + (queue' + enqueued'[|enqueued + added|..]) == (first + queue') + enqueued'[|enqueued + added|..];
  }

  /** Every run: what a connector's task has sent, and then its queue, are all that phones put there, in order. */
  lemma {:induction false} SentInOrder(steps: seq<Step>, end: Relay, g: nat)
    requires Reaches(IDLE, steps, end) && g in end.conns
    ensures SentTo(IDLE, steps, g) + end.conns[g].queue == end.conns[g].enqueued
  {
    hide Inv;
    StartOk();
    QueueAccounts(IDLE, steps, end, g);
  }

  lemma {:induction false} DataSnoc(frames: seq<Frame>, f: Frame, id: u64)
    ensures DataFor(frames + [f], id) == DataFor(frames, id) + if f.Data? && StreamOf(f) == id then f.bytes else []
  {
    assert (frames + [f])[..|frames|] == frames;
  }

  lemma {:induction false} NoData(frames: seq<Frame>, id: u64)
    requires forall k :: 0 <= k < |frames| ==> StreamOf(frames[k]) != id
    ensures DataFor(frames, id) == []
  {
    if frames != [] {
      NoData(frames[..|frames| - 1], id);
    }
  }

  /** What the stream's own connector has been given of it. */
  ghost function Outgoing(s: Relay, id: u64): seq<byte>
  {
    if id in s.phones then DataFor(Enqueued(s, s.phones[id].conn), id) else []
  }

  lemma {:induction false} PhoneKeepsConn(s: Relay, step: Step, id: u64)
    requires Enabled(s, step) && (step.Arrive? ==> id != StreamIdOf(s.issued))
    ensures id in s.phones <==> id in Next(s, step).phones
    ensures id in s.phones ==> Next(s, step).phones[id].conn == s.phones[id].conn
  {
    hide Sized, StreamIdOf, Accepts;
  }

  lemma {:induction false} ArrivalHasNoData(s: Relay, route: string)
    requires Inv(s) && Enabled(s, Arrive(route))
    ensures var id := StreamIdOf(s.issued);
            id !in s.phones && Outgoing(Next(s, Arrive(route)), id) == []
  {
    hide PhoneOk;
    var id, g := StreamIdOf(s.issued), s.current[route];
    assert !IdIssued(s, id);
    assert ConnOk(s, g, s.conns[g]);
    var frames := s.conns[g].enqueued;
    forall k | 0 <= k < |frames|
      ensures StreamOf(frames[k]) != id
    {
      assert IsStreamOf(s, g, StreamOf(frames[k]));
    }
    NoData(frames, id);
  }

  lemma {:induction false} StepSends(s: Relay, step: Step, id: u64)
    requires Inv(s) && Enabled(s, step)
    ensures Outgoing(Next(s, step), id) == Outgoing(s, id) + ReadIn(step, id)
  {
    hide Inv, Next, Enqueued, Queued, DataFor, StreamIdOf;
    if step.Arrive? && id == StreamIdOf(s.issued) {
      ArrivalHasNoData(s, step.route);
    } else {
      PhoneKeepsConn(s, step, id);
      if id in s.phones {
        var g := s.phones[id].conn;
        NextGenerationIsNew(s);
        QueuesGrow(s, step, g);
        AddedData(s, step, id);
      }
    }
  }

  lemma {:induction false} AddedData(s: Relay, step: Step, id: u64)
    requires Enabled(s, step) && id in s.phones
    ensures var g := s.phones[id].conn;
            DataFor(Enqueued(s, g) + Added(s, step, g), id) == DataFor(Enqueued(s, g), id) + ReadIn(step, id)
  {
    hide DataFor, Enqueued, Room, Sized;
    var g := s.phones[id].conn;
    var frames := Enqueued(s, g);
    if Added(s, step, g) == [] {
      assert frames + [] == frames;
    } else {
      DataSnoc(frames, Added(s, step, g)[0], id);
      assert Added(s, step, g) == [Added(s, step, g)[0]];
    }
  }

  lemma {:induction false} RunSends(s: Relay, steps: seq<Step>, end: Relay, id: u64)
    requires Inv(s) && Reaches(s, steps, end)
    ensures Outgoing(end, id) == Outgoing(s, id) + ReadFrom(steps, id)
    decreases |steps|
  {
    hide Inv, Enabled, Next, Outgoing, ReadIn;
    if steps != [] {
      StepKeeps(s, steps[0]);
      StepSends(s, steps[0], id);
      RunSends(Next(s, steps[0]), steps[1..], end, id);
    }
  }

  /** Every run: the desktop's queue was given exactly the bytes that were read from the phone, in order. */
  lemma {:induction false} SentIsWhatWasRead(steps: seq<Step>, end: Relay, id: u64)
    requires Reaches(IDLE, steps, end) && id in end.phones
    ensures end.phones[id].conn in end.conns
    ensures DataFor(end.conns[end.phones[id].conn].enqueued, id) == ReadFrom(steps, id)
  {
    hide PhoneOk, ConnOk, MapLive;
    StartOk();
    RunKeeps(IDLE, steps, end);
    RunSends(IDLE, steps, end, id);
  }

  /** Every run: as long as a stream is registered and nothing of it is in hand, all that was received for it since then
      has been sent to the phone or waits in its channel. */
  lemma {:induction false} NothingIsHeldBack(steps: seq<Step>, end: Relay, id: u64)
    requires Reaches(IDLE, steps, end) && id in end.phones && end.phones[id].conn in end.conns
    requires var c := end.conns[end.phones[id].conn]; id in c.streams && !About(c.hand, id) && !end.phones[id].torn
    ensures var p, log := end.phones[id], end.conns[end.phones[id].conn].received;
            p.since <= |log| && p.written + Flatten(p.inbox) == Flatten(PayloadsFor(log[p.since..], id))
  {
    hide ConnOk, MapLive, FramesFit;
    StartOk();
    RunKeeps(IDLE, steps, end);
    var p := end.phones[id];
    var log := end.conns[p.conn].received;
    assert PhoneOk(id, p, end.conns[p.conn]);
    var own := PayloadsFor(log[p.since..], id);
    assert own == own[..p.taken] + own[p.taken..];
    FlattenAppend(own[..p.taken], own[p.taken..]);
    assert own[p.taken..p.accepted] == own[p.taken..];
  }

  // ---------- Exactly when streams come and go ----------

  ghost predicate HasStream(s: Relay, g: nat, id: u64)
  {
    g in s.conns && id in s.conns[g].streams
  }

  ghost predicate Joins(s: Relay, step: Step, g: nat, id: u64)
  {
    step == Register(id) && IsStreamOf(s, g, id) && g in s.conns && |s.conns[g].streams| < 128
  }

  /** Its phone was too slow, the desktop closed it, its task ended it, or the connector closes all. */
  ghost predicate Parts(s: Relay, step: Step, g: nat, id: u64)
  {
    || (step == DropSlow(g) && g in s.conns && s.conns[g].hand == Dropping(id))
    || step == ReceiveClose(g, id)
    || step == CloseAllStreams(g)
    || ((step == OpenFails(id) || step == Unregister(id)) && IsStreamOf(s, g, id))
  }

  /** A stream is a connector's after a step exactly when it joins, or was its before and does not part. */
  lemma {:induction false} StreamsChangeExactly(s: Relay, step: Step, g: nat, id: u64)
    requires Inv(s) && Enabled(s, step)
    ensures HasStream(Next(s, step), g, id) <==> Joins(s, step, g, id) || (HasStream(s, g, id) && !Parts(s, step, g, id))
  {
    NextGenerationIsNew(s);
    if TouchesBoth(step) {
      PhoneChangesStreams(s, step, g, id);
    } else {
      TaskChangesStreams(s, step, g, id);
    }
  }

  lemma {:induction false} PhoneChangesStreams(s: Relay, step: Step, g: nat, id: u64)
    requires Enabled(s, step)
    requires TouchesBoth(step)
    ensures HasStream(Next(s, step), g, id) <==> Joins(s, step, g, id) || (HasStream(s, g, id) && !Parts(s, step, g, id))
  {
    hide Sized, Room;
  }

  lemma {:induction false} TaskChangesStreams(s: Relay, step: Step, g: nat, id: u64)
    requires Enabled(s, step) && s.nextGeneration !in s.conns
    requires !TouchesBoth(step)
    ensures HasStream(Next(s, step), g, id) <==> Joins(s, step, g, id) || (HasStream(s, g, id) && !Parts(s, step, g, id))
  {
    hide Sized, Room, StreamIdOf;
  }

  ghost function Named(s: Relay, route: string): Option<nat>
  {
    if route in s.current then Some(s.current[route]) else None
  }

  /** A route names a connector after a step exactly when that one has just connected, or was named before and neither ended
      nor lost its route. */
  lemma {:induction false} RoutesChangeExactly(s: Relay, step: Step, route: string)
    requires Inv(s) && Enabled(s, step)
    ensures Named(Next(s, step), route)
            == if step == Connect(route) then Some(s.nextGeneration)
               else if step == Deprovision(route) || (step.Finish? && Named(s, route) == Some(step.g)) then None
               else Named(s, route)
  {
    hide ConnOk, PhoneOk, StreamIdOf, Sized, Room;
  }

  ghost function LifeOf(s: Relay, g: nat): Option<Life>
  {
    if g in s.conns then Some(s.conns[g].life) else None
  }

  /** A connector's task serves from its connect until it leaves, and is over when it has finished. */
  lemma {:induction false} LivesChangeExactly(s: Relay, step: Step, g: nat)
    requires Inv(s) && Enabled(s, step)
    ensures LifeOf(Next(s, step), g)
            == if step.Connect? && g == s.nextGeneration then Some(Serving)
               else if step == Leave(g) then Some(Closing)
               else if step == Finish(g) then Some(Finished)
               else LifeOf(s, g)
  {
    hide Inv, Next, Enabled;
    NextGenerationIsNew(s);
    if TouchesBoth(step) {
      PhoneLeavesLives(s, step, g);
    } else {
      TaskChangesLives(s, step, g);
    }
  }

  lemma {:induction false} PhoneLeavesLives(s: Relay, step: Step, g: nat)
    requires Enabled(s, step)
    requires TouchesBoth(step)
    ensures LifeOf(Next(s, step), g) == LifeOf(s, g)
  {
    hide Sized, Room;
  }

  lemma {:induction false} TaskChangesLives(s: Relay, step: Step, g: nat)
    requires Enabled(s, step) && s.nextGeneration !in s.conns
    requires !TouchesBoth(step)
    ensures LifeOf(Next(s, step), g)
            == if step.Connect? && g == s.nextGeneration then Some(Serving)
               else if step == Leave(g) then Some(Closing)
               else if step == Finish(g) then Some(Finished)
               else LifeOf(s, g)
  {
    hide Sized, Room, StreamIdOf, Accepts;
  }

  /** A phone is too slow exactly when its channel holds 32 payloads or its task is gone; otherwise it is handed the
      payload. */
  lemma {:induction false} SlowExactly(s: Relay, g: nat)
    requires Enabled(s, HandOver(g))
    ensures var id := s.conns[g].hand.id;
            var slow := |s.phones[id].inbox| >= 32 || s.phones[id].phase == Gone;
            && (Next(s, HandOver(g)).conns[g].hand == Dropping(id) <==> slow)
            && (!slow ==> Next(s, HandOver(g)).phones[id].inbox == s.phones[id].inbox + [s.conns[g].hand.payload])
            && (slow ==> Next(s, HandOver(g)).phones == s.phones)
  {
  }

  /** A phone waits exactly while its connector's queue holds 256 frames; Open and Close are given up when its task is
      over. */
  lemma {:induction false} WaitsExactly(s: Relay, id: u64, bytes: Payload)
    requires id in s.phones && s.phones[id].conn in s.conns && Sized(bytes)
    ensures var phase, c := s.phones[id].phase, s.conns[s.phones[id].conn];
            var free := c.life != Finished && |c.queue| < 256;
            && (Enabled(s, SendOpen(id)) <==> phase == Registered && free)
            && (Enabled(s, ReadPhone(id, bytes)) <==> phase == Streaming && free)
            && (Enabled(s, SendClose(id)) <==> phase == Unregistered && free)
            && (Enabled(s, OpenFails(id)) <==> phase == Registered && c.life == Finished)
            && (Enabled(s, CloseFails(id)) <==> phase == Unregistered && c.life == Finished)
  {
  }

  /** A new phone's stream id is nonzero and has never been used before. */
  lemma {:induction false} IdsAreFresh(steps: seq<Step>, end: Relay, route: string)
    requires Reaches(IDLE, steps, end) && Enabled(end, Arrive(route))
    ensures StreamIdOf(end.issued) !in end.phones
  {
    hide PhoneOk, ConnOk, MapLive;
    StartOk();
    RunKeeps(IDLE, steps, end);
    assert !IdIssued(end, StreamIdOf(end.issued));
  }
}
