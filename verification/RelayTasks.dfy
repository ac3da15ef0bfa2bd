/** The tasks of relay/src/lib.rs as they change the shared state: each method is one lock-held section or channel
    operation of serve_connector or serve_phone, and takes exactly one step of RelayStreams. */
module RelayTasks {
  import opened Basics
  import opened BigEndian
  import opened RelayStreams
  import RP = RelayProtocol

  /** What a desktop's message asks of its task. */
  datatype Asked = Nothing | HandTo(id: u64) | Answer(bytes: seq<byte>) | Leaving

  class RelayState {
    var connectors: map<string, nat>
    var conns: map<nat, Conn>
    var phones: map<u64, Phone>
    var nextGeneration: nat
    var nextStream: u64
    ghost var issued: nat

    ghost function State(): Relay
      reads this
    {
      Relay(connectors, conns, phones, nextGeneration, issued)
    }

    /** The wrapping counter stands where this many ids have been handed out; zero, which is skipped, counts as one. */
    ghost predicate Valid()
      reads this
    {
      nextStream == CounterAfter(issued) || (nextStream == 0 && CounterAfter(issued) == 1)
    }

    constructor ()
      ensures Valid() && State() == IDLE
    {
      connectors, conns, phones, nextGeneration, nextStream, issued := map[], map[], map[], 1, 1, 0;
    }

    // ---------- serve_connector ----------

    /** A desktop connects; the run it replaces, if any, is to have its streams closed. */
    method Connect(route: string) returns (g: nat, replaced: Option<nat>)
      requires Valid() && Enabled(State(), Step.Connect(route))
      modifies this
      ensures Valid() && State() == Next(old(State()), Step.Connect(route))
      ensures g == old(nextGeneration) && replaced == if route in old(connectors) then Some(old(connectors)[route]) else None
    {
      g := nextGeneration;
      nextGeneration := nextGeneration + 1;
      replaced := if route in connectors then Some(connectors[route]) else None;
      conns := conns[g := Conn(route, Serving, [], {}, Idle, [], [])];
      connectors := connectors[route := g];
    }

    method CloseStreams(g: nat)
      requires Valid() && Enabled(State(), Step.CloseAllStreams(g))
      modifies this
      ensures Valid() && State() == Next(old(State()), Step.CloseAllStreams(g))
    {
      conns := conns[g := conns[g].(streams := {})];
    }

    /** The outgoing branch: what goes to the desktop always has an encoding, so the loop never ends here. */
    method SendNext(g: nat) returns (bytes: seq<byte>)
      requires Valid() && Inv(State()) && Enabled(State(), Step.SendOut(g))
      modifies this
      ensures Valid() && State() == Next(old(State()), Step.SendOut(g))
      ensures RP.Decoded(bytes) == Ok(old(conns)[g].queue[0])
    {
      var frame := conns[g].queue[0];
      EncodesInTurn(State(), g);
      var encoded := RP.Encode(frame);
      RP.DecodeOfEncode(frame);
      bytes := encoded.value;
      conns := conns[g := conns[g].(queue := conns[g].queue[1..])];
    }

    /** The incoming branch on a binary message: what does not decode, and an Open, end the task. */
    method Receive(g: nat, bytes: seq<byte>) returns (asked: Asked)
      requires Valid() && Working(State(), g)
      modifies this
      ensures Valid()
      ensures match RP.Decoded(bytes)
              case Err(_) => asked == Leaving && State() == Next(old(State()), Leave(g))
              case Ok(Open(_)) => asked == Leaving && State() == Next(old(State()), Leave(g))
              case Ok(Data(id, payload)) =>
                && Enabled(old(State()), ReceiveData(g, id, payload))
                && State() == Next(old(State()), ReceiveData(g, id, payload))
                && asked == if id in old(conns)[g].streams then HandTo(id) else Nothing
              case Ok(Close(id, _)) => asked == Nothing && State() == Next(old(State()), ReceiveClose(g, id))
              case Ok(Ping) => State() == old(State()) && asked.Answer? && RP.Decoded(asked.bytes) == Ok(RP.Pong)
              case Ok(Pong) => State() == old(State()) && asked == Nothing
    {
      var frame := RP.Decoded(bytes);
      asked := Nothing;
      if frame.Err? {
        conns := conns[g := conns[g].(life := Closing)];
        return Leaving;
      }
      RP.EncodeOfDecode(bytes);
      var c := conns[g];
      match frame.value {
        case Data(id, payload) =>
          c := c.(received := c.received + [(id, payload)]);
          if id in c.streams {
            c := c.(hand := Holding(id, payload));
            asked := HandTo(id);
          }
          conns := conns[g := c];
        case Close(id, _) =>
          conns := conns[g := c.(streams := c.streams - {id})];
        case Ping =>
          var pong := RP.Encode(RP.Pong);
          RP.DecodeOfEncode(RP.Pong);
          asked := Answer(pong.value);
        case Pong =>
        case Open(_) =>
          conns := conns[g := c.(life := Closing)];
          asked := Leaving;
      }
    }

    /** try_send to the phone's channel; false is a channel that is full or gone. */
    method TrySend(g: nat) returns (sent: bool)
      requires Valid() && Enabled(State(), Step.HandOver(g))
      modifies this
      ensures Valid() && State() == Next(old(State()), Step.HandOver(g))
      ensures sent == Accepts(old(phones)[old(conns)[g].hand.id])
    {
      var c := conns[g];
      var id := c.hand.id;
      var p := phones[id];
      sent := |p.inbox| < STREAM_QUEUE && p.phase != Gone;
      if sent {
        phones := phones[id := p.(inbox := p.inbox + [c.hand.payload], accepted := p.accepted + 1)];
        conns := conns[g := c.(hand := Idle)];
      } else {
        conns := conns[g := c.(hand := Dropping(id))];
      }
    }

    /** The phone was too slow: its stream goes, and the desktop is told. */
    method Drop(g: nat) returns (bytes: seq<byte>)
      requires Valid() && Inv(State()) && Enabled(State(), Step.DropSlow(g))
      modifies this
      ensures Valid() && State() == Next(old(State()), Step.DropSlow(g))
      ensures RP.Decoded(bytes) == Ok(RP.Close(old(conns)[g].hand.id, TOO_SLOW))
    {
      var c := conns[g];
      var id := c.hand.id;
      HeldIdIsNonzero(State(), g);
      conns := conns[g := c.(streams := c.streams - {id}, hand := Idle)];
      var close := RP.Encode(RP.Close(id, TOO_SLOW));
      RP.DecodeOfEncode(RP.Close(id, TOO_SLOW));
      bytes := close.value;
    }

    /** The task ends; it takes its entry out of the map only if the entry is still its own. */
    method End(g: nat)
      requires Valid() && Enabled(State(), Step.Finish(g))
      modifies this
      ensures Valid() && State() == Next(old(State()), Step.Finish(g))
    {
      var c := conns[g];
      conns := conns[g := c.(life := Finished)];
      if c.route in connectors && connectors[c.route] == g {
        connectors := connectors - {c.route};
      }
    }

    // ---------- serve_phone ----------

    /** A phone arrives for a route; without a connector it is turned away. */
    method Arrive(route: string) returns (id: Option<u64>)
      requires Valid() && issued < IDS
      modifies this
      ensures Valid()
      ensures route !in old(connectors) ==> id == None && State() == old(State())
      ensures route in old(connectors) ==>
                id == Some(StreamIdOf(old(issued))) && State() == Next(old(State()), Step.Arrive(route))
    {
      hide StreamIdOf, CounterAfter;
      if route !in connectors {
        return None;
      }
      var g := connectors[route];
      var streamId: u64;
      streamId, nextStream := NextNonzero(nextStream);
      IdFollows(issued);
      phones := phones[streamId := Phone(g, Arrived, 0, [], 0, 0, false, [])];
      issued := issued + 1;
      id := Some(streamId);
    }

    /** The stream is registered with the connector, unless it has its fill. */
    method Register(id: u64) returns (registered: bool)
      requires Valid() && Enabled(State(), Step.Register(id))
      modifies this
      ensures Valid() && State() == Next(old(State()), Step.Register(id))
      ensures registered <==> phones[id].phase == Registered
    {
      var p := phones[id];
      var c := conns[p.conn];
      if |c.streams| >= MAX_STREAMS_PER_CONNECTOR {
        phones := phones[id := p.(phase := Gone)];
        return false;
      }
      conns := conns[p.conn := c.(streams := c.streams + {id})];
      phones := phones[id := p.(phase := Registered, since := |c.received|)];
      registered := true;
    }

    /** Open goes on the connector's queue; false is a queue whose task is over. */
    method Open(id: u64, delivered: bool)
      requires Valid() && Enabled(State(), if delivered then SendOpen(id) else OpenFails(id))
      modifies this
      ensures Valid() && State() == Next(old(State()), if delivered then SendOpen(id) else OpenFails(id))
    {
      var p := phones[id];
      if delivered {
        Push(p.conn, RP.Open(id));
        phones := phones[id := p.(phase := Streaming)];
      } else {
        conns := conns[p.conn := conns[p.conn].(streams := conns[p.conn].streams - {id})];
        phones := phones[id := p.(phase := Gone)];
      }
    }

    method Push(g: nat, frame: Frame)
      requires g in conns
      modifies this
      ensures conns == old(conns)[g := Enqueue(old(conns)[g], frame)]
      ensures connectors == old(connectors) && phones == old(phones) && nextGeneration == old(nextGeneration)
      ensures nextStream == old(nextStream) && issued == old(issued)
    {
      var c := conns[g];
      conns := conns[g := c.(queue := c.queue + [frame], enqueued := c.enqueued + [frame])];
    }

    /** Bytes read from the phone go to the desktop. */
    method FromPhone(id: u64, bytes: Payload)
      requires Valid() && Enabled(State(), ReadPhone(id, bytes))
      modifies this
      ensures Valid() && State() == Next(old(State()), ReadPhone(id, bytes))
    {
      Push(phones[id].conn, RP.Data(id, bytes));
      assert phones == phones[id := phones[id]];
    }

    /** The next payload is written to the phone; a failing write may leave its first k bytes behind, and ends the loop. */
    method ToPhone(id: u64, fails: bool, k: nat)
      requires Valid() && Enabled(State(), if fails then WriteTorn(id, k) else WritePhone(id))
      modifies this
      ensures Valid() && State() == Next(old(State()), if fails then WriteTorn(id, k) else WritePhone(id))
    {
      var p := phones[id];
      var payload := p.inbox[0];
      p := p.(inbox := p.inbox[1..], taken := p.taken + 1);
      if fails {
        p := p.(written := p.written + payload[..k], torn := true, phase := Draining);
      } else {
        p := p.(written := p.written + payload);
      }
      phones := phones[id := p];
    }

    /** The phone or its stream is done. */
    method Hang(id: u64)
      requires Valid() && Enabled(State(), HangUp(id))
      modifies this
      ensures Valid() && State() == Next(old(State()), HangUp(id))
    {
      phones := phones[id := phones[id].(phase := Draining)];
    }

    method Remove(id: u64)
      requires Valid() && Enabled(State(), Unregister(id))
      modifies this
      ensures Valid() && State() == Next(old(State()), Unregister(id))
    {
      var p := phones[id];
      conns := conns[p.conn := conns[p.conn].(streams := conns[p.conn].streams - {id})];
      phones := phones[id := p.(phase := Unregistered)];
    }

    /** The last frame of the stream, if the connector still takes any. */
    method Finish(id: u64, delivered: bool)
      requires Valid() && Enabled(State(), if delivered then SendClose(id) else CloseFails(id))
      modifies this
      ensures Valid() && State() == Next(old(State()), if delivered then SendClose(id) else CloseFails(id))
    {
      var p := phones[id];
      if delivered {
        Push(p.conn, RP.Close(id, []));
      }
      phones := phones[id := p.(phase := Gone)];
    }
  }

  /** "phone too slow" */
  const TOO_SLOW: seq<byte> := [112, 104, 111, 110, 101, 32, 116, 111, 111, 32, 115, 108, 111, 119]

  lemma {:induction false} EncodesInTurn(s: Relay, g: nat)
    requires Inv(s) && g in s.conns && s.conns[g].queue != []
    ensures RP.Encoded(s.conns[g].queue[0]).Ok?
  {
    hide PhoneOk, MapLive;
    var c := s.conns[g];
    assert ConnOk(s, g, c);
    assert c.queue[0] == c.enqueued[|c.enqueued| - |c.queue|];
  }

  lemma {:induction false} HeldIdIsNonzero(s: Relay, g: nat)
    requires Inv(s) && g in s.conns && !s.conns[g].hand.Idle?
    ensures s.conns[g].hand.id != 0
  {
    hide PhoneOk, MapLive;
    var c := s.conns[g];
    assert ConnOk(s, g, c) && About(c.hand, c.hand.id);
    assert IsStreamOf(s, g, c.hand.id) && IdIssued(s, c.hand.id);
  }

  /** One id after another is the counter's own order. */
  lemma {:induction false} IdFollows(k: nat)
    ensures CounterAfter(k) == StreamIdOf(k)
    ensures CounterAfter(k + 1) == if (StreamIdOf(k) + 1) % U64 == 0 then 1 else StreamIdOf(k) + 1
  {
    SuccessorId(k);
  }
}
