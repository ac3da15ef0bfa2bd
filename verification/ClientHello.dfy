/** parse_client_hello_sni in relay/src/lib.rs: reassembling a TLS ClientHello from handshake records (section 5.1 of
    RFC 8446) and finding its server name (section 4.1.2 of RFC 8446, section 3 of RFC 6066). */
module ClientHello {
  import opened Basics
  import opened BigEndian
  import opened DnsName
  import opened Text

  const CLIENT_HELLO_LIMIT: nat := 64 * 1024

  datatype ParseHelloError = Incomplete | Invalid

  type Parse<T> = Result<T, ParseHelloError>

  // ---------- What the parser computes, on what is left to read ----------

  function Split(rest: seq<byte>, count: nat): Parse<(seq<byte>, seq<byte>)>
  {
    if |rest| < count then Err(Incomplete) else Ok((rest[..count], rest[count..]))
  }

  function ReadNumber(rest: seq<byte>, width: nat): Parse<(nat, seq<byte>)>
  {
    var (value, after) :- Split(rest, width);
    Ok((FromBytes(value), after))
  }

  function BodyLength(hello: seq<byte>): nat
    requires |hello| >= 4
  {
    FromBytes(hello[1..4])
  }

  /** The handshake bytes of whole records, up to the record that completes the message. */
  function Reassembled(rest: seq<byte>, hello: seq<byte>): Parse<seq<byte>>
    decreases |rest|
  {
    if |rest| < 5 then Err(Incomplete)
    else if rest[0] != 22 then Err(Invalid)
    else
      var len := FromBytes(rest[3..5]);
      if len == 0 || len > CLIENT_HELLO_LIMIT - 5 then Err(Invalid)
      else if |rest| < 5 + len then Err(Incomplete)
      else if |hello| + len > CLIENT_HELLO_LIMIT then Err(Invalid)
      else
        var grown := hello + rest[5..5 + len];
        if |grown| >= 4 && BodyLength(grown) > CLIENT_HELLO_LIMIT - 4 then Err(Invalid)
        else if |grown| >= 4 && |grown| >= 4 + BodyLength(grown) then Ok(grown)
        else Reassembled(rest[5 + len..], grown)
  }

  function HostName(name: seq<byte>): Parse<string>
  {
    var text := DecodeUtf8(name);
    if text.None? then Err(Invalid)
    else
      var normal := NormalizeDnsName(text.value);
      if normal.None? then Err(Invalid) else Ok(normal.value)
  }

  function NameIn(names: seq<byte>): Parse<string>
    decreases |names|
  {
    if names == [] then Err(Invalid)
    else
      var (kind, r1) :- Split(names, 1);
      var (len, r2) :- ReadNumber(r1, 2);
      var (name, r3) :- Split(r2, len);
      if kind[0] == 0 then HostName(name) else NameIn(r3)
  }

  function ServerNames(extension: seq<byte>): Parse<string>
  {
    var (len, r1) :- ReadNumber(extension, 2);
    var (names, _) :- Split(r1, len);
    NameIn(names)
  }

  function ServerNameIn(extensions: seq<byte>): Parse<string>
    decreases |extensions|
  {
    if extensions == [] then Err(Invalid)
    else
      var (kind, r1) :- ReadNumber(extensions, 2);
      var (len, r2) :- ReadNumber(r1, 2);
      var (extension, r3) :- Split(r2, len);
      if kind == 0 then ServerNames(extension) else ServerNameIn(r3)
  }

  function Body(hello: seq<byte>): Parse<string>
  {
    if |hello| < 4 || hello[0] != 1 then Err(Invalid)
    else
      var (_, r1) :- Split(hello[4..], 2 + 32);
      var (sessionLen, r2) :- ReadNumber(r1, 1);
      var (_, r3) :- Split(r2, sessionLen);
      var (cipherLen, r4) :- ReadNumber(r3, 2);
      if cipherLen == 0 || cipherLen % 2 != 0 then Err(Invalid)
      else
        var (_, r5) :- Split(r4, cipherLen);
        var (compressionLen, r6) :- ReadNumber(r5, 1);
        var (_, r7) :- Split(r6, compressionLen);
        var (extensionsLen, r8) :- ReadNumber(r7, 2);
        var (extensions, _) :- Split(r8, extensionsLen);
        ServerNameIn(extensions)
  }

  function Parsed(bytes: seq<byte>): Parse<string>
  {
    var hello :- Reassembled(bytes, []);
    Body(hello)
  }

  // ---------- The parser ----------

  method Take(bytes: seq<byte>, at: nat, count: nat) returns (r: Parse<seq<byte>>, next: nat)
    requires at <= |bytes|
    ensures next <= |bytes|
    ensures match Split(bytes[at..], count)
            case Ok((value, rest)) => r == Ok(value) && rest == bytes[next..] && next == at + count
            case Err(e) => r == Err(e) && next == at
  {
    if at + count > |bytes| {
      return Err(Incomplete), at;
    }
    assert bytes[at..][..count] == bytes[at..at + count];
    return Ok(bytes[at..at + count]), at + count;
  }

  method ReadNumberAt(bytes: seq<byte>, at: nat, width: nat) returns (r: Parse<nat>, next: nat)
    requires at <= |bytes|
    ensures next <= |bytes|
    ensures match ReadNumber(bytes[at..], width)
            case Ok((value, rest)) => r == Ok(value) && rest == bytes[next..] && next == at + width
            case Err(e) => r == Err(e) && next == at
  {
    var value: Parse<seq<byte>>;
    value, next := Take(bytes, at, width);
    r := if value.Err? then Err(value.error) else Ok(FromBytes(value.value));
  }

  method Reassemble(bytes: seq<byte>) returns (r: Parse<seq<byte>>)
    ensures r == Reassembled(bytes, [])
  {
    var recordAt, hello := 0, [];
    while true
      invariant recordAt <= |bytes| && Reassembled(bytes, []) == Reassembled(bytes[recordAt..], hello)
      decreases |bytes| - recordAt
    {
      ghost var rest := bytes[recordAt..];
      if |bytes| < recordAt + 5 {
        return Err(Incomplete);
      }
      if bytes[recordAt] != 22 {
        return Err(Invalid);
      }
      assert rest[3..5] == bytes[recordAt + 3..recordAt + 5];
      var recordLen := FromBytes(bytes[recordAt + 3..recordAt + 5]);
      if recordLen == 0 || recordLen > CLIENT_HELLO_LIMIT - 5 {
        return Err(Invalid);
      }
      var payloadAt := recordAt + 5;
      var recordEnd := payloadAt + recordLen;
      if recordEnd > |bytes| {
        return Err(Incomplete);
      }
      var payload := bytes[payloadAt..recordEnd];
      assert payload == rest[5..5 + recordLen] && bytes[recordEnd..] == rest[5 + recordLen..];
      if |hello| + |payload| > CLIENT_HELLO_LIMIT {
        return Err(Invalid);
      }
      hello := hello + payload;
      if |hello| >= 4 {
        if BodyLength(hello) > CLIENT_HELLO_LIMIT - 4 {
          return Err(Invalid);
        }
        if |hello| >= 4 + BodyLength(hello) {
          return Ok(hello);
        }
      }
      recordAt := recordEnd;
    }
  }

  method FindName(names: seq<byte>) returns (r: Parse<string>)
    ensures r == NameIn(names)
  {
    var itemAt := 0;
    while itemAt < |names|
      invariant itemAt <= |names| && NameIn(names) == NameIn(names[itemAt..])
    {
      var kind, at := Take(names, itemAt, 1); // never fails: a byte is left
      var len: Parse<nat>;
      len, at := ReadNumberAt(names, at, 2);
      if len.Err? { return Err(len.error); }
      var name: Parse<seq<byte>>;
      name, at := Take(names, at, len.value);
      if name.Err? { return Err(name.error); }
      if kind.value[0] == 0 {
        return HostName(name.value);
      }
      itemAt := at;
    }
    return Err(Invalid);
  }

  method FindServerName(extensions: seq<byte>) returns (r: Parse<string>)
    ensures r == ServerNameIn(extensions)
  {
    var extAt := 0;
    while extAt < |extensions|
      invariant extAt <= |extensions| && ServerNameIn(extensions) == ServerNameIn(extensions[extAt..])
    {
      var kind, at := ReadNumberAt(extensions, extAt, 2);
      if kind.Err? { return Err(kind.error); }
      var len: Parse<nat>;
      len, at := ReadNumberAt(extensions, at, 2);
      if len.Err? { return Err(len.error); }
      var extension: Parse<seq<byte>>;
      extension, at := Take(extensions, at, len.value);
      if extension.Err? { return Err(extension.error); }
      if kind.value != 0 {
        extAt := at;
        continue;
      }
      var listLen, nameAt := ReadNumberAt(extension.value, 0, 2);
      assert extension.value[0..] == extension.value;
      if listLen.Err? { return Err(listLen.error); }
      var names, _ := Take(extension.value, nameAt, listLen.value);
      if names.Err? { return Err(names.error); }
      r := FindName(names.value);
      return;
    }
    return Err(Invalid);
  }

  /** Skips a field whose length comes first. */
  method SkipField(bytes: seq<byte>, at: nat, width: nat) returns (len: Parse<nat>, next: nat)
    requires at <= |bytes|
    ensures next <= |bytes|
    ensures match ReadNumber(bytes[at..], width)
            case Err(e) => len == Err(e)
            case Ok((n, rest)) =>
              if Split(rest, n).Err? then len == Err(Split(rest, n).error)
              else len == Ok(n) && bytes[next..] == Split(rest, n).value.1
  {
    len, next := ReadNumberAt(bytes, at, width);
    if len.Err? { return; }
    var field: Parse<seq<byte>>;
    field, next := Take(bytes, next, len.value);
    if field.Err? { len := Err(field.error); }
  }

  method ParseClientHelloSni(bytes: seq<byte>) returns (r: Parse<string>)
    ensures r == Parsed(bytes)
  {
    var message := Reassemble(bytes);
    if message.Err? { return Err(message.error); }
    var hello := message.value;
    if |hello| < 4 || hello[0] != 1 {
      return Err(Invalid);
    }
    var fixed, at := Take(hello, 4, 2 + 32);
    if fixed.Err? { return Err(fixed.error); }
    var sessionLen: Parse<nat>;
    sessionLen, at := SkipField(hello, at, 1);
    if sessionLen.Err? { return Err(sessionLen.error); }
    var cipherLen: Parse<nat>;
    cipherLen, at := ReadNumberAt(hello, at, 2);
    if cipherLen.Err? { return Err(cipherLen.error); }
    if cipherLen.value == 0 || cipherLen.value % 2 != 0 {
      return Err(Invalid);
    }
    var ciphers: Parse<seq<byte>>;
    ciphers, at := Take(hello, at, cipherLen.value);
    if ciphers.Err? { return Err(ciphers.error); }
    var compressionLen: Parse<nat>;
    compressionLen, at := SkipField(hello, at, 1);
    if compressionLen.Err? { return Err(compressionLen.error); }
    var extensionsLen: Parse<nat>;
    extensionsLen, at := ReadNumberAt(hello, at, 2);
    if extensionsLen.Err? { return Err(extensionsLen.error); }
    var extensions: Parse<seq<byte>>;
    extensions, at := Take(hello, at, extensionsLen.value);
    if extensions.Err? { return Err(extensions.error); }
    r := FindServerName(extensions.value);
  }

  // ---------- More bytes never change an answer ----------

  lemma {:induction false} ReassembledStable(rest: seq<byte>, hello: seq<byte>, more: seq<byte>)
    requires Reassembled(rest, hello) != Err(Incomplete)
    ensures Reassembled(rest + more, hello) == Reassembled(rest, hello)
    decreases |rest|
  {
    var all := rest + more;
    if rest[0] == 22 {
      assert all[3..5] == rest[3..5];
      var len := FromBytes(rest[3..5]);
      if 0 < len <= CLIENT_HELLO_LIMIT - 5 && |rest| >= 5 + len && |hello| + len <= CLIENT_HELLO_LIMIT {
        assert all[5..5 + len] == rest[5..5 + len];
        assert all[5 + len..] == rest[5 + len..] + more;
        var grown := hello + rest[5..5 + len];
        if Reassembled(rest[5 + len..], grown) != Err(Incomplete) {
          ReassembledStable(rest[5 + len..], grown, more);
        }
      }
    }
  }

  /** An accepted or rejected hello stays so whatever follows. */
  lemma {:induction false} AnswersAreStable(bytes: seq<byte>, more: seq<byte>)
    requires Parsed(bytes) != Err(Incomplete)
    ensures Parsed(bytes + more) == Parsed(bytes)
  {
    ReassembledStable(bytes, [], more);
  }

  /** Where the records that complete the message end. */
  function Consumed(rest: seq<byte>, hello: seq<byte>): nat
    requires Reassembled(rest, hello).Ok?
    decreases |rest|
  {
    var len := FromBytes(rest[3..5]);
    var grown := hello + rest[5..5 + len];
    if |grown| >= 4 && |grown| >= 4 + BodyLength(grown) then 5 + len
    else 5 + len + Consumed(rest[5 + len..], grown)
  }

  /** A cut past the first record's end leaves that record whole. */
  lemma {:induction false} CutPast(rest: seq<byte>, k: nat, len: nat)
    requires 5 + len <= k <= |rest|
    ensures rest[..k][3..5] == rest[3..5] && rest[..k][5..5 + len] == rest[5..5 + len]
    ensures rest[..k][5 + len..] == rest[5 + len..][..k - (5 + len)]
  {
  }

  lemma {:induction false} PrefixIncomplete(rest: seq<byte>, hello: seq<byte>, k: nat)
    requires Reassembled(rest, hello).Ok?
    ensures Consumed(rest, hello) <= |rest|
    ensures k < Consumed(rest, hello) ==> Reassembled(rest[..k], hello) == Err(Incomplete)
    ensures Consumed(rest, hello) <= k <= |rest| ==> Reassembled(rest[..k], hello) == Reassembled(rest, hello)
    decreases |rest|
  {
    hide FromBytes, BodyLength;
    var len := FromBytes(rest[3..5]);
    var grown := hello + rest[5..5 + len];
    var done := |grown| >= 4 && |grown| >= 4 + BodyLength(grown);
    if !done {
      PrefixIncomplete(rest[5 + len..], grown, if k < 5 + len then 0 else k - (5 + len));
    }
    if 5 + len <= k <= |rest| {
      CutPast(rest, k, len);
    } else if 5 <= k <= |rest| {
      assert rest[..k][3..5] == rest[3..5];
    }
  }

  /** Of the records an accepted hello consumed, every strict prefix asks for more bytes, and they alone suffice. */
  lemma {:induction false} StrictPrefixesAreIncomplete(bytes: seq<byte>, k: nat)
    requires Parsed(bytes).Ok?
    ensures Consumed(bytes, []) <= |bytes|
    ensures k < Consumed(bytes, []) ==> Parsed(bytes[..k]) == Err(Incomplete)
    ensures Consumed(bytes, []) <= k <= |bytes| ==> Parsed(bytes[..k]) == Parsed(bytes)
  {
    PrefixIncomplete(bytes, [], k);
  }

  // ---------- How a message is cut into records does not matter ----------

  /** A handshake record: its two legacy version bytes and its payload. */
  datatype Record = Record(version: (byte, byte), payload: seq<byte>)

  function RecordBytes(r: Record): seq<byte>
  {
    [22, r.version.0, r.version.1] + ToBytes(|r.payload|, 2) + r.payload
  }

  function Wire(records: seq<Record>): seq<byte>
  {
    if records == [] then [] else RecordBytes(records[0]) + Wire(records[1..])
  }

  function Payloads(records: seq<Record>): seq<byte>
  {
    if records == [] then [] else records[0].payload + Payloads(records[1..])
  }

  ghost predicate InLimit(records: seq<Record>)
  {
    forall k :: 0 <= k < |records| ==> 0 < |records[k].payload| <= CLIENT_HELLO_LIMIT - 5
  }

  /** A handshake message and nothing more: its length field counts exactly the rest. */
  ghost predicate Exact(message: seq<byte>)
  {
    |message| >= 4 && |message| == 4 + BodyLength(message)
  }

  /** What the parser makes of an exact message, however it arrives. */
  function Whole(message: seq<byte>): Parse<string>
  {
    if |message| > CLIENT_HELLO_LIMIT then Err(Invalid) else Body(message)
  }

  lemma {:induction false} NextRecord(r: Record, rest: seq<byte>, hello: seq<byte>)
    requires 0 < |r.payload| <= CLIENT_HELLO_LIMIT - 5
    ensures var all := RecordBytes(r) + rest;
            var grown := hello + r.payload;
            Reassembled(all, hello) ==
            if |grown| > CLIENT_HELLO_LIMIT then Err(Invalid)
            else if |grown| >= 4 && BodyLength(grown) > CLIENT_HELLO_LIMIT - 4 then Err(Invalid)
            else if |grown| >= 4 && |grown| >= 4 + BodyLength(grown) then Ok(grown)
            else Reassembled(rest, grown)
  {
    var all, len := RecordBytes(r) + rest, |r.payload|;
    Widths();
    FromTo(len, 2);
    assert all[3..5] == ToBytes(len, 2);
    assert all[5..5 + len] == r.payload && all[5 + len..] == rest;
  }

  lemma {:induction false} ReassemblesExact(records: seq<Record>, hello: seq<byte>, message: seq<byte>)
    requires InLimit(records) && records != []
    requires message == hello + Payloads(records) && Exact(message)
    ensures Reassembled(Wire(records), hello) == if |message| > CLIENT_HELLO_LIMIT then Err(Invalid) else Ok(message)
    decreases |records|
  {
    var grown := hello + records[0].payload;
    assert message == grown + Payloads(records[1..]);
    NextRecord(records[0], Wire(records[1..]), hello);
    if |grown| >= 4 {
      assert grown[1..4] == message[1..4];
    }
    if |records| == 1 {
      assert message == grown;
    } else {
      assert |records[1].payload| > 0 && Payloads(records[1..]) == records[1].payload + Payloads(records[1..][1..]);
      ReassemblesExact(records[1..], grown, message);
    }
  }

  /** Fragmentation is invisible: any cut of an exact message into nonempty records within the limit, with anything
      after it, is answered like any other. */
  lemma {:induction false} FragmentationIsInvisible(records: seq<Record>, message: seq<byte>)
    requires InLimit(records) && message == Payloads(records) && Exact(message)
    ensures Parsed(Wire(records)) == Whole(message)
    ensures forall more :: Whole(message) != Err(Incomplete) ==> Parsed(Wire(records) + more) == Whole(message)
  {
    assert records != [];
    assert message == [] + Payloads(records);
    ReassemblesExact(records, [], message);
    forall more | Whole(message) != Err(Incomplete) ensures Parsed(Wire(records) + more) == Whole(message) {
      AnswersAreStable(Wire(records), more);
    }
  }

  // ---------- What a client writes is what the relay reads ----------

  datatype Extension = Extension(kind: u16, body: seq<byte>)

  datatype NameEntry = NameEntry(kind: byte, name: seq<byte>)

  /** A ClientHello with its server_name extension singled out: other extensions and name entries may come before it,
      and anything after it, slack after the list of names included. */
  datatype Hello = Hello(
    fixed: seq<byte>,
    session: seq<byte>,
    ciphers: seq<byte>,
    compression: seq<byte>,
    before: seq<Extension>,
    others: seq<NameEntry>,
    host: seq<byte>,
    laterNames: seq<byte>,
    slack: seq<byte>,
    laterExtensions: seq<byte>)

  function Prefixed(width: nat, s: seq<byte>): seq<byte>
  {
    ToBytes(|s|, width) + s
  }

  function ExtensionBytes(es: seq<Extension>): seq<byte>
  {
    if es == [] then [] else ToBytes(es[0].kind, 2) + Prefixed(2, es[0].body) + ExtensionBytes(es[1..])
  }

  function NameBytes(names: seq<NameEntry>): seq<byte>
  {
    if names == [] then [] else [names[0].kind] + Prefixed(2, names[0].name) + NameBytes(names[1..])
  }

  function NameList(h: Hello): seq<byte>
  {
    NameBytes(h.others) + ([0] + Prefixed(2, h.host) + h.laterNames)
  }

  function Extensions(h: Hello): seq<byte>
  {
    ExtensionBytes(h.before) + (ToBytes(0, 2) + Prefixed(2, Prefixed(2, NameList(h)) + h.slack) + h.laterExtensions)
  }

  function Content(h: Hello): seq<byte>
  {
    h.fixed + (Prefixed(1, h.session) + (Prefixed(2, h.ciphers) + (Prefixed(1, h.compression) + Prefixed(2, Extensions(h)))))
  }

  function Message(h: Hello): seq<byte>
  {
    [1] + Prefixed(3, Content(h))
  }

  /** The lengths fit their fields, as section 4.1.2 of RFC 8446 has them, and the earlier entries are of other kinds. */
  ghost predicate Writable(h: Hello)
  {
    && |h.fixed| == 34 && |h.session| < 256 && |h.compression| < 256
    && 0 < |h.ciphers| < U16 && |h.ciphers| % 2 == 0
    && (forall k :: 0 <= k < |h.before| ==> h.before[k].kind != 0 && |h.before[k].body| < U16)
    && (forall k :: 0 <= k < |h.others| ==> h.others[k].kind != 0 && |h.others[k].name| < U16)
    && |h.host| < U16 && |NameList(h)| + 2 + |h.slack| < U16 && |Extensions(h)| < U16
  }

  lemma {:induction false} ReadPrefixed(width: nat, s: seq<byte>, rest: seq<byte>)
    requires |s| < Pow256(width)
    ensures ReadNumber(Prefixed(width, s) + rest, width) == Ok((|s|, s + rest))
    ensures Split(s + rest, |s|) == Ok((s, rest))
  {
    FromTo(|s|, width);
    var all := Prefixed(width, s) + rest;
    assert all[..width] == ToBytes(|s|, width) && all[width..] == s + rest;
    assert (s + rest)[..|s|] == s && (s + rest)[|s|..] == rest;
  }

  lemma {:induction false} ReadKind(kind: u16, rest: seq<byte>)
    ensures ReadNumber(ToBytes(kind, 2) + rest, 2) == Ok((kind, rest))
  {
    Widths();
    FromTo(kind, 2);
    var all := ToBytes(kind, 2) + rest;
    assert all[..2] == ToBytes(kind, 2) && all[2..] == rest;
  }

  /** One entry of a name list. */
  lemma {:induction false} NameStep(kind: byte, name: seq<byte>, rest: seq<byte>)
    requires |name| < U16
    ensures NameIn([kind] + (Prefixed(2, name) + rest)) == if kind == 0 then HostName(name) else NameIn(rest)
  {
    hide Prefixed, ReadNumber, HostName;
    Widths();
    var all := [kind] + (Prefixed(2, name) + rest);
    assert all[..1] == [kind] && all[1..] == Prefixed(2, name) + rest;
    ReadPrefixed(2, name, rest);
  }

  lemma {:induction false} FindsName(others: seq<NameEntry>, host: seq<byte>, later: seq<byte>)
    requires forall k :: 0 <= k < |others| ==> others[k].kind != 0 && |others[k].name| < U16
    requires |host| < U16
    ensures NameIn(NameBytes(others) + ([0] + Prefixed(2, host) + later)) == HostName(host)
    decreases |others|
  {
    hide Prefixed, NameIn, HostName;
    var tail := [0] + Prefixed(2, host) + later;
    if others == [] {
      assert NameBytes(others) + tail == [0] + (Prefixed(2, host) + later);
      NameStep(0, host, later);
    } else {
      var e, rest := others[0], NameBytes(others[1..]) + tail;
      assert NameBytes(others) + tail == [e.kind] + (Prefixed(2, e.name) + rest);
      NameStep(e.kind, e.name, rest);
      FindsName(others[1..], host, later);
    }
  }

  /** One extension. */
  lemma {:induction false} ExtensionStep(kind: u16, body: seq<byte>, rest: seq<byte>)
    requires |body| < U16
    ensures ServerNameIn(ToBytes(kind, 2) + (Prefixed(2, body) + rest)) == if kind == 0 then ServerNames(body) else ServerNameIn(rest)
  {
    hide Prefixed, ReadNumber, ServerNames, ToBytes;
    Widths();
    ReadKind(kind, Prefixed(2, body) + rest);
    ReadPrefixed(2, body, rest);
  }

  lemma {:induction false} NamesOfList(names: seq<byte>, slack: seq<byte>)
    requires |names| < U16
    ensures ServerNames(Prefixed(2, names) + slack) == NameIn(names)
  {
    hide Prefixed, ReadNumber, NameIn;
    Widths();
    ReadPrefixed(2, names, slack);
  }

  lemma {:induction false} FindsExtension(before: seq<Extension>, names: seq<byte>, slack: seq<byte>, later: seq<byte>)
    requires forall k :: 0 <= k < |before| ==> before[k].kind != 0 && |before[k].body| < U16
    requires |names| + 2 + |slack| < U16
    ensures ServerNameIn(ExtensionBytes(before) + (ToBytes(0, 2) + Prefixed(2, Prefixed(2, names) + slack) + later)) == NameIn(names)
    decreases |before|
  {
    hide ServerNameIn, ServerNames, NameIn, ToBytes;
    var list := Prefixed(2, names) + slack;
    var tail := ToBytes(0, 2) + Prefixed(2, list) + later;
    if before == [] {
      assert ExtensionBytes(before) + tail == ToBytes(0, 2) + (Prefixed(2, list) + later);
      assert |list| < U16;
      ExtensionStep(0, list, later);
      NamesOfList(names, slack);
    } else {
      FindsLaterExtension(before[0], ExtensionBytes(before[1..]), tail);
      FindsExtension(before[1..], names, slack, later);
    }
  }

  lemma {:induction false} FindsLaterExtension(e: Extension, others: seq<byte>, tail: seq<byte>)
    requires e.kind != 0 && |e.body| < U16
    ensures ServerNameIn(ToBytes(e.kind, 2) + Prefixed(2, e.body) + others + tail) == ServerNameIn(others + tail)
  {
    hide ServerNameIn, ServerNames, ToBytes, Prefixed;
    assert ToBytes(e.kind, 2) + Prefixed(2, e.body) + others + tail == ToBytes(e.kind, 2) + (Prefixed(2, e.body) + (others + tail));
    ExtensionStep(e.kind, e.body, others + tail);
  }

  lemma {:induction false} BodyOfMessage(h: Hello)
    requires Writable(h)
    ensures Body(Message(h)) == HostName(h.host)
  {
    hide Prefixed, ReadNumber, Split, Extensions, NameList, ServerNameIn, NameIn;
    var exts := Extensions(h);
    var r6 := Prefixed(1, h.compression) + Prefixed(2, exts);
    var r3 := Prefixed(2, h.ciphers) + r6;
    var r1 := Prefixed(1, h.session) + r3;
    Widths();
    assert Pow256(1) == 256;
    MessageParts(h);
    ReadSplit(h.fixed, r1);
    ReadPrefixed(1, h.session, r3);
    ReadPrefixed(2, h.ciphers, r6);
    ReadPrefixed(1, h.compression, Prefixed(2, exts));
    assert Prefixed(2, exts) + [] == Prefixed(2, exts);
    ReadPrefixed(2, exts, []);
    HelloNames(h);
  }

  lemma {:induction false} ReadSplit(a: seq<byte>, rest: seq<byte>)
    ensures Split(a + rest, |a|) == Ok((a, rest))
  {
    assert (a + rest)[..|a|] == a && (a + rest)[|a|..] == rest;
  }

  lemma {:induction false} MessageParts(h: Hello)
    ensures |Message(h)| >= 4 && Message(h)[0] == 1
    ensures Message(h)[4..] == h.fixed + (Prefixed(1, h.session) + (Prefixed(2, h.ciphers)
                               + (Prefixed(1, h.compression) + Prefixed(2, Extensions(h)))))
  {
  }

  lemma {:induction false} HelloNames(h: Hello)
    requires Writable(h)
    ensures ServerNameIn(Extensions(h)) == HostName(h.host)
  {
    FindsExtension(h.before, NameList(h), h.slack, h.laterExtensions);
    FindsName(h.others, h.host, h.laterNames);
  }

  lemma {:induction false} MessageIsExact(h: Hello)
    requires |Content(h)| < 0x100_0000
    ensures Exact(Message(h))
  {
    Widths();
    FromTo(|Content(h)|, 3);
    assert Message(h)[1..4] == ToBytes(|Content(h)|, 3);
  }

  /** Any hello a client can write within the limit, in any records and followed by anything, yields its host name,
      normalised, or is rejected when that is not a name. */
  lemma {:induction false} WrittenHelloIsRead(h: Hello, records: seq<Record>, more: seq<byte>)
    requires Writable(h) && |Message(h)| <= CLIENT_HELLO_LIMIT
    requires InLimit(records) && Payloads(records) == Message(h)
    ensures Parsed(Wire(records) + more) == HostName(h.host)
  {
    BodyOfMessage(h);
    MessageIsExact(h);
    FragmentationIsInvisible(records, Message(h));
  }

  // ---------- What is accepted was written so ----------

  lemma {:induction false} FirstRecord(rest: seq<byte>, len: nat)
    requires 5 + len <= |rest| && rest[0] == 22 && len == FromBytes(rest[3..5])
    ensures RecordBytes(Record((rest[1], rest[2]), rest[5..5 + len])) == rest[..5 + len]
  {
    hide ToBytes, FromBytes;
    ToFrom(rest[3..5]);
    assert |rest[3..5]| == 2 && |rest[5..5 + len]| == len;
    assert rest[..5 + len] == [22, rest[1], rest[2]] + rest[3..5] + rest[5..5 + len];
  }

  lemma {:induction false} OneMoreRecord(first: Record, later: seq<Record>, more: seq<byte>)
    ensures Wire([first] + later) + more == RecordBytes(first) + (Wire(later) + more)
    ensures Payloads([first] + later) == first.payload + Payloads(later)
  {
    hide RecordBytes;
    assert ([first] + later)[1..] == later;
  }

  lemma {:induction false} NoRecords()
    ensures Wire([]) == [] && Payloads([]) == []
  {
  }

  /** The first record of what is reassembled. */
  lemma {:induction false} FirstOf(rest: seq<byte>, hello: seq<byte>)
    requires Reassembled(rest, hello).Ok?
    ensures |rest| >= 5 && rest[0] == 22
    ensures var len := FromBytes(rest[3..5]);
            && 0 < len <= CLIENT_HELLO_LIMIT - 5 && 5 + len <= |rest|
            && var grown := hello + rest[5..5 + len];
               && |grown| <= CLIENT_HELLO_LIMIT
               && if |grown| >= 4 && |grown| >= 4 + BodyLength(grown) then Reassembled(rest, hello) == Ok(grown)
                  else Reassembled(rest, hello) == Reassembled(rest[5 + len..], grown)
  {
    hide FromBytes, BodyLength;
  }

  lemma {:induction false} JoinRecord(rest: seq<byte>, hello: seq<byte>, len: nat, later: seq<Record>, more: seq<byte>)
    requires 5 + len <= |rest| && rest[0] == 22 && len == FromBytes(rest[3..5]) && rest[5 + len..] == Wire(later) + more
    ensures var records := [Record((rest[1], rest[2]), rest[5..5 + len])] + later;
            rest == Wire(records) + more && hello + Payloads(records) == (hello + rest[5..5 + len]) + Payloads(later)
  {
    hide FromBytes, RecordBytes, Wire, Payloads;
    FirstRecord(rest, len);
    OneMoreRecord(Record((rest[1], rest[2]), rest[5..5 + len]), later, more);
    assert rest == rest[..5 + len] + rest[5 + len..];
  }

  lemma {:induction false} RecordsOf(rest: seq<byte>, hello: seq<byte>) returns (records: seq<Record>, more: seq<byte>)
    requires Reassembled(rest, hello).Ok?
    ensures rest == Wire(records) + more && InLimit(records)
    ensures var message := Reassembled(rest, hello).value;
            && message == hello + Payloads(records) && |message| <= CLIENT_HELLO_LIMIT
            && |message| >= 4 && |message| >= 4 + BodyLength(message)
    decreases |rest|
  {
    hide FromBytes, BodyLength, Wire, Payloads, Reassembled;
    FirstOf(rest, hello);
    var len := FromBytes(rest[3..5]);
    var grown := hello + rest[5..5 + len];
    var later: seq<Record> := [];
    more := rest[5 + len..];
    NoRecords();
    if !(|grown| >= 4 && |grown| >= 4 + BodyLength(grown)) {
      later, more := RecordsOf(rest[5 + len..], grown);
    }
    assert [] + more == more && grown + [] == grown;
    JoinRecord(rest, hello, len, later, more);
    records := [Record((rest[1], rest[2]), rest[5..5 + len])] + later;
  }

  lemma {:induction false} PrefixedOf(rest: seq<byte>, width: nat) returns (s: seq<byte>, after: seq<byte>)
    requires ReadNumber(rest, width).Ok? && Split(ReadNumber(rest, width).value.1, ReadNumber(rest, width).value.0).Ok?
    ensures rest == Prefixed(width, s) + after && |s| < Pow256(width)
    ensures ReadNumber(rest, width).value.0 == |s|
    ensures Split(ReadNumber(rest, width).value.1, |s|) == Ok((s, after))
  {
    var (n, tail) := ReadNumber(rest, width).value;
    ToFrom(rest[..width]);
    s, after := tail[..n], tail[n..];
    assert rest == rest[..width] + (s + after);
  }

  lemma {:induction false} JoinName(first: NameEntry, others: seq<NameEntry>, tail: seq<byte>)
    ensures NameBytes([first] + others) + tail == [first.kind] + (Prefixed(2, first.name) + (NameBytes(others) + tail))
  {
    hide Prefixed;
    assert ([first] + others)[1..] == others;
  }

  /** The first entry of a name list. */
  lemma {:induction false} FirstName(names: seq<byte>) returns (kind: byte, name: seq<byte>, after: seq<byte>)
    requires NameIn(names).Ok?
    ensures names == [kind] + (Prefixed(2, name) + after) && |name| < U16
    ensures NameIn(names) == if kind == 0 then HostName(name) else NameIn(after)
  {
    hide HostName, Prefixed, ReadNumber;
    Widths();
    kind := names[0];
    name, after := PrefixedOf(names[1..], 2);
    assert names == [kind] + names[1..];
  }

  lemma {:induction false} NamesOf(names: seq<byte>) returns (others: seq<NameEntry>, host: seq<byte>, later: seq<byte>)
    requires NameIn(names).Ok?
    ensures names == NameBytes(others) + ([0] + Prefixed(2, host) + later) && |host| < U16
    ensures forall k :: 0 <= k < |others| ==> others[k].kind != 0 && |others[k].name| < U16
    ensures HostName(host) == NameIn(names)
    decreases |names|
  {
    hide HostName, Prefixed, NameIn;
    var kind, name, after := FirstName(names);
    if kind == 0 {
      others, host, later := [], name, after;
      assert names == [] + ([0] + Prefixed(2, host) + later);
    } else {
      others, host, later := NamesOf(after);
      hide NameBytes;
      JoinName(NameEntry(kind, name), others, [0] + Prefixed(2, host) + later);
      others := [NameEntry(kind, name)] + others;
    }
  }

  lemma {:induction false} JoinExtension(first: Extension, before: seq<Extension>, tail: seq<byte>)
    ensures ExtensionBytes([first] + before) + tail
            == ToBytes(first.kind, 2) + (Prefixed(2, first.body) + (ExtensionBytes(before) + tail))
  {
    hide Prefixed, ToBytes;
    assert ([first] + before)[1..] == before;
  }

  /** The first extension of a list. */
  lemma {:induction false} FirstExtension(extensions: seq<byte>) returns (kind: u16, body: seq<byte>, after: seq<byte>)
    requires ServerNameIn(extensions).Ok?
    ensures extensions == ToBytes(kind, 2) + (Prefixed(2, body) + after) && |body| < U16
    ensures ServerNameIn(extensions) == if kind == 0 then ServerNames(body) else ServerNameIn(after)
  {
    hide ServerNames, Prefixed, ToBytes, FromBytes;
    Widths();
    var (number, r1) := ReadNumber(extensions, 2).value;
    ToFrom(extensions[..2]);
    kind := number;
    body, after := PrefixedOf(r1, 2);
    assert extensions == extensions[..2] + r1;
  }

  lemma {:induction false} ExtensionsOf(extensions: seq<byte>) returns (before: seq<Extension>, body: seq<byte>, later: seq<byte>)
    requires ServerNameIn(extensions).Ok?
    ensures extensions == ExtensionBytes(before) + (ToBytes(0, 2) + Prefixed(2, body) + later) && |body| < U16
    ensures forall k :: 0 <= k < |before| ==> before[k].kind != 0 && |before[k].body| < U16
    ensures ServerNames(body) == ServerNameIn(extensions)
    decreases |extensions|
  {
    hide ServerNames, Prefixed, ToBytes, ServerNameIn;
    var kind, here, after := FirstExtension(extensions);
    if kind == 0 {
      before, body, later := [], here, after;
      assert extensions == [] + (ToBytes(0, 2) + Prefixed(2, body) + later);
    } else {
      TwoBytesLong(kind);
      before, body, later := ExtensionsOf(after);
      hide ExtensionBytes;
      JoinExtension(Extension(kind, here), before, ToBytes(0, 2) + Prefixed(2, body) + later);
      before := [Extension(kind, here)] + before;
    }
  }

  lemma {:induction false} TwoBytesLong(kind: u16)
    ensures |ToBytes(kind, 2)| == 2
  {
  }

  lemma {:induction false} ListOf(body: seq<byte>) returns (names: seq<byte>, slack: seq<byte>)
    requires ServerNames(body).Ok?
    ensures body == Prefixed(2, names) + slack && NameIn(names) == ServerNames(body) && |names| + 2 + |slack| == |body|
  {
    hide NameIn;
    names, slack := PrefixedOf(body, 2);
  }

  lemma {:induction false} BodyOf(hello: seq<byte>)
    returns (fixed: seq<byte>, session: seq<byte>, ciphers: seq<byte>, compression: seq<byte>, extensions: seq<byte>, trailing: seq<byte>)
    requires Body(hello).Ok?
    ensures |hello| >= 4 && hello[0] == 1
    ensures hello[4..] == fixed + (Prefixed(1, session) + (Prefixed(2, ciphers) + (Prefixed(1, compression)
                          + (Prefixed(2, extensions) + trailing))))
    ensures |fixed| == 34 && |session| < 256 && |compression| < 256 && |extensions| < U16
    ensures 0 < |ciphers| < U16 && |ciphers| % 2 == 0
    ensures ServerNameIn(extensions) == Body(hello)
  {
    hide Prefixed, ReadNumber, ServerNameIn;
    Widths();
    assert Pow256(1) == 256;
    var rest := hello[4..];
    fixed := rest[..34];
    var r1 := rest[34..];
    assert rest == fixed + r1;
    var r3, r4, r5;
    session, r3 := PrefixedOf(r1, 1);
    ciphers, r4 := PrefixedOf(r3, 2);
    compression, r5 := PrefixedOf(r4, 1);
    extensions, trailing := PrefixedOf(r5, 2);
  }

  lemma {:induction false} MessageOf(hello: seq<byte>) returns (h: Hello, trailing: seq<byte>)
    requires Body(hello).Ok?
    ensures Writable(h) && |hello| >= 4 && hello[0] == 1 && hello[4..] == Content(h) + trailing
    ensures Body(hello) == HostName(h.host)
  {
    hide Body, HostName, NameIn, ServerNames, ServerNameIn, Prefixed, ToBytes;
    var fixed, session, ciphers, compression, extensions;
    fixed, session, ciphers, compression, extensions, trailing := BodyOf(hello);
    var before, body, later := ExtensionsOf(extensions);
    var names, slack := ListOf(body);
    var others, host, laterNames := NamesOf(names);
    h := Hello(fixed, session, ciphers, compression, before, others, host, laterNames, slack, later);
    assert NameList(h) == names && Extensions(h) == extensions;
    Regrouped(fixed, Prefixed(1, session), Prefixed(2, ciphers), Prefixed(1, compression), Prefixed(2, extensions), trailing);
  }

  lemma {:induction false} Regrouped(a: seq<byte>, b: seq<byte>, c: seq<byte>, d: seq<byte>, e: seq<byte>, f: seq<byte>)
    ensures a + (b + (c + (d + (e + f)))) == a + (b + (c + (d + e))) + f
  {
  }

  /** Nothing but a well-formed hello is accepted: whole handshake records within the limit whose payloads hold a
      ClientHello with these fields, and its host is the answer. */
  lemma {:induction false} AcceptedIsWritten(bytes: seq<byte>)
    returns (h: Hello, records: seq<Record>, more: seq<byte>, trailing: seq<byte>)
    requires Parsed(bytes).Ok?
    ensures Writable(h) && InLimit(records) && bytes == Wire(records) + more
    ensures var message := Payloads(records);
            && |message| <= CLIENT_HELLO_LIMIT && |message| >= 4 && |message| >= 4 + BodyLength(message)
            && message[0] == 1 && message[4..] == Content(h) + trailing
    ensures Parsed(bytes) == HostName(h.host)
  {
    hide Body, HostName, Content, Writable, BodyLength, Wire, Payloads;
    records, more := RecordsOf(bytes, []);
    assert [] + Payloads(records) == Payloads(records);
    h, trailing := MessageOf(Payloads(records));
  }

  // ---------- From a route's public name to the route ----------

  /** The host of a hello is accepted as a name exactly when it is the UTF-8 encoding of a text that spells the name. */
  lemma {:induction false} HostIsReadExactly(host: seq<byte>, name: string)
    ensures HostName(host) == Ok(name) <==> Canonical(name) && exists text :: host == EncodeUtf8(text) && Spells(text, name)
  {
    hide DecodeUtf8, EncodeUtf8, Canonical, Spells, NormalizeDnsName;
    var decoded := DecodeUtf8(host);
    if decoded.Some? {
      DecodesExactly(host, decoded.value);
      NormalizesExactly(decoded.value, name);
    }
    if exists text :: host == EncodeUtf8(text) && Spells(text, name) {
      var text :| host == EncodeUtf8(text) && Spells(text, name);
      DecodesExactly(host, text);
      NormalizesExactly(text, name);
    }
  }

  /** A phone that asks for a route's public name, in any spelling, is led to that route. */
  lemma {:induction false} AnySpellingReachesRoute(
      h: Hello, records: seq<Record>, more: seq<byte>, text: string, route: string, domain: string)
    requires ValidRouteId(route) && Canonical(domain) && |route| + 1 + |domain| <= 253
    requires Writable(h) && |Message(h)| <= CLIENT_HELLO_LIMIT
    requires InLimit(records) && Payloads(records) == Message(h)
    requires h.host == EncodeUtf8(text) && Spells(text, route + "." + domain)
    ensures Parsed(Wire(records) + more) == Ok(route + "." + domain)
    ensures RouteFromSni(Parsed(Wire(records) + more).value, domain) == Some(route)
  {
    WrittenHelloIsRead(h, records, more);
    PublicNameRoundTrip(route, domain);
    HostIsReadExactly(h.host, route + "." + domain);
  }

  /** In particular in the bytes of the name itself. */
  lemma {:induction false} PublicNameReachesRoute(h: Hello, records: seq<Record>, more: seq<byte>, route: string, domain: string)
    requires ValidRouteId(route) && Canonical(domain) && |route| + 1 + |domain| <= 253
    requires Writable(h) && |Message(h)| <= CLIENT_HELLO_LIMIT
    requires InLimit(records) && Payloads(records) == Message(h)
    requires h.host == Ascii(route + "." + domain)
    ensures Parsed(Wire(records) + more) == Ok(route + "." + domain)
    ensures RouteFromSni(Parsed(Wire(records) + more).value, domain) == Some(route)
  {
    var name := route + "." + domain;
    PublicNameRoundTrip(route, domain);
    CanonicalChars(name);
    AsciiIsItself(name);
    SpellsItself(name);
    AnySpellingReachesRoute(h, records, more, name, route, domain);
  }
}
