/** Route provisioning in relay/src/lib.rs: the route table, the stored list and the file, under the quotas. */
module Provisioning {
  import opened Basics
  import opened DnsName

  type Ip = string
  type Hash = seq<byte>

  datatype ProvisionedRoute = ProvisionedRoute(
    id: string,
    tokenSha256: string,
    authority: string,
    desktopSpki: string,
    sourceIp: Ip,
    createdAt: nat)

  datatype RouteConfig = RouteConfig(id: string, tokenSha256: string)

  /** identity32 stands for "base64 of exactly 32 bytes"; sound for the settings that are not numbers. */
  datatype Config = Config(
    maxRoutes: nat,
    maxRoutesPerIp: nat,
    maxRoutesPerAuthority: nat,
    sound: bool,
    identity32: string -> bool)

  // ---------- Validators ----------

  function HexDigit(c: char): Option<byte>
  {
    if '0' <= c <= '9' then Some(c as int - '0' as int)
    else if 'a' <= c <= 'f' then Some(c as int - 'a' as int + 10)
    else if 'A' <= c <= 'F' then Some(c as int - 'A' as int + 10)
    else None
  }

  /** u8::from_str_radix on two characters, which also reads a plus sign and one digit. */
  function HexPair(a: char, b: char): Option<byte>
  {
    var low := HexDigit(b);
    if a == '+' then low
    else if HexDigit(a).None? || low.None? then None
    else Some(HexDigit(a).value * 16 + low.value)
  }

  function HexBytes(s: string): Option<seq<byte>>
    requires |s| % 2 == 0
  {
    if s == [] then Some([])
    else
      var rest := HexBytes(s[2..]);
      var first := HexPair(s[0], s[1]);
      if first.None? || rest.None? then None else Some([first.value] + rest.value)
  }

  function DecodeHex32(s: string): (r: Option<Hash>)
  {
    if |s| != 64 then None else HexBytes(s)
  }

  // ---------- State ----------

  datatype Tables = Tables(routes: map<string, Hash>, stored: seq<ProvisionedRoute>, persisted: seq<ProvisionedRoute>)

  function Entries(stored: seq<ProvisionedRoute>): (entries: seq<RouteConfig>)
    ensures |entries| == |stored|
  {
    seq(|stored|, k requires 0 <= k < |stored| => RouteConfig(stored[k].id, stored[k].tokenSha256))
  }

  function HashOf(token: string): Hash
  {
    DecodeHex32(token).Or([])
  }

  /** The table that inserting the entries in order builds. */
  function TableOf(entries: seq<RouteConfig>): map<string, Hash>
  {
    if entries == [] then map[]
    else
      var last := entries[|entries| - 1];
      TableOf(entries[..|entries| - 1])[last.id := HashOf(last.tokenSha256)]
  }

  ghost predicate Distinct(entries: seq<RouteConfig>)
  {
    forall i, j :: 0 <= i < j < |entries| ==> entries[i].id != entries[j].id
  }

  ghost predicate Readable(entries: seq<RouteConfig>)
  {
    forall k :: 0 <= k < |entries| ==> DecodeHex32(entries[k].tokenSha256).Some?
  }

  /** The table is the disjoint union of the static routes and the stored list, the hashes match, and the file holds
      the stored list. */
  ghost predicate InStep(statics: map<string, Hash>, t: Tables)
  {
    && t.persisted == t.stored
    && Distinct(Entries(t.stored)) && Readable(Entries(t.stored))
    && (forall k :: 0 <= k < |t.stored| ==> t.stored[k].id !in statics)
    && t.routes == statics + TableOf(Entries(t.stored))
  }

  function CountIp(stored: seq<ProvisionedRoute>, ip: Ip): nat
  {
    if stored == [] then 0
    else CountIp(stored[..|stored| - 1], ip) + if stored[|stored| - 1].sourceIp == ip then 1 else 0
  }

  function CountAuthority(stored: seq<ProvisionedRoute>, authority: string): nat
  {
    if stored == [] then 0
    else CountAuthority(stored[..|stored| - 1], authority) + if stored[|stored| - 1].authority == authority then 1 else 0
  }

  predicate HasId(stored: seq<ProvisionedRoute>, id: string)
  {
    exists k :: 0 <= k < |stored| && stored[k].id == id
  }

  ghost predicate WithinTotal(config: Config, t: Tables)
  {
    |t.routes| <= config.maxRoutes
  }

  ghost predicate WithinShares(config: Config, t: Tables)
  {
    && (forall ip :: CountIp(t.stored, ip) <= config.maxRoutesPerIp)
    && (forall a :: CountAuthority(t.stored, a) <= config.maxRoutesPerAuthority)
  }

  // ---------- What a request does ----------

  datatype Status =
    | NotFound | SetupLimit | BadRequest | Unauthorized | Conflict | AddressLimit | CapacityReached | AuthorityLimit
    | PersistFailed | Created | NoContent

  /** A request as its checks see it: allowed by the rate limit, well-formed keys and signature, signature valid. */
  datatype Request = Request(record: ProvisionedRoute, allowed: bool, wellFormed: bool, signed: bool)

  function Verdict(config: Config, t: Tables, q: Request): Status
  {
    if !q.allowed then SetupLimit
    else if !ValidRouteId(q.record.id) then BadRequest
    else if DecodeHex32(q.record.tokenSha256).None? then BadRequest
    else if !q.wellFormed then BadRequest
    else if !q.signed then Unauthorized
    else if HasId(t.stored, q.record.id) || q.record.id in t.routes then Conflict
    else if CountIp(t.stored, q.record.sourceIp) >= config.maxRoutesPerIp then AddressLimit
    else if |t.routes| >= config.maxRoutes then CapacityReached
    else if CountAuthority(t.stored, q.record.authority) >= config.maxRoutesPerAuthority then AuthorityLimit
    else Created
  }

  function Persisted(t: Tables, stored: seq<ProvisionedRoute>, routes: map<string, Hash>, writes: bool): Tables
  {
    if writes then Tables(routes, stored, stored) else t
  }

  function Provisioned(config: Config, t: Tables, q: Request, writes: bool): Tables
  {
    if Verdict(config, t, q) != Created then t
    else Persisted(t, t.stored + [q.record], t.routes[q.record.id := HashOf(q.record.tokenSha256)], writes)
  }

  /** The first stored route with the id and the hash, or the length. */
  function Position(stored: seq<ProvisionedRoute>, id: string, actual: Hash): (k: nat)
    ensures k <= |stored|
    ensures k < |stored| ==> stored[k].id == id && DecodeHex32(stored[k].tokenSha256) == Some(actual)
    ensures forall j :: 0 <= j < k ==> !(stored[j].id == id && DecodeHex32(stored[j].tokenSha256) == Some(actual))
  {
    if stored == [] || (stored[0].id == id && DecodeHex32(stored[0].tokenSha256) == Some(actual)) then 0
    else 1 + Position(stored[1..], id, actual)
  }

  function Removed(stored: seq<ProvisionedRoute>, k: nat): seq<ProvisionedRoute>
    requires k < |stored|
  {
    stored[..k] + stored[k + 1..]
  }

  function Deprovisioned(t: Tables, id: string, actual: Hash, writes: bool): Tables
  {
    var k := Position(t.stored, id, actual);
    if k == |t.stored| then t else Persisted(t, Removed(t.stored, k), t.routes - {id}, writes)
  }

  /** The state shared by the handlers. Each method is what its handler does between taking and releasing the store's
      lock; writes says whether the file could be written. */
  class RelayRoutes {
    const config: Config
    var routes: map<string, Hash>
    var stored: seq<ProvisionedRoute>
    var persisted: seq<ProvisionedRoute>

    ghost function State(): Tables
      reads this
    {
      Tables(routes, stored, persisted)
    }

    constructor (config: Config, routes: map<string, Hash>, stored: seq<ProvisionedRoute>)
      ensures this.config == config && State() == Tables(routes, stored, stored)
    {
      this.config, this.routes, this.stored, this.persisted := config, routes, stored, stored;
    }

    method Persist(next: seq<ProvisionedRoute>, writes: bool) returns (ok: bool)
      modifies `persisted
      ensures ok == writes && persisted == if writes then next else old(persisted)
    {
      if writes {
        persisted := next;
      }
      ok := writes;
    }

    method Provision(q: Request, writes: bool) returns (status: Status)
      modifies this
      ensures State() == Provisioned(config, old(State()), q, writes)
      ensures status == if Verdict(config, old(State()), q) == Created && !writes then PersistFailed
                        else Verdict(config, old(State()), q)
    {
      if !q.allowed {
        return SetupLimit;
      }
      if !ValidRouteId(q.record.id) {
        return BadRequest;
      }
      var token := DecodeHex32(q.record.tokenSha256);
      if token.None? || !q.wellFormed {
        return BadRequest;
      }
      if !q.signed {
        return Unauthorized;
      }
      if HasId(stored, q.record.id) || q.record.id in routes {
        return Conflict;
      }
      if CountIp(stored, q.record.sourceIp) >= config.maxRoutesPerIp {
        return AddressLimit;
      }
      if |routes| >= config.maxRoutes {
        return CapacityReached;
      }
      if CountAuthority(stored, q.record.authority) >= config.maxRoutesPerAuthority {
        return AuthorityLimit;
      }
      var next := stored + [q.record];
      var ok := Persist(next, writes);
      if !ok {
        return PersistFailed;
      }
      routes := routes[q.record.id := token.value];
      stored := next;
      return Created;
    }

    method Deprovision(id: string, actual: Hash, writes: bool) returns (status: Status)
      modifies this
      ensures State() == Deprovisioned(old(State()), id, actual, writes)
      ensures status == if Position(old(stored), id, actual) == |old(stored)| then NotFound
                        else if writes then NoContent else PersistFailed
    {
      var position := Position(stored, id, actual);
      if position == |stored| {
        return NotFound;
      }
      var next := Removed(stored, position);
      var ok := Persist(next, writes);
      if !ok {
        return PersistFailed;
      }
      routes := routes - {id};
      stored := next;
      return NoContent;
    }
  }

  // ---------- The table ----------

  ghost predicate Entry(entries: seq<RouteConfig>, k: int, id: string)
  {
    0 <= k < |entries| && entries[k].id == id
  }

  lemma {:induction false} Lookup(entries: seq<RouteConfig>, id: string)
    requires Distinct(entries)
    ensures id in TableOf(entries) ==> exists k :: Entry(entries, k, id)
    ensures forall k :: Entry(entries, k, id) ==> id in TableOf(entries) && TableOf(entries)[id] == HashOf(entries[k].tokenSha256)
  {
    if entries != [] {
      var n := |entries| - 1;
      Lookup(entries[..n], id);
      if id in TableOf(entries) {
        if id == entries[n].id {
          assert Entry(entries, n, id);
        } else {
          var k :| Entry(entries[..n], k, id);
          assert Entry(entries, k, id);
        }
      }
      forall k | Entry(entries, k, id)
        ensures id in TableOf(entries) && TableOf(entries)[id] == HashOf(entries[k].tokenSha256)
      {
        if k < n { assert Entry(entries[..n], k, id); }
      }
    }
  }

  lemma {:induction false} TableSize(entries: seq<RouteConfig>)
    requires Distinct(entries)
    ensures |TableOf(entries)| == |entries|
  {
    if entries != [] {
      var n := |entries| - 1;
      TableSize(entries[..n]);
      Lookup(entries[..n], entries[n].id);
      assert forall k :: !Entry(entries[..n], k, entries[n].id);
    }
  }

  /** A route answers with the hash of its static entry or of its stored record, and nothing else answers. */
  lemma {:induction false} RoutesAreTheUnion(statics: map<string, Hash>, t: Tables, id: string)
    requires InStep(statics, t)
    ensures id in t.routes <==> id in statics || HasId(t.stored, id)
    ensures id in statics ==> !HasId(t.stored, id) && t.routes[id] == statics[id]
    ensures forall k :: 0 <= k < |t.stored| && t.stored[k].id == id ==>
              id in t.routes && DecodeHex32(t.stored[k].tokenSha256) == Some(t.routes[id])
    ensures |t.routes| == |statics| + |t.stored|
  {
    hide TableOf;
    var entries := Entries(t.stored);
    Lookup(entries, id);
    if id in TableOf(entries) {
      var k :| Entry(entries, k, id);
      assert t.stored[k].id == id;
    }
    forall k | 0 <= k < |t.stored| && t.stored[k].id == id
      ensures id in t.routes && DecodeHex32(t.stored[k].tokenSha256) == Some(t.routes[id])
    {
      assert Entry(entries, k, id) && DecodeHex32(entries[k].tokenSha256).Some?;
    }
    TableSize(entries);
    assert forall k :: 0 <= k < |entries| ==> entries[k].id == t.stored[k].id;
    forall x | x in statics ensures x !in TableOf(entries) {
      Lookup(entries, x);
    }
    UnionSize(statics, TableOf(entries));
  }

  lemma {:induction false} UnionSize(a: map<string, Hash>, b: map<string, Hash>)
    requires a.Keys !! b.Keys
    ensures |a + b| == |a| + |b|
  {
    assert (a + b).Keys == a.Keys + b.Keys;
    assert |(a + b).Keys| == |a.Keys| + |b.Keys|;
  }

  // ---------- Which requests are accepted ----------

  /** A lower-case digit of a byte. */
  function HexChar(n: nat): char
    requires n < 16
  {
    if n < 10 then ('0' as int + n) as char else ('a' as int + n - 10) as char
  }

  function HexText(hash: seq<byte>): string
  {
    if hash == [] then "" else [HexChar(hash[0] / 16), HexChar(hash[0] % 16)] + HexText(hash[1..])
  }

  lemma {:induction false} HexReads(hash: seq<byte>)
    ensures |HexText(hash)| == 2 * |hash| && HexBytes(HexText(hash)) == Some(hash)
  {
    if hash != [] {
      HexReads(hash[1..]);
      assert HexText(hash)[2..] == HexText(hash[1..]);
      assert [hash[0]] + hash[1..] == hash;
    }
  }

  /** A hash written in hexadecimal is read back. */
  lemma {:induction false} HashReadsBack(hash: Hash)
    requires |hash| == 32
    ensures DecodeHex32(HexText(hash)) == Some(hash)
  {
    HexReads(hash);
  }

  /** Within the rate limit, well-formed in every part, and signed. */
  ghost predicate Authentic(q: Request)
  {
    q.allowed && q.wellFormed && q.signed && ValidRouteId(q.record.id) && DecodeHex32(q.record.tokenSha256).Some?
  }

  ghost predicate Taken(t: Tables, id: string)
  {
    id in t.routes || exists r :: r in t.stored && r.id == id
  }

  ghost function FromIp(stored: seq<ProvisionedRoute>, ip: Ip): set<nat>
  {
    set k: nat | k < |stored| && stored[k].sourceIp == ip
  }

  ghost function ByAuthority(stored: seq<ProvisionedRoute>, authority: string): set<nat>
  {
    set k: nat | k < |stored| && stored[k].authority == authority
  }

  lemma {:induction false} IpCountIsSize(stored: seq<ProvisionedRoute>, ip: Ip)
    ensures CountIp(stored, ip) == |FromIp(stored, ip)|
  {
    if stored != [] {
      var n := |stored| - 1;
      var init := stored[..n];
      IpCountIsSize(init, ip);
      assert forall k: nat :: k in FromIp(stored, ip) <==> k in FromIp(init, ip) || (k == n && stored[n].sourceIp == ip);
      assert n !in FromIp(init, ip);
      assert FromIp(stored, ip) == if stored[n].sourceIp == ip then FromIp(init, ip) + {n} else FromIp(init, ip);
    } else {
      assert FromIp(stored, ip) == {};
    }
  }

  lemma {:induction false} AuthorityCountIsSize(stored: seq<ProvisionedRoute>, authority: string)
    ensures CountAuthority(stored, authority) == |ByAuthority(stored, authority)|
  {
    if stored != [] {
      var n := |stored| - 1;
      var init := stored[..n];
      AuthorityCountIsSize(init, authority);
      assert forall k: nat :: k in ByAuthority(stored, authority) <==>
          k in ByAuthority(init, authority) || (k == n && stored[n].authority == authority);
      assert n !in ByAuthority(init, authority);
      assert ByAuthority(stored, authority)
          == if stored[n].authority == authority then ByAuthority(init, authority) + {n} else ByAuthority(init, authority);
    } else {
      assert ByAuthority(stored, authority) == {};
    }
  }

  ghost predicate RoomForIp(config: Config, t: Tables, ip: Ip)
  {
    |FromIp(t.stored, ip)| < config.maxRoutesPerIp
  }

  ghost predicate RoomForAuthority(config: Config, t: Tables, authority: string)
  {
    |ByAuthority(t.stored, authority)| < config.maxRoutesPerAuthority
  }

  /** Exactly when a request is accepted, and exactly when it is refused with each of the answers. */
  lemma {:induction false} VerdictExactly(config: Config, t: Tables, q: Request)
    ensures var verdict, r := Verdict(config, t, q), q.record;
            var room := |t.routes| < config.maxRoutes;
            && (verdict == Created <==>
                  Authentic(q) && !Taken(t, r.id)
                  && RoomForIp(config, t, r.sourceIp) && room && RoomForAuthority(config, t, r.authority))
            && (verdict == SetupLimit <==> !q.allowed)
            && (verdict == BadRequest <==>
                  q.allowed && !(q.wellFormed && ValidRouteId(r.id) && DecodeHex32(r.tokenSha256).Some?))
            && (verdict == Unauthorized <==> !q.signed && Authentic(q.(signed := true)))
            && (verdict == Conflict <==> Authentic(q) && Taken(t, r.id))
            && (verdict == AddressLimit <==> Authentic(q) && !Taken(t, r.id) && !RoomForIp(config, t, r.sourceIp))
            && (verdict == CapacityReached <==>
                  Authentic(q) && !Taken(t, r.id) && RoomForIp(config, t, r.sourceIp) && !room)
            && (verdict == AuthorityLimit <==>
                  Authentic(q) && !Taken(t, r.id) && RoomForIp(config, t, r.sourceIp) && room
                  && !RoomForAuthority(config, t, r.authority))
  {
    hide CountIp, CountAuthority, FromIp, ByAuthority, ValidRouteId, DecodeHex32;
    IpCountIsSize(t.stored, q.record.sourceIp);
    AuthorityCountIsSize(t.stored, q.record.authority);
    TakenExactly(t, q.record.id);
  }

  lemma {:induction false} TakenExactly(t: Tables, id: string)
    ensures Taken(t, id) <==> HasId(t.stored, id) || id in t.routes
  {
    if exists r :: r in t.stored && r.id == id {
      var r :| r in t.stored && r.id == id;
      var k :| 0 <= k < |t.stored| && t.stored[k] == r;
    }
  }

  // ---------- What every operation keeps ----------

  ghost predicate Kept(config: Config, statics: map<string, Hash>, before: Tables, after: Tables)
  {
    && InStep(statics, after)
    && (WithinTotal(config, before) ==> WithinTotal(config, after))
    && (WithinShares(config, before) ==> WithinShares(config, after))
  }

  /** A request that is accepted has passed every check. */
  lemma {:induction false} CreatedPassed(config: Config, t: Tables, q: Request)
    requires Verdict(config, t, q) == Created
    ensures !HasId(t.stored, q.record.id) && q.record.id !in t.routes && DecodeHex32(q.record.tokenSha256).Some?
    ensures |t.routes| < config.maxRoutes && CountIp(t.stored, q.record.sourceIp) < config.maxRoutesPerIp
    ensures CountAuthority(t.stored, q.record.authority) < config.maxRoutesPerAuthority
  {
    hide HasId, CountIp, CountAuthority, DecodeHex32, ValidRouteId;
  }

  /** Accepting a request keeps the table, the list and the file in step, and all three quotas. */
  lemma {:induction false} ProvisionKeeps(config: Config, statics: map<string, Hash>, t: Tables, q: Request, writes: bool)
    requires InStep(statics, t)
    ensures Kept(config, statics, t, Provisioned(config, t, q, writes))
  {
    if Verdict(config, t, q) == Created && writes {
      hide InStep, CountIp, CountAuthority, TableOf, DecodeHex32, Verdict, HasId, HashOf;
      CreatedPassed(config, t, q);
      RoutesAreTheUnion(statics, t, q.record.id);
      AddedInStep(statics, t, q.record);
      if WithinShares(config, t) {
        GrownCounts(config, t.stored, q.record);
      }
    }
  }

  lemma {:induction false} AddedInStep(statics: map<string, Hash>, t: Tables, r: ProvisionedRoute)
    requires InStep(statics, t) && r.id !in statics && !HasId(t.stored, r.id) && DecodeHex32(r.tokenSha256).Some?
    ensures var stored := t.stored + [r];
            InStep(statics, Tables(t.routes[r.id := HashOf(r.tokenSha256)], stored, stored))
  {
    hide DecodeHex32, TableOf;
    var entries, e := Entries(t.stored), RouteConfig(r.id, r.tokenSha256);
    assert Entries(t.stored + [r]) == entries + [e];
    AppendedTable(entries, e);
    forall k | 0 <= k < |entries| ensures entries[k].id != e.id {
      assert t.stored[k].id == entries[k].id;
    }
  }

  lemma {:induction false} AppendedTable(entries: seq<RouteConfig>, e: RouteConfig)
    ensures TableOf(entries + [e]) == TableOf(entries)[e.id := HashOf(e.tokenSha256)]
  {
    assert (entries + [e])[..|entries|] == entries;
  }

  lemma {:induction false} GrownCounts(config: Config, stored: seq<ProvisionedRoute>, r: ProvisionedRoute)
    requires forall ip :: CountIp(stored, ip) <= config.maxRoutesPerIp
    requires forall a :: CountAuthority(stored, a) <= config.maxRoutesPerAuthority
    requires CountIp(stored, r.sourceIp) < config.maxRoutesPerIp
    requires CountAuthority(stored, r.authority) < config.maxRoutesPerAuthority
    ensures forall ip :: CountIp(stored + [r], ip) <= config.maxRoutesPerIp
    ensures forall a :: CountAuthority(stored + [r], a) <= config.maxRoutesPerAuthority
  {
    assert (stored + [r])[..|stored|] == stored;
  }

  lemma {:induction false} RemovedCounts(stored: seq<ProvisionedRoute>, k: nat, ip: Ip, authority: string)
    requires k < |stored|
    ensures CountIp(Removed(stored, k), ip) + (if stored[k].sourceIp == ip then 1 else 0) == CountIp(stored, ip)
    ensures CountAuthority(Removed(stored, k), authority) + (if stored[k].authority == authority then 1 else 0)
            == CountAuthority(stored, authority)
    decreases |stored|
  {
    var front := stored[..|stored| - 1];
    if k == |stored| - 1 {
      assert Removed(stored, k) == front;
    } else {
      var rest := Removed(stored, k);
      assert rest[..|rest| - 1] == Removed(front, k);
      RemovedCounts(front, k, ip, authority);
    }
  }

  /** Removing one record of a readable list removes exactly its id from the table. */
  lemma {:induction false} RemovedTable(stored: seq<ProvisionedRoute>, k: nat)
    requires k < |stored| && Distinct(Entries(stored))
    ensures Distinct(Entries(Removed(stored, k)))
    ensures TableOf(Entries(Removed(stored, k))) == TableOf(Entries(stored)) - {stored[k].id}
  {
    hide TableOf, Removed, Entries;
    var entries, fewer := Entries(stored), Entries(Removed(stored, k));
    var a, b := TableOf(fewer), TableOf(entries) - {stored[k].id};
    EntriesOfRemoved(stored, k);
    forall id ensures id in a <==> id in b {
      SameLookup(entries, fewer, k, id);
    }
    forall id | id in a ensures a[id] == b[id] {
      SameLookup(entries, fewer, k, id);
    }
    assert a == b;
  }

  lemma {:induction false} SameLookup(entries: seq<RouteConfig>, fewer: seq<RouteConfig>, k: nat, id: string)
    requires k < |entries| && Distinct(entries) && Distinct(fewer) && |fewer| == |entries| - 1
    requires forall i :: 0 <= i < |fewer| ==> fewer[i] == entries[if i < k then i else i + 1]
    ensures id in TableOf(fewer) <==> id in TableOf(entries) && id != entries[k].id
    ensures id in TableOf(fewer) ==> TableOf(fewer)[id] == TableOf(entries)[id]
  {
    hide TableOf;
    Lookup(entries, id);
    Lookup(fewer, id);
    if id in TableOf(fewer) {
      var i :| Entry(fewer, i, id);
      assert Entry(entries, if i < k then i else i + 1, id);
    }
    if id in TableOf(entries) && id != entries[k].id {
      var i :| Entry(entries, i, id);
      assert Entry(fewer, if i < k then i else i - 1, id);
    }
  }

  lemma {:induction false} EntriesOfRemoved(stored: seq<ProvisionedRoute>, k: nat)
    requires k < |stored|
    ensures var entries, fewer := Entries(stored), Entries(Removed(stored, k));
            && |fewer| == |entries| - 1 && entries[k].id == stored[k].id
            && (forall i :: 0 <= i < |fewer| ==> fewer[i] == entries[if i < k then i else i + 1])
            && (forall i :: 0 <= i < |entries| && i != k ==> entries[i] == fewer[if i < k then i else i - 1])
            && (Distinct(entries) ==> Distinct(fewer)) && (Readable(entries) ==> Readable(fewer))
  {
    var entries, fewer := Entries(stored), Entries(Removed(stored, k));
    forall i, j | 0 <= i < j < |fewer| && Distinct(entries) ensures fewer[i].id != fewer[j].id {
      assert entries[if i < k then i else i + 1].id != entries[if j < k then j else j + 1].id;
    }
    forall i | 0 <= i < |fewer| && Readable(entries) ensures DecodeHex32(fewer[i].tokenSha256).Some? {
      assert fewer[i] == entries[if i < k then i else i + 1];
    }
  }

  lemma {:induction false} DeprovisionKeeps(config: Config, statics: map<string, Hash>, t: Tables, id: string, actual: Hash, writes: bool)
    requires InStep(statics, t)
    ensures Kept(config, statics, t, Deprovisioned(t, id, actual, writes))
  {
    var k := Position(t.stored, id, actual);
    if k < |t.stored| && writes {
      hide InStep, WithinShares, Removed;
      RemovedInStep(statics, t, k);
      RemovedShares(config, t, k, t.routes - {id});
    }
  }

  lemma {:induction false} RemovedShares(config: Config, t: Tables, k: nat, routes: map<string, Hash>)
    requires k < |t.stored|
    ensures var stored := Removed(t.stored, k);
            WithinShares(config, t) ==> WithinShares(config, Tables(routes, stored, stored))
  {
    hide CountIp, CountAuthority, Removed;
    forall ip ensures CountIp(Removed(t.stored, k), ip) <= CountIp(t.stored, ip) {
      RemovedCounts(t.stored, k, ip, "");
    }
    forall a ensures CountAuthority(Removed(t.stored, k), a) <= CountAuthority(t.stored, a) {
      RemovedCounts(t.stored, k, "", a);
    }
  }

  lemma {:induction false} RemovedInStep(statics: map<string, Hash>, t: Tables, k: nat)
    requires InStep(statics, t) && k < |t.stored|
    ensures var stored := Removed(t.stored, k);
            InStep(statics, Tables(t.routes - {t.stored[k].id}, stored, stored))
  {
    hide TableOf, DecodeHex32, Entries;
    var stored := Removed(t.stored, k);
    EntriesOfRemoved(t.stored, k);
    RemovedTable(t.stored, k);
    forall i | 0 <= i < |stored| ensures stored[i].id !in statics {
      assert stored[i] == t.stored[if i < k then i else i + 1];
    }
    assert t.routes - {t.stored[k].id} == statics + TableOf(Entries(stored));
  }

  // ---------- Every run ----------

  datatype Operation = Add(request: Request, writes: bool) | Remove(id: string, actual: Hash, writes: bool)

  function After(config: Config, t: Tables, op: Operation): Tables
  {
    match op
    case Add(q, writes) => Provisioned(config, t, q, writes)
    case Remove(id, actual, writes) => Deprovisioned(t, id, actual, writes)
  }

  function AfterAll(config: Config, t: Tables, ops: seq<Operation>): Tables
    decreases |ops|
  {
    if ops == [] then t else AfterAll(config, After(config, t, ops[0]), ops[1..])
  }

  /** Between any operations, failed writes included: the three records agree, and no quota that held is broken. */
  lemma {:induction false} RunStaysInStep(config: Config, statics: map<string, Hash>, t: Tables, ops: seq<Operation>)
    requires InStep(statics, t)
    ensures Kept(config, statics, t, AfterAll(config, t, ops))
    decreases |ops|
  {
    if ops != [] {
      match ops[0] {
        case Add(q, writes) => ProvisionKeeps(config, statics, t, q, writes);
        case Remove(id, actual, writes) => DeprovisionKeeps(config, statics, t, id, actual, writes);
      }
      RunStaysInStep(config, statics, After(config, t, ops[0]), ops[1..]);
    }
  }

  ghost predicate Names(r: ProvisionedRoute, id: string, actual: Hash)
  {
    r.id == id && DecodeHex32(r.tokenSha256) == Some(actual)
  }

  /** A deprovision takes away the one record with the id and the hash of the token, and its route, or finds none. */
  lemma {:induction false} DeprovisionsExactly(statics: map<string, Hash>, t: Tables, id: string, actual: Hash)
    requires InStep(statics, t)
    ensures var after := Deprovisioned(t, id, actual, true);
            && (after != t <==> exists r :: r in t.stored && Names(r, id, actual))
            && (after != t ==>
                  && id !in after.routes && |after.stored| == |t.stored| - 1
                  && (forall r :: r in after.stored <==> r in t.stored && r.id != id)
                  && (forall other :: other != id ==> (other in after.routes <==> other in t.routes)))
    ensures Deprovisioned(t, id, actual, false) == t
  {
    hide DecodeHex32, TableOf;
    var k := Position(t.stored, id, actual);
    if exists r :: r in t.stored && Names(r, id, actual) {
      var r :| r in t.stored && Names(r, id, actual);
      var i :| 0 <= i < |t.stored| && t.stored[i] == r;
    }
    if k < |t.stored| {
      assert t.stored[k] in t.stored && Names(t.stored[k], id, actual);
      RemovedIsRest(t.stored, k);
    }
  }

  lemma {:induction false} RemovedIsRest(stored: seq<ProvisionedRoute>, k: nat)
    requires k < |stored| && Distinct(Entries(stored))
    ensures forall r :: r in Removed(stored, k) <==> r in stored && r.id != stored[k].id
  {
    var rest := Removed(stored, k);
    assert forall j :: 0 <= j < |rest| ==> rest[j] == stored[if j < k then j else j + 1];
    assert forall j :: 0 <= j < |stored| ==> Entries(stored)[j].id == stored[j].id;
    forall r | r in stored && r.id != stored[k].id
      ensures r in rest
    {
      var j :| 0 <= j < |stored| && stored[j] == r;
      assert rest[if j < k then j else j - 1] == r;
    }
  }

  ghost predicate AddedBy(ops: seq<Operation>, r: ProvisionedRoute)
  {
    exists op :: op in ops && op.Add? && op.request.record == r && Authentic(op.request)
  }

  /** After any operations every stored record was there at first or was asked for by an authentic request: none is added
      unsigned, malformed or past the rate limit. */
  lemma {:induction false} OnlyAuthenticAreAdded(config: Config, t: Tables, ops: seq<Operation>, r: ProvisionedRoute)
    requires r in AfterAll(config, t, ops).stored
    ensures r in t.stored || AddedBy(ops, r)
    decreases |ops|
  {
    hide Authentic, After;
    if ops != [] {
      var op, next := ops[0], After(config, t, ops[0]);
      OnlyAuthenticAreAdded(config, next, ops[1..], r);
      if r in next.stored {
        OneIsAdded(config, t, op, r);
      } else {
        var later :| later in ops[1..] && later.Add? && later.request.record == r && Authentic(later.request);
        assert later in ops;
      }
    }
  }

  lemma {:induction false} OneIsAdded(config: Config, t: Tables, op: Operation, r: ProvisionedRoute)
    requires r in After(config, t, op).stored
    ensures r in t.stored || (op.Add? && op.request.record == r && Authentic(op.request))
  {
    hide Verdict, Authentic;
    if op.Add? {
      VerdictExactly(config, t, op.request);
    }
  }

  /** Deprovisioning with the right token undoes a provision. */
  lemma {:induction false} DeprovisionUndoesProvision(config: Config, statics: map<string, Hash>, t: Tables, q: Request)
    requires InStep(statics, t) && Verdict(config, t, q) == Created
    ensures var added := Provisioned(config, t, q, true);
            added != t && Deprovisioned(added, q.record.id, HashOf(q.record.tokenSha256), true) == t
  {
    hide Verdict, CountIp, CountAuthority, TableOf, DecodeHex32;
    CreatedPassed(config, t, q);
    var added := Provisioned(config, t, q, true);
    var k := Position(added.stored, q.record.id, HashOf(q.record.tokenSha256));
    RoutesAreTheUnion(statics, t, q.record.id);
    assert added.stored[|t.stored|] == q.record;
    assert forall j :: 0 <= j < |t.stored| ==> added.stored[j].id != q.record.id;
    assert k == |t.stored|;
    assert Removed(added.stored, k) == t.stored;
    assert added.routes - {q.record.id} == t.routes;
  }

  // ---------- Start-up ----------

  datatype LoadError = BadStaticRoute | BadSettings | BadStoredRoute | TooManyRoutes

  predicate SettingsSound(config: Config)
  {
    config.sound && config.maxRoutes != 0
    && config.maxRoutesPerIp != 0 && config.maxRoutesPerIp <= config.maxRoutes
    && config.maxRoutesPerAuthority != 0 && config.maxRoutesPerAuthority <= config.maxRoutes
  }

  predicate RecordSound(config: Config, r: ProvisionedRoute)
  {
    && ValidRouteId(r.id) && DecodeHex32(r.tokenSha256).Some?
    && config.identity32(r.authority) && config.identity32(r.desktopSpki)
  }

  ghost predicate StaticsSound(entries: seq<RouteConfig>)
  {
    Distinct(entries) && Readable(entries) && forall k :: 0 <= k < |entries| ==> ValidRouteId(entries[k].id)
  }

  ghost predicate LoadedTo(config: Config, statics: map<string, Hash>, file: seq<ProvisionedRoute>, i: nat)
  {
    && i <= |file| && Distinct(Entries(file)[..i])
    && forall k :: 0 <= k < i ==> RecordSound(config, file[k]) && file[k].id !in statics
  }

  ghost predicate FileSound(config: Config, statics: map<string, Hash>, file: seq<ProvisionedRoute>)
  {
    LoadedTo(config, statics, file, |file|)
  }

  /** The next entry extends the table; it is new to it exactly when the list stays distinct. */
  lemma {:induction false} NextEntry(entries: seq<RouteConfig>, i: nat)
    requires i < |entries| && Distinct(entries[..i])
    ensures TableOf(entries[..i + 1]) == TableOf(entries[..i])[entries[i].id := HashOf(entries[i].tokenSha256)]
    ensures entries[i].id !in TableOf(entries[..i]) ==> Distinct(entries[..i + 1])
    ensures entries[i].id in TableOf(entries[..i]) ==> !Distinct(entries)
  {
    assert entries[..i + 1][..i] == entries[..i];
    Lookup(entries[..i], entries[i].id);
    if entries[i].id in TableOf(entries[..i]) {
      var k :| Entry(entries[..i], k, entries[i].id);
      assert entries[k].id == entries[i].id;
    } else {
      forall k | 0 <= k < i ensures entries[k].id != entries[i].id {
        assert !Entry(entries[..i], k, entries[i].id);
      }
    }
  }

  lemma {:induction false} EmptyTable()
    ensures TableOf([]) == map[]
  {
  }

  method LoadStatics(entries: seq<RouteConfig>) returns (r: Result<map<string, Hash>, LoadError>)
    ensures r.Ok? <==> StaticsSound(entries)
    ensures r.Ok? ==> r.value == TableOf(entries)
    ensures r.Err? ==> r.error == BadStaticRoute
  {
    hide TableOf, DecodeHex32, ValidRouteId, HashOf;
    var routes: map<string, Hash> := map[];
    var i := 0;
    EmptyTable();
    assert entries[..0] == [];
    while i < |entries|
      invariant i <= |entries| && routes == TableOf(entries[..i]) && StaticsSound(entries[..i])
    {
      NextEntry(entries, i);
      var e := entries[i];
      if !ValidRouteId(e.id) || e.id in routes || DecodeHex32(e.tokenSha256).None? {
        return Err(BadStaticRoute);
      }
      routes := routes[e.id := HashOf(e.tokenSha256)];
      i := i + 1;
    }
    assert entries[..|entries|] == entries;
    return Ok(routes);
  }

  lemma {:induction false} NextRecord(config: Config, statics: map<string, Hash>, file: seq<ProvisionedRoute>, i: nat)
    requires i < |file| && LoadedTo(config, statics, file, i)
    ensures var r, all := file[i], Entries(file);
            var table := statics + TableOf(all[..i]);
            if RecordSound(config, r) && r.id !in table then
              LoadedTo(config, statics, file, i + 1)
              && statics + TableOf(all[..i + 1]) == table[r.id := HashOf(r.tokenSha256)]
            else !FileSound(config, statics, file)
  {
    hide TableOf, RecordSound;
    NextEntry(Entries(file), i);
    assert Entries(file)[..|file|] == Entries(file);
  }

  method LoadStored(config: Config, statics: map<string, Hash>, file: seq<ProvisionedRoute>)
    returns (r: Result<map<string, Hash>, LoadError>)
    ensures r.Ok? <==> FileSound(config, statics, file)
    ensures r.Ok? ==> r.value == statics + TableOf(Entries(file))
    ensures r.Err? ==> r.error == BadStoredRoute
  {
    var routes := statics;
    var i := 0;
    assert TableOf(Entries(file)[..0]) == map[];
    while i < |file|
      invariant LoadedTo(config, statics, file, i)
      invariant routes == statics + TableOf(Entries(file)[..i])
    {
      hide *;
      NextRecord(config, statics, file, i);
      var e := file[i];
      if !RecordSound(config, e) || e.id in routes {
        return Err(BadStoredRoute);
      }
      routes := routes[e.id := HashOf(e.tokenSha256)];
      i := i + 1;
    }
    assert Entries(file)[..|file|] == Entries(file);
    return Ok(routes);
  }

  /** Start-up succeeds exactly on sound input within the total limit, and then everything is in step. */
  method FromConfig(config: Config, entries: seq<RouteConfig>, file: seq<ProvisionedRoute>)
    returns (r: Result<RelayRoutes, LoadError>)
    ensures r.Ok? <==> StaticsSound(entries) && SettingsSound(config) && FileSound(config, TableOf(entries), file)
                       && |entries| + |file| <= config.maxRoutes
    ensures r.Ok? ==> fresh(r.value) && r.value.config == config && r.value.stored == file
                      && InStep(TableOf(entries), r.value.State()) && WithinTotal(config, r.value.State())
  {
    var statics := LoadStatics(entries);
    if statics.Err? {
      return Err(statics.error);
    }
    if !SettingsSound(config) {
      return Err(BadSettings);
    }
    var routes := LoadStored(config, statics.value, file);
    if routes.Err? {
      return Err(routes.error);
    }
    SoundIsInStep(config, entries, file);
    if |routes.value| > config.maxRoutes {
      return Err(TooManyRoutes);
    }
    var state := new RelayRoutes(config, routes.value, file);
    return Ok(state);
  }

  lemma {:induction false} SoundIsInStep(config: Config, entries: seq<RouteConfig>, file: seq<ProvisionedRoute>)
    requires StaticsSound(entries) && FileSound(config, TableOf(entries), file)
    ensures var t := Tables(TableOf(entries) + TableOf(Entries(file)), file, file);
            InStep(TableOf(entries), t) && |t.routes| == |entries| + |file|
  {
    var t := Tables(TableOf(entries) + TableOf(Entries(file)), file, file);
    assert Entries(file)[..|file|] == Entries(file);
    forall k | 0 <= k < |file| ensures DecodeHex32(Entries(file)[k].tokenSha256).Some? {
      assert RecordSound(config, file[k]);
    }
    TableSize(entries);
    RoutesAreTheUnion(TableOf(entries), t, "");
  }
}
