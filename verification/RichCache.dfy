/** The incremental transcript cache (src-tauri/src/detail.rs, cached_rich_file_events). What a complete line decodes to
    and which texts are real prompts are parameters: they are defined elsewhere in the repository. */
module RichCache {
  import opened Basics
  import opened RichBound

  /** Decode maps a complete line to its turns; None is a line that is not UTF-8, where the reading stops. */
  datatype Reader = Reader(decode: seq<byte> -> Option<seq<Turn>>, prompt: seq<byte> -> bool)

  const NEWLINE: byte := 10
  const ENTRY_LIMIT: nat := 8

  // ---------- Parsing the complete lines ----------

  /** The index just past the next newline, if there is one. */
  function LineEnd(bytes: seq<byte>, from: nat): (r: Option<nat>)
    requires from <= |bytes|
    ensures r.Some? ==> from < r.value <= |bytes| && bytes[r.value - 1] == NEWLINE && NEWLINE !in bytes[from..r.value - 1]
    ensures r.None? ==> NEWLINE !in bytes[from..]
    decreases |bytes| - from
  {
    if from == |bytes| then None
    else if bytes[from] == NEWLINE then Some(from + 1)
    else
      LineEnd(bytes, from + 1)
  }

  datatype Parsed = Parsed(end: nat, turns: seq<Turn>)

  function Parse(bytes: seq<byte>, from: nat, reader: Reader): (r: Parsed)
    requires from <= |bytes|
    ensures from <= r.end <= |bytes|
    decreases |bytes| - from
  {
    var next := LineEnd(bytes, from);
    if next.None? || reader.decode(bytes[from..next.value]).None? then Parsed(from, [])
    else
      var rest := Parse(bytes, next.value, reader);
      Parsed(rest.end, reader.decode(bytes[from..next.value]).value + rest.turns)
  }

  /** The turns of the complete lines of bytes. */
  function TurnsOf(bytes: seq<byte>, reader: Reader): seq<Turn>
  {
    Parse(bytes, 0, reader).turns
  }

  /** Parsing stops only at an incomplete last line or at one that is not text. */
  lemma {:induction false} ParseStops(bytes: seq<byte>, from: nat, reader: Reader)
    requires from <= |bytes|
    ensures var end := Parse(bytes, from, reader).end;
            && (end > from ==> bytes[end - 1] == NEWLINE)
            && (NEWLINE !in bytes[end..]
                || exists next :: end < next <= |bytes| && LineEnd(bytes, end) == Some(next) && reader.decode(bytes[end..next]).None?)
    decreases |bytes| - from
  {
    var next := LineEnd(bytes, from);
    if next.Some? && reader.decode(bytes[from..next.value]).Some? {
      ParseStops(bytes, next.value, reader);
    }
  }

  lemma {:induction false} LineEndInPrefix(bytes: seq<byte>, from: nat, n: nat)
    requires from <= n <= |bytes|
    ensures LineEnd(bytes[..n], from)
            == if LineEnd(bytes, from).Some? && LineEnd(bytes, from).value <= n then LineEnd(bytes, from) else None
    decreases n - from
  {
    if from < n && bytes[from] != NEWLINE {
      LineEndInPrefix(bytes, from + 1, n);
    }
  }

  /** A parse with one line read. */
  lemma {:induction false} ParseLine(bytes: seq<byte>, from: nat, next: nat, reader: Reader)
    requires from <= |bytes| && LineEnd(bytes, from) == Some(next)
    ensures Parse(bytes, from, reader)
            == match reader.decode(bytes[from..next])
               case None => Parsed(from, [])
               case Some(turns) => Parsed(Parse(bytes, next, reader).end, turns + Parse(bytes, next, reader).turns)
  {
  }

  lemma {:induction false} ParseNone(bytes: seq<byte>, from: nat, reader: Reader)
    requires from <= |bytes| && LineEnd(bytes, from) == None
    ensures Parse(bytes, from, reader) == Parsed(from, [])
  {
  }

  /** Where a parse of a prefix stopped, a parse of the whole can resume. */
  lemma {:induction false} ParseResumes(bytes: seq<byte>, from: nat, n: nat, reader: Reader)
    requires from <= n <= |bytes|
    ensures var head := Parse(bytes[..n], from, reader);
            var rest := Parse(bytes, head.end, reader);
            Parse(bytes, from, reader) == Parsed(rest.end, head.turns + rest.turns)
    decreases n - from
  {
    hide LineEnd, Parse;
    LineEndInPrefix(bytes, from, n);
    var next := LineEnd(bytes, from);
    var whole := Parse(bytes, from, reader);
    assert [] + whole.turns == whole.turns;
    if next.Some? && next.value <= n {
      var line := bytes[from..next.value];
      assert bytes[..n][from..next.value] == line;
      ParseLine(bytes, from, next.value, reader);
      ParseLine(bytes[..n], from, next.value, reader);
      if reader.decode(line).Some? {
        ParseResumes(bytes, next.value, n, reader);
        var head := Parse(bytes[..n], next.value, reader);
        var here, rest := reader.decode(line).value, Parse(bytes, head.end, reader).turns;
        assert here + (head.turns + rest) == (here + head.turns) + rest;
      }
    } else {
      ParseNone(bytes[..n], from, reader);
    }
  }

  /** A parse stops at the same place whatever is cut off behind that place. */
  lemma {:induction false} ParseOfItsPrefix(bytes: seq<byte>, from: nat, reader: Reader)
    requires from <= |bytes|
    ensures var end := Parse(bytes, from, reader).end;
            Parse(bytes[..end], from, reader) == Parse(bytes, from, reader)
    decreases |bytes| - from
  {
    var end := Parse(bytes, from, reader).end;
    var next := LineEnd(bytes, from);
    LineEndInPrefix(bytes, from, end);
    if next.Some? && reader.decode(bytes[from..next.value]).Some? {
      assert bytes[..end][from..next.value] == bytes[from..next.value];
      ParseOfItsPrefix(bytes, next.value, reader);
    }
  }

  // ---------- The cache ----------

  datatype Entry = Entry(path: string, identity: int, offset: nat, turns: seq<Turn>, lastUsed: nat)

  datatype Cache = Cache(entries: map<string, Entry>, clock: nat)

  /** A file as opened: its path, what the file system knows it by, and its bytes. */
  datatype File = File(path: string, identity: int, bytes: seq<byte>)

  ghost predicate Sound(cache: Cache)
  {
    && |cache.entries| <= ENTRY_LIMIT
    && (forall id :: id in cache.entries ==> cache.entries[id].lastUsed <= cache.clock)
    && Distinct(cache.entries)
  }

  ghost predicate Distinct(entries: map<string, Entry>)
  {
    forall id, other :: id in entries && other in entries && id != other ==> entries[id].lastUsed != entries[other].lastUsed
  }

  predicate Stale(entries: map<string, Entry>, session: string, file: File)
  {
    session !in entries || entries[session].path != file.path || entries[session].identity != file.identity
    || |file.bytes| < entries[session].offset
  }

  /** The entries without the least recently used. */
  ghost function WithoutOldest(entries: map<string, Entry>): map<string, Entry>
  {
    map id | id in entries && (exists other :: other in entries && entries[other].lastUsed < entries[id].lastUsed)
      :: entries[id]
  }

  ghost function Kept(entries: map<string, Entry>, session: string): map<string, Entry>
  {
    if session !in entries && |entries| >= ENTRY_LIMIT then WithoutOldest(entries) else entries
  }

  /** The entry a refresh reads on from. */
  ghost function Resumed(entries: map<string, Entry>, session: string, file: File, now: nat): Entry
  {
    if Stale(entries, session, file) then Entry(file.path, file.identity, 0, [], now)
    else entries[session].(lastUsed := now)
  }

  ghost function ReadOn(entry: Entry, bytes: seq<byte>, reader: Reader): Entry
    requires entry.offset <= |bytes|
  {
    var more := Parse(bytes, entry.offset, reader);
    entry.(offset := more.end, turns := Bound(entry.turns + more.turns, reader.prompt))
  }

  /** One refresh of a session's transcript; seeks says that moving to the offset worked. */
  ghost function Refreshed(cache: Cache, session: string, file: File, seeks: bool, reader: Reader): Cache
  {
    var now := cache.clock + 1;
    var entry := Resumed(cache.entries, session, file, now);
    var entry' := if seeks then ReadOn(entry, file.bytes, reader) else entry;
    Cache(Kept(cache.entries, session)[session := entry'], now)
  }

  lemma {:induction false} WithoutOldestIs(entries: map<string, Entry>, oldest: string)
    requires Distinct(entries)
    requires oldest in entries && forall id :: id in entries ==> entries[oldest].lastUsed <= entries[id].lastUsed
    ensures WithoutOldest(entries) == entries - {oldest}
  {
    forall id | id in entries
      ensures id in WithoutOldest(entries) <==> id != oldest
    {
      assert id != oldest ==> entries[oldest].lastUsed < entries[id].lastUsed;
    }
  }

  lemma {:induction false} KeptIsSmaller(cache: Cache, session: string)
    requires Sound(cache)
    ensures var kept := Kept(cache.entries, session);
            && (forall id :: id in kept ==> id in cache.entries && kept[id] == cache.entries[id])
            && (session in kept <==> session in cache.entries)
            && (session !in kept ==> |kept| < ENTRY_LIMIT)
            && |kept| <= ENTRY_LIMIT
  {
    var entries := cache.entries;
    if session !in entries && |entries| >= ENTRY_LIMIT {
      var oldest := OldestExists(entries);
      WithoutOldestIs(entries, oldest);
      assert (entries - {oldest}).Keys == entries.Keys - {oldest};
    }
  }

  lemma {:induction false} OldestExists(entries: map<string, Entry>) returns (oldest: string)
    requires |entries| > 0
    ensures oldest in entries && forall id :: id in entries ==> entries[oldest].lastUsed <= entries[id].lastUsed
  {
    oldest := LeastOf(entries, entries.Keys);
  }

  lemma {:induction false} LeastOf(entries: map<string, Entry>, keys: set<string>) returns (oldest: string)
    requires keys != {} && keys <= entries.Keys
    ensures oldest in keys && forall id :: id in keys ==> entries[oldest].lastUsed <= entries[id].lastUsed
  {
    var one :| one in keys;
    oldest := one;
    if keys != {one} {
      assert keys - {one} == {} ==> keys == {one};
      var other := LeastOf(entries, keys - {one});
      if entries[other].lastUsed < entries[one].lastUsed { oldest := other; }
    }
  }

  /** A refresh keeps at most eight entries, each with its own moment of last use, and touches no other session's. */
  lemma {:induction false} RefreshKeepsSound(cache: Cache, session: string, file: File, seeks: bool, reader: Reader)
    requires Sound(cache)
    ensures var after := Refreshed(cache, session, file, seeks, reader);
            && Sound(after)
            && (forall id :: id in after.entries && id != session ==>
                  id in cache.entries && after.entries[id] == cache.entries[id])
  {
    hide ReadOn, Parse, Kept, Resumed, Sound;
    KeptIsSmaller(cache, session);
    ReadOnKeepsStamp(cache, session, file, reader);
    var after := Refreshed(cache, session, file, seeks, reader);
    AddedIsSound(cache, Kept(cache.entries, session), session, after.entries[session]);
  }

  lemma {:induction false} AddedIsSound(cache: Cache, kept: map<string, Entry>, session: string, entry: Entry)
    requires Sound(cache) && entry.lastUsed == cache.clock + 1 && |kept| <= ENTRY_LIMIT
    requires forall id :: id in kept ==> id in cache.entries && kept[id] == cache.entries[id]
    requires session !in kept ==> |kept| < ENTRY_LIMIT
    ensures Sound(Cache(kept[session := entry], cache.clock + 1))
  {
    var after := kept[session := entry];
    assert Distinct(after) by {
      forall id, other | id in after && other in after && id != other
        ensures after[id].lastUsed != after[other].lastUsed
      {
        assert id != session ==> after[id].lastUsed <= cache.clock;
        assert other != session ==> after[other].lastUsed <= cache.clock;
      }
    }
  }

  /** What a refresh evicts was used least recently, and only a ninth session evicts anything. */
  lemma {:induction false} OnlyTheOldestIsEvicted(cache: Cache, session: string, file: File, seeks: bool, reader: Reader, id: string)
    requires Sound(cache) && id in cache.entries && id !in Refreshed(cache, session, file, seeks, reader).entries
    ensures session !in cache.entries && |cache.entries| == ENTRY_LIMIT
    ensures forall other :: other in cache.entries && other != id ==>
              cache.entries[id].lastUsed < cache.entries[other].lastUsed
              && other in Refreshed(cache, session, file, seeks, reader).entries
  {
    hide ReadOn, Parse, Resumed;
  }

  lemma {:induction false} ReadOnKeepsStamp(cache: Cache, session: string, file: File, reader: Reader)
    ensures Resumed(cache.entries, session, file, cache.clock + 1).lastUsed == cache.clock + 1
    ensures ReadOn(Resumed(cache.entries, session, file, cache.clock + 1), file.bytes, reader).lastUsed == cache.clock + 1
  {
  }

  class RichFileCache {
    var entries: map<string, Entry>
    var clock: nat
    const reader: Reader

    ghost function State(): Cache
      reads this
    {
      Cache(entries, clock)
    }

    constructor (reader: Reader)
      ensures this.reader == reader && State() == Cache(map[], 0) && Sound(State())
    {
      this.reader := reader;
      entries := map[];
      clock := 0;
    }

    method RemoveOldest()
      requires Sound(State()) && |entries| > 0
      modifies this
      ensures entries == WithoutOldest(old(entries)) && clock == old(clock)
    {
      hide WithoutOldest;
      assert Distinct(entries);
      var remaining := entries.Keys;
      var oldest :| oldest in remaining;
      remaining := remaining - {oldest};
      while remaining != {}
        invariant remaining <= entries.Keys && oldest in entries.Keys - remaining
        invariant forall id :: id in entries.Keys - remaining ==> entries[oldest].lastUsed <= entries[id].lastUsed
        decreases |remaining|
      {
        var id :| id in remaining;
        if entries[id].lastUsed < entries[oldest].lastUsed {
          oldest := id;
        }
        remaining := remaining - {id};
      }
      WithoutOldestIs(entries, oldest);
      entries := entries - {oldest};
    }

    /** The entry to read on from: a new one for a new session, path or file or a shorter one, evicting the oldest. */
    method Claim(session: string, file: File)
      requires Sound(State())
      modifies this
      ensures clock == old(clock) + 1
      ensures entries == Kept(old(entries), session)[session := Resumed(old(entries), session, file, clock)]
    {
      clock := clock + 1;
      if Stale(entries, session, file) {
        if session !in entries && |entries| >= ENTRY_LIMIT {
          RemoveOldest();
        }
        entries := entries[session := Entry(file.path, file.identity, 0, [], clock)];
      } else {
        entries := entries[session := entries[session].(lastUsed := clock)];
      }
    }

    /** The turns of a session's transcript; None is a file that cannot be opened. */
    method Events(session: string, held: Option<File>, seeks: bool) returns (turns: seq<Turn>)
      requires Sound(State())
      modifies this
      ensures Sound(State())
      ensures held.None? ==> turns == [] && State() == old(State())
      ensures held.Some? ==> State() == Refreshed(old(State()), session, held.value, seeks, reader)
      ensures held.Some? ==> session in entries && turns == entries[session].turns
    {
      hide Bound, Kept, Resumed, Parse, Sound;
      if held.None? {
        return [];
      }
      var file := held.value;
      ghost var before := State();
      RefreshKeepsSound(before, session, file, seeks, reader);
      Claim(session, file);
      var entry := entries[session];
      if seeks {
        entry := ReadLines(entry, file.bytes);
        var bounded := BoundTurns(entry.turns, reader.prompt);
        entry := entry.(turns := bounded);
        entries := entries[session := entry];
      }
      turns := entry.turns;
      assert State().entries == Refreshed(before, session, file, seeks, reader).entries;
    }

    /** The loop over the complete lines from the entry's offset on. */
    method ReadLines(entry: Entry, bytes: seq<byte>) returns (r: Entry)
      requires entry.offset <= |bytes|
      ensures var more := Parse(bytes, entry.offset, reader);
              r == entry.(offset := more.end, turns := entry.turns + more.turns)
    {
      hide LineEnd;
      r := entry;
      assert entry.turns + Parse(bytes, r.offset, reader).turns == r.turns + Parse(bytes, r.offset, reader).turns;
      while true
        invariant entry.offset <= r.offset <= |bytes|
        invariant r == entry.(offset := r.offset, turns := r.turns)
        invariant Parse(bytes, r.offset, reader).end == Parse(bytes, entry.offset, reader).end
        invariant r.turns + Parse(bytes, r.offset, reader).turns == entry.turns + Parse(bytes, entry.offset, reader).turns
        decreases |bytes| - r.offset
      {
        var next := LineEnd(bytes, r.offset);
        if next.None? {
          break;
        }
        var events := reader.decode(bytes[r.offset..next.value]);
        if events.None? {
          break;
        }
        r := r.(offset := next.value, turns := r.turns + events.value);
      }
    }
  }

  // ---------- Every run, whatever is written ----------

  /** Contents by identity, which a write may replace by any others, and what each session's entry has been read from. */
  datatype World = World(contents: map<int, seq<byte>>, names: map<string, int>, cache: Cache, read: map<string, seq<byte>>)

  datatype Step =
    | Write(identity: int, bytes: seq<byte>)
    | Name(path: string, identity: int)
    | Refresh(session: string, path: string, seeks: bool)

  function Content(w: World, identity: int): seq<byte>
  {
    if identity in w.contents then w.contents[identity] else []
  }

  function ReadBy(w: World, session: string): seq<byte>
  {
    if session in w.read then w.read[session] else []
  }

  function Opened(w: World, path: string): File
    requires path in w.names
  {
    File(path, w.names[path], Content(w, w.names[path]))
  }

  /** The complete lines from an index on. */
  function Taken(bytes: seq<byte>, from: nat, reader: Reader): seq<byte>
    requires from <= |bytes|
  {
    bytes[from..Parse(bytes, from, reader).end]
  }

  ghost function ReadAfter(w: World, session: string, file: File, seeks: bool, reader: Reader): seq<byte>
  {
    var before := if Stale(w.cache.entries, session, file) then [] else ReadBy(w, session);
    if seeks then before + Taken(file.bytes, Resumed(w.cache.entries, session, file, w.cache.clock + 1).offset, reader)
    else before
  }

  ghost function Next(w: World, step: Step, reader: Reader): World
  {
    match step
    case Write(identity, bytes) => w.(contents := w.contents[identity := bytes])
    case Name(path, identity) => w.(names := w.names[path := identity])
    case Refresh(session, path, seeks) =>
      if path !in w.names then w
      else
        var file := Opened(w, path);
        w.(cache := Refreshed(w.cache, session, file, seeks, reader),
           read := w.read[session := ReadAfter(w, session, file, seeks, reader)])
  }

  ghost function Run(steps: seq<Step>, reader: Reader): World
  {
    if steps == [] then World(map[], map[], Cache(map[], 0), map[])
    else Next(Run(steps[..|steps| - 1], reader), steps[|steps| - 1], reader)
  }

  /** An entry holds a full parse of what it was read from, bounded once. */
  ghost predicate Holds(entry: Entry, read: seq<byte>, reader: Reader)
  {
    && entry.offset == |read|
    && Parse(read, 0, reader).end == |read|
    && entry.turns == Bound(TurnsOf(read, reader), reader.prompt)
  }

  ghost predicate AllHold(w: World, reader: Reader)
  {
    Sound(w.cache) && forall id :: id in w.cache.entries ==> Holds(w.cache.entries[id], ReadBy(w, id), reader)
  }

  ghost predicate Anchors(w: World, reader: Reader)
  {
    forall id :: id in w.cache.entries ==> Anchored(TurnsOf(ReadBy(w, id), reader), reader.prompt)
  }

  /** Wherever a reading ends, a real prompt is there before the text first overflows. */
  ghost predicate AnchoredRun(steps: seq<Step>, reader: Reader)
  {
    (steps == [] || AnchoredRun(steps[..|steps| - 1], reader)) && Anchors(Run(steps, reader), reader)
  }

  lemma {:induction false} LineEndAfter(before: seq<byte>, bytes: seq<byte>, from: nat)
    requires from <= |bytes|
    ensures LineEnd(before + bytes, |before| + from)
            == if LineEnd(bytes, from).Some? then Some(|before| + LineEnd(bytes, from).value) else None
    decreases |bytes| - from
  {
    if from < |bytes| && bytes[from] != NEWLINE {
      LineEndAfter(before, bytes, from + 1);
    }
  }

  /** What stands before the lines does not matter. */
  lemma {:induction false} ParseAfter(before: seq<byte>, bytes: seq<byte>, from: nat, reader: Reader)
    requires from <= |bytes|
    ensures Parse(before + bytes, |before| + from, reader)
            == Parsed(|before| + Parse(bytes, from, reader).end, Parse(bytes, from, reader).turns)
    decreases |bytes| - from
  {
    hide LineEnd, Parse;
    LineEndAfter(before, bytes, from);
    var all, next := before + bytes, LineEnd(bytes, from);
    if next.Some? {
      assert all[|before| + from..|before| + next.value] == bytes[from..next.value];
      ParseLine(bytes, from, next.value, reader);
      ParseLine(all, |before| + from, |before| + next.value, reader);
      ParseAfter(before, bytes, next.value, reader);
    } else {
      ParseNone(bytes, from, reader);
      ParseNone(all, |before| + from, reader);
    }
  }

  /** The lines taken, behind the lines read before, parse to the turns of both. */
  lemma {:induction false} TakenParses(read: seq<byte>, bytes: seq<byte>, from: nat, reader: Reader)
    requires from <= |bytes| && Parse(read, 0, reader).end == |read|
    ensures var after := read + Taken(bytes, from, reader);
            Parse(after, 0, reader) == Parsed(|after|, TurnsOf(read, reader) + Parse(bytes, from, reader).turns)
  {
    hide LineEnd, Parse;
    var end, more := Parse(bytes, from, reader).end, Taken(bytes, from, reader);
    ParseOfItsPrefix(bytes, from, reader);
    assert bytes[..end] == bytes[..from] + more;
    ParseAfter(bytes[..from], more, 0, reader);
    ParseAfter(read, more, 0, reader);
    assert (read + more)[..|read|] == read;
    ParseResumes(read + more, 0, |read|, reader);
  }

  lemma {:induction false} ReadOnHolds(entry: Entry, read: seq<byte>, bytes: seq<byte>, reader: Reader)
    requires Holds(entry, read, reader) && entry.offset <= |bytes| && Anchored(TurnsOf(read, reader), reader.prompt)
    ensures Holds(ReadOn(entry, bytes, reader), read + Taken(bytes, entry.offset, reader), reader)
  {
    hide Bound, Anchored, Parse;
    TakenParses(read, bytes, entry.offset, reader);
    BoundIsIncremental(TurnsOf(read, reader), Parse(bytes, entry.offset, reader).turns, reader.prompt);
  }

  lemma {:induction false} NothingReadHolds(path: string, identity: int, now: nat, reader: Reader)
    ensures Holds(Entry(path, identity, 0, [], now), [], reader) && Anchored(TurnsOf([], reader), reader.prompt)
  {
    assert Parse([], 0, reader) == Parsed(0, []);
  }

  lemma {:induction false} RefreshHolds(w: World, session: string, path: string, seeks: bool, reader: Reader)
    requires AllHold(w, reader) && Anchors(w, reader) && path in w.names
    ensures AllHold(Next(w, Refresh(session, path, seeks), reader), reader)
  {
    hide Holds, ReadOn, Taken, Parse, TurnsOf, Anchored, Kept, Sound;
    var file, now := Opened(w, path), w.cache.clock + 1;
    RefreshKeepsSound(w.cache, session, file, seeks, reader);
    NothingReadHolds(path, file.identity, now, reader);
    var entry := Resumed(w.cache.entries, session, file, now);
    var read := if Stale(w.cache.entries, session, file) then [] else ReadBy(w, session);
    StampHolds(w, session, now, reader);
    ReadOnHolds(entry, read, file.bytes, reader);
  }

  lemma {:induction false} StampHolds(w: World, session: string, now: nat, reader: Reader)
    requires AllHold(w, reader)
    ensures session in w.cache.entries ==> Holds(w.cache.entries[session].(lastUsed := now), ReadBy(w, session), reader)
  {
  }

  /** After any writes, renames, refreshes and evictions, every entry is a full parse, bounded once, of what it was read from. */
  lemma {:induction false} RunHolds(steps: seq<Step>, reader: Reader)
    requires AnchoredRun(steps, reader)
    ensures AllHold(Run(steps, reader), reader)
  {
    hide Holds, Refreshed, ReadAfter, Anchors;
    if steps != [] {
      var before, step := Run(steps[..|steps| - 1], reader), steps[|steps| - 1];
      assert AnchoredRun(steps[..|steps| - 1], reader);
      RunHolds(steps[..|steps| - 1], reader);
      if step.Refresh? && step.path in before.names {
        RefreshHolds(before, step.session, step.path, step.seeks, reader);
      }
    }
  }

  // ---------- When a refresh serves the whole file ----------

  ghost function Served(steps: seq<Step>, session: string, path: string, reader: Reader): seq<Turn>
    requires path in Run(steps, reader).names
  {
    Next(Run(steps, reader), Refresh(session, path, true), reader).cache.entries[session].turns
  }

  /** What an empty cache would serve. */
  ghost function FullParse(steps: seq<Step>, path: string, reader: Reader): seq<Turn>
    requires path in Run(steps, reader).names
  {
    Bound(TurnsOf(Opened(Run(steps, reader), path).bytes, reader), reader.prompt)
  }

  lemma {:induction false} AnEmptyCacheServes(session: string, file: File, reader: Reader)
    ensures Refreshed(Cache(map[], 0), session, file, true, reader).entries[session].turns
            == Bound(TurnsOf(file.bytes, reader), reader.prompt)
    ensures Total(Bound(TurnsOf(file.bytes, reader), reader.prompt)) <= TEXT_LIMIT
  {
    hide Bound, Parse;
    BoundFits(TurnsOf(file.bytes, reader), reader.prompt);
    assert [] + TurnsOf(file.bytes, reader) == TurnsOf(file.bytes, reader);
  }

  /** The entry starts over, or the file still begins with what the entry was read from. */
  ghost predicate Continues(w: World, session: string, path: string)
    requires path in w.names
  {
    Stale(w.cache.entries, session, Opened(w, path)) || ReadBy(w, session) <= Opened(w, path).bytes
  }

  /** What the entry is read from then is the file up to where a full parse stops. */
  lemma {:induction false} ReadAfterIsTheFile(w: World, session: string, path: string, reader: Reader)
    requires AllHold(w, reader) && path in w.names && Continues(w, session, path)
    ensures var bytes := Opened(w, path).bytes;
            var read := ReadAfter(w, session, Opened(w, path), true, reader);
            read == bytes[..Parse(bytes, 0, reader).end] && TurnsOf(read, reader) == TurnsOf(bytes, reader)
  {
    hide Parse, Bound;
    var file := Opened(w, path);
    ParseOfItsPrefix(file.bytes, 0, reader);
    if !Stale(w.cache.entries, session, file) {
      var offset := w.cache.entries[session].offset;
      assert file.bytes[..offset] == ReadBy(w, session);
      ParseResumes(file.bytes, 0, offset, reader);
    }
  }

  /** After any run, a refresh of a file that still begins with what was read serves what an empty cache would. */
  lemma {:induction false} ServedIsAFullParse(steps: seq<Step>, session: string, path: string, reader: Reader)
    requires AnchoredRun(steps, reader) && path in Run(steps, reader).names && Continues(Run(steps, reader), session, path)
    ensures Served(steps, session, path, reader) == FullParse(steps, path, reader)
  {
    hide Parse, Bound, TurnsOf, Anchored, ReadAfter, Refreshed, Sound;
    var w := Run(steps, reader);
    RunHolds(steps, reader);
    RefreshHolds(w, session, path, true, reader);
    ReadAfterIsTheFile(w, session, path, reader);
    RefreshedNames(w, session, path, reader);
  }

  lemma {:induction false} RefreshedNames(w: World, session: string, path: string, reader: Reader)
    requires path in w.names
    ensures session in Next(w, Refresh(session, path, true), reader).cache.entries
  {
    hide ReadOn, Kept, Resumed;
  }

  // ---------- A reader that shows every byte ----------

  function Chars(bytes: seq<byte>): string
  {
    seq(|bytes|, i requires 0 <= i < |bytes| => bytes[i] as char)
  }

  /** A reader of the same lines whose turns repeat them, in a role, so that no text is ever bounded. */
  function Echo(text: seq<byte> -> bool): Reader
  {
    Reader(line => if text(line) then Some([Turn(Chars(line), [])]) else None, said => false)
  }

  function Said(turns: seq<Turn>): string
  {
    if turns == [] then [] else turns[0].role + Said(turns[1..])
  }

  lemma {:induction false} CharsSplit(bytes: seq<byte>, from: nat, mid: nat, end: nat)
    requires from <= mid <= end <= |bytes|
    ensures Chars(bytes[from..end]) == Chars(bytes[from..mid]) + Chars(bytes[mid..end])
  {
    assert bytes[from..end] == bytes[from..mid] + bytes[mid..end];
  }

  lemma {:induction false} SaidFirst(turn: Turn, rest: seq<Turn>)
    ensures Said([turn] + rest) == turn.role + Said(rest) && Total([turn] + rest) == |turn.text| + Total(rest)
  {
    TotalAppend([turn], rest);
    assert [turn][..0] == [];
    assert ([turn] + rest)[1..] == rest;
  }

  lemma {:induction false} EchoSays(bytes: seq<byte>, from: nat, text: seq<byte> -> bool)
    requires from <= |bytes|
    ensures var parsed := Parse(bytes, from, Echo(text));
            Said(parsed.turns) == Chars(bytes[from..parsed.end]) && Total(parsed.turns) == 0
    decreases |bytes| - from
  {
    hide LineEnd, Parse, Chars, Total;
    var next := LineEnd(bytes, from);
    NothingSaid(bytes, from);
    if next.None? {
      ParseNone(bytes, from, Echo(text));
    } else {
      var line := bytes[from..next.value];
      ParseLine(bytes, from, next.value, Echo(text));
      if text(line) {
        EchoSays(bytes, next.value, text);
        var rest := Parse(bytes, next.value, Echo(text));
        SaidFirst(Turn(Chars(line), []), rest.turns);
        CharsSplit(bytes, from, next.value, rest.end);
      }
    }
  }

  lemma {:induction false} NothingSaid(bytes: seq<byte>, from: nat)
    requires from <= |bytes|
    ensures Said([]) == Chars(bytes[from..from]) && Total([]) == 0
  {
  }

  lemma {:induction false} EchoIsAnchored(steps: seq<Step>, text: seq<byte> -> bool)
    ensures AnchoredRun(steps, Echo(text))
  {
    hide Run, Parse;
    if steps != [] { EchoIsAnchored(steps[..|steps| - 1], text); }
    var w := Run(steps, Echo(text));
    forall id | id in w.cache.entries
      ensures Anchored(TurnsOf(ReadBy(w, id), Echo(text)), Echo(text).prompt)
    {
      EchoSays(ReadBy(w, id), 0, text);
    }
  }

  lemma {:induction false} CharsShowBytes(a: seq<byte>, b: seq<byte>)
    requires Chars(a) == Chars(b)
    ensures a == b
  {
    assert |Chars(a)| == |Chars(b)|;
    forall i | 0 <= i < |a|
      ensures a[i] == b[i]
    {
      assert Chars(a)[i] == Chars(b)[i];
    }
  }

  /** With that reader, after any run whatever was written, the full parse is served exactly when the file still begins
      with what was read. */
  lemma {:induction false} EchoIsServedExactlyWhen(steps: seq<Step>, text: seq<byte> -> bool, session: string, path: string)
    requires path in Run(steps, Echo(text)).names
    ensures Served(steps, session, path, Echo(text)) == FullParse(steps, path, Echo(text))
            <==> Continues(Run(steps, Echo(text)), session, path)
  {
    hide Run, Parse, Bound, TurnsOf, Anchored, Refreshed, Sound, AnchoredRun;
    var reader := Echo(text);
    var w := Run(steps, reader);
    EchoIsAnchored(steps, text);
    if Continues(w, session, path) {
      ServedIsAFullParse(steps, session, path, reader);
    }
    if Served(steps, session, path, reader) == FullParse(steps, path, reader) {
      var file := Opened(w, path);
      var read, end := ReadAfter(w, session, file, true, reader), Parse(file.bytes, 0, reader).end;
      EchoHolds(steps, text, session, path);
      EchoSaysAll(read, text);
      EchoSaysAll(file.bytes, text);
      assert read[..|read|] == read;
      CharsShowBytes(read, file.bytes[..end]);
      assert Stale(w.cache.entries, session, file) || ReadBy(w, session) <= read;
    }
  }

  lemma {:induction false} EchoSaysAll(bytes: seq<byte>, text: seq<byte> -> bool)
    ensures Said(Bound(TurnsOf(bytes, Echo(text)), Echo(text).prompt)) == Chars(bytes[..Parse(bytes, 0, Echo(text)).end])
  {
    hide Parse;
    EchoSays(bytes, 0, text);
  }

  lemma {:induction false} EchoHolds(steps: seq<Step>, text: seq<byte> -> bool, session: string, path: string)
    requires path in Run(steps, Echo(text)).names
    ensures var read := ReadAfter(Run(steps, Echo(text)), session, Opened(Run(steps, Echo(text)), path), true, Echo(text));
            && Served(steps, session, path, Echo(text)) == Bound(TurnsOf(read, Echo(text)), Echo(text).prompt)
            && Parse(read, 0, Echo(text)).end == |read|
  {
    hide Parse, Bound, TurnsOf, Anchored, Refreshed, Sound, ReadAfter;
    var w := Run(steps, Echo(text));
    EchoIsAnchored(steps, text);
    RunHolds(steps, Echo(text));
    RefreshHolds(w, session, path, true, Echo(text));
    RefreshedNames(w, session, path, Echo(text));
  }

  // ---------- Every reader of the same lines ----------

  /** The reader takes exactly these lines for text. */
  ghost predicate Reads(reader: Reader, text: seq<byte> -> bool)
  {
    forall line :: reader.decode(line).Some? <==> text(line)
  }

  lemma {:induction false} SameEnds(bytes: seq<byte>, from: nat, text: seq<byte> -> bool, reader: Reader, other: Reader)
    requires from <= |bytes| && Reads(reader, text) && Reads(other, text)
    ensures Parse(bytes, from, reader).end == Parse(bytes, from, other).end
    decreases |bytes| - from
  {
    var next := LineEnd(bytes, from);
    if next.Some? { SameEnds(bytes, next.value, text, reader, other); }
  }

  function Shape(entry: Entry): Entry
  {
    entry.(turns := [])
  }

  ghost predicate SameShapes(a: map<string, Entry>, b: map<string, Entry>)
  {
    a.Keys == b.Keys && forall id :: id in a ==> Shape(a[id]) == Shape(b[id])
  }

  /** Worlds that differ only in turns. */
  ghost predicate Alike(w: World, v: World)
  {
    && w.contents == v.contents && w.names == v.names && w.read == v.read && w.cache.clock == v.cache.clock
    && SameShapes(w.cache.entries, v.cache.entries)
  }

  lemma {:induction false} KeptAlike(a: map<string, Entry>, b: map<string, Entry>, session: string)
    requires SameShapes(a, b)
    ensures SameShapes(Kept(a, session), Kept(b, session))
  {
    assert |a| == |a.Keys| && |b| == |b.Keys|;
    forall id | id in a
      ensures Shape(a[id]) == Shape(b[id]) && (id in WithoutOldest(a) <==> id in WithoutOldest(b))
    {
      forall other | other in a
        ensures a[other].lastUsed < a[id].lastUsed <==> b[other].lastUsed < b[id].lastUsed
      {
        assert Shape(a[other]) == Shape(b[other]);
      }
    }
  }

  lemma {:induction false} ResumedAlike(a: map<string, Entry>, b: map<string, Entry>, session: string, file: File, now: nat)
    requires SameShapes(a, b)
    ensures Stale(a, session, file) <==> Stale(b, session, file)
    ensures Shape(Resumed(a, session, file, now)) == Shape(Resumed(b, session, file, now))
    ensures Resumed(a, session, file, now).offset <= |file.bytes|
  {
    assert session in a ==> Shape(a[session]) == Shape(b[session]);
  }

  lemma {:induction false} ReadOnAlike(e: Entry, f: Entry, bytes: seq<byte>, text: seq<byte> -> bool, reader: Reader, other: Reader)
    requires Shape(e) == Shape(f) && e.offset <= |bytes| && Reads(reader, text) && Reads(other, text)
    ensures f.offset == e.offset && Shape(ReadOn(e, bytes, reader)) == Shape(ReadOn(f, bytes, other))
    ensures Taken(bytes, e.offset, reader) == Taken(bytes, f.offset, other)
  {
    hide Parse, Bound, Reads;
    assert e.offset == Shape(e).offset == Shape(f).offset == f.offset;
    SameEnds(bytes, e.offset, text, reader, other);
  }

  lemma {:induction false} PutAlike(a: map<string, Entry>, b: map<string, Entry>, session: string, e: Entry, f: Entry)
    requires SameShapes(a, b) && Shape(e) == Shape(f)
    ensures SameShapes(a[session := e], b[session := f])
  {
    hide Shape;
  }

  lemma {:induction false} RefreshAlike(w: World, v: World, refresh: Step, text: seq<byte> -> bool, reader: Reader, other: Reader)
    requires Alike(w, v) && refresh.Refresh? && refresh.path in w.names && Reads(reader, text) && Reads(other, text)
    ensures Alike(Next(w, refresh, reader), Next(v, refresh, other))
  {
    hide Kept, Parse, Bound, Reads, Stale, Resumed, ReadOn, Taken, Shape, SameShapes;
    var file, now := Opened(w, refresh.path), w.cache.clock + 1;
    KeptAlike(w.cache.entries, v.cache.entries, refresh.session);
    ResumedAlike(w.cache.entries, v.cache.entries, refresh.session, file, now);
    var e, f := Resumed(w.cache.entries, refresh.session, file, now), Resumed(v.cache.entries, refresh.session, file, now);
    ReadOnAlike(e, f, file.bytes, text, reader, other);
    PutAlike(Kept(w.cache.entries, refresh.session), Kept(v.cache.entries, refresh.session), refresh.session,
             if refresh.seeks then ReadOn(e, file.bytes, reader) else e, if refresh.seeks then ReadOn(f, file.bytes, other) else f);
  }

  lemma {:induction false} RunsAlike(steps: seq<Step>, text: seq<byte> -> bool, reader: Reader, other: Reader)
    requires Reads(reader, text) && Reads(other, text)
    ensures Alike(Run(steps, reader), Run(steps, other))
  {
    hide Refreshed, ReadAfter, Reads;
    if steps != [] {
      var step := steps[|steps| - 1];
      var w, v := Run(steps[..|steps| - 1], reader), Run(steps[..|steps| - 1], other);
      RunsAlike(steps[..|steps| - 1], text, reader, other);
      if step.Refresh? && step.path in w.names { RefreshAlike(w, v, step, text, reader, other); }
    }
  }

  ghost predicate ServesTheFile(steps: seq<Step>, session: string, path: string, reader: Reader)
  {
    path in Run(steps, reader).names && Served(steps, session, path, reader) == FullParse(steps, path, reader)
  }

  ghost predicate ServesEveryReader(steps: seq<Step>, session: string, path: string, text: seq<byte> -> bool)
  {
    forall reader :: Reads(reader, text) && AnchoredRun(steps, reader) ==> ServesTheFile(steps, session, path, reader)
  }

  /** After any run whatever was written, a refresh serves every reader of these lines a full parse exactly when the entry
      starts over or the file still begins with what the entry was read from. */
  lemma {:induction false} TransparentExactlyWhen(steps: seq<Step>, text: seq<byte> -> bool, session: string, path: string)
    requires path in Run(steps, Echo(text)).names
    ensures ServesEveryReader(steps, session, path, text) <==> Continues(Run(steps, Echo(text)), session, path)
  {
    hide Run, Served, FullParse, AnchoredRun, Reads;
    var w := Run(steps, Echo(text));
    EchoReads(text);
    EchoIsAnchored(steps, text);
    EchoIsServedExactlyWhen(steps, text, session, path);
    if Continues(w, session, path) {
      forall reader | Reads(reader, text) && AnchoredRun(steps, reader)
        ensures ServesTheFile(steps, session, path, reader)
      {
        RunsAlike(steps, text, Echo(text), reader);
        ContinuesAlike(w, Run(steps, reader), session, path);
        ServedIsAFullParse(steps, session, path, reader);
      }
    }
  }

  lemma {:induction false} EchoReads(text: seq<byte> -> bool)
    ensures Reads(Echo(text), text)
  {
  }

  lemma {:induction false} ContinuesAlike(w: World, v: World, session: string, path: string)
    requires Alike(w, v) && path in w.names
    ensures Continues(w, session, path) <==> Continues(v, session, path)
  {
    assert session in w.cache.entries ==> Shape(w.cache.entries[session]) == Shape(v.cache.entries[session]);
  }

  // ---------- Which writes are safe ----------

  /** A write cuts the file below what each of its entries was read from, or leaves all of that as it was. */
  ghost predicate Agrees(w: World, identity: int, bytes: seq<byte>)
  {
    forall id :: id in w.cache.entries && w.cache.entries[id].identity == identity ==>
      KeepsWhatWasRead(Content(w, identity), bytes, w.cache.entries[id].offset)
  }

  predicate KeepsWhatWasRead(was: seq<byte>, bytes: seq<byte>, offset: nat)
  {
    |bytes| < offset || (offset <= |was| && bytes[..offset] == was[..offset])
  }

  /** Wherever a file is cut, a real prompt is there before the text first overflows. */
  ghost predicate AlwaysAnchored(bytes: seq<byte>, reader: Reader)
  {
    forall n :: 0 <= n <= |bytes| ==> Anchored(TurnsOf(bytes[..n], reader), reader.prompt)
  }

  ghost predicate CarefulStep(w: World, step: Step, reader: Reader)
  {
    match step
    case Write(identity, bytes) => Agrees(w, identity, bytes)
    case Name(_, _) => true
    case Refresh(_, path, _) => path in w.names ==> AlwaysAnchored(Opened(w, path).bytes, reader)
  }

  ghost predicate Careful(steps: seq<Step>, reader: Reader)
  {
    steps == []
    || (Careful(steps[..|steps| - 1], reader) && CarefulStep(Run(steps[..|steps| - 1], reader), steps[|steps| - 1], reader))
  }

  /** Every entry's file was cut below what was read of it, or begins with that. */
  ghost predicate Follows(w: World)
  {
    forall id :: id in w.cache.entries ==> FollowsOne(w.cache.entries[id], ReadBy(w, id), Content(w, w.cache.entries[id].identity))
  }

  predicate FollowsOne(entry: Entry, read: seq<byte>, bytes: seq<byte>)
  {
    |bytes| < entry.offset || read <= bytes
  }

  lemma {:induction false} WriteFollows(w: World, identity: int, bytes: seq<byte>, reader: Reader)
    requires AllHold(w, reader) && Follows(w) && Agrees(w, identity, bytes)
    ensures Follows(Next(w, Write(identity, bytes), reader))
  {
    hide Parse, Bound, TurnsOf, KeepsWhatWasRead, FollowsOne, Sound;
    forall id | id in w.cache.entries && w.cache.entries[id].identity == identity
      ensures FollowsOne(w.cache.entries[id], ReadBy(w, id), bytes)
    {
      var entry := w.cache.entries[id];
      assert FollowsOne(entry, ReadBy(w, id), Content(w, identity)) && Holds(entry, ReadBy(w, id), reader);
      assert KeepsWhatWasRead(Content(w, identity), bytes, entry.offset);
      StillFollows(entry, ReadBy(w, id), Content(w, identity), bytes);
    }
  }

  lemma {:induction false} StillFollows(entry: Entry, read: seq<byte>, was: seq<byte>, bytes: seq<byte>)
    requires entry.offset == |read| && FollowsOne(entry, read, was) && KeepsWhatWasRead(was, bytes, entry.offset)
    ensures FollowsOne(entry, read, bytes)
  {
    assert |bytes| >= entry.offset ==> was[..entry.offset] == read;
  }

  lemma {:induction false} FollowingContinues(w: World, session: string, path: string)
    requires Follows(w) && path in w.names
    ensures Continues(w, session, path)
  {
    assert session in w.cache.entries ==>
        FollowsOne(w.cache.entries[session], ReadBy(w, session), Content(w, w.cache.entries[session].identity));
  }

  lemma {:induction false} RefreshFollows(w: World, session: string, path: string, seeks: bool, reader: Reader)
    requires AllHold(w, reader) && Anchors(w, reader) && Follows(w) && path in w.names
    requires AlwaysAnchored(Opened(w, path).bytes, reader)
    ensures Follows(Next(w, Refresh(session, path, seeks), reader)) && Anchors(Next(w, Refresh(session, path, seeks), reader), reader)
  {
    hide Parse, Bound, TurnsOf, Anchored, Sound, Kept;
    var file := Opened(w, path);
    var after := Next(w, Refresh(session, path, seeks), reader);
    RefreshKeepsSound(w.cache, session, file, seeks, reader);
    FollowingContinues(w, session, path);
    NothingReadHolds(path, file.identity, 0, reader);
    if seeks {
      ReadAfterIsTheFile(w, session, path, reader);
    }
    assert Anchored(TurnsOf(ReadBy(after, session), reader), reader.prompt);
    assert FollowsOne(after.cache.entries[session], ReadBy(after, session), file.bytes);
  }

  /** In a run whose writes are careful and whose files are anchored, nothing goes stale unseen. */
  lemma {:induction false} CarefulRunFollows(steps: seq<Step>, reader: Reader)
    requires Careful(steps, reader)
    ensures AnchoredRun(steps, reader) && AllHold(Run(steps, reader), reader) && Follows(Run(steps, reader))
  {
    hide Holds, Refreshed, ReadAfter, Anchored, AlwaysAnchored, FollowsOne, TurnsOf;
    if steps != [] {
      var before, step := Run(steps[..|steps| - 1], reader), steps[|steps| - 1];
      CarefulRunFollows(steps[..|steps| - 1], reader);
      match step
      case Write(identity, bytes) => WriteFollows(before, identity, bytes, reader);
      case Name(_, _) =>
      case Refresh(session, path, seeks) =>
        if path in before.names { RefreshFollows(before, session, path, seeks, reader); }
      assert Anchors(Run(steps, reader), reader);
    }
    RunHolds(steps, reader);
  }

  /** So every refresh of such a run serves what an empty cache would: the cache cannot be seen. */
  lemma {:induction false} CarefulRunIsTransparent(steps: seq<Step>, session: string, path: string, reader: Reader)
    requires Careful(steps, reader) && path in Run(steps, reader).names
    ensures ServesTheFile(steps, session, path, reader)
  {
    hide Run, Served, FullParse, AnchoredRun, AllHold;
    CarefulRunFollows(steps, reader);
    FollowingContinues(Run(steps, reader), session, path);
    ServedIsAFullParse(steps, session, path, reader);
  }

  /** Exactly so: after a careful run and one more write of a cached file, every reader is served a full parse if and only
      if the write cuts the file below what was read or leaves that as it was. A file cut and grown again is stale. */
  lemma {:induction false} RewriteIsSafeExactlyWhen(
      steps: seq<Step>, text: seq<byte> -> bool, session: string, path: string, bytes: seq<byte>)
    requires Careful(steps, Echo(text)) && path in Run(steps, Echo(text)).names
    requires !Stale(Run(steps, Echo(text)).cache.entries, session, Opened(Run(steps, Echo(text)), path))
    ensures var w := Run(steps, Echo(text));
            ServesEveryReader(steps + [Write(w.names[path], bytes)], session, path, text)
            <==> KeepsWhatWasRead(Opened(w, path).bytes, bytes, w.cache.entries[session].offset)
  {
    hide Served, FullParse, AnchoredRun, ServesEveryReader, Careful, Parse, Bound, TurnsOf, Refreshed, ReadAfter, Sound, Reads;
    var w := Run(steps, Echo(text));
    var longer := steps + [Write(w.names[path], bytes)];
    assert longer[..|longer| - 1] == steps;
    CarefulRunFollows(steps, Echo(text));
    assert FollowsOne(w.cache.entries[session], ReadBy(w, session), Opened(w, path).bytes);
    assert Holds(w.cache.entries[session], ReadBy(w, session), Echo(text));
    TransparentExactlyWhen(longer, text, session, path);
  }

  // ---------- Files that only grow ----------

  ghost predicate GrowingStep(w: World, step: Step, reader: Reader)
  {
    if step.Write? then Content(w, step.identity) <= step.bytes else CarefulStep(w, step, reader)
  }

  ghost predicate Growing(steps: seq<Step>, reader: Reader)
  {
    steps == []
    || (Growing(steps[..|steps| - 1], reader) && GrowingStep(Run(steps[..|steps| - 1], reader), steps[|steps| - 1], reader))
  }

  ghost predicate Within(w: World)
  {
    forall id :: id in w.cache.entries ==> w.cache.entries[id].offset <= |Content(w, w.cache.entries[id].identity)|
  }

  /** Appending, and replacing a file by a new one under its name, are always careful. */
  lemma {:induction false} GrowthIsCareful(steps: seq<Step>, reader: Reader)
    requires Growing(steps, reader)
    ensures Careful(steps, reader) && Within(Run(steps, reader))
  {
    hide AlwaysAnchored, Refreshed, ReadAfter;
    if steps != [] {
      var before, step := Run(steps[..|steps| - 1], reader), steps[|steps| - 1];
      GrowthIsCareful(steps[..|steps| - 1], reader);
      if step.Refresh? && step.path in before.names {
        CarefulRunFollows(steps[..|steps| - 1], reader);
        RefreshStaysWithin(before, step.session, step.path, step.seeks, reader);
      }
    }
  }

  lemma {:induction false} RefreshStaysWithin(w: World, session: string, path: string, seeks: bool, reader: Reader)
    requires Sound(w.cache) && Within(w) && path in w.names
    ensures Within(Next(w, Refresh(session, path, seeks), reader))
  {
    hide Parse, Bound, Sound, Kept, ReadAfter;
    RefreshKeepsSound(w.cache, session, Opened(w, path), seeks, reader);
  }

  /** For example: a file read once, cut and grown again with another line of the same length. */
  lemma {:induction false} ARegrownFileIsStale(text: seq<byte> -> bool)
    requires text([97, 10])
    ensures var steps := [Write(1, [97, 10]), Name("p", 1), Refresh("s", "p", true)];
            var w := Run(steps, Echo(text));
            && Careful(steps, Echo(text)) && "p" in w.names && !Stale(w.cache.entries, "s", Opened(w, "p"))
            && w.cache.entries["s"].offset == 2
            && !ServesEveryReader(steps + [Write(1, [98, 10])], "s", "p", text)
  {
    hide Parse, Bound, AlwaysAnchored, Refreshed, ReadAfter, ServesEveryReader;
    var bytes: seq<byte> := [97, 10];
    var reader := Echo(text);
    var file := File("p", 1, bytes);
    var none: seq<Step> := [];
    var a, b := none + [Write(1, bytes)], none + [Write(1, bytes)] + [Name("p", 1)];
    var steps := b + [Refresh("s", "p", true)];
    assert steps == [Write(1, [97, 10]), Name("p", 1), Refresh("s", "p", true)];
    RunSnoc(none, Write(1, bytes), reader);
    RunSnoc(a, Name("p", 1), reader);
    RunSnoc(b, Refresh("s", "p", true), reader);
    CarefulSnoc(none, Write(1, bytes), reader);
    CarefulSnoc(a, Name("p", 1), reader);
    CarefulSnoc(b, Refresh("s", "p", true), reader);
    EchoIsAlwaysAnchored(bytes, text);
    OneLineRead(file, text);
    var other: seq<byte> := [98, 10];
    assert other[..2][0] == 98 && bytes[..2][0] == 97;
    RewriteIsSafeExactlyWhen(steps, text, "s", "p", other);
  }

  lemma {:induction false} CarefulSnoc(steps: seq<Step>, step: Step, reader: Reader)
    ensures Careful(steps + [step], reader) <==> Careful(steps, reader) && CarefulStep(Run(steps, reader), step, reader)
    ensures Careful([], reader)
  {
    assert (steps + [step])[..|steps|] == steps;
  }

  lemma {:induction false} RunSnoc(steps: seq<Step>, step: Step, reader: Reader)
    ensures Run(steps + [step], reader) == Next(Run(steps, reader), step, reader)
    ensures Run([], reader) == World(map[], map[], Cache(map[], 0), map[])
  {
    assert (steps + [step])[..|steps|] == steps;
  }

  lemma {:induction false} EchoIsAlwaysAnchored(bytes: seq<byte>, text: seq<byte> -> bool)
    ensures AlwaysAnchored(bytes, Echo(text))
  {
    forall n | 0 <= n <= |bytes|
      ensures Anchored(TurnsOf(bytes[..n], Echo(text)), Echo(text).prompt)
    {
      EchoSays(bytes[..n], 0, text);
    }
  }

  lemma {:induction false} OneLineRead(file: File, text: seq<byte> -> bool)
    requires file.bytes == [97, 10] && text([97, 10])
    ensures var entries := Refreshed(Cache(map[], 0), "s", file, true, Echo(text)).entries;
            "s" in entries && entries["s"].offset == 2 && entries["s"].path == file.path && entries["s"].identity == file.identity
  {
    assert LineEnd(file.bytes, 1) == Some(2);
    assert LineEnd(file.bytes, 0) == Some(2);
    assert file.bytes[0..2] == file.bytes;
    ParseLine(file.bytes, 0, 2, Echo(text));
    assert Parse(file.bytes, 2, Echo(text)).end == 2;
  }

  // ---------- When growing is safe ----------

  /** What a session is served once its file has grown since a refresh. */
  ghost predicate ServedGrown(steps: seq<Step>, session: string, path: string, reader: Reader, more: seq<byte>)
    requires path in Run(steps, reader).names
  {
    var file := Opened(Run(steps, reader), path);
    ServesTheFile(steps + [Refresh(session, path, true)] + [Write(file.identity, file.bytes + more)], session, path, reader)
  }

  /** A line with one turn that no bound can hold. */
  predicate EndlessLine(line: seq<byte>, reader: Reader)
  {
    LineEnd(line, 0) == Some(|line|) && reader.decode(line) == Some([Endless()])
  }

  lemma {:induction false} RefreshedEntry(w: World, session: string, path: string, reader: Reader)
    requires path in w.names
    ensures var w' := Next(w, Refresh(session, path, true), reader);
            && session in w'.cache.entries && w'.cache.entries[session].path == path
            && w'.cache.entries[session].identity == w.names[path]
            && ReadBy(w', session) == ReadAfter(w, session, Opened(w, path), true, reader)
  {
    hide Parse, Bound, Kept, ReadAfter;
  }

  /** A refresh of an anchored file keeps every entry anchored. */
  lemma {:induction false} RefreshAnchors(w: World, session: string, path: string, reader: Reader)
    requires AllHold(w, reader) && Anchors(w, reader) && path in w.names && Continues(w, session, path)
    requires Anchored(TurnsOf(Opened(w, path).bytes, reader), reader.prompt)
    ensures Anchors(Next(w, Refresh(session, path, true), reader), reader)
  {
    hide Parse, Bound, TurnsOf, Anchored, Sound, Kept, Continues;
    RefreshKeepsSound(w.cache, session, Opened(w, path), true, reader);
    RefreshedEntry(w, session, path, reader);
    ReadAfterIsTheFile(w, session, path, reader);
  }

  lemma {:induction false} AnchoredGrowthIsServed(steps: seq<Step>, session: string, path: string, reader: Reader, more: seq<byte>)
    requires AnchoredRun(steps, reader) && path in Run(steps, reader).names && Continues(Run(steps, reader), session, path)
    requires Anchored(TurnsOf(Opened(Run(steps, reader), path).bytes, reader), reader.prompt)
    ensures ServedGrown(steps, session, path, reader, more)
  {
    hide Parse, Bound, TurnsOf, Anchored, Anchors, AllHold, Refreshed, ReadAfter, Served, FullParse, Run;
    var w := Run(steps, reader);
    var file := Opened(w, path);
    var once := steps + [Refresh(session, path, true)];
    var grown := once + [Write(file.identity, file.bytes + more)];
    RunSnoc(steps, Refresh(session, path, true), reader);
    RunSnoc(once, Write(file.identity, file.bytes + more), reader);
    RunHolds(steps, reader);
    RefreshAnchors(w, session, path, reader);
    WriteAnchors(Run(once, reader), file.identity, file.bytes + more, reader);
    assert once[..|steps|] == steps && grown[..|once|] == once;
    assert AnchoredRun(once, reader) && AnchoredRun(grown, reader);
    RefreshedEntry(w, session, path, reader);
    ReadAfterIsTheFile(w, session, path, reader);
    ServedIsAFullParse(grown, session, path, reader);
  }

  lemma {:induction false} WriteAnchors(w: World, identity: int, bytes: seq<byte>, reader: Reader)
    requires Anchors(w, reader)
    ensures Anchors(Next(w, Write(identity, bytes), reader), reader)
  {
    hide TurnsOf, Anchored;
  }

  lemma {:induction false} LineAppended(bytes: seq<byte>, line: seq<byte>, reader: Reader)
    requires Parse(bytes, 0, reader).end == |bytes| && EndlessLine(line, reader)
    ensures Parse(bytes + line, |bytes|, reader).turns == [Endless()]
    ensures TurnsOf(bytes + line, reader) == TurnsOf(bytes, reader) + [Endless()]
  {
    hide LineEnd, Parse, Endless;
    assert line[0..|line|] == line;
    ParseLine(line, 0, |line|, reader);
    NoLinesLeft(line, reader);
    assert [Endless()] + [] == [Endless()];
    ParseAfter(bytes, line, 0, reader);
    assert (bytes + line)[..|bytes|] == bytes;
    ParseResumes(bytes + line, 0, |bytes|, reader);
  }

  lemma {:induction false} NoLinesLeft(line: seq<byte>, reader: Reader)
    ensures Parse(line, |line|, reader).turns == []
  {
  }

  lemma {:induction false} UnanchoredGrowthShows(steps: seq<Step>, session: string, path: string, reader: Reader, line: seq<byte>)
    requires AnchoredRun(steps, reader) && path in Run(steps, reader).names && Continues(Run(steps, reader), session, path)
    requires var bytes := Opened(Run(steps, reader), path).bytes;
             Parse(bytes, 0, reader).end == |bytes| && !Anchored(TurnsOf(bytes, reader), reader.prompt)
    requires reader.prompt(OMISSION) && EndlessLine(line, reader)
    ensures !ServedGrown(steps, session, path, reader, line)
  {
    hide Parse, Bound, TurnsOf, Anchored, Anchors, ReadAfter, Run, EndlessLine, Endless, Sound, Kept, Stale, Continues;
    var w := Run(steps, reader);
    var file := Opened(w, path);
    var once := steps + [Refresh(session, path, true)];
    var grown := once + [Write(file.identity, file.bytes + line)];
    RunSnoc(steps, Refresh(session, path, true), reader);
    RunSnoc(once, Write(file.identity, file.bytes + line), reader);
    RunHolds(steps, reader);
    RefreshHolds(w, session, path, true, reader);
    RefreshedEntry(w, session, path, reader);
    ReadAfterIsTheFile(w, session, path, reader);
    var entry := Run(once, reader).cache.entries[session];
    assert file.bytes[..|file.bytes|] == file.bytes;
    assert Holds(entry, ReadBy(Run(once, reader), session), reader);
    assert entry.offset == |file.bytes| && entry.turns == Bound(TurnsOf(file.bytes, reader), reader.prompt);
    LineAppended(file.bytes, line, reader);
    ServedNext(Run(grown, reader), session, path, reader);
    WithoutAnAnchorItShows(TurnsOf(file.bytes, reader), reader.prompt);
  }

  /** A refresh of an entry that is not stale reads on from it. */
  lemma {:induction false} ServedNext(w: World, session: string, path: string, reader: Reader)
    requires path in w.names && session in w.cache.entries
    requires var entry := w.cache.entries[session];
             entry.path == path && entry.identity == w.names[path] && entry.offset <= |Opened(w, path).bytes|
    ensures var entry := w.cache.entries[session];
            Next(w, Refresh(session, path, true), reader).cache.entries[session].turns
            == Bound(entry.turns + Parse(Opened(w, path).bytes, entry.offset, reader).turns, reader.prompt)
  {
    hide Parse, Bound, Kept;
  }

  /** After any anchored run and a refresh of a file that was read to its end: whatever is appended later, a full parse is
      served, if and only if the file is anchored then. */
  lemma {:induction false} GrowthIsServedExactlyWhenAnchored(
      steps: seq<Step>, session: string, path: string, reader: Reader, line: seq<byte>)
    requires AnchoredRun(steps, reader) && path in Run(steps, reader).names && Continues(Run(steps, reader), session, path)
    requires var bytes := Opened(Run(steps, reader), path).bytes; Parse(bytes, 0, reader).end == |bytes|
    requires reader.prompt(OMISSION) && EndlessLine(line, reader)
    ensures (forall more :: ServedGrown(steps, session, path, reader, more))
            <==> Anchored(TurnsOf(Opened(Run(steps, reader), path).bytes, reader), reader.prompt)
  {
    hide Run, ServedGrown, Anchored, AnchoredRun, Continues, Parse, EndlessLine, TurnsOf;
    if Anchored(TurnsOf(Opened(Run(steps, reader), path).bytes, reader), reader.prompt) {
      forall more
        ensures ServedGrown(steps, session, path, reader, more)
      {
        AnchoredGrowthIsServed(steps, session, path, reader, more);
      }
    } else {
      UnanchoredGrowthShows(steps, session, path, reader, line);
    }
  }

  // ---------- Least recently used ----------

  /** The step refreshes the session, at a path that has a file. */
  ghost predicate Uses(steps: seq<Step>, k: nat, session: string, reader: Reader)
  {
    k < |steps| && steps[k].Refresh? && steps[k].session == session && steps[k].path in Run(steps[..k], reader).names
  }

  ghost predicate LastUse(steps: seq<Step>, k: nat, session: string, reader: Reader)
  {
    Uses(steps, k, session, reader) && forall j :: k < j < |steps| ==> !Uses(steps, j, session, reader)
  }

  lemma {:induction false} UsesEarlier(steps: seq<Step>, step: Step, k: nat, session: string, reader: Reader)
    requires k < |steps|
    ensures Uses(steps + [step], k, session, reader) <==> Uses(steps, k, session, reader)
  {
    assert (steps + [step])[..k] == steps[..k];
  }

  lemma {:induction false} UsesLast(steps: seq<Step>, step: Step, session: string, reader: Reader)
    ensures Uses(steps + [step], |steps|, session, reader) <==>
            step.Refresh? && step.session == session && step.path in Run(steps, reader).names
  {
    hide Run;
    assert (steps + [step])[..|steps|] == steps;
  }

  lemma {:induction false} UsesInside(steps: seq<Step>, k: nat, session: string, reader: Reader)
    ensures Uses(steps, k, session, reader) ==> k < |steps|
  {
  }

  /** The last use after one more step. */
  lemma {:induction false} LastUseNext(steps: seq<Step>, step: Step, k: nat, session: string, reader: Reader)
    requires LastUse(steps + [step], k, session, reader)
    ensures if step.Refresh? && step.session == session && step.path in Run(steps, reader).names then k == |steps|
            else LastUse(steps, k, session, reader)
  {
    hide Uses, Run;
    UsesLast(steps, step, session, reader);
    assert Uses(steps + [step], k, session, reader) ==> k <= |steps| by { UsesInside(steps + [step], k, session, reader); }
    forall j | 0 <= j < |steps|
      ensures Uses(steps + [step], j, session, reader) <==> Uses(steps, j, session, reader)
    {
      UsesEarlier(steps, step, j, session, reader);
    }
  }

  ghost predicate InOrderOfUse(steps: seq<Step>, reader: Reader)
  {
    forall id, other, j: nat, k: nat ::
      id in Run(steps, reader).cache.entries && other in Run(steps, reader).cache.entries
      && LastUse(steps, j, id, reader) && LastUse(steps, k, other, reader) ==>
        (j < k <==> Run(steps, reader).cache.entries[id].lastUsed < Run(steps, reader).cache.entries[other].lastUsed)
  }

  /** After any run the stamps of two cached sessions compare as their last refreshes do. */
  lemma {:induction false} StampsTellTheOrder(steps: seq<Step>, reader: Reader)
    ensures InOrderOfUse(steps, reader)
  {
    hide Uses, Refreshed, ReadAfter, Next, LastUse;
    if steps == [] {
      NothingCached(reader);
    } else {
      var init, step := steps[..|steps| - 1], steps[|steps| - 1];
      assert steps == init + [step];
      StampsTellTheOrder(init, reader);
      EveryRunFits(init, reader);
      var w, w' := Run(init, reader), Run(steps, reader);
      RunSnoc(init, step, reader);
      forall id, other, j: nat, k: nat | id in w'.cache.entries && other in w'.cache.entries
          && LastUse(steps, j, id, reader) && LastUse(steps, k, other, reader)
        ensures j < k <==> w'.cache.entries[id].lastUsed < w'.cache.entries[other].lastUsed
      {
        LastUseNext(init, step, j, id, reader);
        LastUseNext(init, step, k, other, reader);
        LastUseBefore(init, j, id, reader);
        LastUseBefore(init, k, other, reader);
        StampsNext(w, step, id, other, reader);
      }
    }
  }

  /** So what a refresh evicts is the session that was refreshed longest ago. */
  lemma {:induction false} LongestUnusedIsEvicted(
      steps: seq<Step>, refresh: Step, reader: Reader, id: string, j: nat, other: string, k: nat)
    requires refresh.Refresh? && refresh.path in Run(steps, reader).names
    requires var entries := Run(steps, reader).cache.entries;
             id in entries && other in entries && other != id
             && id !in Next(Run(steps, reader), refresh, reader).cache.entries
    requires LastUse(steps, j, id, reader) && LastUse(steps, k, other, reader)
    ensures j < k
    ensures refresh.session !in Run(steps, reader).cache.entries && |Run(steps, reader).cache.entries| == 8
    ensures other in Next(Run(steps, reader), refresh, reader).cache.entries
  {
    hide Run, Uses, LastUse, Refreshed, ReadAfter;
    var w := Run(steps, reader);
    EveryRunFits(steps, reader);
    StampsTellTheOrder(steps, reader);
    OnlyTheOldestIsEvicted(w.cache, refresh.session, Opened(w, refresh.path), refresh.seeks, reader, id);
  }

  lemma {:induction false} LastUseBefore(steps: seq<Step>, k: nat, session: string, reader: Reader)
    ensures LastUse(steps, k, session, reader) ==> k < |steps|
  {
  }

  lemma {:induction false} NothingCached(reader: Reader)
    ensures Run([], reader).cache.entries == map[]
  {
  }

  /** What a step does to the stamps of two sessions that are cached after it. */
  lemma {:induction false} StampsNext(w: World, step: Step, id: string, other: string, reader: Reader)
    requires Sound(w.cache)
    requires id in Next(w, step, reader).cache.entries && other in Next(w, step, reader).cache.entries
    ensures var entries, entries' := w.cache.entries, Next(w, step, reader).cache.entries;
            var used := if step.Refresh? && step.path in w.names then Some(step.session) else None;
            && (used != Some(id) ==> id in entries && entries'[id].lastUsed == entries[id].lastUsed)
            && (used != Some(other) ==> other in entries && entries'[other].lastUsed == entries[other].lastUsed)
            && (used == Some(id) && used != Some(other) ==> entries'[other].lastUsed < entries'[id].lastUsed)
            && (used == Some(other) && used != Some(id) ==> entries'[id].lastUsed < entries'[other].lastUsed)
  {
    hide Kept, ReadOn, ReadAfter, Bound, Parse;
    if step.Refresh? && step.path in w.names {
      var file := Opened(w, step.path);
      RefreshKeepsSound(w.cache, step.session, file, step.seeks, reader);
      ReadOnKeepsStamp(w.cache, step.session, file, reader);
    }
  }

  // ---------- The size of the cache ----------

  ghost predicate AllFit(w: World)
  {
    |w.cache.entries| <= ENTRY_LIMIT && forall id :: id in w.cache.entries ==> Total(w.cache.entries[id].turns) <= TEXT_LIMIT
  }

  /** After any run whatever was written, anchored or not, there are at most eight entries of at most two mebibytes. */
  lemma {:induction false} EveryRunFits(steps: seq<Step>, reader: Reader)
    ensures AllFit(Run(steps, reader)) && Sound(Run(steps, reader).cache)
  {
    hide Refreshed, ReadAfter, Total;
    if steps != [] {
      var before, step := Run(steps[..|steps| - 1], reader), steps[|steps| - 1];
      EveryRunFits(steps[..|steps| - 1], reader);
      if step.Refresh? && step.path in before.names {
        RefreshKeepsSound(before.cache, step.session, Opened(before, step.path), step.seeks, reader);
        RefreshFits(before, step.session, step.path, step.seeks, reader);
      }
    }
  }

  lemma {:induction false} RefreshFits(w: World, session: string, path: string, seeks: bool, reader: Reader)
    requires path in w.names && AllFit(w)
    ensures var entries := Next(w, Refresh(session, path, seeks), reader).cache.entries;
            session in entries && Total(entries[session].turns) <= TEXT_LIMIT
  {
    hide Parse, Bound, Kept;
    var entry := Resumed(w.cache.entries, session, Opened(w, path), w.cache.clock + 1);
    BoundFits(entry.turns + Parse(Opened(w, path).bytes, entry.offset, reader).turns, reader.prompt);
    assert Total([]) == 0;
  }
}
