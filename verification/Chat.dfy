/** The console chat and its transcript (src-tauri/src/chat.rs). Lines of the transcript are records: what a line of
    JSON says, as far as the parser looks at it. */
module Chat {
  import opened Basics
  import opened Text

  datatype Message = Message(user: bool, text: string)

  /** A transcript line; Foreign is one that does not parse or has another type. */
  datatype Record =
    | Opening(provider: Option<string>, model: Option<string>)
    | Model(model: Option<string>)
    | Clear
    | Turn(user: bool, text: Option<string>)
    | Foreign

  datatype Loaded = Loaded(provider: string, model: string, messages: seq<Message>, cleared: nat)

  // ---------- Reading a transcript back ----------

  datatype Replay = Replay(provider: Option<string>, model: Option<string>, messages: seq<Message>, cleared: nat)

  function Either(first: Option<string>, second: Option<string>): Option<string>
  {
    if first.Some? then first else second
  }

  function Heard(r: Replay, record: Record): Replay
  {
    match record
    case Opening(provider, model) => r.(provider := provider, model := Either(r.model, model))
    case Model(model) => r.(model := Either(model, r.model))
    case Clear => r.(messages := [], cleared := r.cleared + |r.messages|)
    case Turn(user, text) => if text.Some? then r.(messages := r.messages + [Message(user, text.value)]) else r
    case Foreign => r
  }

  function Replayed(records: seq<Record>): Replay
  {
    if records == [] then Replay(None, None, [], 0)
    else Heard(Replayed(records[..|records| - 1]), records[|records| - 1])
  }

  function Parsed(records: seq<Record>): Option<Loaded>
  {
    var r := Replayed(records);
    if r.provider.Some? && r.model.Some? then Some(Loaded(r.provider.value, r.model.value, r.messages, r.cleared)) else None
  }

  method ParseTranscript(records: seq<Record>) returns (loaded: Option<Loaded>)
    ensures loaded == Parsed(records)
  {
    var provider: Option<string>, model: Option<string>, messages: seq<Message>, cleared: nat := None, None, [], 0;
    for i := 0 to |records|
      invariant Replay(provider, model, messages, cleared) == Replayed(records[..i])
    {
      assert records[..i + 1][..i] == records[..i];
      match records[i]
      case Opening(p, m) =>
        provider := p;
        if model.None? { model := m; }
      case Model(m) =>
        if m.Some? { model := m; }
      case Clear =>
        cleared := cleared + |messages|;
        messages := [];
      case Turn(user, text) =>
        if text.Some? { messages := messages + [Message(user, text.value)]; }
      case Foreign =>
    }
    assert records[..|records|] == records;
    if provider.None? || model.None? {
      return None;
    }
    loaded := Some(Loaded(provider.value, model.value, messages, cleared));
  }

  // ---------- Reading a turn ----------

  /** What is kept of a line that ends in a single backslash. */
  function Continuation(line: string): Option<string>
  {
    var n := |line|;
    if n > 0 && line[n - 1] == '\\' && !(n > 1 && line[n - 2] == '\\') then Some(line[..n - 1]) else None
  }

  function TrimLine(line: string): string
  {
    if line != "" && (line[|line| - 1] == '\r' || line[|line| - 1] == '\n') then TrimLine(line[..|line| - 1]) else line
  }

  /** A turn, how many lines it took, and whether the input ended first. */
  datatype Composed = Composed(text: string, lines: nat, ended: bool)

  function Compose(lines: seq<string>): Composed
  {
    if lines == [] then Composed("", 0, true)
    else
      var piece := TrimLine(lines[0]);
      match Continuation(piece)
      case None => Composed(piece, 1, false)
      case Some(kept) =>
        var rest := Compose(lines[1..]);
        Composed(kept + "\n" + rest.text, 1 + rest.lines, rest.ended)
  }

  method ReadTurn(lines: seq<string>) returns (turn: Composed)
    ensures turn == Compose(lines)
  {
    var text, i := "", 0;
    while i < |lines|
      invariant i <= |lines|
      invariant var rest := Compose(lines[i..]);
                Compose(lines) == Composed(text + rest.text, i + rest.lines, rest.ended)
    {
      var piece := TrimLine(lines[i]);
      assert lines[i..][1..] == lines[i + 1..];
      match Continuation(piece)
      case None =>
        return Composed(text + piece, i + 1, false);
      case Some(kept) =>
        ghost var rest := Compose(lines[i + 1..]);
        assert text + (kept + "\n" + rest.text) == (text + kept + "\n") + rest.text;
        text := text + kept + "\n";
        i := i + 1;
    }
    assert text + "" == text;
    turn := Composed(text, i, true);
  }

  /** A message as it is typed: a backslash ends every line of it but the last. */
  function Typed(pieces: seq<string>): seq<string>
    requires pieces != []
  {
    if |pieces| == 1 then [pieces[0] + "\n"] else [pieces[0] + "\\\n"] + Typed(pieces[1..])
  }

  function Joined(pieces: seq<string>): string
    requires pieces != []
  {
    if |pieces| == 1 then pieces[0] else pieces[0] + "\n" + Joined(pieces[1..])
  }

  /** A line that can be typed: it does not end in a backslash or a line break. */
  predicate Plain(piece: string)
  {
    piece == "" || (piece[|piece| - 1] != '\\' && piece[|piece| - 1] != '\r' && piece[|piece| - 1] != '\n')
  }

  lemma {:induction false} TypedLine(piece: string)
    requires Plain(piece)
    ensures TrimLine(piece + "\n") == piece && Continuation(piece) == None
    ensures TrimLine(piece + "\\\n") == piece + "\\" && Continuation(piece + "\\") == Some(piece)
  {
    hide TrimLine, Continuation;
    TrimsBreak(piece);
    TrimsBreak(piece + "\\");
    assert piece + "\\\n" == piece + "\\" + "\n";
    Continues(piece);
  }

  lemma {:induction false} TrimsBreak(piece: string)
    requires piece != "" ==> piece[|piece| - 1] != '\r' && piece[|piece| - 1] != '\n'
    ensures TrimLine(piece + "\n") == piece
  {
    assert (piece + "\n")[..|piece|] == piece;
  }

  lemma {:induction false} Continues(piece: string)
    requires Plain(piece)
    ensures Continuation(piece) == None && Continuation(piece + "\\") == Some(piece)
  {
    assert (piece + "\\")[..|piece|] == piece;
  }

  /** A line is continued exactly when it ends in one backslash, which is taken off. */
  lemma {:induction false} ContinuedExactly(line: string, kept: string)
    ensures Continuation(line) == Some(kept) <==> line == kept + "\\" && (kept == "" || kept[|kept| - 1] != '\\')
  {
    if line == kept + "\\" {
      assert line[..|line| - 1] == kept;
    }
  }

  /** Every line break at the end of a line is taken off, and nothing else. */
  lemma {:induction false} LineBreaksGo(line: string) returns (breaks: string)
    ensures line == TrimLine(line) + breaks && (forall k :: 0 <= k < |breaks| ==> breaks[k] == '\r' || breaks[k] == '\n')
    ensures var s := TrimLine(line); s == "" || (s[|s| - 1] != '\r' && s[|s| - 1] != '\n')
  {
    breaks := "";
    if line != "" && (line[|line| - 1] == '\r' || line[|line| - 1] == '\n') {
      var init := line[..|line| - 1];
      breaks := LineBreaksGo(init);
      breaks := breaks + [line[|line| - 1]];
      assert line == init + [line[|line| - 1]];
    }
  }

  /** Typing several lines and sending them is one turn with those lines, and takes no line after them. */
  lemma {:induction false} TypedIsRead(pieces: seq<string>, after: seq<string>)
    requires pieces != [] && forall k :: 0 <= k < |pieces| ==> Plain(pieces[k])
    ensures Compose(Typed(pieces) + after) == Composed(Joined(pieces), |pieces|, false)
  {
    hide TrimLine, Continuation, Plain;
    var lines := Typed(pieces) + after;
    TypedLine(pieces[0]);
    if |pieces| > 1 {
      assert lines[0] == pieces[0] + "\\\n" && lines[1..] == Typed(pieces[1..]) + after;
      TypedIsRead(pieces[1..], after);
    } else {
      assert lines[0] == pieces[0] + "\n";
    }
  }

  // ---------- The loop ----------

  /** What a request comes to: a reply, perhaps empty, or a failure. */
  datatype Reply = Answered(text: string) | Failed

  /** The console's state, and the file behind its log. Dropped counts the messages every clear has dropped. */
  datatype Live = Live(running: bool, provider: string, model: string, messages: seq<Message>, logging: bool,
                       file: seq<Record>, dropped: nat)

  const SWAP := "/model "

  predicate Swaps(text: string)
  {
    SWAP <= text
  }

  /** Appending a record; a write that fails ends the log. */
  function Logged(live: Live, record: Record, written: bool): Live
  {
    if !live.logging then live
    else if written then live.(file := live.file + [record])
    else live.(logging := false)
  }

  /** One turn of the loop on a line as typed. Writes says whether its first and its second write succeed. */
  function Entered(live: Live, line: string, reply: Reply, writes: (bool, bool)): Live
  {
    var text := Trim(line);
    if text == "" then live
    else if text == "/quit" || text == "/exit" then live.(running := false)
    else if text == "/clear" then
      Logged(live.(messages := [], dropped := live.dropped + |live.messages|), Clear, writes.0)
    else if text == "/model" then live
    else if Swaps(text) then
      var model := Trim(text[|SWAP|..]);
      Logged(live.(model := model), Model(Some(model)), writes.0)
    else if reply.Failed? || reply.text == "" then live
    else
      var said := live.(messages := live.messages + [Message(true, text), Message(false, reply.text)]);
      Logged(Logged(said, Turn(true, Some(text)), writes.0), Turn(false, Some(reply.text)), writes.1)
  }

  /** A start under an id, with the file its log is appended to: the transcript the id has already, or a new one whose
      opening record may fail to be written. */
  function Started(provider: string, model: string, file: Option<seq<Record>>, written: bool): Live
  {
    var records := match file
      case Some(former) => former
      case None => if written then [Opening(Some(provider), Some(model))] else [];
    Live(true, provider, model, [], true, records, 0)
  }

  class Console {
    var running: bool
    const provider: string
    var model: string
    var messages: seq<Message>
    var logging: bool
    var file: seq<Record>
    ghost var dropped: nat

    ghost function State(): Live
      reads this
    {
      Live(running, provider, model, messages, logging, file, dropped)
    }

    /** The log stays open whether or not the opening record was written. */
    constructor Begin(provider: string, model: string, file: Option<seq<Record>>, written: bool)
      ensures State() == Started(provider, model, file, written)
    {
      this.running, this.provider, this.model, this.messages, this.logging := true, provider, model, [], true;
      if file.Some? {
        this.file := file.value;
      } else if written {
        this.file := [Opening(Some(provider), Some(model))];
      } else {
        this.file := [];
      }
      this.dropped := 0;
    }

    constructor Resume(loaded: Loaded, file: seq<Record>)
      requires Parsed(file) == Some(loaded)
      ensures State() == Live(true, loaded.provider, loaded.model, loaded.messages, true, file, loaded.cleared)
    {
      this.running, this.provider, this.model, this.messages, this.logging := true, loaded.provider, loaded.model, loaded.messages, true;
      this.file := file;
      this.dropped := loaded.cleared;
    }

    method Append(record: Record, written: bool)
      modifies this`file, this`logging
      ensures State() == Logged(old(State()), record, written)
    {
      if logging {
        if written {
          file := file + [record];
        } else {
          logging := false;
        }
      }
    }

    method Enter(line: string, reply: Reply, writes: (bool, bool))
      modifies this
      ensures State() == Entered(old(State()), line, reply, writes)
    {
      hide Trim;
      var text := Trim(line);
      if text == "" {
        return;
      }
      match text {
        case "/quit" => running := false; return;
        case "/exit" => running := false; return;
        case "/clear" =>
          dropped := dropped + |messages|;
          messages := [];
          Append(Clear, writes.0);
          return;
        case "/model" => return;
        case _ =>
      }
      if Swaps(text) {
        model := Trim(text[|SWAP|..]);
        Append(Model(Some(model)), writes.0);
        return;
      }
      messages := messages + [Message(true, text)];
      if reply.Failed? || reply.text == "" {
        messages := messages[..|messages| - 1];
        assert messages == old(messages);
      } else {
        Append(Turn(true, Some(text)), writes.0);
        Append(Turn(false, Some(reply.text)), writes.1);
        messages := messages + [Message(false, reply.text)];
        assert messages == old(messages) + [Message(true, text), Message(false, reply.text)];
      }
    }
  }

  // ---------- Replaying the log is the live state ----------

  /** Lines typed while the console runs, with what their writes come to, and resumes. */
  datatype Event = Line(line: string, reply: Reply, writes: (bool, bool)) | Resumed

  function Next(live: Live, event: Event): Live
  {
    match event
    case Line(line, reply, writes) => if live.running then Entered(live, line, reply, writes) else live
    case Resumed =>
      match Parsed(live.file)
      case None => live
      case Some(loaded) => Live(true, loaded.provider, loaded.model, loaded.messages, true, live.file, loaded.cleared)
  }

  function Run(start: Live, events: seq<Event>): Live
  {
    if events == [] then start else Next(Run(start, events[..|events| - 1]), events[|events| - 1])
  }

  lemma {:induction false} ReplayedSnoc(records: seq<Record>, record: Record)
    ensures Replayed(records + [record]) == Heard(Replayed(records), record)
  {
    assert (records + [record])[..|records|] == records;
  }

  lemma {:induction false} RunSnoc(start: Live, events: seq<Event>, event: Event)
    ensures Run(start, events + [event]) == Next(Run(start, events), event)
  {
    assert (events + [event])[..|events|] == events;
  }

  /** What a run has put in the log since its start: whether a clear, and whether a model swap, was written, and whether
      a resume has read the log back. */
  datatype Since = Since(cleared: bool, swapped: bool, resumed: bool)

  function Obeyed(live: Live, event: Event, since: Since): Since
  {
    match event
    case Resumed => if Parsed(live.file).Some? then Since(false, false, true) else since
    case Line(line, _, writes) =>
      if !live.running || !live.logging || !writes.0 then since
      else if Trim(line) == "/clear" then since.(cleared := true)
      else if Swaps(Trim(line)) then since.(swapped := true)
      else since
  }

  function SinceStart(start: Live, events: seq<Event>): Since
  {
    if events == [] then Since(false, false, false)
    else
      var before := events[..|events| - 1];
      Obeyed(Run(start, before), events[|events| - 1], SinceStart(start, before))
  }

  /** What the log reads back as when a live chat follows an old transcript: the old provider, the old model until a swap
      is written, and the old messages before the live ones until a clear is written. */
  function Behind(former: Replay, since: Since, live: Live): Replay
  {
    Replay(former.provider,
           if since.swapped then Some(live.model) else former.model,
           if since.cleared then live.messages else former.messages + live.messages,
           former.cleared + live.dropped + if since.cleared then |former.messages| else 0)
  }

  /** The log reads back as exactly the live state. */
  predicate ReadsBack(live: Live)
  {
    Parsed(live.file) == Some(Loaded(live.provider, live.model, live.messages, live.dropped))
  }

  predicate Follows(live: Live, former: Replay, since: Since)
  {
    if since.resumed then
      Parsed(live.file).Some? && Parsed(live.file).value.provider == live.provider && (live.logging ==> ReadsBack(live))
    else
      live.logging ==> Replayed(live.file) == Behind(former, since, live)
  }

  lemma {:induction false} ExchangeFollows(live: Live, former: Replay, since: Since, text: string, reply: string, writes: (bool, bool))
    requires Follows(live, former, since)
    ensures Follows(Logged(Logged(live.(messages := live.messages + [Message(true, text), Message(false, reply)]),
                                  Turn(true, Some(text)), writes.0), Turn(false, Some(reply)), writes.1), former, since)
  {
    hide Replayed;
    ReplayedSnoc(live.file, Turn(true, Some(text)));
    ReplayedSnoc(live.file + [Turn(true, Some(text))], Turn(false, Some(reply)));
    PairAppended(live.messages, Message(true, text), Message(false, reply));
    PairAppended(former.messages + live.messages, Message(true, text), Message(false, reply));
    assert former.messages + (live.messages + [Message(true, text), Message(false, reply)])
        == former.messages + live.messages + [Message(true, text), Message(false, reply)];
  }

  lemma {:induction false} PairAppended(messages: seq<Message>, a: Message, b: Message)
    ensures messages + [a] + [b] == messages + [a, b]
  {
  }

  lemma {:induction false} EnteredFollows(live: Live, former: Replay, since: Since, line: string, reply: Reply, writes: (bool, bool))
    requires Follows(live, former, since) && live.running
    ensures Follows(Entered(live, line, reply, writes), former, Obeyed(live, Line(line, reply, writes), since))
  {
    hide Trim, Replayed;
    var text := Trim(line);
    if Swaps(text) {
      ReplayedSnoc(live.file, Model(Some(Trim(text[|SWAP|..]))));
    }
    ReplayedSnoc(live.file, Clear);
    if reply.Answered? { ExchangeFollows(live, former, since, text, reply.text, writes); }
  }

  /** For every start and every run, answered, empty or failed sends, clears, model swaps, failing writes and resumes: while
      the log is open it reads back as the chat that was in it at the start followed by the live one, and once a resume
      has read it back, as exactly the live state. */
  lemma {:induction false} LogFollowsTheOldChat(provider: string, model: string, file: Option<seq<Record>>, written: bool, events: seq<Event>)
    ensures var start := Started(provider, model, file, written);
            var live, since := Run(start, events), SinceStart(start, events);
            live.logging ==>
              if since.resumed then ReadsBack(live) else Replayed(live.file) == Behind(Replayed(start.file), since, live)
  {
    RunFollows(Started(provider, model, file, written), events);
  }

  lemma {:induction false} RunFollows(start: Live, events: seq<Event>)
    requires start.messages == [] && start.dropped == 0
    ensures Follows(Run(start, events), Replayed(start.file), SinceStart(start, events))
  {
    hide Entered, Replayed, Trim;
    var former := Replayed(start.file);
    if events == [] {
      assert former.messages + [] == former.messages;
    } else {
      var init, event := events[..|events| - 1], events[|events| - 1];
      var before := Run(start, init);
      RunFollows(start, init);
      if event.Line? && before.running {
        EnteredFollows(before, former, SinceStart(start, init), event.line, event.reply, event.writes);
      }
    }
  }

  // ---------- When the log is the live state ----------

  /** The last opening record. */
  predicate LastOpening(file: seq<Record>, k: nat)
  {
    k < |file| && file[k].Opening? && forall j :: k < j < |file| ==> !file[j].Opening?
  }

  predicate Swapped(record: Record)
  {
    record.Model? && record.model.Some?
  }

  predicate LastSwap(file: seq<Record>, k: nat)
  {
    k < |file| && Swapped(file[k]) && forall j :: k < j < |file| ==> !Swapped(file[j])
  }

  predicate Naming(record: Record)
  {
    record.Opening? && record.model.Some?
  }

  predicate FirstNaming(file: seq<Record>, k: nat)
  {
    k < |file| && Naming(file[k]) && forall j :: 0 <= j < k ==> !Naming(file[j])
  }

  predicate HasSwap(file: seq<Record>)
  {
    exists k :: 0 <= k < |file| && Swapped(file[k])
  }

  predicate Spoken(record: Record)
  {
    record.Turn? && record.text.Some?
  }

  ghost predicate OpenedFor(file: seq<Record>, provider: string)
  {
    exists k: nat :: LastOpening(file, k) && file[k].provider == Some(provider)
  }

  /** The last swap, or else the first opening that names a model, is for this one. */
  ghost predicate Names(file: seq<Record>, model: string)
  {
    if HasSwap(file) then exists k: nat :: LastSwap(file, k) && file[k].model == Some(model)
    else exists k: nat :: FirstNaming(file, k) && file[k].model == Some(model)
  }

  /** A transcript in which nothing was said yet, last opened for the provider, and naming the model. */
  ghost predicate Untouched(file: seq<Record>, provider: string, model: string)
  {
    (forall k :: 0 <= k < |file| ==> !Spoken(file[k])) && OpenedFor(file, provider) && Names(file, model)
  }

  lemma {:induction false} ProviderIsTheLastOpenings(file: seq<Record>, provider: string)
    ensures Replayed(file).provider == Some(provider) <==> OpenedFor(file, provider)
  {
    if file != [] {
      var n := |file| - 1;
      var init, last := file[..n], file[n];
      ProviderIsTheLastOpenings(init, provider);
      if last.Opening? {
        assert LastOpening(file, n);
        assert forall k: nat :: LastOpening(file, k) ==> k == n;
      } else {
        if OpenedFor(init, provider) {
          var k: nat :| LastOpening(init, k) && init[k].provider == Some(provider);
          assert LastOpening(file, k);
        }
        if OpenedFor(file, provider) {
          var k: nat :| LastOpening(file, k) && file[k].provider == Some(provider);
          assert LastOpening(init, k);
        }
      }
    }
  }

  lemma {:induction false} ModelIsNamed(file: seq<Record>, model: string)
    ensures Replayed(file).model == Some(model) <==> Names(file, model)
  {
    hide Names;
    if file == [] {
      NoName(model);
    } else {
      var n := |file| - 1;
      var init, last := file[..n], file[n];
      ModelIsNamed(init, model);
      NamelessExactly(init);
      assert file == init + [last];
      NamesNext(init, last, model);
    }
  }

  lemma {:induction false} NoName(model: string)
    ensures !Names([], model)
  {
  }

  /** A further record changes the name if it is a swap, or the first to name one. */
  lemma {:induction false} NamesNext(init: seq<Record>, last: Record, model: string)
    ensures var file := init + [last];
            Names(file, model) <==>
            if Swapped(last) then last.model == Some(model)
            else Names(init, model) || (Naming(last) && last.model == Some(model) && forall k :: 0 <= k < |init| ==> !Swapped(init[k]) && !Naming(init[k]))
  {
    var file, n := init + [last], |init|;
    if Swapped(last) {
      assert LastSwap(file, n);
      assert forall k: nat :: LastSwap(file, k) ==> k == n;
    } else if HasSwap(init) {
      assert HasSwap(file) by { SwapStays(init, last); }
      forall k: nat
        ensures LastSwap(file, k) <==> LastSwap(init, k)
      {
        LastSwapStays(init, last, k);
      }
      SameName(file, init, model);
    } else {
      assert !HasSwap(file);
      FirstNameNext(init, last, model);
    }
  }

  lemma {:induction false} SwapStays(init: seq<Record>, last: Record)
    requires HasSwap(init)
    ensures HasSwap(init + [last])
  {
    var k :| 0 <= k < |init| && Swapped(init[k]);
    assert Swapped((init + [last])[k]);
  }

  lemma {:induction false} LastSwapStays(init: seq<Record>, last: Record, k: nat)
    requires !Swapped(last)
    ensures LastSwap(init + [last], k) <==> LastSwap(init, k)
  {
    var file := init + [last];
    assert forall j :: 0 <= j < |init| ==> file[j] == init[j];
    if LastSwap(file, k) {
      assert forall j :: k < j < |init| ==> !Swapped(file[j]) && !Swapped(init[j]);
    }
  }

  lemma {:induction false} SameName(file: seq<Record>, init: seq<Record>, model: string)
    requires init <= file && HasSwap(file) && HasSwap(init) && forall k: nat :: LastSwap(file, k) <==> LastSwap(init, k)
    ensures Names(file, model) <==> Names(init, model)
  {
  }

  lemma {:induction false} FirstNameNext(init: seq<Record>, last: Record, model: string)
    requires !HasSwap(init) && !Swapped(last)
    ensures Names(init + [last], model) <==>
            Names(init, model) || (Naming(last) && last.model == Some(model) && forall k :: 0 <= k < |init| ==> !Naming(init[k]))
  {
    var file, n := init + [last], |init|;
    assert !HasSwap(file);
    if Names(file, model) {
      var k: nat :| FirstNaming(file, k) && file[k].model == Some(model);
      assert forall j :: 0 <= j < n && j < k ==> !Naming(file[j]) && !Naming(init[j]);
      assert k < n ==> FirstNaming(init, k);
    }
    if Names(init, model) {
      var k: nat :| FirstNaming(init, k) && init[k].model == Some(model);
      assert FirstNaming(file, k);
    }
    if Naming(last) && forall k :: 0 <= k < n ==> !Naming(init[k]) {
      assert FirstNaming(file, n);
    }
  }

  lemma {:induction false} NamelessExactly(file: seq<Record>)
    ensures Replayed(file).model.None? <==> forall k :: 0 <= k < |file| ==> !Swapped(file[k]) && !Naming(file[k])
  {
    if file != [] {
      var n := |file| - 1;
      NamelessExactly(file[..n]);
      assert file == file[..n] + [file[n]];
    }
  }

  lemma {:induction false} SilentExactlyWhenUnspoken(file: seq<Record>)
    ensures Replayed(file).messages == [] && Replayed(file).cleared == 0 <==> forall k :: 0 <= k < |file| ==> !Spoken(file[k])
  {
    if file != [] {
      var n := |file| - 1;
      SilentExactlyWhenUnspoken(file[..n]);
      assert file == file[..n] + [file[n]];
    }
  }

  /** What a caller can check before a start: a new file whose opening record is written, or an untouched old one. */
  ghost predicate CleanStart(provider: string, model: string, file: Option<seq<Record>>, written: bool)
  {
    match file
    case None => written
    case Some(former) => Untouched(former, provider, model)
  }

  lemma {:induction false} CleanStartReadsBack(provider: string, model: string, file: Option<seq<Record>>, written: bool)
    ensures ReadsBack(Started(provider, model, file, written)) <==> CleanStart(provider, model, file, written)
  {
    hide Untouched, Replayed;
    match file
    case None =>
      var none: seq<Record> := [];
      ReplayedSnoc(none, Opening(Some(provider), Some(model)));
      NothingReplayed();
      assert none + [Opening(Some(provider), Some(model))] == [Opening(Some(provider), Some(model))];
    case Some(former) => UntouchedReadsBack(former, provider, model);
  }

  lemma {:induction false} NothingReplayed()
    ensures Replayed([]) == Replay(None, None, [], 0)
  {
  }

  lemma {:induction false} UntouchedReadsBack(file: seq<Record>, provider: string, model: string)
    ensures Parsed(file) == Some(Loaded(provider, model, [], 0)) <==> Untouched(file, provider, model)
  {
    hide Replayed, OpenedFor, Names, Spoken;
    ProviderIsTheLastOpenings(file, provider);
    ModelIsNamed(file, model);
    SilentExactlyWhenUnspoken(file);
  }

  predicate OpenLogReadsBack(start: Live, events: seq<Event>)
  {
    Run(start, events).logging ==> ReadsBack(Run(start, events))
  }

  /** The transcript is the live state, while the log is open, over every run, failing writes and resumes included,
      exactly for a clean start. */
  lemma {:induction false} TranscriptIsTheLiveState(provider: string, model: string, file: Option<seq<Record>>, written: bool)
    ensures (forall events :: OpenLogReadsBack(Started(provider, model, file, written), events))
            <==> CleanStart(provider, model, file, written)
  {
    hide ReadsBack, CleanStart;
    var start := Started(provider, model, file, written);
    CleanStartReadsBack(provider, model, file, written);
    if CleanStart(provider, model, file, written) {
      forall events
        ensures OpenLogReadsBack(start, events)
      {
        if Run(start, events).logging { CleanRunReadsBack(provider, model, file, written, events); }
      }
    } else {
      assert !OpenLogReadsBack(start, []);
    }
  }

  lemma {:induction false} CleanRunReadsBack(provider: string, model: string, file: Option<seq<Record>>, written: bool, events: seq<Event>)
    requires ReadsBack(Started(provider, model, file, written)) && Run(Started(provider, model, file, written), events).logging
    ensures ReadsBack(Run(Started(provider, model, file, written), events))
  {
    hide Run, SinceStart, Replayed, Obeyed;
    var start := Started(provider, model, file, written);
    var live := Run(start, events);
    LogFollowsTheOldChat(provider, model, file, written, events);
    FirstModelStays(start, events);
    assert [] + live.messages == live.messages;
  }

  /** Until a swap is written to an open log, or the log is read back, provider and model are those of the start. */
  lemma {:induction false} FirstModelStays(start: Live, events: seq<Event>)
    ensures var live, since := Run(start, events), SinceStart(start, events);
            && (!since.resumed ==> live.provider == start.provider)
            && (!since.resumed && !since.swapped && live.logging ==> live.model == start.model)
  {
    hide Trim, Parsed;
    if events != [] {
      FirstModelStays(start, events[..|events| - 1]);
    }
  }

  /** Without its opening record a transcript never reads back at all, whatever is written to it later. */
  lemma {:induction false} AnUnopenedLogIsLost(provider: string, model: string, events: seq<Event>)
    ensures var live := Run(Started(provider, model, None, false), events);
            Replayed(live.file).provider == None && Parsed(live.file) == None
  {
    var start := Started(provider, model, None, false);
    if events == [] {
      NothingReplayed();
    } else {
      hide Replayed, Trim;
      var init, event := events[..|events| - 1], events[|events| - 1];
      AnUnopenedLogIsLost(provider, model, init);
      if event.Line? { NoProviderIsWritten(Run(start, init), event.line, event.reply, event.writes); }
    }
  }

  /** No line opens a transcript. */
  lemma {:induction false} NoProviderIsWritten(live: Live, line: string, reply: Reply, writes: (bool, bool))
    ensures Replayed(Entered(live, line, reply, writes).file).provider == Replayed(live.file).provider
  {
    hide Trim, Replayed;
    var text := Trim(line);
    ReplayedSnoc(live.file, Clear);
    ReplayedSnoc(live.file, Turn(true, Some(text)));
    if Swaps(text) {
      ReplayedSnoc(live.file, Model(Some(Trim(text[|SWAP|..]))));
    }
    if reply.Answered? {
      ReplayedSnoc(live.file, Turn(false, Some(reply.text)));
      ReplayedSnoc(live.file + [Turn(true, Some(text))], Turn(false, Some(reply.text)));
    }
  }

  /** So leaving and resuming changes nothing, at any point of a clean run while the log is open. */
  lemma {:induction false} ResumeRestores(provider: string, model: string, file: Option<seq<Record>>, written: bool, events: seq<Event>)
    requires CleanStart(provider, model, file, written) && Run(Started(provider, model, file, written), events).logging
    ensures var live := Run(Started(provider, model, file, written), events);
            Run(Started(provider, model, file, written), events + [Resumed]) == live.(running := true)
  {
    hide Parsed, Run, CleanStart;
    TranscriptIsTheLiveState(provider, model, file, written);
    assert OpenLogReadsBack(Started(provider, model, file, written), events);
    RunSnoc(Started(provider, model, file, written), events, Resumed);
  }

  // ---------- When the messages alternate ----------

  /** User and assistant in turn, the user first and the assistant last. */
  predicate Alternates(messages: seq<Message>)
  {
    |messages| % 2 == 0 && forall k :: 0 <= k < |messages| ==> (messages[k].user <==> k % 2 == 0)
  }

  /** A line that is sent rather than obeyed. */
  predicate Ordinary(line: string)
  {
    var text := Trim(line);
    text != "" && text != "/quit" && text != "/exit" && text != "/clear" && text != "/model" && !Swaps(text)
  }

  /** An answered exchange of which only the first half reaches the log. */
  predicate HalfWritten(live: Live, event: Event)
  {
    && event.Line? && live.running && live.logging && Ordinary(event.line)
    && event.reply.Answered? && event.reply.text != "" && event.writes.0 && !event.writes.1
  }

  predicate NoneHalfWritten(start: Live, events: seq<Event>)
  {
    forall k :: 0 <= k < |events| ==> !HalfWritten(Run(start, events[..k]), events[k])
  }

  /** In memory and on disk. */
  predicate InTurn(live: Live)
  {
    Alternates(live.messages) && Alternates(Replayed(live.file).messages)
  }

  lemma {:induction false} StepInTurn(live: Live, event: Event)
    requires InTurn(live)
    ensures Alternates(Next(live, event).messages)
    ensures InTurn(Next(live, event)) <==> !HalfWritten(live, event)
  {
    hide Trim, Replayed;
    if event.Line? {
      var text := Trim(event.line);
      ReplayedSnoc(live.file, Clear);
      ReplayedSnoc(live.file, Turn(true, Some(text)));
      if Swaps(text) { ReplayedSnoc(live.file, Model(Some(Trim(text[|SWAP|..])))); }
      if event.reply.Answered? {
        ReplayedSnoc(live.file + [Turn(true, Some(text))], Turn(false, Some(event.reply.text)));
      }
    }
  }

  ghost predicate InTurnThroughout(start: Live, events: seq<Event>)
  {
    forall k :: 0 <= k <= |events| ==> InTurn(Run(start, events[..k]))
  }

  /** Messages alternate, in memory and in the log, at every point of a run exactly when no exchange is half-written: other
      failing writes, clears, swaps and resumes do no harm. */
  lemma {:induction false} MessagesAlternate(start: Live, events: seq<Event>)
    requires InTurn(start)
    ensures InTurnThroughout(start, events) <==> NoneHalfWritten(start, events)
  {
    hide InTurn, HalfWritten, Next, InTurnThroughout, NoneHalfWritten;
    if events == [] {
      NoEvents(start);
    } else {
      var init, last := events[..|events| - 1], events[|events| - 1];
      MessagesAlternate(start, init);
      assert events == init + [last];
      RunSnoc(start, init, last);
      SplitLast(start, events);
      if InTurn(Run(start, init)) {
        StepInTurn(Run(start, init), last);
      }
    }
  }

  lemma {:induction false} NoEvents(start: Live)
    ensures InTurnThroughout(start, []) <==> InTurn(start)
    ensures NoneHalfWritten(start, [])
  {
    hide InTurn, HalfWritten;
    var none: seq<Event> := [];
    assert none[..0] == none;
  }

  lemma {:induction false} SplitLast(start: Live, events: seq<Event>)
    requires events != []
    ensures NoneHalfWritten(start, events) <==>
            NoneHalfWritten(start, events[..|events| - 1]) && !HalfWritten(Run(start, events[..|events| - 1]), events[|events| - 1])
    ensures InTurnThroughout(start, events) <==>
            InTurnThroughout(start, events[..|events| - 1]) && InTurn(Run(start, events))
    ensures InTurnThroughout(start, events[..|events| - 1]) ==> InTurn(Run(start, events[..|events| - 1]))
  {
    hide HalfWritten, InTurn, Run;
    var init := events[..|events| - 1];
    assert events[..|events|] == events && init[..|init|] == init;
    assert forall k :: 0 <= k < |init| ==> init[..k] == events[..k] && init[k] == events[k];
  }

  /** A start with no transcript is in turn, and so is one on a transcript whose messages alternate. */
  lemma {:induction false} StartsInTurn(provider: string, model: string, file: Option<seq<Record>>, written: bool)
    ensures InTurn(Started(provider, model, file, written)) <==> file.None? || Alternates(Replayed(file.value).messages)
  {
    if file.None? {
      var none: seq<Record> := [];
      ReplayedSnoc(none, Opening(Some(provider), Some(model)));
      assert none + [Opening(Some(provider), Some(model))] == [Opening(Some(provider), Some(model))];
    }
  }

  /** After a half-written exchange a resume starts with a user's turn left open, and the next answered send puts two
      user turns in a row. */
  lemma {:induction false} AHalfWrittenExchangeBreaksTheTurns(live: Live, event: Event, second: string, reply: string)
    requires InTurn(live) && Parsed(live.file).Some? && HalfWritten(live, event) && reply != "" && Ordinary(second)
    ensures var resumed := Next(Next(live, event), Resumed);
            var after := Entered(resumed, second, Answered(reply), (true, true));
            && !Alternates(resumed.messages)
            && exists k :: 0 < k < |after.messages| && after.messages[k - 1].user && after.messages[k].user
  {
    hide Trim, Replayed, Swaps;
    ReplayedSnoc(live.file, Turn(true, Some(Trim(event.line))));
    var resumed := Next(Next(live, event), Resumed);
    var after := Entered(resumed, second, Answered(reply), (true, true));
    var n := |Replayed(live.file).messages|;
    assert after.messages[n + 1 - 1].user && after.messages[n + 1].user;
  }

  // ---------- What was said ----------

  predicate Stops(event: Event)
  {
    event.Line? && (Trim(event.line) == "/quit" || Trim(event.line) == "/exit")
  }

  predicate Clears(event: Event)
  {
    event.Line? && Trim(event.line) == "/clear"
  }

  /** How many events come before the console is told to stop. */
  function UntilStop(events: seq<Event>): (n: nat)
    ensures n <= |events| && (n < |events| ==> Stops(events[n]))
    ensures forall k :: 0 <= k < n ==> !Stops(events[k])
  {
    if events == [] then 0
    else
      var last := |events| - 1;
      var n := UntilStop(events[..last]);
      if n < last || Stops(events[last]) then n else |events|
  }

  /** Where the events after the last clear begin. */
  function SinceClear(events: seq<Event>): (n: nat)
    ensures n <= |events| && (n > 0 ==> Clears(events[n - 1]))
    ensures forall k :: n <= k < |events| ==> !Clears(events[k])
  {
    if events == [] then 0
    else if Clears(events[|events| - 1]) then |events|
    else SinceClear(events[..|events| - 1])
  }

  /** The ordinary lines that were answered, and their replies. */
  function Exchanges(events: seq<Event>): seq<(string, string)>
  {
    if events == [] then []
    else
      var last := events[|events| - 1];
      Exchanges(events[..|events| - 1])
      + if last.Line? && Ordinary(last.line) && last.reply.Answered? && last.reply.text != ""
        then [(Trim(last.line), last.reply.text)] else []
  }

  /** Each line as the user's message, and then its reply as the assistant's. */
  function Dialogue(exchanges: seq<(string, string)>): seq<Message>
  {
    if exchanges == [] then []
    else
      var (line, reply) := exchanges[|exchanges| - 1];
      Dialogue(exchanges[..|exchanges| - 1]) + [Message(true, line), Message(false, reply)]
  }

  /** The model that the last swap names. */
  function SwappedTo(events: seq<Event>): Option<string>
  {
    if events == [] then None
    else
      var last := events[|events| - 1];
      if last.Line? && Swaps(Trim(last.line)) then Some(Trim(Trim(last.line)[|SWAP|..])) else SwappedTo(events[..|events| - 1])
  }

  ghost predicate OnlyLines(events: seq<Event>)
  {
    forall k :: 0 <= k < |events| ==> events[k].Line?
  }

  /** The state after the events that were heard, as the events alone tell it. */
  ghost predicate Tells(start: Live, heard: seq<Event>, live: Live)
  {
    var from := SinceClear(heard);
    && live.messages == (if from == 0 then start.messages else []) + Dialogue(Exchanges(heard[from..]))
    && live.model == SwappedTo(heard).Or(start.model)
    && live.provider == start.provider
    && live.dropped + |live.messages| == start.dropped + |start.messages| + 2 * |Exchanges(heard)|
  }

  lemma {:induction false} OneMoreExchange(events: seq<Event>, event: Event)
    ensures Exchanges(events + [event]) == Exchanges(events) + Exchanges([event]) && |Exchanges([event])| <= 1
  {
    hide Ordinary, Trim;
    assert (events + [event])[..|events|] == events && [event][..0] == [];
  }

  lemma {:induction false} DialogueAppend(a: seq<(string, string)>, b: seq<(string, string)>)
    requires |b| <= 1
    ensures Dialogue(a + b) == Dialogue(a) + Dialogue(b) && |Dialogue(b)| == 2 * |b|
  {
    if b != [] {
      assert b == [b[0]] && (a + b)[..|a|] == a && b[..0] == [];
    } else {
      assert a + b == a;
    }
  }

  lemma {:induction false} ExchangesSnoc(events: seq<Event>, event: Event)
    ensures Exchanges(events + [event]) == Exchanges(events) + Exchanges([event])
    ensures |Exchanges([event])| <= 1
    ensures Dialogue(Exchanges(events + [event])) == Dialogue(Exchanges(events)) + Dialogue(Exchanges([event]))
    ensures |Dialogue(Exchanges([event]))| == 2 * |Exchanges([event])|
  {
    hide Exchanges, Dialogue;
    OneMoreExchange(events, event);
    DialogueAppend(Exchanges(events), Exchanges([event]));
  }

  /** What one line does that does not stop the console. */
  lemma {:induction false} LineSays(live: Live, event: Event)
    requires live.running && event.Line? && !Stops(event)
    ensures var next, text := Next(live, event), Trim(event.line);
            && next.running && next.provider == live.provider
            && next.messages == (if Clears(event) then [] else live.messages) + Dialogue(Exchanges([event]))
            && next.dropped == live.dropped + (if Clears(event) then |live.messages| else 0)
            && next.model == (if Swaps(text) then Trim(text[|SWAP|..]) else live.model)
            && (Clears(event) ==> Exchanges([event]) == [])
  {
    hide Trim, Dialogue, Exchanges;
    OneExchange(event);
    if Clears(event) { NotOrdinary(event); }
    NoDialogue();
    assert live.messages + [] == live.messages;
  }

  lemma {:induction false} NoDialogue()
    ensures Dialogue([]) == []
  {
  }

  lemma {:induction false} TailSnoc(heard: seq<Event>, event: Event)
    ensures var more, from := heard + [event], SinceClear(heard);
            && SinceClear(more) == (if Clears(event) then |more| else from)
            && (!Clears(event) ==> more[SinceClear(more)..] == heard[from..] + [event])
            && (Clears(event) ==> more[SinceClear(more)..] == [])
    ensures event.Line? ==>
              SwappedTo(heard + [event])
              == if Swaps(Trim(event.line)) then Some(Trim(Trim(event.line)[|SWAP|..])) else SwappedTo(heard)
  {
    hide Trim;
    assert (heard + [event])[..|heard|] == heard;
  }

  /** One more line that is heard. */
  lemma {:induction false} TellsNext(start: Live, heard: seq<Event>, live: Live, event: Event)
    requires Tells(start, heard, live) && live.running && event.Line? && !Stops(event)
    ensures Tells(start, heard + [event], Next(live, event)) && Next(live, event).running
  {
    hide Trim, Next, SinceClear, Exchanges, Dialogue, SwappedTo, Stops, Clears, Swaps;
    var from := SinceClear(heard);
    TailSnoc(heard, event);
    LineSays(live, event);
    ExchangesSnoc(heard, event);
    ExchangesSnoc(heard[from..], event);
    NoExchanges();
    NoDialogue();
  }

  lemma {:induction false} NoExchanges()
    ensures Exchanges([]) == []
  {
  }

  lemma {:induction false} NotOrdinary(event: Event)
    requires event.Line? && Trim(event.line) == "/clear"
    ensures Exchanges([event]) == [] && !Swaps("/clear")
  {
    assert [event][..0] == [];
    assert "/clear"[1] != SWAP[1];
  }

  lemma {:induction false} OneExchange(event: Event)
    requires event.Line?
    ensures Dialogue(Exchanges([event]))
            == if Ordinary(event.line) && event.reply.Answered? && event.reply.text != ""
               then [Message(true, Trim(event.line)), Message(false, event.reply.text)] else []
    ensures Swaps(Trim(event.line)) ==> Exchanges([event]) == []
  {
    hide Trim, Ordinary;
    assert [event][..0] == [];
    var one := (Trim(event.line), if event.reply.Answered? then event.reply.text else "");
    var none: seq<(string, string)> := [];
    assert [one][..0] == none;
    assert Dialogue([one]) == Dialogue(none) + [Message(true, one.0), Message(false, one.1)];
    assert Swaps(Trim(event.line)) ==> !Ordinary(event.line) by { SwapsAreNotOrdinary(event.line); }
  }

  lemma {:induction false} SwapsAreNotOrdinary(line: string)
    ensures Swaps(Trim(line)) ==> !Ordinary(line)
  {
    hide Trim;
  }

  /** For every start and every run of lines, until the console is told to stop: the messages are those of the ordinary
      lines answered since the last clear, each with its reply, in order; the model is the last one swapped to; what was
      cleared is counted; and it runs exactly until it is told to stop. */
  lemma {:induction false} SaidSinceTheLastClear(start: Live, events: seq<Event>)
    requires start.running && OnlyLines(events)
    ensures var live := Run(start, events);
            Tells(start, events[..UntilStop(events)], live) && (live.running <==> UntilStop(events) == |events|)
  {
    hide Trim, Tells;
    if events == [] {
      NothingTold(start);
    } else {
      var init, last := events[..|events| - 1], events[|events| - 1];
      SaidSinceTheLastClear(start, init);
      var live := Run(start, init);
      assert events == init + [last];
      if UntilStop(init) < |init| {
        assert UntilStop(events) == UntilStop(init) && events[..UntilStop(init)] == init[..UntilStop(init)];
      } else {
        assert init[..|init|] == init && events[..|init|] == init && events[..|events|] == events;
        if Stops(last) {
          assert Next(live, last) == live.(running := false);
          StoppedTells(start, init, live);
        } else {
          TellsNext(start, init, live, last);
        }
      }
    }
  }

  lemma {:induction false} NothingTold(start: Live)
    ensures var none: seq<Event> := [];
            Tells(start, none[..UntilStop(none)], start) && UntilStop(none) == 0 && Run(start, none) == start
  {
    var none: seq<Event> := [];
    assert none[..0] == none && none[0..] == none;
  }

  lemma {:induction false} StoppedTells(start: Live, heard: seq<Event>, live: Live)
    requires Tells(start, heard, live)
    ensures Tells(start, heard, live.(running := false))
  {
  }

  /** A swap as it is typed names its model. */
  lemma {:induction false} SwapAsTyped(left: string, blank: string, model: string, right: string, reply: Reply, writes: (bool, bool))
    requires Blank(left) && Blank(blank) && Blank(right) && Tight(model) && model != ""
    ensures SwappedTo([Line(left + (SWAP + blank + model) + right, reply, writes)]) == Some(model)
  {
    hide Trim;
    var text := SWAP + blank + model;
    assert text[0] == '/' && text[|text| - 1] == model[|model| - 1];
    TrimOfTight(left, text, right);
    assert text[|SWAP|..] == blank + model + "";
    TrimOfTight(blank, model, "");
  }
}
