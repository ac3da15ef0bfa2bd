/** Launch command lines (src-tauri/src/agents.rs), read back by a shell tokeniser after sections 2.2.1 (escape
    character) and 2.2.2 (single-quotes) of the POSIX.1-2017 Shell Command Language. */
module ShellQuote {
  import opened Basics
  import opened Text

  // ---------- The shell ----------

  /** Characters that stand for themselves outside quotes. */
  predicate Bare(c: char)
  {
    'a' <= c <= 'z' || 'A' <= c <= 'Z' || '0' <= c <= '9' || c == '-' || c == '_' || c == '.' || c == '/' || c == ','
  }

  const NUL: char := '\0'

  /** The words of a command line, or None where it means something else than a list of words: an unclosed quote, an
      operator, an expansion, a comment, or an assignment before the command. Word is the word being read. */
  function Read(s: string, words: seq<string>, word: Option<string>, quoted: bool): Option<seq<string>>
    decreases |s|
  {
    if s == "" then
      if quoted then None else Some(Ended(words, word))
    else if s[0] == NUL then None
    else if quoted then
      if s[0] == '\'' then Read(s[1..], words, word, false)
      else Read(s[1..], words, Some(word.Or("") + [s[0]]), true)
    else if s[0] == ' ' || s[0] == '\t' then Read(s[1..], Ended(words, word), None, false)
    else if s[0] == '\'' then Read(s[1..], words, Some(word.Or("")), true)
    else if s[0] == '\\' then
      if |s| == 1 || s[1] == NUL then None
      else if s[1] == '\n' then Read(s[2..], words, word, false)
      else Read(s[2..], words, Some(word.Or("") + [s[1]]), false)
    else if Bare(s[0]) || (s[0] == '=' && words != []) then Read(s[1..], words, Some(word.Or("") + [s[0]]), false)
    else None
  }

  function Ended(words: seq<string>, word: Option<string>): seq<string>
  {
    if word.Some? then words + [word.value] else words
  }

  function Words(command: string): Option<seq<string>>
  {
    Read(command, [], None, false)
  }

  // ---------- q ----------

  function Escaped(value: string): string
  {
    if value == "" then ""
    else (if value[0] == '\'' then "'\\''" else [value[0]]) + Escaped(value[1..])
  }

  function Q(value: string): string
  {
    "'" + Escaped(value) + "'"
  }

  predicate NulFree(s: string)
  {
    NUL !in s
  }

  lemma {:induction false} EscapedReadsBack(value: string, rest: string, words: seq<string>, word: string)
    requires NulFree(value)
    ensures Read(Escaped(value) + rest, words, Some(word), true) == Read(rest, words, Some(word + value), true)
    decreases |value|
  {
    if value == "" {
      assert Escaped(value) + rest == rest && word + value == word;
    } else {
      var more := Escaped(value[1..]) + rest;
      EscapedReadsBack(value[1..], rest, words, word + [value[0]]);
      assert word + [value[0]] + value[1..] == word + value;
      if value[0] == '\'' {
        assert Escaped(value) + rest == "'\\''" + more;
        FourCharacters(more, words, word);
      } else {
        assert Escaped(value) + rest == [value[0]] + more;
        assert ([value[0]] + more)[1..] == more;
      }
    }
  }

  /** Inside quotes, an escaped quote is one quote. */
  lemma {:induction false} FourCharacters(more: string, words: seq<string>, word: string)
    ensures Read("'\\''" + more, words, Some(word), true) == Read(more, words, Some(word + "'"), true)
  {
    var three, two, one := "\\''" + more, "'" + more, Some(word);
    assert ("'\\''" + more)[1..] == three && three[2..] == two && two[1..] == more;
    assert Read("'\\''" + more, words, one, true) == Read(three, words, one, false);
    assert Read(three, words, one, false) == Read(two, words, Some(word + "'"), false);
    assert Read(two, words, Some(word + "'"), false) == Read(more, words, Some(word + "'"), true);
  }

  lemma {:induction false} EscapedNul(value: string, rest: string, words: seq<string>, word: string)
    requires !NulFree(value)
    ensures Read(Escaped(value) + rest, words, Some(word), true) == None
    decreases |value|
  {
    var more := Escaped(value[1..]) + rest;
    if value[0] == '\'' {
      assert Escaped(value) + rest == "'\\''" + more;
      FourCharacters(more, words, word);
      EscapedNul(value[1..], rest, words, word + "'");
    } else {
      assert Escaped(value) + rest == [value[0]] + more && ([value[0]] + more)[1..] == more;
      if value[0] != NUL { EscapedNul(value[1..], rest, words, word + [value[0]]); }
    }
  }

  /** A quoted value is read as that value and nothing else, whatever is in it but a NUL, which no argument can hold. */
  lemma {:induction false} QuotedIsOneWord(value: string)
    ensures Words(Q(value)) == if NulFree(value) then Some([value]) else None
  {
    assert Q(value)[1..] == Escaped(value) + "'" && Q(value)[0] == '\'';
    assert Words(Q(value)) == Read(Escaped(value) + "'", [], Some(""), true);
    if NulFree(value) {
      EscapedReadsBack(value, "'", [], "");
      assert "" + value == value && "'"[1..] == "";
      assert Read("'", [], Some(value), true) == Read("", [], Some(value), false);
      assert Ended([], Some(value)) == [value];
    } else {
      EscapedNul(value, "'", [], "");
    }
  }

  // ---------- Building a command line ----------

  /** After this much of a command line, these words are complete and this one is open. */
  ghost predicate Reads(command: string, words: seq<string>, word: Option<string>)
  {
    forall rest :: Read(command + rest, [], None, false) == Read(rest, words, word, false)
  }

  lemma {:induction false} ReadsWhole(command: string, words: seq<string>, word: Option<string>)
    requires Reads(command, words, word)
    ensures Words(command) == Some(Ended(words, word))
  {
    assert command + "" == command;
  }

  predicate BareText(s: string)
  {
    forall k :: 0 <= k < |s| ==> Bare(s[k]) || s[k] == '='
  }

  lemma {:induction false} BareRun(s: string, rest: string, words: seq<string>, word: string)
    requires BareText(s) && (words != [] || '=' !in s)
    ensures Read(s + rest, words, Some(word), false) == Read(rest, words, Some(word + s), false)
  {
    if s == "" {
      assert s + rest == rest && word + s == word;
    } else {
      assert (s + rest)[1..] == s[1..] + rest;
      BareRun(s[1..], rest, words, word + [s[0]]);
      assert word + [s[0]] + s[1..] == word + s;
    }
  }

  lemma {:induction false} FirstWord(s: string)
    requires s != "" && BareText(s) && '=' !in s
    ensures Reads(s, [], Some(s))
  {
    forall rest
      ensures Read(s + rest, [], None, false) == Read(rest, [], Some(s), false)
    {
      assert (s + rest)[1..] == s[1..] + rest && (s + rest)[0] == s[0];
      assert "" + [s[0]] == [s[0]] && [s[0]] + s[1..] == s;
      assert Read(s + rest, [], None, false) == Read(s[1..] + rest, [], Some([s[0]]), false);
      BareRun(s[1..], rest, [], [s[0]]);
    }
  }

  lemma {:induction false} NextBareWord(command: string, words: seq<string>, word: string, s: string)
    requires Reads(command, words, Some(word)) && s != "" && BareText(s)
    ensures Reads(command + " " + s, words + [word], Some(s))
  {
    forall rest
      ensures Read(command + " " + s + rest, [], None, false) == Read(rest, words + [word], Some(s), false)
    {
      var tail := " " + s + rest;
      assert command + " " + s + rest == command + tail;
      assert tail[1..] == s + rest && (s + rest)[1..] == s[1..] + rest;
      assert "" + [s[0]] == [s[0]] && [s[0]] + s[1..] == s;
      assert Read(tail, words, Some(word), false) == Read(s + rest, words + [word], None, false);
      assert Read(s + rest, words + [word], None, false) == Read(s[1..] + rest, words + [word], Some([s[0]]), false);
      BareRun(s[1..], rest, words + [word], [s[0]]);
    }
  }

  /** A quoted value joins whatever the open word has so far. */
  lemma {:induction false} JoinedQuote(command: string, words: seq<string>, word: Option<string>, value: string)
    requires Reads(command, words, word) && NulFree(value)
    ensures Reads(command + Q(value), words, Some(word.Or("") + value))
  {
    forall rest
      ensures Read(command + Q(value) + rest, [], None, false) == Read(rest, words, Some(word.Or("") + value), false)
    {
      var tail := Q(value) + rest;
      assert command + Q(value) + rest == command + tail;
      assert tail[1..] == Escaped(value) + ("'" + rest);
      EscapedReadsBack(value, "'" + rest, words, word.Or(""));
      assert ("'" + rest)[1..] == rest;
    }
  }

  lemma {:induction false} ASpaceReads(command: string, words: seq<string>, word: string)
    requires Reads(command, words, Some(word))
    ensures Reads(command + " ", words + [word], None)
  {
    forall rest
      ensures Read(command + " " + rest, [], None, false) == Read(rest, words + [word], None, false)
    {
      assert command + " " + rest == command + (" " + rest) && (" " + rest)[1..] == rest;
    }
  }

  lemma {:induction false} NextQuotedWord(command: string, words: seq<string>, word: string, value: string)
    requires Reads(command, words, Some(word)) && NulFree(value)
    ensures Reads(command + " " + Q(value), words + [word], Some(value))
  {
    ASpaceReads(command, words, word);
    JoinedQuote(command + " ", words + [word], None, value);
    assert "" + value == value;
  }

  /** A flag and its quoted value. */
  lemma {:induction false} NextOption(command: string, words: seq<string>, word: string, flag: string, value: string)
    requires Reads(command, words, Some(word)) && flag != "" && BareText(flag) && NulFree(value)
    ensures Reads(command + (" " + flag + " " + Q(value)), words + [word] + [flag], Some(value))
  {
    hide Reads, Q;
    NextBareWord(command, words, word, flag);
    NextQuotedWord(command + " " + flag, words + [word], flag, value);
    assert command + " " + flag + " " + Q(value) == command + (" " + flag + " " + Q(value));
  }

  // ---------- The launch strings ----------

  datatype LaunchSpec = LaunchSpec(model: Option<string>, effort: Option<string>, session: Option<string>,
                                   provider: Option<string>, prompt: Option<string>)

  /** The prompt worth passing: not a blank one. */
  function PromptOf(spec: LaunchSpec): Option<string>
  {
    if spec.prompt.Some? && Trim(spec.prompt.value) != "" then Some(Trim(spec.prompt.value)) else None
  }

  predicate Given(value: Option<string>)
  {
    value.Some? && value.value != ""
  }

  predicate NoNul(value: Option<string>)
  {
    value.Some? ==> NulFree(value.value)
  }

  predicate NoNuls(spec: LaunchSpec)
  {
    NoNul(spec.model) && NoNul(spec.effort) && NoNul(spec.session) && NoNul(spec.provider) && NoNul(spec.prompt)
  }

  function Flagged(flag: string, value: Option<string>): seq<string>
  {
    if Given(value) then [flag, value.value] else []
  }

  const EFFORT := "model_reasoning_effort="

  /** The arguments meant for each agent. */
  function CodexArguments(spec: LaunchSpec): seq<string>
  {
    ["codex"] + Flagged("--model", spec.model)
    + (if Given(spec.effort) then ["-c", EFFORT + spec.effort.value] else [])
    + (if PromptOf(spec).Some? then [PromptOf(spec).value] else [])
  }

  function OpenCodeArguments(spec: LaunchSpec): seq<string>
  {
    ["opencode"] + Flagged("--model", spec.model) + Flagged("--prompt", PromptOf(spec))
  }

  function ChatArguments(program: string, spec: LaunchSpec): seq<string>
  {
    [program, "chat"] + Flagged("--provider", spec.provider) + Flagged("--model", spec.model)
    + Flagged("--session-id", spec.session) + Flagged("--prompt", PromptOf(spec))
  }

  lemma {:induction false} TrimKeepsNulFree(s: string)
    requires NulFree(s)
    ensures NulFree(Trim(s))
  {
    TrimStartKeeps(s);
    TrimEndKeeps(TrimStart(s));
  }

  lemma {:induction false} TrimStartKeeps(s: string)
    requires NulFree(s)
    ensures NulFree(TrimStart(s))
  {
    if s != "" && Whitespace(s[0]) { TrimStartKeeps(s[1..]); }
  }

  lemma {:induction false} TrimEndKeeps(s: string)
    requires NulFree(s)
    ensures NulFree(TrimEnd(s))
  {
    if s != "" && Whitespace(s[|s| - 1]) { TrimEndKeeps(s[..|s| - 1]); }
  }

  /** A command line that reads as these arguments, and can be added to. */
  ghost predicate Spells(command: string, arguments: seq<string>)
  {
    arguments != [] && Reads(command, arguments[..|arguments| - 1], Some(arguments[|arguments| - 1]))
  }

  lemma {:induction false} SpellsWords(command: string, arguments: seq<string>)
    requires Spells(command, arguments)
    ensures Words(command) == Some(arguments)
  {
    var n := |arguments| - 1;
    ReadsWhole(command, arguments[..n], Some(arguments[n]));
    assert arguments[..n] + [arguments[n]] == arguments;
  }

  lemma {:induction false} SpellsOption(command: string, arguments: seq<string>, flag: string, value: string)
    requires Spells(command, arguments) && flag != "" && BareText(flag) && NulFree(value)
    ensures Spells(command + (" " + flag + " " + Q(value)), arguments + [flag, value])
  {
    hide Reads, Q;
    var n := |arguments| - 1;
    NextOption(command, arguments[..n], arguments[n], flag, value);
    assert arguments[..n] + [arguments[n]] + [flag] == (arguments + [flag, value])[..n + 2];
  }

  lemma {:induction false} SpellsQuoted(command: string, arguments: seq<string>, value: string)
    requires Spells(command, arguments) && NulFree(value)
    ensures Spells(command + (" " + Q(value)), arguments + [value])
  {
    hide Reads, Q;
    var n := |arguments| - 1;
    NextQuotedWord(command, arguments[..n], arguments[n], value);
    assert arguments[..n] + [arguments[n]] == (arguments + [value])[..n + 1];
    assert command + " " + Q(value) == command + (" " + Q(value));
  }

  lemma {:induction false} SpellsBare(command: string, arguments: seq<string>, s: string)
    requires Spells(command, arguments) && s != "" && BareText(s)
    ensures Spells(command + (" " + s), arguments + [s])
  {
    hide Reads;
    var n := |arguments| - 1;
    NextBareWord(command, arguments[..n], arguments[n], s);
    assert arguments[..n] + [arguments[n]] == (arguments + [s])[..n + 1];
    assert command + " " + s == command + (" " + s);
  }

  /** The one word that joins a bare key and a quoted value. */
  lemma {:induction false} SpellsEffort(command: string, arguments: seq<string>, value: string)
    requires Spells(command, arguments) && NulFree(value)
    ensures Spells(command + (" -c " + EFFORT + Q(value)), arguments + ["-c", EFFORT + value])
  {
    hide Reads, Q;
    var n := |arguments| - 1;
    NextBareWord(command, arguments[..n], arguments[n], "-c");
    var words := arguments[..n] + [arguments[n]];
    NextBareWord(command + " " + "-c", words, "-c", EFFORT);
    var before := command + " " + "-c" + " " + EFFORT;
    JoinedQuote(before, words + ["-c"], Some(EFFORT), value);
    assert words + ["-c"] == (arguments + ["-c", EFFORT + value])[..n + 2];
    assert before + Q(value) == command + (" -c " + EFFORT + Q(value));
  }

  lemma {:induction false} SpellsProgram(program: string)
    requires NulFree(program)
    ensures Spells(Q(program), [program])
  {
    assert Reads("", [], None) by {
      assert forall rest: string :: "" + rest == rest;
    }
    JoinedQuote("", [], None, program);
    assert "" + Q(program) == Q(program) && "" + program == program;
  }

  lemma {:induction false} SpellsFirst(s: string)
    requires s != "" && BareText(s) && '=' !in s
    ensures Spells(s, [s])
  {
    FirstWord(s);
  }

  method CodexLaunch(spec: LaunchSpec) returns (command: string)
    ensures NoNuls(spec) ==> Words(command) == Some(CodexArguments(spec))
  {
    hide Spells, Q, Words, Trim;
    command := "codex";
    ghost var arguments := ["codex"];
    SpellsFirst(command);
    if Given(spec.model) {
      if NoNuls(spec) { SpellsOption(command, arguments, "--model", spec.model.value); }
      command := command + (" " + "--model" + " " + Q(spec.model.value));
      arguments := arguments + ["--model", spec.model.value];
    }
    if Given(spec.effort) {
      if NoNuls(spec) { SpellsEffort(command, arguments, spec.effort.value); }
      command := command + (" -c " + EFFORT + Q(spec.effort.value));
      arguments := arguments + ["-c", EFFORT + spec.effort.value];
    }
    var prompt := PromptOf(spec);
    if prompt.Some? {
      if NoNuls(spec) {
        TrimKeepsNulFree(spec.prompt.value);
        SpellsQuoted(command, arguments, prompt.value);
      }
      command := command + (" " + Q(prompt.value));
      arguments := arguments + [prompt.value];
    }
    if NoNuls(spec) { SpellsWords(command, arguments); }
    assert arguments == CodexArguments(spec);
  }

  /** Appends one option when there is a value for it. */
  method PushOption(command: string, ghost arguments: seq<string>, flag: string, value: Option<string>)
    returns (longer: string)
    requires NoNul(value) ==> flag != "" && BareText(flag)
    ensures Spells(command, arguments) && NoNul(value) ==> Spells(longer, arguments + Flagged(flag, value))
  {
    hide Spells, Q;
    longer := command;
    if Given(value) {
      if Spells(command, arguments) && NoNul(value) { SpellsOption(command, arguments, flag, value.value); }
      longer := command + (" " + flag + " " + Q(value.value));
    } else {
      assert arguments + [] == arguments;
    }
  }

  lemma {:induction false} PromptHasNoNul(spec: LaunchSpec)
    requires NoNuls(spec)
    ensures NoNul(PromptOf(spec))
  {
    if spec.prompt.Some? { TrimKeepsNulFree(spec.prompt.value); }
  }

  method OpenCodeLaunch(spec: LaunchSpec) returns (command: string)
    ensures NoNuls(spec) ==> Words(command) == Some(OpenCodeArguments(spec))
  {
    hide Spells, Words, Trim, PromptOf;
    command := "opencode";
    SpellsFirst(command);
    if NoNuls(spec) { PromptHasNoNul(spec); }
    command := PushOption(command, ["opencode"], "--model", spec.model);
    ghost var arguments := ["opencode"] + Flagged("--model", spec.model);
    command := PushOption(command, arguments, "--prompt", PromptOf(spec));
    if NoNuls(spec) { SpellsWords(command, arguments + Flagged("--prompt", PromptOf(spec))); }
  }

  method ChatLaunch(program: string, spec: LaunchSpec) returns (command: string)
    ensures NoNuls(spec) && NulFree(program) ==> Words(command) == Some(ChatArguments(program, spec))
  {
    hide Spells, Words, Trim, PromptOf, Q;
    command := Q(program) + (" " + "chat");
    ghost var arguments := [program, "chat"];
    ghost var fine := NoNuls(spec) && NulFree(program);
    if fine {
      PromptHasNoNul(spec);
      SpellsProgram(program);
      SpellsBare(Q(program), [program], "chat");
      assert [program] + ["chat"] == arguments;
    }
    command := PushOption(command, arguments, "--provider", spec.provider);
    arguments := arguments + Flagged("--provider", spec.provider);
    command := PushOption(command, arguments, "--model", spec.model);
    arguments := arguments + Flagged("--model", spec.model);
    command := PushOption(command, arguments, "--session-id", spec.session);
    arguments := arguments + Flagged("--session-id", spec.session);
    command := PushOption(command, arguments, "--prompt", PromptOf(spec));
    arguments := arguments + Flagged("--prompt", PromptOf(spec));
    if fine { SpellsWords(command, arguments); }
  }

  // ---------- What is passed ----------

  /** A prompt is passed exactly when it is not blank, and then without the white space around it. */
  lemma {:induction false} PromptExactly(spec: LaunchSpec) returns (left: string, right: string)
    ensures PromptOf(spec).Some? <==> spec.prompt.Some? && !Blank(spec.prompt.value)
    ensures PromptOf(spec).Some? ==>
              && spec.prompt.value == left + PromptOf(spec).value + right
              && Blank(left) && Blank(right) && Tight(PromptOf(spec).value)
  {
    left, right := "", "";
    if spec.prompt.Some? {
      left, right := TrimExactly(spec.prompt.value);
      var s := spec.prompt.value;
      assert Trim(s) == "" ==> s == left + right;
      if Trim(s) != "" {
        assert s[|left|] == Trim(s)[0];
      }
    }
  }

  /** The whole argument lists, with everything given and with nothing given. */
  lemma {:induction false} ArgumentsSpelledOut(program: string, spec: LaunchSpec)
    ensures Given(spec.model) && Given(spec.effort) && PromptOf(spec).Some? ==>
              CodexArguments(spec)
              == ["codex", "--model", spec.model.value, "-c", "model_reasoning_effort=" + spec.effort.value, PromptOf(spec).value]
    ensures Given(spec.model) && PromptOf(spec).Some? ==>
              OpenCodeArguments(spec) == ["opencode", "--model", spec.model.value, "--prompt", PromptOf(spec).value]
    ensures Given(spec.provider) && Given(spec.model) && Given(spec.session) && PromptOf(spec).Some? ==>
              ChatArguments(program, spec)
              == [program, "chat", "--provider", spec.provider.value, "--model", spec.model.value,
                  "--session-id", spec.session.value, "--prompt", PromptOf(spec).value]
    ensures !Given(spec.model) && !Given(spec.effort) && PromptOf(spec).None? ==> CodexArguments(spec) == ["codex"]
    ensures !Given(spec.model) && PromptOf(spec).None? ==> OpenCodeArguments(spec) == ["opencode"]
    ensures !Given(spec.provider) && !Given(spec.model) && !Given(spec.session) && PromptOf(spec).None? ==>
              ChatArguments(program, spec) == [program, "chat"]
  {
    hide Trim;
    assert PromptOf(spec).Some? ==> PromptOf(spec).value != "" by { PromptIsNotEmpty(spec); }
  }

  lemma {:induction false} PromptIsNotEmpty(spec: LaunchSpec)
    ensures PromptOf(spec).Some? ==> PromptOf(spec).value != ""
  {
  }
}
