/** The conversation handed to a second agent or a phone (src-tauri/src/detail.rs, conversation_sync and
    conversation_rich_sync): merge what one speaker said in a row, then keep the opening turn and the newest that fit. */
module Conversation {
  import opened Basics
  import opened RichBound
  import opened Text

  const BREAK: seq<byte> := [10, 10]
  const EARLIER := Turn("system", Ascii("[") + MARKER + Ascii(" earlier turns omitted for length ") + MARKER + Ascii("]"))

  // ---------- Merging ----------

  /** The rich conversation joins only these; the plain one joins every role. */
  predicate JoinsInRich(role: string)
  {
    role == "user" || role == "assistant" || role == "thinking"
  }

  function Joined(merged: seq<Turn>, turn: Turn, joins: string -> bool): seq<Turn>
  {
    var n := |merged|;
    if n > 0 && merged[n - 1].role == turn.role && joins(turn.role)
    then merged[..n - 1] + [Turn(turn.role, merged[n - 1].text + BREAK + turn.text)]
    else merged + [turn]
  }

  function Merged(turns: seq<Turn>, joins: string -> bool): seq<Turn>
  {
    if turns == [] then []
    else Joined(Merged(turns[..|turns| - 1], joins), turns[|turns| - 1], joins)
  }

  method Merge(turns: seq<Turn>, joins: string -> bool) returns (merged: seq<Turn>)
    ensures merged == Merged(turns, joins)
  {
    merged := [];
    for i := 0 to |turns|
      invariant merged == Merged(turns[..i], joins)
    {
      assert turns[..i + 1][..i] == turns[..i];
      var n := |merged|;
      if n > 0 && merged[n - 1].role == turns[i].role && joins(turns[i].role) {
        merged := merged[n - 1 := merged[n - 1].(text := merged[n - 1].text + BREAK + turns[i].text)];
      } else {
        merged := merged + [turns[i]];
      }
    }
    assert turns[..|turns|] == turns;
  }

  predicate Alternates(turns: seq<Turn>, joins: string -> bool)
  {
    forall k :: 0 < k < |turns| ==> !(turns[k - 1].role == turns[k].role && joins(turns[k].role))
  }

  /** No two turns in a row are left to join. */
  lemma {:induction false} MergedAlternates(turns: seq<Turn>, joins: string -> bool)
    ensures Alternates(Merged(turns, joins), joins)
  {
    if turns != [] {
      MergedAlternates(turns[..|turns| - 1], joins);
    }
  }

  /** What a role said, with a break before each of its turns. */
  function Said(turns: seq<Turn>, role: string): seq<byte>
  {
    if turns == [] then []
    else
      var last := turns[|turns| - 1];
      Said(turns[..|turns| - 1], role) + if last.role == role then BREAK + last.text else []
  }

  lemma {:induction false} SaidSnoc(turns: seq<Turn>, last: Turn, role: string)
    ensures Said(turns + [last], role) == Said(turns, role) + if last.role == role then BREAK + last.text else []
  {
    assert (turns + [last])[..|turns|] == turns;
  }

  /** Joining a turn to the one before it says what both said. */
  lemma {:induction false} JoinedSaysBoth(merged: seq<Turn>, turn: Turn, joins: string -> bool, role: string)
    ensures Said(Joined(merged, turn, joins), role) == Said(merged, role) + if turn.role == role then BREAK + turn.text else []
  {
    hide Said;
    var n := |merged|;
    SaidSnoc(merged, turn, role);
    if n > 0 && merged[n - 1].role == turn.role && joins(turn.role) {
      var front, last := merged[..n - 1], merged[n - 1];
      assert merged == front + [last];
      SaidSnoc(front, last, role);
      SaidSnoc(front, Turn(turn.role, last.text + BREAK + turn.text), role);
      Regrouped(Said(front, role), BREAK, last.text, BREAK, turn.text);
    }
  }

  lemma {:induction false} Regrouped(front: seq<byte>, a: seq<byte>, b: seq<byte>, c: seq<byte>, d: seq<byte>)
    ensures front + (a + (b + c + d)) == front + (a + b) + (c + d)
  {
  }

  /** Merging loses and reorders nothing that anyone said. */
  lemma {:induction false} MergedSaysTheSame(turns: seq<Turn>, joins: string -> bool, role: string)
    ensures Said(Merged(turns, joins), role) == Said(turns, role)
  {
    hide Joined;
    if turns != [] {
      var init, turn := turns[..|turns| - 1], turns[|turns| - 1];
      MergedSaysTheSame(init, joins, role);
      JoinedSaysBoth(Merged(init, joins), turn, joins, role);
    }
  }

  lemma {:induction false} MergedSnoc(turns: seq<Turn>, turn: Turn, joins: string -> bool)
    ensures Merged(turns + [turn], joins) == Joined(Merged(turns, joins), turn, joins)
  {
    hide Joined;
    assert (turns + [turn])[..|turns|] == turns;
  }

  /** The turns of the roles that are never joined. */
  function Apart(turns: seq<Turn>, joins: string -> bool): seq<Turn>
  {
    if turns == [] then []
    else
      var last := turns[|turns| - 1];
      Apart(turns[..|turns| - 1], joins) + if joins(last.role) then [] else [last]
  }

  lemma {:induction false} ApartSnoc(turns: seq<Turn>, last: Turn, joins: string -> bool)
    ensures Apart(turns + [last], joins) == Apart(turns, joins) + if joins(last.role) then [] else [last]
  {
    assert (turns + [last])[..|turns|] == turns;
  }

  lemma {:induction false} MergedKeepsApart(turns: seq<Turn>, joins: string -> bool)
    ensures Apart(Merged(turns, joins), joins) == Apart(turns, joins)
  {
    hide Apart;
    if turns == [] {
    } else {
      var init, turn := turns[..|turns| - 1], turns[|turns| - 1];
      assert turns == init + [turn];
      MergedKeepsApart(init, joins);
      ApartSnoc(init, turn, joins);
      var merged := Merged(init, joins);
      var n := |merged|;
      if n > 0 && merged[n - 1].role == turn.role && joins(turn.role) {
        assert merged == merged[..n - 1] + [merged[n - 1]];
        ApartSnoc(merged[..n - 1], merged[n - 1], joins);
        ApartSnoc(merged[..n - 1], Turn(turn.role, merged[n - 1].text + BREAK + turn.text), joins);
      } else {
        ApartSnoc(merged, turn, joins);
      }
    }
  }

  /** Tool calls stay separate turns, unchanged and in order; only what was said or thought in a row is joined. */
  lemma {:induction false} ToolTurnsStayApart(turns: seq<Turn>)
    ensures Apart(Merged(turns, JoinsInRich), JoinsInRich) == Apart(turns, JoinsInRich)
    ensures forall k :: 0 < k < |Merged(turns, JoinsInRich)| && Merged(turns, JoinsInRich)[k - 1].role == Merged(turns, JoinsInRich)[k].role ==>
              !JoinsInRich(Merged(turns, JoinsInRich)[k].role)
  {
    MergedKeepsApart(turns, JoinsInRich);
    MergedAlternates(turns, JoinsInRich);
  }

  function OfRole(turns: seq<Turn>, role: string): seq<Turn>
  {
    if turns == [] then []
    else
      var last := turns[|turns| - 1];
      OfRole(turns[..|turns| - 1], role) + if last.role == role then [last] else []
  }

  lemma {:induction false} OfRoleSnoc(turns: seq<Turn>, last: Turn, role: string)
    ensures OfRole(turns + [last], role) == OfRole(turns, role) + if last.role == role then [last] else []
  {
    assert (turns + [last])[..|turns|] == turns;
  }

  lemma {:induction false} JoinedOfRole(merged: seq<Turn>, turn: Turn, joins: string -> bool, role: string)
    requires !joins(role)
    ensures OfRole(Joined(merged, turn, joins), role) == OfRole(merged, role) + if turn.role == role then [turn] else []
  {
    hide OfRole;
    OfRoleSnoc(merged, turn, role);
    var n := |merged|;
    if n > 0 && merged[n - 1].role == turn.role && joins(turn.role) {
      assert merged == merged[..n - 1] + [merged[n - 1]];
      OfRoleSnoc(merged[..n - 1], merged[n - 1], role);
      OfRoleSnoc(merged[..n - 1], Turn(turn.role, merged[n - 1].text + BREAK + turn.text), role);
    }
  }

  /** In the rich conversation the turns of every role but the user's, the assistant's and thinking are as they were, and of
      these three no two in a row are one speaker's. */
  lemma {:induction false} OnlySpeechIsJoined(turns: seq<Turn>, role: string)
    ensures var merged := Merged(turns, JoinsInRich);
            if role == "user" || role == "assistant" || role == "thinking" then
              forall k :: 0 < k < |merged| ==> !(merged[k - 1].role == role && merged[k].role == role)
            else OfRole(merged, role) == OfRole(turns, role)
  {
    hide Joined;
    MergedAlternates(turns, JoinsInRich);
    if turns != [] && !JoinsInRich(role) {
      var init, turn := turns[..|turns| - 1], turns[|turns| - 1];
      OnlySpeechIsJoined(init, role);
      JoinedOfRole(Merged(init, JoinsInRich), turn, JoinsInRich, role);
    }
  }

  /** Merging in steps is merging at once. */
  lemma {:induction false} MergedIsIncremental(a: seq<Turn>, b: seq<Turn>, joins: string -> bool)
    ensures Merged(Merged(a, joins) + b, joins) == Merged(a + b, joins)
  {
    hide Merged, Joined;
    var merged := Merged(a, joins);
    if b == [] {
      assert a + b == a && merged + b == merged;
      MergedAlternates(a, joins);
      AlternatingIsMerged(merged, joins);
    } else {
      var init, last := b[..|b| - 1], b[|b| - 1];
      assert b == init + [last];
      assert a + b == a + init + [last] && merged + b == merged + init + [last];
      MergedIsIncremental(a, init, joins);
      MergedSnoc(a + init, last, joins);
      MergedSnoc(merged + init, last, joins);
    }
  }

  lemma {:induction false} AlternatingIsMerged(turns: seq<Turn>, joins: string -> bool)
    requires Alternates(turns, joins)
    ensures Merged(turns, joins) == turns
  {
    if turns != [] {
      var n := |turns|;
      AlternatingIsMerged(turns[..n - 1], joins);
      assert turns[..n - 1] + [turns[n - 1]] == turns;
    }
  }

  // ---------- Trimming ----------

  function Rest(first: Turn, max: nat): nat
  {
    if max < |first.text| then 0 else max - |first.text|
  }

  function Trimmed(merged: seq<Turn>, max: nat): seq<Turn>
  {
    if Total(merged) <= max || |merged| < 3 then merged
    else [merged[0], EARLIER] + Tail(merged[1..], Rest(merged[0], max))
  }

  method Trim(merged: seq<Turn>, max: nat) returns (r: seq<Turn>)
    ensures r == Trimmed(merged, max)
  {
    if Total(merged) <= max || |merged| < 3 {
      return merged;
    }
    var tail := NewestThatFit(merged, 1, Rest(merged[0], max));
    r := [merged[0], EARLIER] + tail;
  }

  /** A trimmed conversation opens as it did, ends with its k newest turns, and is within the budget but for the marker
      and an opening turn too long by itself; one more turn would not have fitted. */
  lemma {:induction false} TrimmedKeepsBothEnds(merged: seq<Turn>, max: nat) returns (k: nat)
    requires Total(merged) > max && |merged| >= 3
    ensures k < |merged| && Trimmed(merged, max) == [merged[0], EARLIER] + merged[|merged| - k..]
    ensures |merged[0].text| <= max ==> |merged[0].text| + Total(merged[|merged| - k..]) <= max
    ensures |merged[0].text| > max ==> Total(merged[|merged| - k..]) == 0
    ensures k < |merged| - 1 ==> Rest(merged[0], max) < Total(merged[|merged| - k..]) + |merged[|merged| - k - 1].text|
  {
    var rest := merged[1..];
    var start := TailIsLongest(rest, Rest(merged[0], max));
    k := |rest| - start;
    assert rest[start..] == merged[|merged| - k..];
    assert start > 0 ==> rest[start - 1] == merged[|merged| - k - 1];
  }

  /** The marker stands where nothing was left out only when the opening turn is too long by itself and nobody said
      anything after it. */
  lemma {:induction false} TheMarkerIsHonest(merged: seq<Turn>, max: nat)
    requires Total(merged) > max && |merged| >= 3
    ensures |Trimmed(merged, max)| <= |merged| <==> |merged[0].text| <= max || Total(merged[1..]) > 0
  {
    hide Trimmed, Tail;
    var k := TrimmedKeepsBothEnds(merged, max);
    var rest := merged[1..];
    var start := |rest| - k;
    assert merged == [merged[0]] + rest && [merged[0]][..0] == [];
    TotalAppend([merged[0]], rest);
    assert rest == rest[..start] + rest[start..];
    TotalAppend(rest[..start], rest[start..]);
    assert merged[|merged| - k..] == rest[start..];
    assert start > 0 ==> merged[|merged| - k - 1] == rest[..start][start - 1];
  }

  /** Every turn says something. */
  predicate Spoken(turns: seq<Turn>)
  {
    forall k :: 0 <= k < |turns| ==> turns[k].text != []
  }

  lemma {:induction false} MergedIsSpoken(turns: seq<Turn>, joins: string -> bool)
    requires Spoken(turns)
    ensures Spoken(Merged(turns, joins))
  {
    if turns != [] {
      MergedIsSpoken(turns[..|turns| - 1], joins);
    }
  }

  /** That never happens: blank turns are dropped before merging, so a marker always stands for turns left out. */
  lemma {:induction false} TheMarkerStandsForTurns(turns: seq<Turn>, joins: string -> bool, max: nat) returns (k: nat)
    requires Spoken(turns)
    ensures var merged := Merged(turns, joins);
            Trimmed(merged, max) == merged
            || (k < |merged| - 1 && Trimmed(merged, max) == [merged[0], EARLIER] + merged[|merged| - k..])
  {
    hide Merged, Tail;
    MergedIsSpoken(turns, joins);
    var merged := Merged(turns, joins);
    k := 0;
    if Total(merged) > max && |merged| >= 3 {
      TheMarkerIsHonest(merged, max);
      k := TrimmedKeepsBothEnds(merged, max);
      assert merged[1..][|merged| - 2] == merged[|merged| - 1];
    }
  }

  /** A conversation that fits, or is too short to trim, comes back whole; in any other the marker is second. */
  lemma {:induction false} TrimsExactlyWhenTooLong(merged: seq<Turn>, max: nat)
    ensures Total(merged) <= max || |merged| < 3 ==> Trimmed(merged, max) == merged
    ensures Total(merged) > max && |merged| >= 3 ==>
              |Trimmed(merged, max)| >= 2 && Trimmed(merged, max)[0] == merged[0] && Trimmed(merged, max)[1] == EARLIER
  {
  }
}
