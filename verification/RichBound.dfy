/** Bounding a cached transcript by its text (src-tauri/src/detail.rs): cap and bound_cached_rich_turns.
    Text is its UTF-8 bytes, since the source counts and cuts bytes. */
module RichBound {
  import opened Basics
  import opened Text

  datatype Turn = Turn(role: string, text: seq<byte>)

  const TEXT_LIMIT: nat := 2_097_152
  const FIRST_LIMIT: nat := 65_536

  /** The three bytes of the ellipsis. */
  const MARKER: seq<byte> := [0xE2, 0x80, 0xA6]

  const OMISSION: seq<byte> := Ascii("[") + MARKER + Ascii(" older rich activity omitted from cache ") + MARKER + Ascii("]")
  const OMITTED := Turn("system", OMISSION)

  // ---------- cap ----------

  predicate Boundary(text: seq<byte>, k: nat)
    requires k <= |text|
  {
    k == 0 || k == |text| || !(128 <= text[k] < 192)
  }

  /** The last character boundary at or before k. */
  function CutAt(text: seq<byte>, k: nat): (c: nat)
    requires k <= |text|
    ensures c <= k && Boundary(text, c) && forall j :: c < j <= k ==> !Boundary(text, j)
  {
    if Boundary(text, k) then k else CutAt(text, k - 1)
  }

  function Capped(text: seq<byte>, max: nat): seq<byte>
  {
    if |text| <= max then text
    else text[..CutAt(text, if max < 3 then 0 else max - 3)] + MARKER
  }

  method Cap(text: seq<byte>, max: nat) returns (r: seq<byte>)
    ensures r == Capped(text, max)
    ensures max >= 3 ==> |r| <= max
    ensures |text| > max ==> r[|r| - 3..] == MARKER && r[..|r| - 3] <= text && Boundary(text, |r| - 3)
    ensures |text| > max && max >= 3 ==> forall j :: |r| - 3 < j <= max - 3 ==> !Boundary(text, j)
  {
    if |text| <= max {
      return text;
    }
    var limit: nat := if max < 3 then 0 else max - 3;
    var end: nat := limit;
    while !Boundary(text, end)
      invariant end <= limit && CutAt(text, end) == CutAt(text, limit)
      decreases end
    {
      end := end - 1;
    }
    r := text[..end] + MARKER;
  }

  // ---------- The longest tail within a budget ----------

  function Total(turns: seq<Turn>): nat
  {
    if turns == [] then 0
    else Total(turns[..|turns| - 1]) + |turns[|turns| - 1].text|
  }

  function Tail(turns: seq<Turn>, budget: nat): seq<Turn>
  {
    if turns == [] then []
    else
      var turn := turns[|turns| - 1];
      if |turn.text| > budget then []
      else Tail(turns[..|turns| - 1], budget - |turn.text|) + [turn]
  }

  lemma {:induction false} TotalAppend(a: seq<Turn>, b: seq<Turn>)
    ensures Total(a + b) == Total(a) + Total(b)
  {
    if b == [] {
      assert a + b == a;
    } else {
      assert (a + b)[..|a + b| - 1] == a + b[..|b| - 1];
      TotalAppend(a, b[..|b| - 1]);
    }
  }

  lemma {:induction false} OneTotal(turn: Turn)
    ensures Total([turn]) == |turn.text|
  {
    assert [turn][..0] == [];
  }

  /** Tail is a suffix that fits, and no longer suffix does: the turn before it is too long. */
  lemma {:induction false} TailIsLongest(turns: seq<Turn>, budget: nat) returns (k: nat)
    ensures k <= |turns| && Tail(turns, budget) == turns[k..] && Total(turns[k..]) <= budget
    ensures k > 0 ==> Total(turns[k..]) + |turns[k - 1].text| > budget
  {
    hide Total;
    NoTurns();
    if turns == [] || |turns[|turns| - 1].text| > budget {
      k := |turns|;
      assert turns[k..] == [];
    } else {
      var init, last := turns[..|turns| - 1], turns[|turns| - 1];
      k := TailIsLongest(init, budget - |last.text|);
      assert turns[k..] == init[k..] + [last];
      TotalAppend(init[k..], [last]);
      OneTotal(last);
    }
  }

  lemma {:induction false} NoTurns()
    ensures Total([]) == 0
  {
  }

  /** A tail that still fits with more turns after it stays the tail. */
  lemma {:induction false} TailGrows(a: seq<Turn>, b: seq<Turn>, budget: nat)
    requires Total(Tail(a, budget) + b) <= budget
    ensures Tail(a + b, budget) == Tail(a, budget) + b
  {
    hide Tail, Total;
    TotalAppend(Tail(a, budget), b);
    TailAfter(a, b, budget);
    TailTwice(a, budget - Total(b), budget);
  }

  /** The newest turns are taken first. */
  lemma {:induction false} TailAfter(a: seq<Turn>, b: seq<Turn>, budget: nat)
    requires Total(b) <= budget
    ensures Tail(a + b, budget) == Tail(a, budget - Total(b)) + b
  {
    if b == [] {
      assert a + b == a;
      assert Tail(a, budget) + b == Tail(a, budget);
    } else {
      var init, last := b[..|b| - 1], b[|b| - 1];
      assert (a + b)[..|a + b| - 1] == a + init;
      TailAfter(a, init, budget - |last.text|);
      assert init + [last] == b;
      assert Tail(a, budget - Total(b)) + init + [last] == Tail(a, budget - Total(b)) + b;
    }
  }

  /** A smaller budget that the tail fits gives the same tail. */
  lemma {:induction false} TailTwice(a: seq<Turn>, small: nat, budget: nat)
    requires Total(Tail(a, budget)) <= small <= budget
    ensures Tail(a, small) == Tail(a, budget)
  {
    if a != [] && |a[|a| - 1].text| <= budget {
      var init, last := a[..|a| - 1], a[|a| - 1];
      var rest := Tail(init, budget - |last.text|);
      TotalAppend(rest, [last]);
      assert Total([last]) == |last.text|;
      TailTwice(init, small - |last.text|, budget - |last.text|);
    }
  }

  /** Once the newest turns are too much, what came before them does not matter. */
  lemma {:induction false} TailForgets(before: seq<Turn>, b: seq<Turn>, budget: nat)
    requires Total(b) > budget
    ensures Tail(before + b, budget) == Tail(b, budget)
  {
    var init, last := b[..|b| - 1], b[|b| - 1];
    assert (before + b)[..|before + b| - 1] == before + init;
    if |last.text| <= budget {
      TailForgets(before, init, budget - |last.text|);
    }
  }

  // ---------- bound_cached_rich_turns ----------

  /** The index of the first real prompt, or the length when there is none. */
  function FirstReal(turns: seq<Turn>, prompt: seq<byte> -> bool): (k: nat)
    ensures k <= |turns| && (k < |turns| ==> prompt(turns[k].text))
    ensures forall j :: 0 <= j < k ==> !prompt(turns[j].text)
  {
    if turns == [] || prompt(turns[0].text) then 0 else 1 + FirstReal(turns[1..], prompt)
  }

  function CappedTurn(turn: Turn): Turn
  {
    turn.(text := Capped(turn.text, FIRST_LIMIT))
  }

  function Bound(turns: seq<Turn>, prompt: seq<byte> -> bool): seq<Turn>
  {
    if Total(turns) <= TEXT_LIMIT then turns
    else
      var f := FirstReal(turns, prompt);
      if f < |turns| then
        [CappedTurn(turns[f]), OMITTED] + Tail(turns[f + 1..], Budget(turns[f]))
      else
        [OMITTED] + Tail(turns, TEXT_LIMIT - |OMISSION|)
  }

  function Budget(first: Turn): nat
  {
    TEXT_LIMIT - |CappedTurn(first).text| - |OMISSION|
  }

  method FindReal(turns: seq<Turn>, prompt: seq<byte> -> bool) returns (k: nat)
    ensures k == FirstReal(turns, prompt)
  {
    k := 0;
    while k < |turns| && !prompt(turns[k].text)
      invariant k <= |turns| && FirstReal(turns, prompt) == k + FirstReal(turns[k..], prompt)
    {
      assert turns[k..][1..] == turns[k + 1..];
      k := k + 1;
    }
  }

  /** The reverse loop: newest turns first, back to index low, until one is too long for what is left. */
  method NewestThatFit(turns: seq<Turn>, low: nat, whole: nat) returns (tail: seq<Turn>)
    requires low <= |turns|
    ensures tail == Tail(turns[low..], whole)
  {
    var budget: nat := whole;
    var i := |turns|;
    tail := [];
    assert turns[low..] == turns[low..i];
    while i > low && |turns[i - 1].text| <= budget
      invariant low <= i <= |turns|
      invariant Tail(turns[low..], whole) == Tail(turns[low..i], budget) + tail
    {
      var span := turns[low..i];
      assert span[..|span| - 1] == turns[low..i - 1] && span[|span| - 1] == turns[i - 1];
      budget := budget - |turns[i - 1].text|;
      tail := [turns[i - 1]] + tail;
      i := i - 1;
    }
    assert turns[low..i] != [] ==> turns[low..i][i - low - 1] == turns[i - 1];
  }

  method BoundTurns(turns: seq<Turn>, prompt: seq<byte> -> bool) returns (r: seq<Turn>)
    ensures r == Bound(turns, prompt)
  {
    hide Capped, Tail;
    if Total(turns) <= TEXT_LIMIT {
      return turns;
    }
    var f := FindReal(turns, prompt);
    if f < |turns| {
      var text := Cap(turns[f].text, FIRST_LIMIT);
      var tail := NewestThatFit(turns, f + 1, TEXT_LIMIT - (|text| + |OMISSION|));
      r := [Turn(turns[f].role, text), OMITTED] + tail;
    } else {
      var tail := NewestThatFit(turns, 0, TEXT_LIMIT - |OMISSION|);
      assert turns[0..] == turns;
      r := [OMITTED] + tail;
    }
  }

  /** What a transcript that overflows keeps at its front. */
  function Front(turns: seq<Turn>, prompt: seq<byte> -> bool): seq<Turn>
  {
    var f := FirstReal(turns, prompt);
    if f < |turns| then [CappedTurn(turns[f]), OMITTED] else [OMITTED]
  }

  lemma {:induction false} FrontTotal(turns: seq<Turn>, prompt: seq<byte> -> bool)
    ensures var f := FirstReal(turns, prompt);
            Total(Front(turns, prompt)) + (if f < |turns| then Budget(turns[f]) else TEXT_LIMIT - |OMISSION|) == TEXT_LIMIT
  {
    hide Total, Capped;
    var f := FirstReal(turns, prompt);
    if f < |turns| { PairTotal(CappedTurn(turns[f]), OMITTED); } else { OneTotal(OMITTED); }
  }

  lemma {:induction false} BoundParts(turns: seq<Turn>, prompt: seq<byte> -> bool)
    requires Total(turns) > TEXT_LIMIT
    ensures var f := FirstReal(turns, prompt);
            Bound(turns, prompt)
            == Front(turns, prompt)
               + if f < |turns| then Tail(turns[f + 1..], Budget(turns[f])) else Tail(turns, TEXT_LIMIT - |OMISSION|)
  {
    hide Total, Tail, Capped;
  }

  /** A suffix behind index low that fits beside the front, and no longer one does. */
  ghost predicate LongestBehind(turns: seq<Turn>, low: nat, k: nat, front: seq<Turn>)
  {
    && low <= k <= |turns| && Total(front) + Total(turns[k..]) <= TEXT_LIMIT
    && (k > low ==> Total(front) + Total(turns[k..]) + |turns[k - 1].text| > TEXT_LIMIT)
  }

  lemma {:induction false} LongestIs(turns: seq<Turn>, low: nat, budget: nat, front: seq<Turn>) returns (k: nat)
    requires low <= |turns| && Total(front) + budget == TEXT_LIMIT
    ensures LongestBehind(turns, low, k, front) && Tail(turns[low..], budget) == turns[k..]
  {
    hide Total, Tail;
    k := TailIsLongest(turns[low..], budget);
    assert turns[low..][k..] == turns[low + k..];
    k := low + k;
  }

  /** A transcript that overflows keeps its first real prompt, capped, the marker, and the newest turns behind that prompt
      that fit with both; one more would not. Without a real prompt it keeps the marker and the newest that fit. */
  lemma {:induction false} OverflowKeepsBothEnds(turns: seq<Turn>, prompt: seq<byte> -> bool) returns (k: nat)
    requires Total(turns) > TEXT_LIMIT
    ensures var f := FirstReal(turns, prompt);
            LongestBehind(turns, if f < |turns| then f + 1 else 0, k, Front(turns, prompt))
            && Bound(turns, prompt) == Front(turns, prompt) + turns[k..]
  {
    hide *;
    var f := FirstReal(turns, prompt);
    FrontTotal(turns, prompt);
    BoundParts(turns, prompt);
    if f < |turns| {
      k := LongestIs(turns, f + 1, Budget(turns[f]), Front(turns, prompt));
    } else {
      OmissionFits();
      assert turns[0..] == turns;
      k := LongestIs(turns, 0, TEXT_LIMIT - |OMISSION|, Front(turns, prompt));
    }
    LongestInside(turns, if f < |turns| then f + 1 else 0, k, Front(turns, prompt));
  }

  lemma {:induction false} OmissionFits()
    ensures |OMISSION| <= TEXT_LIMIT
  {
  }

  lemma {:induction false} LongestInside(turns: seq<Turn>, low: nat, k: nat, front: seq<Turn>)
    requires LongestBehind(turns, low, k, front)
    ensures k <= |turns|
  {
  }

  // ---------- Transparency ----------

  /** Bounding these turns loses nothing that a later bounding needs: they fit, or there is a first real prompt that
      is still taken for one once capped. */
  predicate Anchored(turns: seq<Turn>, prompt: seq<byte> -> bool)
  {
    Total(turns) <= TEXT_LIMIT
    || (var f := FirstReal(turns, prompt);
        f < |turns| && prompt(CappedTurn(turns[f]).text))
  }

  lemma {:induction false} CappedFits(turn: Turn)
    ensures |CappedTurn(turn).text| <= FIRST_LIMIT
    ensures CappedTurn(CappedTurn(turn)) == CappedTurn(turn)
  {
  }

  /** The bound is a bound, and bounding twice is bounding once. */
  lemma {:induction false} BoundFits(turns: seq<Turn>, prompt: seq<byte> -> bool)
    ensures Total(Bound(turns, prompt)) <= TEXT_LIMIT
    ensures Bound(Bound(turns, prompt), prompt) == Bound(turns, prompt)
  {
    hide Capped;
    if Total(turns) > TEXT_LIMIT {
      var f := FirstReal(turns, prompt);
      var head := if f < |turns| then [CappedTurn(turns[f]), OMITTED] else [OMITTED];
      var rest := if f < |turns| then turns[f + 1..] else turns;
      var budget := if f < |turns| then Budget(turns[f]) else TEXT_LIMIT - |OMISSION|;
      if f < |turns| {
        CappedFits(turns[f]);
        PairTotal(CappedTurn(turns[f]), OMITTED);
      } else {
        assert head[..0] == [];
      }
      var k := TailIsLongest(rest, budget);
      TotalAppend(head, Tail(rest, budget));
    }
  }

  lemma {:induction false} PairTotal(a: Turn, b: Turn)
    ensures Total([a, b]) == |a.text| + |b.text|
  {
    TotalAppend([a], [b]);
    assert [a, b] == [a] + [b] && [a][..0] == [] && [b][..0] == [];
  }

  lemma {:induction false} FirstRealAppend(a: seq<Turn>, b: seq<Turn>, prompt: seq<byte> -> bool)
    ensures FirstReal(a + b, prompt) == if FirstReal(a, prompt) < |a| then FirstReal(a, prompt) else |a| + FirstReal(b, prompt)
  {
    if a == [] {
      assert a + b == b;
    } else if !prompt(a[0].text) {
      assert (a + b)[1..] == a[1..] + b;
      FirstRealAppend(a[1..], b, prompt);
    }
  }

  lemma {:induction false} BoundOver(turns: seq<Turn>, f: nat, prompt: seq<byte> -> bool)
    requires Total(turns) > TEXT_LIMIT && FirstReal(turns, prompt) == f < |turns|
    ensures Bound(turns, prompt) == [CappedTurn(turns[f]), OMITTED] + Tail(turns[f + 1..], Budget(turns[f]))
  {
    hide Tail, Capped, Total, FirstReal;
  }

  /** Bounding what was already bounded, with more turns appended, is bounding it all at once. */
  lemma {:induction false} BoundIsIncremental(a: seq<Turn>, b: seq<Turn>, prompt: seq<byte> -> bool)
    requires Anchored(a, prompt)
    ensures Bound(Bound(a, prompt) + b, prompt) == Bound(a + b, prompt)
  {
    hide Capped, Tail, Bound, Total;
    if Total(a) > TEXT_LIMIT {
      var f := FirstReal(a, prompt);
      var first, budget := CappedTurn(a[f]), Budget(a[f]);
      BoundOver(a, f, prompt);
      TotalAppend(a, b);
      FirstRealAppend(a, b, prompt);
      assert (a + b)[f] == a[f] && (a + b)[f + 1..] == a[f + 1..] + b;
      BoundOver(a + b, f, prompt);
      var tail := Tail(a[f + 1..], budget);
      var once := [first, OMITTED] + (tail + b);
      assert Bound(a, prompt) + b == once;
      BoundOnce(a, b, f, once, prompt);
    } else {
      WithinLimit(a, prompt);
    }
  }

  lemma {:induction false} WithinLimit(a: seq<Turn>, prompt: seq<byte> -> bool)
    requires Total(a) <= TEXT_LIMIT
    ensures Bound(a, prompt) == a
  {
  }

  lemma {:induction false} BoundOnce(a: seq<Turn>, b: seq<Turn>, f: nat, once: seq<Turn>, prompt: seq<byte> -> bool)
    requires f < |a| && prompt(CappedTurn(a[f]).text)
    requires once == [CappedTurn(a[f]), OMITTED] + (Tail(a[f + 1..], Budget(a[f])) + b)
    ensures Bound(once, prompt) == [CappedTurn(a[f]), OMITTED] + Tail(a[f + 1..] + b, Budget(a[f]))
  {
    hide Capped, Tail, Bound, Total;
    var first, budget, rest := CappedTurn(a[f]), Budget(a[f]), a[f + 1..];
    CappedFits(a[f]);
    var tail := Tail(rest, budget);
    TotalAppend([first, OMITTED], tail + b);
    PairTotal(first, OMITTED);
    if Total(once) <= TEXT_LIMIT {
      WithinLimit(once, prompt);
      TailGrows(rest, b, budget);
    } else {
      assert once[0] == first;
      assert once[1..] == [OMITTED] + (tail + b);
      BoundOver(once, 0, prompt);
      TailForgets([OMITTED], tail + b, budget);
      var k := TailIsLongest(rest, budget);
      assert rest + b == rest[..k] + (tail + b);
      TailForgets(rest[..k], tail + b, budget);
    }
  }

  /** A text no budget can hold. */
  function Endless(): Turn
  {
    Turn("user", seq(TEXT_LIMIT + 1, i => 97))
  }

  /** Exactly so: without an anchor, one more long turn makes the incremental bounding and the full one differ.
      (The omission marker itself passes for a real prompt.) */
  lemma {:induction false} WithoutAnAnchorItShows(a: seq<Turn>, prompt: seq<byte> -> bool)
    requires !Anchored(a, prompt) && prompt(OMISSION)
    ensures Bound(Bound(a, prompt) + [Endless()], prompt) != Bound(a + [Endless()], prompt)
  {
    hide Capped, Tail;
    var b := [Endless()];
    assert b[..0] == [];
    assert Total(b) == TEXT_LIMIT + 1;
    TotalAppend(a, b);
    TotalAppend(Bound(a, prompt), b);
    FirstRealAppend(a, b, prompt);
    var f := FirstReal(a, prompt);
    var once := Bound(a, prompt) + b;
    OmissionAsPrompt(once, if f < |a| then 1 else 0, prompt);
    assert Bound(once, prompt)[0] == OMITTED;
    if f < |a| {
      assert (a + b)[f] == a[f];
      assert Bound(a + b, prompt)[0].text == CappedTurn(a[f]).text;
    } else if prompt(Endless().text) {
      assert Bound(a + b, prompt)[0] == CappedTurn(Endless());
    } else {
      assert FirstReal(a + b, prompt) == |a + b|;
      assert (a + b)[|a + b| - 1] == Endless();
      TailOfEndless(a + b, TEXT_LIMIT - |OMISSION|);
      assert |Bound(a + b, prompt)| == 1;
    }
  }

  lemma {:induction false} TailOfEndless(turns: seq<Turn>, budget: nat)
    requires turns != [] && turns[|turns| - 1] == Endless() && budget <= TEXT_LIMIT
    ensures Tail(turns, budget) == []
  {
  }

  lemma {:induction false} OmissionAsPrompt(turns: seq<Turn>, k: nat, prompt: seq<byte> -> bool)
    requires Total(turns) > TEXT_LIMIT && k < |turns| && k <= 1
    requires turns[k] == OMITTED && prompt(OMISSION) && (k == 1 ==> !prompt(turns[0].text))
    ensures |Bound(turns, prompt)| >= 2 && Bound(turns, prompt)[..2] == [OMITTED, OMITTED]
  {
    assert FirstReal(turns, prompt) == k;
    assert CappedTurn(OMITTED) == OMITTED;
  }

  /** Bounding in steps is invisible, whatever comes next, exactly for anchored turns. */
  lemma {:induction false} TransparentExactlyWhenAnchored(a: seq<Turn>, prompt: seq<byte> -> bool)
    requires prompt(OMISSION)
    ensures Anchored(a, prompt) <==> forall b :: Bound(Bound(a, prompt) + b, prompt) == Bound(a + b, prompt)
  {
    if Anchored(a, prompt) {
      forall b
        ensures Bound(Bound(a, prompt) + b, prompt) == Bound(a + b, prompt)
      {
        BoundIsIncremental(a, b, prompt);
      }
    } else {
      WithoutAnAnchorItShows(a, prompt);
    }
  }
}
