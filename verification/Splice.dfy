/** Filling the gap in a truncated transcript text from the blob that still holds all of it
    (src-tauri/src/antigravity.rs, splice_truncated and find_bytes). Text is its UTF-8 bytes. */
module Splice {
  import opened Basics
  import opened Text

  const MARK: seq<byte> := Ascii("<truncated ")
  const CLOSE: seq<byte> := Ascii(" bytes>")
  const USIZE: nat := 0x1_0000_0000_0000_0000

  // ---------- Searching ----------

  predicate IsAt(hay: seq<byte>, needle: seq<byte>, k: nat)
  {
    k + |needle| <= |hay| && hay[k..k + |needle|] == needle
  }

  /** The first place at or after from where needle is; an empty needle is where the search begins. */
  function FindBytes(hay: seq<byte>, needle: seq<byte>, from: nat): (r: Option<nat>)
    ensures r.Some? && (needle != [] || from <= |hay|) ==> r.value >= from && IsAt(hay, needle, r.value)
    ensures r.Some? ==> forall k :: from <= k < r.value ==> !IsAt(hay, needle, k)
    ensures r.None? ==> forall k :: from <= k ==> !IsAt(hay, needle, k)
    decreases |hay| - from
  {
    if needle == [] || IsAt(hay, needle, from) then Some(from)
    else if from + |needle| >= |hay| then None
    else FindBytes(hay, needle, from + 1)
  }

  lemma {:induction false} FindsTheFirst(hay: seq<byte>, needle: seq<byte>, from: nat, at: nat)
    requires from <= at && IsAt(hay, needle, at) && forall k :: from <= k < at ==> !IsAt(hay, needle, k)
    ensures FindBytes(hay, needle, from) == Some(at)
  {
    var r := FindBytes(hay, needle, from);
    assert r.None? ==> !IsAt(hay, needle, at);
  }

  // ---------- Numbers ----------

  predicate Digit(b: byte)
  {
    48 <= b <= 57
  }

  predicate AllDigits(s: seq<byte>)
  {
    forall k :: 0 <= k < |s| ==> Digit(s[k])
  }

  function Value(s: seq<byte>): nat
    requires AllDigits(s)
  {
    if s == [] then 0 else 10 * Value(s[..|s| - 1]) + (s[|s| - 1] - 48)
  }

  /** Parsing as usize: digits after at most one plus sign, and no overflow. */
  function ParseUsize(s: seq<byte>): Option<nat>
  {
    var digits := if s != [] && s[0] == 43 then s[1..] else s;
    if digits != [] && AllDigits(digits) && Value(digits) < USIZE then Some(Value(digits)) else None
  }

  function Decimal(n: nat): (s: seq<byte>)
    ensures s != [] && AllDigits(s) && Value(s) == n
  {
    if n < 10 then
      var s: seq<byte> := [48 + n];
      assert Value(s[..0]) == 0;
      s
    else
      var s: seq<byte> := Decimal(n / 10) + [48 + n % 10];
      assert s[..|s| - 1] == Decimal(n / 10);
      s
  }

  lemma {:induction false} ParseOfDecimal(n: nat)
    requires n < USIZE
    ensures ParseUsize(Decimal(n)) == Some(n)
  {
    assert Digit(Decimal(n)[0]);
  }

  ghost predicate Spells(s: seq<byte>, digits: seq<byte>, n: nat)
  {
    (s == digits || s == [43] + digits) && digits != [] && AllDigits(digits) && Value(digits) == n
  }

  /** A number is read exactly when its digits, after at most one plus sign, spell one below 2^64. */
  lemma {:induction false} NumbersExactly(s: seq<byte>, n: nat)
    ensures ParseUsize(s) == Some(n) <==> n < 0x1_0000_0000_0000_0000 && exists digits :: Spells(s, digits, n)
  {
    if ParseUsize(s) == Some(n) {
      var digits := if s[0] == 43 then s[1..] else s;
      assert Spells(s, digits, n);
    }
    if exists digits :: Spells(s, digits, n) {
      var digits :| Spells(s, digits, n);
      assert Digit(digits[0]);
      assert s != digits ==> s[1..] == digits;
    }
  }

  // ---------- The gap ----------

  datatype Gap = Gap(head: seq<byte>, missing: nat, tail: seq<byte>)

  function StripLastNewline(s: seq<byte>): seq<byte>
  {
    if s != [] && s[|s| - 1] == 10 then s[..|s| - 1] else s
  }

  function StripFirstNewline(s: seq<byte>): seq<byte>
  {
    if s != [] && s[0] == 10 then s[1..] else s
  }

  function FindGap(content: seq<byte>): Option<Gap>
  {
    match FindBytes(content, MARK, 0)
    case None => None
    case Some(at) =>
      var rest := content[at + |MARK|..];
      match FindBytes(rest, CLOSE, 0)
      case None => None
      case Some(close) =>
        match ParseUsize(rest[..close])
        case None => None
        case Some(n) => Some(Gap(StripLastNewline(content[..at]), n, StripFirstNewline(rest[close + |CLOSE|..])))
  }

  /** The text is a, the marker where it first occurs, a number up to the first closing, and b. */
  predicate MarkedText(content: seq<byte>, a: seq<byte>, number: seq<byte>, b: seq<byte>)
  {
    && content == a + (MARK + (number + (CLOSE + b)))
    && (forall k: nat :: k < |a| ==> !IsAt(content, MARK, k))
    && (forall k: nat :: k < |number| ==> !IsAt(number + (CLOSE + b), CLOSE, k))
  }

  lemma {:induction false} GapOfText(content: seq<byte>, a: seq<byte>, number: seq<byte>, b: seq<byte>)
    requires MarkedText(content, a, number, b)
    ensures FindGap(content)
            == if ParseUsize(number).None? then None
               else Some(Gap(StripLastNewline(a), ParseUsize(number).value, StripFirstNewline(b)))
  {
    hide FindBytes, ParseUsize, StripLastNewline, StripFirstNewline, IsAt, MARK, CLOSE;
    var rest := number + (CLOSE + b);
    NotEmpty();
    SplitFinds(content, a, MARK, rest);
    SplitFinds(rest, number, CLOSE, b);
  }

  lemma {:induction false} TextOfGap(content: seq<byte>) returns (a: seq<byte>, number: seq<byte>, b: seq<byte>)
    requires FindGap(content).Some?
    ensures MarkedText(content, a, number, b)
  {
    hide FindBytes, ParseUsize, StripLastNewline, StripFirstNewline, IsAt, MARK, CLOSE;
    NotEmpty();
    FoundSplits(content, MARK);
    var at := FindBytes(content, MARK, 0).value;
    var rest := content[at + |MARK|..];
    FoundSplits(rest, CLOSE);
    var close := FindBytes(rest, CLOSE, 0).value;
    a, number, b := content[..at], rest[..close], rest[close + |CLOSE|..];
  }

  lemma {:induction false} NotEmpty()
    ensures MARK != [] && CLOSE != []
  {
  }

  ghost predicate GapText(content: seq<byte>, gap: Gap, a: seq<byte>, number: seq<byte>, b: seq<byte>)
  {
    && MarkedText(content, a, number, b) && ParseUsize(number) == Some(gap.missing)
    && gap.head == StripLastNewline(a) && gap.tail == StripFirstNewline(b)
  }

  /** A gap is read exactly from such a text: one line break is taken off each side of the marker. */
  lemma {:induction false} GapsExactly(content: seq<byte>, gap: Gap)
    ensures FindGap(content) == Some(gap) <==> exists a, number, b :: GapText(content, gap, a, number, b)
  {
    hide FindGap, MarkedText, ParseUsize, StripLastNewline, StripFirstNewline;
    if FindGap(content) == Some(gap) {
      var a, number, b := TextOfGap(content);
      GapOfText(content, a, number, b);
      assert GapText(content, gap, a, number, b);
    }
    if exists a, number, b :: GapText(content, gap, a, number, b) {
      var a, number, b :| GapText(content, gap, a, number, b);
      GapOfText(content, a, number, b);
    }
  }

  lemma {:induction false} FoundSplits(hay: seq<byte>, needle: seq<byte>)
    requires needle != [] && FindBytes(hay, needle, 0).Some?
    ensures var at := FindBytes(hay, needle, 0).value;
            && at + |needle| <= |hay| && hay == hay[..at] + (needle + hay[at + |needle|..])
            && forall k: nat :: k < at ==> !IsAt(hay, needle, k)
  {
    hide FindBytes;
  }

  lemma {:induction false} SplitFinds(hay: seq<byte>, a: seq<byte>, needle: seq<byte>, b: seq<byte>)
    requires hay == a + (needle + b) && forall k: nat :: k < |a| ==> !IsAt(hay, needle, k)
    ensures FindBytes(hay, needle, 0) == Some(|a|) && hay[..|a|] == a && hay[|a| + |needle|..] == b
  {
    hide FindBytes;
    assert hay[|a|..|a| + |needle|] == needle;
    FindsTheFirst(hay, needle, 0, |a|);
  }

  function Fill(gap: Gap, payload: seq<byte>): Option<seq<byte>>
  {
    if gap.head == [] && gap.tail == [] then None
    else
      match FindBytes(payload, gap.head, 0)
      case None => None
      case Some(h) =>
        var start := h + |gap.head|;
        match FindBytes(payload, gap.tail, start)
        case None => None
        case Some(t) =>
          if t - start != gap.missing || DecodeUtf8(payload[start..t]).None? then None
          else Some(gap.head + payload[start..t] + gap.tail)
  }

  function SpliceTruncated(content: seq<byte>, payload: seq<byte>): Option<seq<byte>>
  {
    match FindGap(content)
    case None => None
    case Some(gap) => Fill(gap, payload)
  }

  lemma {:induction false} SliceOfSlice(s: seq<byte>, at: nat, n: nat, i: nat, j: nat)
    requires at + n <= |s| && i <= j <= n
    ensures s[at..at + n][i..j] == s[at + i..at + j]
  {
    var whole, part := s[at..at + n], s[at + i..at + j];
    assert |whole[i..j]| == |part|;
    forall k | 0 <= k < |part|
      ensures whole[i..j][k] == part[k]
    {
      assert whole[i + k] == s[at + i + k];
    }
  }

  /** Whatever comes back is a contiguous slice of the blob that starts with the logged head, ends with the logged tail,
      and has exactly the promised number of bytes, all text, between them. */
  lemma {:induction false} ResultIsASliceOfTheBlob(content: seq<byte>, payload: seq<byte>) returns (h: nat)
    requires SpliceTruncated(content, payload).Some?
    ensures FindGap(content).Some?
    ensures var gap := FindGap(content).value;
            var r := SpliceTruncated(content, payload).value;
            && |r| == |gap.head| + gap.missing + |gap.tail|
            && IsAt(payload, r, h) && gap.head <= r && r[|r| - |gap.tail|..] == gap.tail
            && DecodeUtf8(r[|gap.head|..|gap.head| + gap.missing]).Some?
  {
    hide FindGap;
    h := FilledIsASlice(FindGap(content).value, payload);
  }

  lemma {:induction false} FilledIsASlice(gap: Gap, payload: seq<byte>) returns (h: nat)
    requires Fill(gap, payload).Some?
    ensures var r := Fill(gap, payload).value;
            && |r| == |gap.head| + gap.missing + |gap.tail|
            && IsAt(payload, r, h) && gap.head <= r && r[|r| - |gap.tail|..] == gap.tail
            && DecodeUtf8(r[|gap.head|..|gap.head| + gap.missing]).Some?
  {
    hide DecodeUtf8, FindBytes;
    h := FindBytes(payload, gap.head, 0).value;
    var start := h + |gap.head|;
    var t := FindBytes(payload, gap.tail, start).value;
    var middle := payload[start..t];
    var r := gap.head + middle + gap.tail;
    assert Fill(gap, payload) == Some(r);
    assert r[|gap.head|..|gap.head| + |middle|] == middle;
  }

  /** With nothing logged after the marker only an empty gap can be filled. */
  lemma {:induction false} WithoutATailNothingIsFilled(gap: Gap, payload: seq<byte>)
    requires gap.tail == [] && gap.missing > 0
    ensures Fill(gap, payload) == None
  {
  }

  // ---------- Recovery ----------

  const NEWLINE: seq<byte> := [10]

  /** A text as it is logged: its head, the marker on a line of its own, and its tail. */
  function Truncated(head: seq<byte>, missing: nat, tail: seq<byte>): seq<byte>
  {
    head + NEWLINE + MARK + Decimal(missing) + CLOSE + NEWLINE + tail
  }

  lemma {:induction false} MarkIsFound(head: seq<byte>, rest: seq<byte>)
    requires forall k: nat :: !IsAt(head, MARK, k)
    ensures FindBytes(head + NEWLINE + MARK + rest, MARK, 0) == Some(|head| + 1)
  {
    hide FindBytes;
    var content := head + NEWLINE + MARK + rest;
    assert content[|head| + 1..|head| + 1 + |MARK|] == MARK;
    forall k: nat | k <= |head|
      ensures !IsAt(content, MARK, k)
    {
      if k + |MARK| <= |head| {
        assert content[k..k + |MARK|] == head[k..k + |MARK|];
        assert !IsAt(head, MARK, k);
      } else {
        NewlineIsNotInMark(content, k, |head|);
      }
    }
    FindsTheFirst(content, MARK, 0, |head| + 1);
  }

  lemma {:induction false} NewlineIsNotInMark(content: seq<byte>, k: nat, newline: nat)
    requires k <= newline < k + |MARK| && newline < |content| && content[newline] == 10
    ensures !IsAt(content, MARK, k)
  {
    assert forall j :: 0 <= j < |MARK| ==> MARK[j] != 10;
    assert k + |MARK| <= |content| ==> content[k..k + |MARK|][newline - k] == 10;
  }

  lemma {:induction false} CloseIsFound(digits: seq<byte>, rest: seq<byte>)
    requires AllDigits(digits)
    ensures FindBytes(digits + CLOSE + rest, CLOSE, 0) == Some(|digits|)
  {
    hide FindBytes;
    var s := digits + CLOSE + rest;
    assert s[|digits|..|digits| + |CLOSE|] == CLOSE;
    assert CLOSE[0] == 32;
    forall k: nat | k < |digits|
      ensures !IsAt(s, CLOSE, k)
    {
      assert Digit(digits[k]) && s[k] == digits[k];
      assert k + |CLOSE| <= |s| ==> s[k..k + |CLOSE|][0] == s[k];
    }
    FindsTheFirst(s, CLOSE, 0, |digits|);
  }

  /** The gap that was logged is the gap that is read, unless the head itself holds a marker. */
  lemma {:induction false} GapRoundTrip(head: seq<byte>, missing: nat, tail: seq<byte>)
    requires (forall k: nat :: !IsAt(head, MARK, k)) && missing < USIZE
    ensures FindGap(Truncated(head, missing, tail)) == Some(Gap(head, missing, tail))
  {
    hide FindBytes, ParseUsize, IsAt, Decimal, StripLastNewline, StripFirstNewline;
    var digits, after := Decimal(missing), NEWLINE + tail;
    var rest := digits + CLOSE + after;
    var content := Truncated(head, missing, tail);
    assert content == head + NEWLINE + MARK + rest;
    MarkIsFound(head, rest);
    assert content[|head| + 1 + |MARK|..] == rest && content[..|head| + 1] == head + NEWLINE;
    CloseIsFound(digits, after);
    assert rest[..|digits|] == digits && rest[|digits| + |CLOSE|..] == after;
    ParseOfDecimal(missing);
    StripsOne(head, tail);
  }

  lemma {:induction false} StripsOne(head: seq<byte>, tail: seq<byte>)
    ensures StripLastNewline(head + NEWLINE) == head && StripFirstNewline(NEWLINE + tail) == tail
  {
    assert (head + NEWLINE)[..|head|] == head && (NEWLINE + tail)[1..] == tail;
  }

  /** The whole text comes back whenever its head, and then its tail, first occur in the blob where the text is. */
  lemma {:induction false} FullTextIsRecovered(payload: seq<byte>, at: nat, head: seq<byte>, middle: seq<byte>, tail: seq<byte>)
    requires IsAt(payload, head + middle + tail, at)
    requires (head != [] || tail != []) && (forall k: nat :: !IsAt(head, MARK, k)) && |middle| < USIZE
    requires DecodeUtf8(middle).Some?
    requires forall k :: 0 <= k < at ==> !IsAt(payload, head, k)
    requires forall k :: at + |head| <= k < at + |head| + |middle| ==> !IsAt(payload, tail, k)
    ensures SpliceTruncated(Truncated(head, |middle|, tail), payload) == Some(head + middle + tail)
  {
    hide FindBytes, DecodeUtf8, FindGap, Truncated, IsAt;
    GapRoundTrip(head, |middle|, tail);
    PartsOfText(payload, at, head, middle, tail);
    FindsTheFirst(payload, head, 0, at);
    FindsTheFirst(payload, tail, at + |head|, at + |head| + |middle|);
  }

  lemma {:induction false} PartsOfText(payload: seq<byte>, at: nat, head: seq<byte>, middle: seq<byte>, tail: seq<byte>)
    requires IsAt(payload, head + middle + tail, at)
    ensures var start, end := at + |head|, at + |head| + |middle|;
            && end + |tail| <= |payload| && payload[start..end] == middle
            && IsAt(payload, head, at) && IsAt(payload, tail, end)
  {
    var full := head + middle + tail;
    assert payload[at..at + |full|] == full;
    SliceOfSlice(payload, at, |full|, 0, |head|);
    SliceOfSlice(payload, at, |full|, |head|, |head| + |middle|);
    SliceOfSlice(payload, at, |full|, |head| + |middle|, |full|);
    assert full[0..|head|] == head && full[|head|..|head| + |middle|] == middle && full[|head| + |middle|..|full|] == tail;
  }

  predicate FirstAt(hay: seq<byte>, needle: seq<byte>, from: nat, at: nat)
  {
    from <= at && IsAt(hay, needle, at) && forall k :: from <= k < at ==> !IsAt(hay, needle, k)
  }

  /** The head is first at h and the tail first behind it at t, with just the missing bytes between them, which are text. */
  predicate FitsAt(gap: Gap, payload: seq<byte>, h: nat, t: nat)
  {
    var start := h + |gap.head|;
    && FirstAt(payload, gap.head, 0, h) && FirstAt(payload, gap.tail, start, t)
    && t - start == gap.missing && DecodeUtf8(payload[start..t]).Some?
  }

  /** And only then, or where another copy of the head and tail happens to hold just as much text between: whether
      anything comes back is decided by the first occurrences alone. */
  lemma {:induction false} OnlyFirstOccurrencesCount(gap: Gap, payload: seq<byte>)
    ensures Fill(gap, payload).Some? <==> (gap.head != [] || gap.tail != []) && exists h: nat, t: nat :: FitsAt(gap, payload, h, t)
  {
    hide DecodeUtf8, FindBytes, IsAt;
    if Fill(gap, payload).Some? {
      var h := FindBytes(payload, gap.head, 0).value;
      FoundIsFirst(payload, gap.head, 0);
      FoundIsFirst(payload, gap.tail, h + |gap.head|);
      assert FitsAt(gap, payload, h, FindBytes(payload, gap.tail, h + |gap.head|).value);
    }
    if exists h: nat, t: nat :: FitsAt(gap, payload, h, t) {
      var h: nat, t: nat :| FitsAt(gap, payload, h, t);
      FindsTheFirst(payload, gap.head, 0, h);
      FindsTheFirst(payload, gap.tail, h + |gap.head|, t);
    }
  }

  lemma {:induction false} FoundIsFirst(hay: seq<byte>, needle: seq<byte>, from: nat)
    requires from <= |hay|
    ensures var r := FindBytes(hay, needle, from);
            r.Some? ==> FirstAt(hay, needle, from, r.value) && r.value + |needle| <= |hay|
  {
  }
}
