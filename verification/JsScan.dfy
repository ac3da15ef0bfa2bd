/** Scanning JavaScript source for brackets, objects and strings (src-tauri/src/agents.rs, balanced, top_objects and
    quoted_string_at), against what would have been written. */
module JsScan {
  import opened Basics
  import opened Text

  /** Outside strings, inside one, or just after a backslash in one. */
  datatype Mode = Code | Str | Esc

  datatype State = State(depth: nat, mode: Mode)

  const START := State(0, Code)

  /** One character of source. */
  function Step(st: State, c: char, open: char, close: char): State
  {
    match st.mode
    case Esc => st.(mode := Str)
    case Str => if c == '\\' then st.(mode := Esc) else if c == '"' then st.(mode := Code) else st
    case Code =>
      if c == '"' then st.(mode := Str)
      else if c == open then st.(depth := st.depth + 1)
      else if c == close && st.depth > 0 then st.(depth := st.depth - 1)
      else st
  }

  /** This character opens the outermost bracket. */
  predicate Opens(st: State, c: char, open: char)
  {
    st == START && c == open && c != '"'
  }

  /** This character closes the outermost bracket. */
  predicate Closes(st: State, c: char, open: char, close: char)
  {
    st == State(1, Code) && c == close && c != open && c != '"'
  }

  // ---------- balanced ----------

  /** Taken is what follows the bracket that opened last on the outermost level. */
  function Inside(s: string, open: char, close: char, st: State, taken: Option<string>): Option<string>
  {
    if s == "" then None
    else if Closes(st, s[0], open, close) then taken
    else Inside(s[1..], open, close, Step(st, s[0], open, close),
                if Opens(st, s[0], open) then Some("") else if taken.Some? then Some(taken.value + [s[0]]) else None)
  }

  /** What has been taken by index i. */
  function Taken(s: string, start: Option<nat>, i: nat): Option<string>
    requires i <= |s| && (start.Some? ==> start.value <= i)
  {
    if start.Some? then Some(s[start.value..i]) else None
  }

  method Balanced(s: string, open: char, close: char) returns (r: Option<string>)
    ensures r == Inside(s, open, close, START, None)
  {
    var depth: nat, mode, start: Option<nat> := 0, Code, None;
    for i := 0 to |s|
      invariant start.Some? ==> start.value <= i
      invariant Inside(s, open, close, START, None) == Inside(s[i..], open, close, State(depth, mode), Taken(s, start, i))
    {
      var c := s[i];
      assert s[i..][1..] == s[i + 1..];
      assert start.Some? ==> s[start.value..i] + [c] == s[start.value..i + 1];
      if mode == Esc {
        mode := Str;
      } else if mode == Str {
        if c == '\\' { mode := Esc; } else if c == '"' { mode := Code; }
      } else if c == '"' {
        mode := Str;
      } else if c == open {
        depth := depth + 1;
        if depth == 1 {
          start := Some(i + 1);
          assert s[i + 1..i + 1] == "";
        }
      } else if c == close {
        if depth == 1 {
          return Taken(s, start, i);
        }
        depth := if depth > 0 then depth - 1 else 0;
      }
    }
    r := None;
  }

  // ---------- top_objects ----------

  function Objects(s: string, st: State, taken: string): seq<string>
  {
    if s == "" then []
    else if Closes(st, s[0], '{', '}') then [taken] + Objects(s[1..], Step(st, s[0], '{', '}'), taken + [s[0]])
    else Objects(s[1..], Step(st, s[0], '{', '}'), if Opens(st, s[0], '{') then "" else taken + [s[0]])
  }

  method TopObjects(s: string) returns (out: seq<string>)
    ensures out == Objects(s, START, "")
  {
    var depth: nat, mode, start: nat := 0, Code, 0;
    out := [];
    for i := 0 to |s|
      invariant start <= i
      invariant Objects(s, START, "") == out + Objects(s[i..], State(depth, mode), s[start..i])
    {
      var c := s[i];
      assert s[i..][1..] == s[i + 1..];
      ghost var before := s[start..i];
      assert s[start..i + 1] == before + [c];
      if mode == Esc {
        mode := Str;
      } else if mode == Str {
        if c == '\\' { mode := Esc; } else if c == '"' { mode := Code; }
      } else if c == '"' {
        mode := Str;
      } else if c == '{' {
        depth := depth + 1;
        if depth == 1 {
          start := i + 1;
          assert s[i + 1..i + 1] == "";
        }
      } else if c == '}' {
        if depth == 1 {
          assert out + ([before] + Objects(s[i + 1..], START, before + [c])) == out + [before] + Objects(s[i + 1..], START, before + [c]);
          out := out + [s[start..i]];
        }
        depth := if depth > 0 then depth - 1 else 0;
      }
    }
    assert s[|s|..] == "";
  }

  // ---------- quoted_string_at ----------

  function Unescaped(c: char): char
  {
    if c == 'n' then '\n' else if c == 't' then '\t' else if c == 'r' then '\r' else c
  }

  function Unquoted(s: string, out: string, esc: bool): Option<string>
  {
    if s == "" then None
    else if esc then Unquoted(s[1..], out + [Unescaped(s[0])], false)
    else if s[0] == '\\' then Unquoted(s[1..], out, true)
    else if s[0] == '"' then Some(out)
    else Unquoted(s[1..], out + [s[0]], false)
  }

  method QuotedStringAt(s: string) returns (r: Option<string>)
    ensures r == var t := TrimStart(s);
                 if t == "" || t[0] != '"' then None else Unquoted(t[1..], "", false)
  {
    var t := TrimStart(s);
    if t == "" || t[0] != '"' {
      return None;
    }
    var out, esc := "", false;
    for i := 1 to |t|
      invariant Unquoted(t[1..], "", false) == Unquoted(t[i..], out, esc)
    {
      assert t[i..][1..] == t[i + 1..];
      var c := t[i];
      if esc {
        out := out + [Unescaped(c)];
        esc := false;
      } else if c == '\\' {
        esc := true;
      } else if c == '"' {
        return Some(out);
      } else {
        out := out + [c];
      }
    }
    r := None;
  }

  // ---------- What would have been written ----------

  function EscapedChar(c: char): string
  {
    if c == '"' then "\\\""
    else if c == '\\' then "\\\\"
    else if c == '\n' then "\\n"
    else if c == '\t' then "\\t"
    else if c == '\r' then "\\r"
    else [c]
  }

  function Escaped(text: string): string
  {
    if text == "" then "" else EscapedChar(text[0]) + Escaped(text[1..])
  }

  function Quoted(text: string): string
  {
    "\"" + Escaped(text) + "\""
  }

  /** Source text, as characters that mean nothing here, string literals and bracketed groups. */
  datatype Piece = Plain(c: char) | Text(text: string) | Group(inside: seq<Piece>)

  predicate Brackets(open: char, close: char)
  {
    open != close && open != '"' && close != '"'
  }

  function Written(pieces: seq<Piece>, open: char, close: char): string
  {
    if pieces == [] then "" else WrittenPiece(pieces[0], open, close) + Written(pieces[1..], open, close)
  }

  function WrittenPiece(piece: Piece, open: char, close: char): string
  {
    match piece
    case Plain(c) => if c == open || c == close || c == '"' then "" else [c]
    case Text(text) => Quoted(text)
    case Group(inside) => [open] + Written(inside, open, close) + [close]
  }

  /** A text as a string literal reads back as that text, whatever is around it. */
  lemma {:induction false} QuotedReadsBack(blank: string, text: string, rest: string)
    requires forall k :: 0 <= k < |blank| ==> Whitespace(blank[k])
    ensures var t := TrimStart(blank + Quoted(text) + rest);
            t != "" && t[0] == '"' && Unquoted(t[1..], "", false) == Some(text)
  {
    var whole := blank + Quoted(text) + rest;
    if blank == "" {
      assert whole[0] == '"' && whole[1..] == Escaped(text) + ("\"" + rest);
      EscapedUnquotes(text, "\"" + rest, "");
      assert "" + text == text;
    } else {
      assert whole[1..] == blank[1..] + Quoted(text) + rest;
      QuotedReadsBack(blank[1..], text, rest);
    }
  }

  lemma {:induction false} EscapedUnquotes(text: string, rest: string, out: string)
    ensures Unquoted(Escaped(text) + rest, out, false) == Unquoted(rest, out + text, false)
  {
    hide Unquoted, EscapedChar;
    if text == "" {
      assert Escaped(text) + rest == rest && out + text == out;
    } else {
      var one, more := EscapedChar(text[0]), Escaped(text[1..]) + rest;
      assert Escaped(text) + rest == one + more;
      CharUnquotes(text[0], more, out);
      EscapedUnquotes(text[1..], rest, out + [text[0]]);
      assert out + [text[0]] + text[1..] == out + text;
    }
  }

  lemma {:induction false} CharUnquotes(c: char, more: string, out: string)
    ensures Unquoted(EscapedChar(c) + more, out, false) == Unquoted(more, out + [c], false)
  {
    var one := EscapedChar(c);
    if |one| == 1 {
      assert (one + more)[1..] == more;
    } else {
      assert (one + more)[1..] == one[1..] + more && (one[1..] + more)[1..] == more;
    }
  }

  // ---------- What is written between brackets stays between them ----------

  function After(st: State, s: string, open: char, close: char): State
    decreases |s|
  {
    if s == "" then st else After(Step(st, s[0], open, close), s[1..], open, close)
  }

  /** No character of it opens or closes the outermost bracket. */
  predicate Quiet(st: State, s: string, open: char, close: char)
    decreases |s|
  {
    s == "" || (!Opens(st, s[0], open) && !Closes(st, s[0], open, close) && Quiet(Step(st, s[0], open, close), s[1..], open, close))
  }

  lemma {:induction false} AfterBoth(st: State, a: string, b: string, open: char, close: char)
    ensures After(st, a + b, open, close) == After(After(st, a, open, close), b, open, close)
    ensures Quiet(st, a + b, open, close) <==> Quiet(st, a, open, close) && Quiet(After(st, a, open, close), b, open, close)
    decreases |a|
  {
    if a == "" {
      assert a + b == b;
    } else {
      assert (a + b)[0] == a[0] && (a + b)[1..] == a[1..] + b;
      AfterBoth(Step(st, a[0], open, close), a[1..], b, open, close);
    }
  }

  lemma {:induction false} InsideQuiet(s: string, rest: string, open: char, close: char, st: State, taken: string)
    requires Quiet(st, s, open, close)
    ensures Inside(s + rest, open, close, st, Some(taken)) == Inside(rest, open, close, After(st, s, open, close), Some(taken + s))
  {
    if s == "" {
      assert s + rest == rest && taken + s == taken;
    } else {
      assert (s + rest)[0] == s[0] && (s + rest)[1..] == s[1..] + rest;
      InsideQuiet(s[1..], rest, open, close, Step(st, s[0], open, close), taken + [s[0]]);
      assert taken + [s[0]] + s[1..] == taken + s;
    }
  }

  lemma {:induction false} ObjectsQuiet(s: string, rest: string, st: State, taken: string)
    requires Quiet(st, s, '{', '}')
    ensures Objects(s + rest, st, taken) == Objects(rest, After(st, s, '{', '}'), taken + s)
  {
    if s == "" {
      assert s + rest == rest && taken + s == taken;
    } else {
      assert (s + rest)[0] == s[0] && (s + rest)[1..] == s[1..] + rest;
      ObjectsQuiet(s[1..], rest, Step(st, s[0], '{', '}'), taken + [s[0]]);
      assert taken + [s[0]] + s[1..] == taken + s;
    }
  }

  predicate Neutral(st: State, s: string, open: char, close: char)
  {
    Quiet(st, s, open, close) && After(st, s, open, close) == st
  }

  lemma {:induction false} NeutralBoth(st: State, a: string, b: string, open: char, close: char)
    requires Neutral(st, a, open, close) && Neutral(st, b, open, close)
    ensures Neutral(st, a + b, open, close)
  {
    AfterBoth(st, a, b, open, close);
  }

  lemma {:induction false} OneCharacter(st: State, c: char, open: char, close: char)
    ensures After(st, [c], open, close) == Step(st, c, open, close)
    ensures Quiet(st, [c], open, close) <==> !Opens(st, c, open) && !Closes(st, c, open, close)
  {
    assert [c][1..] == "";
  }

  lemma {:induction false} EscapedIsNeutral(text: string, depth: nat, open: char, close: char)
    ensures Neutral(State(depth, Str), Escaped(text), open, close)
  {
    if text != "" {
      var one, st := EscapedChar(text[0]), State(depth, Str);
      EscapedIsNeutral(text[1..], depth, open, close);
      assert Neutral(st, one, open, close) by {
        OneCharacter(st, one[0], open, close);
        if |one| == 2 {
          OneCharacter(State(depth, Esc), one[1], open, close);
          assert one == [one[0]] + [one[1]];
          AfterBoth(st, [one[0]], [one[1]], open, close);
        }
      }
      NeutralBoth(st, one, Escaped(text[1..]), open, close);
    }
  }

  lemma {:induction false} QuotedIsNeutral(text: string, depth: nat, open: char, close: char)
    ensures Neutral(State(depth, Code), Quoted(text), open, close)
  {
    var st := State(depth, Code);
    var body := Escaped(text);
    EscapedIsNeutral(text, depth, open, close);
    OneCharacter(st, '"', open, close);
    OneCharacter(State(depth, Str), '"', open, close);
    AfterBoth(st, "\"", body, open, close);
    AfterBoth(st, "\"" + body, "\"", open, close);
  }

  lemma {:induction false} PieceIsNeutral(piece: Piece, depth: nat, open: char, close: char)
    requires Brackets(open, close) && depth > 0
    ensures Neutral(State(depth, Code), WrittenPiece(piece, open, close), open, close)
    decreases piece
  {
    var st := State(depth, Code);
    match piece
    case Plain(c) => OneCharacter(st, c, open, close);
    case Text(text) => QuotedIsNeutral(text, depth, open, close);
    case Group(inside) =>
      var body := Written(inside, open, close);
      PiecesAreNeutral(inside, depth + 1, open, close);
      OneCharacter(st, open, open, close);
      OneCharacter(State(depth + 1, Code), close, open, close);
      AfterBoth(st, [open], body, open, close);
      AfterBoth(st, [open] + body, [close], open, close);
  }

  /** Whatever is written inside brackets, nested ones and strings that hold brackets included, ends on the level where
      it began, and never closes the bracket it is in. */
  lemma {:induction false} PiecesAreNeutral(pieces: seq<Piece>, depth: nat, open: char, close: char)
    requires Brackets(open, close) && depth > 0
    ensures Neutral(State(depth, Code), Written(pieces, open, close), open, close)
    decreases pieces
  {
    if pieces != [] {
      PieceIsNeutral(pieces[0], depth, open, close);
      PiecesAreNeutral(pieces[1..], depth, open, close);
      NeutralBoth(State(depth, Code), WrittenPiece(pieces[0], open, close), Written(pieces[1..], open, close), open, close);
    }
  }

  // ---------- What is written outside brackets ----------

  /** Source text on the outermost level: characters, stray closing brackets included, and string literals. */
  datatype Outer = Loose(c: char) | Literal(text: string)

  function WrittenOuter(outer: Outer, open: char): string
  {
    match outer
    case Loose(c) => if c == open || c == '"' then "" else [c]
    case Literal(text) => Quoted(text)
  }

  function Around(outers: seq<Outer>, open: char): string
  {
    if outers == [] then "" else WrittenOuter(outers[0], open) + Around(outers[1..], open)
  }

  lemma {:induction false} AroundIsNeutral(outers: seq<Outer>, open: char, close: char)
    requires Brackets(open, close)
    ensures Neutral(START, Around(outers, open), open, close)
  {
    if outers != [] {
      match outers[0] {
        case Loose(c) => OneCharacter(START, c, open, close);
        case Literal(text) => QuotedIsNeutral(text, 0, open, close);
      }
      AroundIsNeutral(outers[1..], open, close);
      NeutralBoth(START, WrittenOuter(outers[0], open), Around(outers[1..], open), open, close);
    }
  }

  lemma {:induction false} NothingInside(s: string, rest: string, open: char, close: char, st: State)
    requires Quiet(st, s, open, close)
    ensures Inside(s + rest, open, close, st, None) == Inside(rest, open, close, After(st, s, open, close), None)
    decreases |s|
  {
    if s == "" {
      assert s + rest == rest;
    } else {
      assert (s + rest)[0] == s[0] && (s + rest)[1..] == s[1..] + rest;
      NothingInside(s[1..], rest, open, close, Step(st, s[0], open, close));
    }
  }

  /** What is written between the first brackets is found whole, whatever comes before, string literals that hold brackets
      included, and whatever comes after. */
  lemma {:induction false} FirstGroupIsFound(before: seq<Outer>, pieces: seq<Piece>, rest: string, open: char, close: char)
    requires Brackets(open, close)
    ensures Inside(Around(before, open) + WrittenPiece(Group(pieces), open, close) + rest, open, close, START, None)
            == Some(Written(pieces, open, close))
  {
    var body, last := Written(pieces, open, close), [close] + rest;
    var tail := [open] + (body + last);
    assert Around(before, open) + WrittenPiece(Group(pieces), open, close) + rest == Around(before, open) + tail;
    AroundIsNeutral(before, open, close);
    NothingInside(Around(before, open), tail, open, close, START);
    assert tail[1..] == body + last && last[1..] == rest;
    PiecesAreNeutral(pieces, 1, open, close);
    InsideQuiet(body, last, open, close, State(1, Code), "");
    assert "" + body == body;
  }

  /** Where no bracket is closed there is nothing to find. */
  lemma {:induction false} NothingIsFound(before: seq<Outer>, pieces: seq<Piece>, open: char, close: char)
    requires Brackets(open, close)
    ensures Inside(Around(before, open), open, close, START, None) == None
    ensures Inside(Around(before, open) + ([open] + Written(pieces, open, close)), open, close, START, None) == None
  {
    var around, body := Around(before, open), Written(pieces, open, close);
    AroundIsNeutral(before, open, close);
    NothingInside(around, "", open, close, START);
    assert around + "" == around;
    NothingInside(around, [open] + body, open, close, START);
    assert ([open] + body)[1..] == body;
    PiecesAreNeutral(pieces, 1, open, close);
    InsideQuiet(body, "", open, close, State(1, Code), "");
    assert body + "" == body;
  }

  /** A string literal that does not end, and a text that is none, are not read. */
  lemma {:induction false} OnlyWholeStringsAreRead(text: string, blank: string, other: string)
    requires Blank(blank) && (other != "" ==> other[0] != '"' && !Whitespace(other[0]))
    ensures Unquoted(Escaped(text), "", false) == None
    ensures TrimStart(blank + other) == other
  {
    EscapedUnquotes(text, "", "");
    assert Escaped(text) + "" == Escaped(text);
    TrimStartOf(blank, other);
  }

  // ---------- A list of objects ----------

  /** An object: what is before it on the outermost level, and what is in it. */
  datatype Item = Item(before: seq<Outer>, inside: seq<Piece>)

  function Listed(items: seq<Item>): string
  {
    if items == [] then ""
    else Around(items[0].before, '{') + WrittenPiece(Group(items[0].inside), '{', '}') + Listed(items[1..])
  }

  function Bodies(items: seq<Item>): seq<string>
  {
    if items == [] then [] else [Written(items[0].inside, '{', '}')] + Bodies(items[1..])
  }

  /** Outside objects it does not matter what was taken. */
  lemma {:induction false} TakenIsForgotten(s: string, st: State, taken: string, other: string)
    requires st.depth == 0
    ensures Objects(s, st, taken) == Objects(s, st, other)
  {
    if s != "" && !Opens(st, s[0], '{') {
      TakenIsForgotten(s[1..], Step(st, s[0], '{', '}'), taken + [s[0]], other + [s[0]]);
    }
  }

  lemma {:induction false} OneObjectIsFound(around: string, body: string, after: string, taken: string)
    requires Neutral(START, around, '{', '}') && Neutral(State(1, Code), body, '{', '}')
    ensures Objects(around + ("{" + (body + ("}" + after))), START, taken) == [body] + Objects(after, START, body + "}")
  {
    var last := "}" + after;
    var tail := "{" + (body + last);
    ObjectsQuiet(around, tail, START, taken);
    assert tail[1..] == body + last && last[1..] == after;
    ObjectsQuiet(body, last, State(1, Code), "");
    assert "" + body == body;
  }

  /** A list of objects comes back as their bodies, in order and none missing, before those of whatever follows it. */
  lemma {:induction false} ObjectsSplit(items: seq<Item>, rest: string, taken: string)
    ensures Objects(Listed(items) + rest, START, taken) == Bodies(items) + Objects(rest, START, "")
  {
    hide Objects, Around, Written, Neutral;
    if items == [] {
      assert Listed(items) + rest == rest;
      TakenIsForgotten(rest, START, taken, "");
    } else {
      var item, after := items[0], Listed(items[1..]) + rest;
      var around, body := Around(item.before, '{'), Written(item.inside, '{', '}');
      assert Listed(items) + rest == around + ("{" + (body + ("}" + after)));
      AroundIsNeutral(item.before, '{', '}');
      PiecesAreNeutral(item.inside, 1, '{', '}');
      OneObjectIsFound(around, body, after, taken);
      ObjectsSplit(items[1..], rest, body + "}");
    }
  }

  /** With only loose text and string literals before, between and after them, those are all. */
  lemma {:induction false} EveryObjectIsFound(items: seq<Item>, after: seq<Outer>)
    ensures Objects(Listed(items) + Around(after, '{'), START, "") == Bodies(items)
  {
    var rest := Around(after, '{');
    ObjectsSplit(items, rest, "");
    AroundIsNeutral(after, '{', '}');
    assert rest + "" == rest;
    ObjectsQuiet(rest, "", START, "");
  }
}
