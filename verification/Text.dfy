/** Text as bytes and as characters: UTF-8, and the white space that trimming removes. */
module Text {
  import opened Basics

  predicate Continuation(b: byte)
  {
    0x80 <= b < 0xC0
  }

  /** How many bytes the scalar value starting here takes, or 0 where UTF-8 allows none. */
  function ScalarLength(s: seq<byte>): (n: nat)
    ensures n <= |s| && n <= 4
  {
    if s == [] then 0
    else if s[0] < 0x80 then 1
    else if |s| < 2 || !Continuation(s[1]) then 0
    else if 0xC2 <= s[0] < 0xE0 then 2
    else if |s| < 3 || !Continuation(s[2]) then 0
    else if s[0] == 0xE0 then if s[1] >= 0xA0 then 3 else 0
    else if s[0] == 0xED then if s[1] < 0xA0 then 3 else 0
    else if 0xE1 <= s[0] < 0xF0 then 3
    else if |s| < 4 || !Continuation(s[3]) then 0
    else if s[0] == 0xF0 then if s[1] >= 0x90 then 4 else 0
    else if s[0] == 0xF4 then if s[1] < 0x90 then 4 else 0
    else if 0xF1 <= s[0] < 0xF4 then 4
    else 0
  }

  function Scalar(s: seq<byte>): char
    requires ScalarLength(s) > 0
  {
    var n := ScalarLength(s);
    var a: int := s[0];
    if n == 1 then a as char
    else
      var b: int := s[1] - 0x80;
      if n == 2 then ((a - 0xC0) * 64 + b) as char
      else
        var c: int := s[2] - 0x80;
        if n == 3 then ((a - 0xE0) * 4096 + b * 64 + c) as char
        else
          var d: int := s[3] - 0x80;
          ((a - 0xF0) * 262144 + b * 4096 + c * 64 + d) as char
  }

  /** from_utf8. */
  function DecodeUtf8(s: seq<byte>): Option<string>
    decreases |s|
  {
    if s == [] then Some("")
    else
      var n := ScalarLength(s);
      if n == 0 then None
      else
        var rest := DecodeUtf8(s[n..]);
        if rest.None? then None else Some([Scalar(s)] + rest.value)
  }

  // ---------- The encoding ----------

  /** Section 3 of RFC 3629. */
  function EncodeChar(c: char): (bytes: seq<byte>)
    ensures 1 <= |bytes| <= 4
  {
    var x := c as int;
    if x < 0x80 then [x]
    else if x < 0x800 then [0xC0 + x / 64, 0x80 + x % 64]
    else if x < 0x1_0000 then [0xE0 + x / 4096, 0x80 + x / 64 % 64, 0x80 + x % 64]
    else [0xF0 + x / 262_144, 0x80 + x / 4096 % 64, 0x80 + x / 64 % 64, 0x80 + x % 64]
  }

  function EncodeUtf8(s: string): seq<byte>
  {
    if s == "" then [] else EncodeChar(s[0]) + EncodeUtf8(s[1..])
  }

  lemma {:induction false} SextetsAre(high: nat, low: nat)
    requires low < 64
    ensures (high * 64 + low) / 64 == high && (high * 64 + low) % 64 == low
  {
  }

  lemma {:induction false} TwoBytes(x: char, a: nat, b: nat)
    requires x as int == a * 64 + b && b < 64 && 0x80 <= x as int < 0x800
    ensures EncodeChar(x) == [0xC0 + a, 0x80 + b]
  {
    SextetsAre(a, b);
  }

  lemma {:induction false} ThreeBytes(x: char, a: nat, b: nat, c: nat)
    requires x as int == a * 4096 + b * 64 + c && b < 64 && c < 64 && 0x800 <= x as int < 0x1_0000
    ensures EncodeChar(x) == [0xE0 + a, 0x80 + b, 0x80 + c]
  {
    SextetsAre(a * 64 + b, c);
    SextetsAre(a, b);
    assert x as int / 4096 == x as int / 64 / 64;
  }

  lemma {:induction false} FourBytes(x: char, a: nat, b: nat, c: nat, d: nat)
    requires x as int == a * 262_144 + b * 4096 + c * 64 + d && b < 64 && c < 64 && d < 64 && 0x1_0000 <= x as int
    ensures EncodeChar(x) == [0xF0 + a, 0x80 + b, 0x80 + c, 0x80 + d]
  {
    SextetsAre(a * 4096 + b * 64 + c, d);
    SextetsAre(a * 64 + b, c);
    SextetsAre(a, b);
    assert x as int / 4096 == x as int / 64 / 64 && x as int / 262_144 == x as int / 64 / 64 / 64;
  }

  /** An encoded character is read back, whatever follows it. */
  lemma {:induction false} CharReadsBack(c: char, rest: seq<byte>)
    ensures var bytes := EncodeChar(c) + rest;
            ScalarLength(bytes) == |EncodeChar(c)| && Scalar(bytes) == c && bytes[|EncodeChar(c)|..] == rest
  {
    var x, one := c as int, EncodeChar(c);
    assert x / 64 / 64 == x / 4096 && x / 4096 / 64 == x / 262_144;
    assert forall k :: 0 <= k < |one| ==> (one + rest)[k] == one[k];
  }

  /** And what is read is encoded by the bytes it was read from. */
  lemma {:induction false} ScalarIsEncoded(s: seq<byte>)
    requires ScalarLength(s) > 0
    ensures EncodeChar(Scalar(s)) == s[..ScalarLength(s)]
  {
    hide EncodeChar;
    var n, x := ScalarLength(s), Scalar(s);
    var a: int := s[0];
    if n == 1 {
      OneByte(x);
    } else {
      var b: int := s[1] - 0x80;
      if n == 2 {
        TwoBytes(x, a - 0xC0, b);
      } else {
        var c: int := s[2] - 0x80;
        if n == 3 { ThreeBytes(x, a - 0xE0, b, c); } else { FourBytes(x, a - 0xF0, b, c, s[3] - 0x80); }
      }
    }
  }

  lemma {:induction false} OneByte(x: char)
    requires x as int < 0x80
    ensures EncodeChar(x) == [x as int]
  {
  }

  /** The bytes decode to a text exactly when they are its encoding. */
  lemma {:induction false} DecodesExactly(bytes: seq<byte>, text: string)
    ensures DecodeUtf8(bytes) == Some(text) <==> bytes == EncodeUtf8(text)
    decreases |bytes| + |text|
  {
    hide ScalarLength, Scalar, EncodeChar;
    if DecodeUtf8(bytes) == Some(text) && bytes != [] {
      ScalarIsEncoded(bytes);
      DecodesExactly(bytes[ScalarLength(bytes)..], text[1..]);
    }
    if bytes == EncodeUtf8(text) && text != "" {
      CharReadsBack(text[0], EncodeUtf8(text[1..]));
      DecodesExactly(EncodeUtf8(text[1..]), text[1..]);
      assert [text[0]] + text[1..] == text;
    }
  }

  /** One-byte characters are encoded as themselves. */
  lemma {:induction false} AsciiIsItself(s: string)
    requires forall k :: 0 <= k < |s| ==> s[k] as int < 128
    ensures EncodeUtf8(s) == Ascii(s) && DecodeUtf8(Ascii(s)) == Some(s)
  {
    if s != "" {
      AsciiIsItself(s[1..]);
      assert Ascii(s) == [s[0] as int] + Ascii(s[1..]);
    }
    DecodesExactly(Ascii(s), s);
  }

  // ---------- White space ----------

  predicate Whitespace(c: char)
  {
    var x := c as int;
    9 <= x <= 13 || x == 32 || x == 0x85 || x == 0xA0 || x == 0x1680 || 0x2000 <= x <= 0x200A
    || x == 0x2028 || x == 0x2029 || x == 0x202F || x == 0x205F || x == 0x3000
  }

  function TrimStart(s: string): string
  {
    if s != "" && Whitespace(s[0]) then TrimStart(s[1..]) else s
  }

  function TrimEnd(s: string): string
  {
    if s != "" && Whitespace(s[|s| - 1]) then TrimEnd(s[..|s| - 1]) else s
  }

  function Trim(s: string): string
  {
    TrimEnd(TrimStart(s))
  }

  predicate Blank(s: string)
  {
    forall k :: 0 <= k < |s| ==> Whitespace(s[k])
  }

  /** Nothing, or a text that neither begins nor ends in white space. */
  predicate Tight(s: string)
  {
    s != "" ==> !Whitespace(s[0]) && !Whitespace(s[|s| - 1])
  }

  lemma {:induction false} TrimStartExactly(s: string) returns (k: nat)
    ensures k <= |s| && Blank(s[..k]) && TrimStart(s) == s[k..] && (k < |s| ==> !Whitespace(s[k]))
  {
    k := 0;
    if s != "" && Whitespace(s[0]) {
      k := TrimStartExactly(s[1..]);
      assert s[..k + 1] == [s[0]] + s[1..][..k];
      k := k + 1;
    }
  }

  lemma {:induction false} TrimEndExactly(s: string) returns (k: nat)
    ensures k <= |s| && Blank(s[k..]) && TrimEnd(s) == s[..k] && (k > 0 ==> !Whitespace(s[k - 1]))
  {
    k := |s|;
    if s != "" && Whitespace(s[|s| - 1]) {
      var init := s[..|s| - 1];
      k := TrimEndExactly(init);
      assert s[k..] == init[k..] + [s[|s| - 1]] && init[..k] == s[..k];
    }
  }

  /** Trimming takes white space off both ends and leaves none there. */
  lemma {:induction false} TrimExactly(s: string) returns (left: string, right: string)
    ensures s == left + Trim(s) + right && Blank(left) && Blank(right) && Tight(Trim(s))
  {
    var i := TrimStartExactly(s);
    var rest := TrimStart(s);
    var j := TrimEndExactly(rest);
    left, right := s[..i], rest[j..];
  }

  lemma {:induction false} TrimStartOf(left: string, s: string)
    requires Blank(left) && (s != "" ==> !Whitespace(s[0]))
    ensures TrimStart(left + s) == s
  {
    if left == "" {
      assert left + s == s;
    } else {
      assert (left + s)[1..] == left[1..] + s;
      TrimStartOf(left[1..], s);
    }
  }

  lemma {:induction false} TrimEndOf(s: string, right: string)
    requires Blank(right) && (s != "" ==> !Whitespace(s[|s| - 1]))
    ensures TrimEnd(s + right) == s
  {
    if right == "" {
      assert s + right == s;
    } else {
      var n := |right| - 1;
      assert (s + right)[..|s + right| - 1] == s + right[..n];
      TrimEndOf(s, right[..n]);
    }
  }

  lemma {:induction false} TrimOfTight(left: string, s: string, right: string)
    requires Blank(left) && Tight(s) && Blank(right)
    ensures Trim(left + s + right) == s
  {
    if s == "" {
      assert left + s + right == (left + right) + "";
      TrimStartOf(left + right, "");
    } else {
      assert left + s + right == left + (s + right);
      TrimStartOf(left, s + right);
      TrimEndOf(s, right);
    }
  }

  /** A text of one-byte characters as its bytes. */
  function Ascii(s: string): (r: seq<byte>)
    ensures |r| == |s| && forall k :: 0 <= k < |s| && s[k] as int < 256 ==> r[k] == s[k] as int
  {
    seq(|s|, k requires 0 <= k < |s| => s[k] as int % 256)
  }
}
