/** Server names in relay/src/lib.rs: normalising and mapping them to routes. */
module DnsName {
  import opened Basics
  import opened Text

  // ---------- Names ----------

  function TrimDots(s: string): string
  {
    if s != "" && s[|s| - 1] == '.' then TrimDots(s[..|s| - 1]) else s
  }

  function LowerChar(c: char): char
  {
    if 'A' <= c <= 'Z' then (c as int + 32) as char else c
  }

  function Lower(s: string): (r: string)
    ensures |r| == |s| && forall k :: 0 <= k < |s| ==> r[k] == LowerChar(s[k])
  {
    seq(|s|, k requires 0 <= k < |s| => LowerChar(s[k]))
  }

  /** split('.'): one more part than there are dots. */
  function Labels(s: string): (parts: seq<string>)
    ensures |parts| > 0
  {
    if s == "" then [""]
    else
      var rest := Labels(s[1..]);
      if s[0] == '.' then [""] + rest else [[s[0]] + rest[0]] + rest[1..]
  }

  predicate LabelChar(c: char)
  {
    'a' <= c <= 'z' || '0' <= c <= '9' || c == '-'
  }

  predicate LabelOk(part: string)
  {
    part != "" && |part| <= 63 && part[0] != '-' && part[|part| - 1] != '-'
    && forall k :: 0 <= k < |part| ==> LabelChar(part[k])
  }

  predicate Canonical(s: string)
  {
    s != "" && |s| <= 253 && forall k :: 0 <= k < |Labels(s)| ==> LabelOk(Labels(s)[k])
  }

  function NormalizeDnsName(text: string): Option<string>
  {
    var value := Lower(TrimDots(Trim(text)));
    if Canonical(value) then Some(value) else None
  }

  /** Every character of a canonical name is a label character or a dot, and it begins and ends in a label character. */
  lemma {:induction false} CanonicalChars(s: string)
    requires forall k :: 0 <= k < |Labels(s)| ==> LabelOk(Labels(s)[k])
    ensures s != "" && LabelChar(s[0]) && LabelChar(s[|s| - 1])
    ensures forall k :: 0 <= k < |s| ==> LabelChar(s[k]) || s[k] == '.'
  {
    LabelsChars(s);
    assert LabelOk(Labels(s)[0]) && LabelOk(Labels(s)[|Labels(s)| - 1]);
  }

  lemma {:induction false} LabelsChars(s: string)
    requires forall k :: 0 < k < |Labels(s)| ==> LabelOk(Labels(s)[k])
    requires forall k :: 0 <= k < |Labels(s)[0]| ==> LabelChar(Labels(s)[0][k])
    ensures forall k :: 0 <= k < |s| ==> LabelChar(s[k]) || s[k] == '.'
    ensures Labels(s)[0] != "" ==> s != "" && s[0] == Labels(s)[0][0]
    ensures s != "" && Labels(s)[|Labels(s)| - 1] != "" ==> LabelChar(s[|s| - 1])
  {
    if s != "" {
      var rest := Labels(s[1..]);
      var parts := Labels(s);
      if s[0] == '.' {
        assert rest[0] == parts[1] && LabelOk(parts[1]);
        forall k | 0 < k < |rest| ensures LabelOk(rest[k]) { assert rest[k] == parts[k + 1]; }
        LabelsChars(s[1..]);
        assert rest[|rest| - 1] == parts[|parts| - 1];
      } else {
        forall k | 0 < k < |rest| ensures LabelOk(rest[k]) { assert rest[k] == parts[k]; }
        forall k | 0 <= k < |rest[0]| ensures LabelChar(rest[0][k]) { assert rest[0][k] == parts[0][k + 1]; }
        assert s[0] == parts[0][0];
        LabelsChars(s[1..]);
      }
    }
  }

  /** Normalising a canonical name changes nothing, so normalising twice is normalising once. */
  lemma {:induction false} CanonicalIsFixed(s: string)
    requires Canonical(s)
    ensures NormalizeDnsName(s) == Some(s)
  {
    CanonicalChars(s);
    assert TrimStart(s) == s && TrimEnd(s) == s && TrimDots(s) == s;
    assert Lower(s) == s;
  }

  // ---------- What a text is normalised to ----------

  predicate SameButCase(text: string, s: string)
  {
    |text| == |s|
    && forall k :: 0 <= k < |s| ==> text[k] == s[k] || ('a' <= s[k] <= 'z' && text[k] as int == s[k] as int - 32)
  }

  predicate Dots(s: string)
  {
    forall k :: 0 <= k < |s| ==> s[k] == '.'
  }

  /** The text is the name in any case, with dots after it and white space around. */
  ghost predicate SpelledAs(text: string, s: string, left: string, same: string, dots: string, right: string)
  {
    text == left + (same + dots) + right && Blank(left) && SameButCase(same, s) && Dots(dots) && Blank(right)
  }

  ghost predicate Spells(text: string, s: string)
  {
    exists left, same, dots, right :: SpelledAs(text, s, left, same, dots, right)
  }

  lemma {:induction false} TrimDotsExactly(s: string) returns (k: nat)
    ensures k <= |s| && Dots(s[k..]) && TrimDots(s) == s[..k] && (k > 0 ==> s[k - 1] != '.')
  {
    k := |s|;
    if s != "" && s[|s| - 1] == '.' {
      var init := s[..|s| - 1];
      k := TrimDotsExactly(init);
      assert s[k..] == init[k..] + ['.'] && init[..k] == s[..k];
    }
  }

  lemma {:induction false} TrimDotsOf(s: string, dots: string)
    requires Dots(dots) && (s != "" ==> s[|s| - 1] != '.')
    ensures TrimDots(s + dots) == s
  {
    if dots == "" {
      assert s + dots == s;
    } else {
      var n := |dots| - 1;
      assert (s + dots)[..|s + dots| - 1] == s + dots[..n];
      TrimDotsOf(s, dots[..n]);
    }
  }

  lemma {:induction false} LowerExactly(text: string, s: string)
    requires Canonical(s)
    ensures Lower(text) == s <==> SameButCase(text, s)
  {
    CanonicalChars(s);
  }

  /** A text is normalised to a name exactly when the name is canonical and the text spells it. */
  lemma {:induction false} NormalizesExactly(text: string, s: string)
    ensures NormalizeDnsName(text) == Some(s) <==> Canonical(s) && Spells(text, s)
  {
    hide Canonical, Lower, Trim, TrimDots, SameButCase;
    if NormalizeDnsName(text) == Some(s) {
      var left, right := TrimExactly(text);
      var k := TrimDotsExactly(Trim(text));
      assert Trim(text) == Trim(text)[..k] + Trim(text)[k..];
      LowerExactly(Trim(text)[..k], s);
      assert SpelledAs(text, s, left, Trim(text)[..k], Trim(text)[k..], right);
    }
    if Canonical(s) && Spells(text, s) {
      var left, same, dots, right :| SpelledAs(text, s, left, same, dots, right);
      LowerExactly(same, s);
      EndsInLabels(s, same, dots);
      TrimOfTight(left, same + dots, right);
      TrimDotsOf(same, dots);
    }
  }

  lemma {:induction false} EndsInLabels(s: string, same: string, dots: string)
    requires Canonical(s) && SameButCase(same, s) && Dots(dots)
    ensures Tight(same + dots) && (same != "" ==> same[|same| - 1] != '.')
  {
    CanonicalChars(s);
  }

  /** A canonical name spells itself. */
  lemma {:induction false} SpellsItself(s: string)
    ensures Spells(s, s)
  {
    assert SpelledAs(s, s, "", s, "", "");
  }

  function Joined(parts: seq<string>): string
    requires parts != []
  {
    if |parts| == 1 then parts[0] else parts[0] + "." + Joined(parts[1..])
  }

  /** The labels are what stands between the dots. */
  lemma {:induction false} LabelsExactly(s: string)
    ensures Joined(Labels(s)) == s
    ensures forall k :: 0 <= k < |Labels(s)| ==> '.' !in Labels(s)[k]
  {
    if s != "" {
      var rest := Labels(s[1..]);
      LabelsExactly(s[1..]);
      if s[0] == '.' {
        assert ([""] + rest)[1..] == rest;
      } else {
        assert ([[s[0]] + rest[0]] + rest[1..])[1..] == rest[1..];
      }
    }
  }

  // ---------- Routes ----------

  predicate ValidRouteId(id: string)
  {
    8 <= |id| <= 63 && (forall k :: 0 <= k < |id| ==> LabelChar(id[k])) && id[0] != '-' && id[|id| - 1] != '-'
  }

  /** A route id is a label of at least eight characters. */
  lemma {:induction false} RouteIdsAreLabels(id: string)
    ensures ValidRouteId(id) <==> LabelOk(id) && |id| >= 8
  {
  }

  function RouteFromSni(sni: string, domain: string): Option<string>
  {
    var suffix := "." + domain;
    if |sni| >= |suffix| && sni[|sni| - |suffix|..] == suffix && ValidRouteId(sni[..|sni| - |suffix|])
    then Some(sni[..|sni| - |suffix|]) else None
  }

  /** A name leads to a route exactly when it is the route's public name. */
  lemma {:induction false} RoutesExactly(sni: string, domain: string, route: string)
    ensures RouteFromSni(sni, domain) == Some(route) <==> ValidRouteId(route) && sni == route + "." + domain
  {
    var suffix := "." + domain;
    if RouteFromSni(sni, domain) == Some(route) {
      assert sni == sni[..|sni| - |suffix|] + suffix;
    }
    if sni == route + "." + domain {
      assert sni == route + suffix;
      assert sni[..|sni| - |suffix|] == route;
    }
  }

  lemma {:induction false} PrependLabel(part: string, rest: string)
    requires forall k :: 0 <= k < |part| ==> part[k] != '.'
    ensures Labels(part + "." + rest) == [part] + Labels(rest)
  {
    var s := part + "." + rest;
    if part == "" {
      assert s[1..] == rest;
    } else {
      assert s[1..] == part[1..] + "." + rest;
      PrependLabel(part[1..], rest);
      assert [s[0]] + part[1..] == part;
    }
  }

  /** The name a route is published under is canonical, and leads back to that route and no other. */
  lemma {:induction false} PublicNameRoundTrip(route: string, domain: string)
    requires ValidRouteId(route) && Canonical(domain) && |route| + 1 + |domain| <= 253
    ensures Canonical(route + "." + domain)
    ensures RouteFromSni(route + "." + domain, domain) == Some(route)
  {
    var s := route + "." + domain;
    PrependLabel(route, domain);
    forall k | 0 <= k < |Labels(s)| ensures LabelOk(Labels(s)[k]) {
      if k > 0 { assert Labels(s)[k] == Labels(domain)[k - 1]; }
    }
    assert s[|s| - |"." + domain|..] == "." + domain;
    assert s[..|s| - |"." + domain|] == route;
  }
}
