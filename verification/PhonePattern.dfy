/**
  The phone pattern of src/Session.cpp:200, character by character: which strings match is stated
  here in literal characters, for every way of writing the ten or eleven digits.
*/
module PhonePattern {
  import opened PhoneNumber
  import opened UrlDecoding

  predicate Figures(s: string) {
    forall i | 0 <= i < |s| :: '0' <= s[i] <= '9'
  }

  predicate NoFigures(s: string) {
    forall i | 0 <= i < |s| :: !('0' <= s[i] <= '9')
  }

  predicate OneOf(s: string, chars: string) {
    forall i | 0 <= i < |s| :: s[i] in chars
  }

  /** Spaces and the control characters from tab to carriage return. */
  predicate White(s: string) {
    forall i | 0 <= i < |s| :: s[i] == ' ' || 9 <= s[i] as int <= 13
  }

  // ---------------------------------------------------------------------------------------
  // The gaps of a string

  /** What stands between the n-th digit of s and the next one. */
  function Gap(s: string, n: nat): string {
    if s == "" then ""
    else if '0' <= s[0] <= '9' then (if n == 0 then "" else Gap(s[1..], n - 1))
    else if n == 0 then [s[0]] + Gap(s[1..], 0)
    else Gap(s[1..], n)
  }

  lemma {:induction false} GapOfGap(g: string, rest: string, n: nat)
    requires NoFigures(g)
    ensures Gap(g + rest, n) == if n == 0 then g + Gap(rest, 0) else Gap(rest, n)
  {
    if g == "" {
      assert g + rest == rest;
    } else {
      assert NoFigures(g[1..]) && !('0' <= g[0] <= '9');
      hide Gap, NoFigures;
      GapOfGap(g[1..], rest, n);
      GapStep(g[0], g[1..] + rest, n);
      HeadFirst(g, rest);
      HeadFirst(g, Gap(rest, 0));
    }
  }

  lemma HeadFirst(g: string, rest: string)
    requires g != ""
    ensures g + rest == [g[0]] + (g[1..] + rest)
  {
  }

  lemma GapStep(c: char, rest: string, n: nat)
    requires !('0' <= c <= '9')
    ensures Gap([c] + rest, n) == if n == 0 then [c] + Gap(rest, 0) else Gap(rest, n)
  {
    assert ([c] + rest)[1..] == rest;
  }

  lemma {:induction false} GapOfDigits(d: string, rest: string, n: nat)
    requires Figures(d)
    ensures |d| <= n ==> Gap(d + rest, n) == Gap(rest, n - |d|)
    ensures d != "" && n == 0 ==> Gap(d + rest, n) == ""
  {
    if d == "" {
      assert d + rest == rest;
    } else if n > 0 {
      assert (d + rest)[1..] == d[1..] + rest;
      GapOfDigits(d[1..], rest, n - 1);
    }
  }

  /** The three groups with what surrounds them. */
  function Grouped(g1: string, a: string, g2: string, e: string, g3: string, l: string, g4: string): string {
    g1 + (a + (g2 + (e + (g3 + (l + g4)))))
  }

  lemma GapsOfGrouped(g1: string, a: string, g2: string, e: string, g3: string, l: string, g4: string)
    requires Figures(a) && |a| == 3 && Figures(e) && |e| == 3 && Figures(l) && |l| == 4
    requires NoFigures(g1) && NoFigures(g2) && NoFigures(g3) && NoFigures(g4)
    ensures var s := Grouped(g1, a, g2, e, g3, l, g4);
            Gap(s, 0) == g1 && Gap(s, 3) == g2 && Gap(s, 6) == g3 && Gap(s, 10) == g4
  {
    hide Gap, Figures, NoFigures;
    var s3 := g3 + (l + g4);
    var s2 := g2 + (e + s3);
    GapOfDigits(l, g4, 4);
    GapOfDigits(l, g4, 0);
    GapOfAll(g4);
    GapOfGap(g3, l + g4, 0);
    GapOfGap(g3, l + g4, 4);
    GapOfDigits(e, s3, 0);
    GapOfDigits(e, s3, 3);
    GapOfDigits(e, s3, 7);
    GapOfGap(g2, e + s3, 0);
    GapOfGap(g2, e + s3, 3);
    GapOfGap(g2, e + s3, 7);
    GapOfDigits(a, s2, 0);
    GapOfDigits(a, s2, 3);
    GapOfDigits(a, s2, 6);
    GapOfDigits(a, s2, 10);
    GapOfGap(g1, a + s2, 0);
    GapOfGap(g1, a + s2, 3);
    GapOfGap(g1, a + s2, 6);
    GapOfGap(g1, a + s2, 10);
  }

  lemma GapOfAll(g: string)
    requires NoFigures(g)
    ensures Gap(g, 0) == g
  {
    GapOfGap(g, "", 0);
    assert g + "" == g;
  }

  lemma GapsAfter(head: string, c: string, tail: string)
    requires NoFigures(head) && Figures(c) && |c| <= 1
    ensures Gap(head + (c + tail), 0) == head + (if c == "" then Gap(tail, 0) else "")
    ensures forall n: nat | n > 0 || c != "" :: Gap(head + (c + tail), n + |c|) == Gap(tail, n)
  {
    GapOfGap(head, c + tail, 0);
    GapOfDigits(c, tail, 0);
    assert "" + tail == tail;
    forall n: nat | n > 0 || c != "" ensures Gap(head + (c + tail), n + |c|) == Gap(tail, n) {
      GapOfGap(head, c + tail, n + |c|);
      GapOfDigits(c, tail, n + |c|);
    }
  }

  lemma NoDigitInClasses(s: string)
    ensures All(s, Space) || All(s, FirstGap) || All(s, SecondGap) || All(s, ThirdGap) ==> NoFigures(s)
    ensures All(s, Digit) <==> Figures(s)
  {
  }

  /** A split of a string has the string's own gaps. */
  lemma GapsOfSplit(s: string, p: Split)
    requires Fits(s, p)
    ensures var k := |p.groups.country|;
            && k <= 1 && Gap(s, k + 3) == p.gap2 && Gap(s, k + 6) == p.gap3 && Gap(s, k + 10) == p.trail
            && Gap(s, 0) == "/" + p.lead + p.plus + (if k == 0 then p.gap1 else "")
            && (k == 1 ==> Gap(s, 1) == p.gap1)
  {
    var g := p.groups;
    NoDigitInClasses(p.lead);
    NoDigitInClasses(p.gap1);
    NoDigitInClasses(p.gap2);
    NoDigitInClasses(p.gap3);
    NoDigitInClasses(p.trail);
    NoDigitInClasses(g.country);
    NoDigitInClasses(g.area);
    NoDigitInClasses(g.exchange);
    NoDigitInClasses(g.line);
    assert NoFigures("/" + p.lead + p.plus);
    Regrouped("/", p.lead, p.plus, g.country + AfterCountry(p));
    hide Gap, Figures, NoFigures, All;
    GapsOfGrouped(p.gap1, g.area, p.gap2, g.exchange, p.gap3, g.line, p.trail);
    GapsAfter("/" + p.lead + p.plus, g.country, AfterCountry(p));
  }

  lemma Regrouped(a: string, b: string, c: string, d: string)
    ensures a + (b + (c + d)) == a + b + c + d
  {
  }

  // ---------------------------------------------------------------------------------------
  // The pattern in literal characters

  /** How the part before a country code may look. */
  predicate LeadsIn(g: string) {
    g != "" && g[0] == '/'
    && (White(g[1..]) || (|g| > 1 && g[|g| - 1] == '+' && White(g[1..|g| - 1])))
  }

  lemma LeadOfSplit(g: string, lead: string, plus: string)
    requires g == "/" + lead + plus && All(lead, Space) && (plus == "" || plus == "+")
    ensures LeadsIn(g)
  {
    if plus == "" {
      assert g[1..] == lead;
    } else {
      assert g[1..|g| - 1] == lead;
    }
  }

  lemma SplitOfLead(g: string) returns (lead: string, plus: string)
    requires LeadsIn(g)
    ensures g == "/" + lead + plus && All(lead, Space) && (plus == "" || plus == "+")
  {
    if White(g[1..]) {
      lead, plus := g[1..], "";
    } else {
      lead, plus := g[1..|g| - 1], "+";
    }
  }

  /** The three groups of digits, of three, three and four. */
  predicate AreGroups(a: string, e: string, l: string) {
    Figures(a) && |a| == 3 && Figures(e) && |e| == 3 && Figures(l) && |l| == 4
  }

  lemma DigitsOfWritten(head: string, c: string, g1: string, a: string, g2: string, e: string,
                        g3: string, l: string, g4: string)
    requires AreGroups(a, e, l) && Figures(c) && |c| <= 1
    requires NoFigures(head) && NoFigures(g1) && NoFigures(g2) && NoFigures(g3) && NoFigures(g4)
    ensures |Digits(head + (c + Grouped(g1, a, g2, e, g3, l, g4)))| == |c| + 10
  {
    hide Digits;
    DigitsOfGroup(g3, l, g4);
    DigitsOfNone(g4);
    DigitsOfGroup(g2, e, g3 + (l + g4));
    DigitsOfGroup(g1, a, g2 + (e + (g3 + (l + g4))));
    DigitsOfGroup(head, c, Grouped(g1, a, g2, e, g3, l, g4));
  }

  lemma MatchesWithCountry(head: string, c: string, g1: string, a: string, g2: string, e: string,
                           g3: string, l: string, g4: string)
    requires AreGroups(a, e, l) && Figures(c) && |c| == 1
    requires NoFigures(head) && NoFigures(g1) && NoFigures(g2) && NoFigures(g3) && NoFigures(g4)
    ensures Matches(head + (c + Grouped(g1, a, g2, e, g3, l, g4)))
            <==> LeadsIn(head) && OneOf(g1, "-. (") && OneOf(g2, "-. )") && OneOf(g3, "-. ") && White(g4)
  {
    var s := head + (c + Grouped(g1, a, g2, e, g3, l, g4));
    GapsAfter(head, c, Grouped(g1, a, g2, e, g3, l, g4));
    GapsOfGrouped(g1, a, g2, e, g3, l, g4);
    DigitsOfWritten(head, c, g1, a, g2, e, g3, l, g4);
    if p :| Fits(s, p) {
      SplitIsCut(s, p);
      GapsOfSplit(s, p);
      assert head + "" == head && "/" + p.lead + p.plus + "" == "/" + p.lead + p.plus;
      LeadOfSplit(head, p.lead, p.plus);
      ClassesAreLiteral(g1, g2, g3, g4);
    }
    if LeadsIn(head) && OneOf(g1, "-. (") && OneOf(g2, "-. )") && OneOf(g3, "-. ") && White(g4) {
      var lead, plus := SplitOfLead(head);
      ClassesAreLiteral(g1, g2, g3, g4);
      WrittenMatches(lead, plus, c, g1, a, g2, e, g3, l, g4);
    }
  }

  lemma ClassesAreLiteral(g1: string, g2: string, g3: string, g4: string)
    ensures All(g1, FirstGap) <==> OneOf(g1, "-. (")
    ensures All(g2, SecondGap) <==> OneOf(g2, "-. )")
    ensures All(g3, ThirdGap) <==> OneOf(g3, "-. ")
    ensures All(g4, Space) <==> White(g4)
  {
  }

  lemma WrittenMatches(lead: string, plus: string, c: string, g1: string, a: string, g2: string, e: string,
                       g3: string, l: string, g4: string)
    requires AreGroups(a, e, l) && Figures(c) && |c| <= 1 && (plus == "" || (plus == "+" && c != ""))
    requires All(lead, Space) && All(g1, FirstGap) && All(g2, SecondGap) && All(g3, ThirdGap) && All(g4, Space)
    ensures Matches("/" + lead + plus + (c + Grouped(g1, a, g2, e, g3, l, g4)))
  {
    var p := Split(lead, plus, Groups(c, a, e, l), g1, g2, g3, g4);
    Regrouped("/", lead, plus, c + Grouped(g1, a, g2, e, g3, l, g4));
    assert Fits(Whole(p), p);
  }

  /** Without a country code: white space, then the characters of the first gap. */
  ghost predicate LeadsInShort(g: string) {
    exists i :: 1 <= i <= |g| && g[0] == '/' && White(g[1..i]) && OneOf(g[i..], "-. (")
  }

  lemma MatchesWithoutCountry(head: string, a: string, g2: string, e: string, g3: string, l: string, g4: string)
    requires AreGroups(a, e, l)
    requires NoFigures(head) && NoFigures(g2) && NoFigures(g3) && NoFigures(g4)
    ensures Matches(Grouped(head, a, g2, e, g3, l, g4))
            <==> LeadsInShort(head) && OneOf(g2, "-. )") && OneOf(g3, "-. ") && White(g4)
  {
    var s := Grouped(head, a, g2, e, g3, l, g4);
    GapsOfGrouped(head, a, g2, e, g3, l, g4);
    DigitsOfWritten("", "", head, a, g2, e, g3, l, g4);
    assert "" + ("" + s) == s;
    if p :| Fits(s, p) {
      SplitIsCut(s, p);
      GapsOfSplit(s, p);
      ShortLeadOfSplit(head, p.lead, p.gap1);
      ClassesAreLiteral(p.gap1, g2, g3, g4);
    }
    if LeadsInShort(head) && OneOf(g2, "-. )") && OneOf(g3, "-. ") && White(g4) {
      var i :| 1 <= i <= |head| && head[0] == '/' && White(head[1..i]) && OneOf(head[i..], "-. (");
      ClassesAreLiteral(head[i..], g2, g3, g4);
      ClassesAreLiteral("", "", "", head[1..i]);
      WrittenMatches(head[1..i], "", "", head[i..], a, g2, e, g3, l, g4);
      ShortHead(head, i, a + (g2 + (e + (g3 + (l + g4)))));
    }
  }

  lemma ShortLeadOfSplit(g: string, lead: string, gap1: string)
    requires g == "/" + lead + "" + gap1 && All(lead, Space) && All(gap1, FirstGap)
    ensures LeadsInShort(g)
  {
    var i := 1 + |lead|;
    assert g[1..i] == lead && g[i..] == gap1;
  }

  lemma ShortHead(head: string, i: nat, rest: string)
    requires 1 <= i <= |head| && head[0] == '/'
    ensures "/" + head[1..i] + "" + ("" + (head[i..] + rest)) == head + rest
  {
  }

  /** And a subject that matches is always written in one of these two ways. */
  lemma EveryMatchIsWritten(s: string)
    returns (head: string, c: string, g1: string, a: string, g2: string, e: string, g3: string, l: string, g4: string)
    requires Matches(s)
    ensures s == head + (c + Grouped(g1, a, g2, e, g3, l, g4))
    ensures |c| <= 1 && Figures(c) && AreGroups(a, e, l)
    ensures NoFigures(head) && NoFigures(g1) && NoFigures(g2) && NoFigures(g3) && NoFigures(g4)
  {
    var p :| Fits(s, p);
    var g := p.groups;
    head, c, g1, a, g2 := "/" + p.lead + p.plus, g.country, p.gap1, g.area, p.gap2;
    e, g3, l, g4 := g.exchange, p.gap3, g.line, p.trail;
    NoDigitInClasses(p.lead);
    NoDigitInClasses(g1);
    NoDigitInClasses(g2);
    NoDigitInClasses(g3);
    NoDigitInClasses(g4);
    NoDigitInClasses(c);
    NoDigitInClasses(a);
    NoDigitInClasses(e);
    NoDigitInClasses(l);
    Regrouped("/", p.lead, p.plus, c + AfterCountry(p));
    assert NoFigures("/" + p.lead + p.plus);
  }

  // ---------------------------------------------------------------------------------------
  // Two ways in which numbers are written

  lemma InternationalForm(c: string, a: string, e: string, l: string)
    requires AreGroups(a, e, l) && Figures(c) && |c| == 1
    ensures Matches("/+" + c + " (" + a + ") " + e + "-" + l)
  {
    assert White("/+"[1..1]) && "/+"[1..] == "+";
    assert NoFigures("/+") && NoFigures(" (") && NoFigures(") ") && NoFigures("-") && NoFigures("");
    assert LeadsIn("/+") && OneOf(" (", "-. (") && OneOf(") ", "-. )") && OneOf("-", "-. ") && White("");
    hide LeadsIn, OneOf, White, NoFigures, Figures, AreGroups, Matches;
    MatchesWithCountry("/+", c, " (", a, ") ", e, "-", l, "");
    Flat("/+", c, " (", a, ") ", e, "-", l);
  }

  lemma Flat(head: string, c: string, g1: string, a: string, g2: string, e: string, g3: string, l: string)
    ensures head + (c + Grouped(g1, a, g2, e, g3, l, "")) == head + c + g1 + a + g2 + e + g3 + l
  {
  }

  lemma BracketsWithoutSpaces(c: string, a: string, e: string, l: string)
    requires AreGroups(a, e, l) && Figures(c) && |c| == 1
    ensures Matches("/" + c + "(" + a + ")" + e + l)
  {
    assert "/"[1..] == "";
    assert NoFigures("/") && NoFigures("(") && NoFigures(")") && NoFigures("");
    assert LeadsIn("/") && OneOf("(", "-. (") && OneOf(")", "-. )") && OneOf("", "-. ") && White("");
    hide LeadsIn, OneOf, White, NoFigures, Figures, AreGroups, Matches;
    MatchesWithCountry("/", c, "(", a, ")", e, "", l, "");
    Flat("/", c, "(", a, ")", e, "", l);
    assert "/" + c + "(" + a + ")" + e + "" + l == "/" + c + "(" + a + ")" + e + l;
  }
}
