/** The decoding of "%20" in src/Session.cpp. */
module UrlDecoding {

  const ENCODED: string := "%20"

  /** "%20" starts at position i of s. */
  predicate EncodedAt(s: string, i: nat): (b: bool)
    ensures b <==> i + 3 <= |s| && s[i..i + 3] == "%20"
  {
    i + 3 <= |s| && s[i] == '%' && s[i + 1] == '2' && s[i + 2] == '0'
  }

  predicate HasNoEncoded(s: string) {
    forall i: nat | i < |s| :: !EncodedAt(s, i)
  }

  /** Left to right, without overlaps, every "%20" becomes a space. */
  function Decode(s: string): string {
    if s == "" then ""
    else if EncodedAt(s, 0) then " " + Decode(s[3..])
    else [s[0]] + Decode(s[1..])
  }

  function Encode(s: string): string {
    if s == "" then ""
    else (if s[0] == ' ' then ENCODED else [s[0]]) + Encode(s[1..])
  }

  /** std::string::find from a start position; the length of s stands for npos. */
  method Find(s: string, start: nat) returns (pos: nat)
    requires start <= |s|
    ensures start <= pos <= |s|
    ensures forall i | start <= i < pos :: !EncodedAt(s, i)
    ensures pos < |s| ==> EncodedAt(s, pos)
  {
    pos := start;
    while pos < |s| && !EncodedAt(s, pos)
      invariant start <= pos <= |s|
      invariant forall i | start <= i < pos :: !EncodedAt(s, i)
    {
      pos := pos + 1;
    }
  }

  lemma {:induction false} DecodeSkips(s: string, n: nat)
    requires n <= |s| && forall i | 0 <= i < n :: !EncodedAt(s, i)
    ensures Decode(s) == s[..n] + Decode(s[n..])
  {
    if n == 0 {
      assert s[0..] == s;
    } else {
      assert Decode(s) == [s[0]] + Decode(s[1..]);
      hide Decode;
      forall i | 0 <= i < n - 1 ensures !EncodedAt(s[1..], i) {
        assert !EncodedAt(s, i + 1);
      }
      hide EncodedAt;
      DecodeSkips(s[1..], n - 1);
      HeadThenTail(s, n, Decode(s[n..]));
    }
  }

  lemma HeadThenTail(s: string, n: nat, rest: string)
    requires 0 < n <= |s|
    ensures s[1..][n - 1..] == s[n..]
    ensures [s[0]] + (s[1..][..n - 1] + rest) == s[..n] + rest
  {
    assert [s[0]] + s[1..][..n - 1] == s[..n];
  }

  /** Moving the start position over a stretch without "%20". */
  lemma DecodeAdvance(str: string, before: nat, pos: nat)
    requires before <= pos <= |str| && forall i | before <= i < pos :: !EncodedAt(str, i)
    ensures str[..before] + Decode(str[before..]) == str[..pos] + Decode(str[pos..])
  {
    var rest, n := str[before..], pos - before;
    forall i | 0 <= i < n ensures !EncodedAt(rest, i) {
      assert !EncodedAt(str, before + i);
    }
    DecodeSkips(rest, n);
    assert rest[n..] == str[pos..];
    assert str[..pos] == str[..before] + rest[..n];
  }

  function Replaced(str: string, pos: nat): (r: string)
    requires EncodedAt(str, pos)
    ensures |r| == |str| - 2 && r[..pos + 1] == str[..pos] + " " && r[pos + 1..] == str[pos + 3..]
  {
    str[..pos] + " " + str[pos + 3..]
  }

  /** Replacing one "%20" and stepping over the space. */
  lemma DecodeReplace(str: string, pos: nat)
    requires EncodedAt(str, pos)
    ensures var r := Replaced(str, pos);
            str[..pos] + Decode(str[pos..]) == r[..pos + 1] + Decode(r[pos + 1..])
  {
    assert EncodedAt(str[pos..], 0) && str[pos..][3..] == str[pos + 3..];
    assert str[..pos] + (" " + Decode(str[pos + 3..])) == str[..pos] + " " + Decode(str[pos + 3..]);
  }

  /** The search-and-replace loop of UrlDecode computes Decode. */
  method UrlDecode(query: string) returns (str: string)
    ensures str == Decode(query)
  {
    str := query;
    var startPos := 0;
    assert query[..0] == "" && query[0..] == query;
    while true
      invariant startPos <= |str|
      invariant Decode(query) == str[..startPos] + Decode(str[startPos..])
      decreases |str| - startPos
    {
      var pos := Find(str, startPos);
      DecodeAdvance(str, startPos, pos);
      if pos == |str| {
        assert str[pos..] == "" && str[..pos] == str;
        break;
      }
      DecodeReplace(str, pos);
      str, startPos := Replaced(str, pos), pos + 1;
    }
  }

  /** What a decoded string starts with, unless a space, the original starts with too. */
  lemma DecodeHead(s: string)
    requires Decode(s) != "" && Decode(s)[0] != ' '
    ensures s != "" && s[0] == Decode(s)[0] && Decode(s)[1..] == Decode(s[1..])
  {
  }

  /** Decoding leaves no "%20" behind: the spaces it writes cannot complete one. */
  lemma {:induction false} DecodedHasNone(s: string)
    ensures HasNoEncoded(Decode(s))
  {
    var d := Decode(s);
    if s == "" {
    } else {
      var rest := if EncodedAt(s, 0) then s[3..] else s[1..];
      DecodedHasNone(rest);
      forall i: nat | i < |d| ensures !EncodedAt(d, i) {
        if i > 0 {
          assert d[1..] == Decode(rest);
          assert !EncodedAt(Decode(rest), i - 1);
        } else if EncodedAt(d, 0) {
          DecodeHead(s);
          DecodeHead(s[1..]);
          DecodeHead(s[1..][1..]);
          assert false;
        }
      }
    }
  }

  lemma DecodeIsIdempotent(s: string)
    ensures Decode(Decode(s)) == Decode(s)
  {
    DecodedHasNone(s);
    var d := Decode(s);
    DecodeSkips(d, |d|);
    assert d[|d|..] == "";
  }

  /** The first "%20" becomes a space, and what stands before it stays. */
  lemma DecodeFirst(a: string, b: string)
    requires forall i | 0 <= i < |a| :: a[i] != '%'
    ensures Decode(a) == a && Decode(a + "%20" + b) == a + " " + Decode(b)
  {
    DecodeSkips(a, |a|);
    assert a[|a|..] == "";
    var s := a + "%20" + b;
    assert forall i | 0 <= i < |a| :: s[i] == a[i];
    DecodeSkips(s, |a|);
    assert s[..|a|] == a && s[|a|..] == "%20" + b && ("%20" + b)[3..] == b;
    assert a + (" " + Decode(b)) == a + " " + Decode(b);
  }

  /** Decoding undoes the encoding of spaces, for every text without a literal "%20". */
  lemma {:induction false} DecodeEncode(s: string)
    requires HasNoEncoded(s)
    ensures Decode(Encode(s)) == s
  {
    if s == "" {
    } else {
      var e := Encode(s);
      forall i: nat | i < |s[1..]| ensures !EncodedAt(s[1..], i) {
        assert !EncodedAt(s, i + 1);
      }
      DecodeEncode(s[1..]);
      if s[0] == ' ' {
        assert e[3..] == Encode(s[1..]);
      } else {
        assert e[1..] == Encode(s[1..]);
        NotEncodedHere(s);
      }
    }
  }

  /** Encoding spaces makes no "%20" out of a character that is no space. */
  lemma NotEncodedHere(s: string)
    requires s != "" && s[0] != ' ' && !EncodedAt(s, 0)
    ensures !EncodedAt(Encode(s), 0)
  {
    var e, t := Encode(s), s[1..];
    assert e == [s[0]] + Encode(t);
    if |e| >= 3 && e[1] != '%' && e[2] != '%' {
      EncodeHead(t);
      assert Encode(t)[1..] == Encode(t[1..]);
      EncodeHead(t[1..]);
    }
  }

  lemma EncodeHead(s: string)
    requires Encode(s) != "" && Encode(s)[0] != '%'
    ensures s != "" && s[0] == Encode(s)[0] && Encode(s)[1..] == Encode(s[1..])
  {
  }
}

/**
  Phone numbers, src/Session.cpp.  The pattern is a declarative match in the sense of
  section 15.10.2 of ECMA-262 3rd edition: a subject matches when it splits into parts that
  fit the pattern's pieces one after another.  A matcher may choose any such split.
*/
module PhoneNumber {
  import opened Decimals
  import opened UrlDecoding

  /** White space of the classic locale: space and the five control characters. */
  predicate IsSpace(c: char) { c == ' ' || 9 <= c as int <= 13 }

  /** The character classes of the pattern. */
  datatype CharClass = Digit | Space | FirstGap | SecondGap | ThirdGap

  predicate In(c: char, k: CharClass) {
    match k
    case Digit => IsDigit(c)
    case Space => IsSpace(c)
    case FirstGap => c == '-' || c == '.' || c == ' ' || c == '('
    case SecondGap => c == '-' || c == '.' || c == ' ' || c == ')'
    case ThirdGap => c == '-' || c == '.' || c == ' '
  }

  predicate All(s: string, k: CharClass) {
    forall i | 0 <= i < |s| :: In(s[i], k)
  }

  /** The four capture groups; an unmatched first group is the empty string. */
  datatype Groups = Groups(country: string, area: string, exchange: string, line: string)

  datatype Split = Split(lead: string, plus: string, groups: Groups,
                         gap1: string, gap2: string, gap3: string, trail: string)

  function AfterCountry(p: Split): string {
    p.gap1 + (p.groups.area + (p.gap2 + (p.groups.exchange + (p.gap3 + (p.groups.line + p.trail)))))
  }

  function Whole(p: Split): string {
    "/" + (p.lead + (p.plus + (p.groups.country + AfterCountry(p))))
  }

  /** The pattern ^/\s*(?:\+?(\d{1}))?[-. (]*(\d{3})[-. )]*(\d{3})[-. ]*(\d{4})\s*$ splits s as p. */
  ghost predicate Fits(s: string, p: Split) {
    && s == Whole(p)
    && All(p.lead, Space)
    && (p.plus == "" || p.plus == "+") && |p.groups.country| <= 1 && All(p.groups.country, Digit)
    && (p.groups.country == "" ==> p.plus == "")
    && FitsAfterCountry(p)
  }

  ghost predicate FitsAfterCountry(p: Split) {
    && All(p.gap1, FirstGap)
    && |p.groups.area| == 3 && All(p.groups.area, Digit)
    && All(p.gap2, SecondGap)
    && |p.groups.exchange| == 3 && All(p.groups.exchange, Digit)
    && All(p.gap3, ThirdGap)
    && |p.groups.line| == 4 && All(p.groups.line, Digit)
    && All(p.trail, Space)
  }

  ghost predicate Matches(s: string) {
    exists p :: Fits(s, p)
  }

  // ---------------------------------------------------------------------------------------
  // The captures

  function Digits(s: string): (d: string)
    ensures All(d, Digit)
  {
    if s == "" then ""
    else (if IsDigit(s[0]) then [s[0]] else "") + Digits(s[1..])
  }

  lemma {:induction false} DigitsAppend(s: string, t: string)
    ensures Digits(s + t) == Digits(s) + Digits(t)
  {
    if s == "" {
      assert s + t == t;
    } else {
      assert (s + t)[1..] == s[1..] + t;
      DigitsAppend(s[1..], t);
    }
  }

  lemma DigitsOfDigits(s: string)
    requires All(s, Digit)
    ensures Digits(s) == s
  {
    if s == "" {
    } else {
      DigitsOfDigits(s[1..]);
    }
  }

  lemma DigitsOfNone(s: string)
    requires forall i | 0 <= i < |s| :: !IsDigit(s[i])
    ensures Digits(s) == ""
  {
  }

  lemma DigitsOfGroup(gap: string, group: string, rest: string)
    requires (forall i | 0 <= i < |gap| :: !IsDigit(gap[i])) && All(group, Digit)
    ensures Digits(gap + (group + rest)) == group + Digits(rest)
  {
    DigitsAppend(gap, group + rest);
    DigitsAppend(group, rest);
    DigitsOfNone(gap);
    DigitsOfDigits(group);
  }

  lemma DigitsOfAfterCountry(p: Split)
    requires FitsAfterCountry(p)
    ensures Digits(AfterCountry(p)) == p.groups.area + p.groups.exchange + p.groups.line
  {
    var g := p.groups;
    DigitsOfGroup(p.gap3, g.line, p.trail);
    DigitsOfNone(p.trail);
    DigitsOfGroup(p.gap2, g.exchange, p.gap3 + (g.line + p.trail));
    DigitsOfGroup(p.gap1, g.area, p.gap2 + (g.exchange + (p.gap3 + (g.line + p.trail))));
  }

  lemma DigitsOfSplit(s: string, p: Split)
    requires Fits(s, p)
    ensures Digits(s) == p.groups.country + (p.groups.area + p.groups.exchange + p.groups.line)
  {
    var rest := p.groups.country + AfterCountry(p);
    DigitsOfGroup("/", "", p.lead + (p.plus + rest));
    assert "/" + ("" + (p.lead + (p.plus + rest))) == s;
    DigitsOfGroup(p.lead, "", p.plus + rest);
    assert p.lead + ("" + (p.plus + rest)) == p.lead + (p.plus + rest);
    DigitsOfGroup(p.plus, p.groups.country, AfterCountry(p));
    DigitsOfAfterCountry(p);
  }

  /** The digits of a subject, cut from the right into 4, 3, 3 and the optional country code. */
  function Cut(d: string): Groups
    requires |d| >= 10
  {
    var n := |d| - 10;
    Groups(d[..n], d[n..n + 3], d[n + 3..n + 6], d[n + 6..])
  }

  lemma SplitIsCut(s: string, p: Split)
    requires Fits(s, p)
    ensures 10 <= |Digits(s)| <= 11 && p.groups == Cut(Digits(s))
  {
    DigitsOfSplit(s, p);
  }

  /** However the matcher splits the subject, it captures the same four groups. */
  lemma CapturesAreUnique(s: string, p: Split, r: Split)
    requires Fits(s, p) && Fits(s, r)
    ensures p.groups == r.groups
  {
    SplitIsCut(s, p);
    SplitIsCut(s, r);
  }

  // ---------------------------------------------------------------------------------------
  // A deterministic scanner for the pattern

  /** Length of the longest prefix of s whose characters all satisfy p. */
  function Run(s: string, k: CharClass): (n: nat)
    ensures n <= |s| && All(s[..n], k)
    ensures n < |s| ==> !In(s[n], k)
  {
    if s == "" || !In(s[0], k) then 0 else 1 + Run(s[1..], k)
  }

  lemma {:induction false} RunAppend(s: string, t: string, k: CharClass)
    requires All(s, k)
    ensures Run(s + t, k) == |s| + Run(t, k)
  {
    if s == "" {
      assert s + t == t;
    } else {
      assert (s + t)[1..] == s[1..] + t;
      RunAppend(s[1..], t, k);
    }
  }

  lemma RunStops(s: string, t: string, k: CharClass)
    requires All(s, k) && (t == "" || !In(t[0], k))
    ensures Run(s + t, k) == |s|
  {
    RunAppend(s, t, k);
  }

  datatype Scanned = NoMatch | Match(groups: Groups)

  datatype Taken = Nothing | Took(digits: string, rest: string)

  /** A gap, then n digits. */
  function Take(s: string, gap: CharClass, n: nat): Taken {
    var t := s[Run(s, gap)..];
    if |t| < n || Run(t[..n], Digit) < n then Nothing else Took(t[..n], t[n..])
  }

  lemma Slices(s: string, k: nat, n: nat)
    requires k + n <= |s|
    ensures s == s[..k] + (s[k..][..n] + s[k..][n..])
  {
    assert s[k..] == s[k..][..n] + s[k..][n..];
  }

  lemma DigitsRun(s: string)
    requires Run(s, Digit) == |s|
    ensures All(s, Digit)
  {
    assert s[..|s|] == s;
  }

  lemma TakeSound(s: string, gap: CharClass, n: nat)
    requires Take(s, gap, n).Took?
    ensures var r := Take(s, gap, n); var k := Run(s, gap);
            && s == s[..k] + (r.digits + r.rest) && All(s[..k], gap)
            && |r.digits| == n && All(r.digits, Digit)
  {
    var k := Run(s, gap);
    Slices(s, k, n);
    DigitsRun(s[k..][..n]);
  }

  lemma TakeComplete(before: string, digits: string, rest: string, gap: CharClass)
    requires All(before, gap) && All(digits, Digit) && digits != ""
    requires !gap.Digit?
    ensures Take(before + (digits + rest), gap, |digits|) == Took(digits, rest)
  {
    RunStops(before, digits + rest, gap);
    assert (before + (digits + rest))[|before|..] == digits + rest;
    assert (digits + rest)[..|digits|] == digits && (digits + rest)[|digits|..] == rest;
    RunStops(digits, "", Digit);
    assert digits + "" == digits;
  }

  /** Everything after the country code: three gaps and three groups of digits, to the end. */
  function ScanRest(s: string): Scanned {
    var r1 := Take(s, FirstGap, 3);
    if r1.Nothing? then NoMatch else
    var r2 := Take(r1.rest, SecondGap, 3);
    if r2.Nothing? then NoMatch else
    var r3 := Take(r2.rest, ThirdGap, 4);
    if r3.Nothing? || Run(r3.rest, Space) < |r3.rest| then NoMatch
    else Match(Groups("", r1.digits, r2.digits, r3.digits))
  }

  function WithoutPlus(t: string): string {
    if t != "" && t[0] == '+' then t[1..] else t
  }

  function ScanLong(t: string): Scanned {
    var u := WithoutPlus(t);
    if u == "" || !IsDigit(u[0]) then NoMatch
    else
      match ScanRest(u[1..])
      case NoMatch => NoMatch
      case Match(g) => Match(g.(country := [u[0]]))
  }

  /** With a country code if that succeeds, else without: the pattern's optional group is greedy. */
  function ScanBody(t: string): Scanned {
    if ScanLong(t).Match? then ScanLong(t) else ScanRest(t)
  }

  function Scan(s: string): Scanned {
    if s == "" || s[0] != '/' then NoMatch else ScanBody(s[1..][Run(s[1..], Space)..])
  }

  lemma ScanRestSound(s: string) returns (p: Split)
    requires ScanRest(s).Match?
    ensures p.lead == "" && p.plus == "" && s == AfterCountry(p) && FitsAfterCountry(p)
    ensures p.groups == ScanRest(s).groups
  {
    hide Take, All;
    var r1 := Take(s, FirstGap, 3);
    var r2 := Take(r1.rest, SecondGap, 3);
    var r3 := Take(r2.rest, ThirdGap, 4);
    TakeSound(s, FirstGap, 3);
    TakeSound(r1.rest, SecondGap, 3);
    TakeSound(r2.rest, ThirdGap, 4);
    assert r3.rest[..Run(r3.rest, Space)] == r3.rest;
    p := Split("", "", ScanRest(s).groups, s[..Run(s, FirstGap)], r1.rest[..Run(r1.rest, SecondGap)],
               r2.rest[..Run(r2.rest, ThirdGap)], r3.rest);
  }

  lemma BuildFit(lead: string, plus: string, country: string, p: Split)
    requires All(lead, Space) && (plus == "" || plus == "+") && |country| <= 1 && All(country, Digit)
    requires (country == "" ==> plus == "") && FitsAfterCountry(p)
    ensures Fits("/" + (lead + (plus + (country + AfterCountry(p)))),
                 p.(lead := lead, plus := plus, groups := p.groups.(country := country)))
  {
    var q := p.(lead := lead, plus := plus, groups := p.groups.(country := country));
    assert AfterCountry(q) == AfterCountry(p);
  }

  lemma ScanLongSound(lead: string, t: string) returns (q: Split)
    requires All(lead, Space) && ScanLong(t).Match?
    ensures Fits("/" + (lead + t), q) && q.groups == ScanLong(t).groups
  {
    hide ScanRest, FitsAfterCountry, AfterCountry, Fits;
    var u := WithoutPlus(t);
    var plus := WithoutPlusSplits(t);
    var p := ScanRestSound(u[1..]);
    BuildFit(lead, plus, [u[0]], p);
    assert u == [u[0]] + u[1..];
    q := p.(lead := lead, plus := plus, groups := p.groups.(country := [u[0]]));
  }

  lemma ScanShortSound(lead: string, t: string) returns (q: Split)
    requires All(lead, Space) && ScanRest(t).Match?
    ensures Fits("/" + (lead + t), q) && q.groups == ScanRest(t).groups
  {
    var p := ScanRestSound(t);
    BuildFit(lead, "", "", p);
    assert "" + ("" + t) == t;
    q := p.(lead := lead);
  }

  lemma WithoutPlusSplits(t: string) returns (plus: string)
    ensures (plus == "" || plus == "+") && t == plus + WithoutPlus(t)
  {
    plus := t[..|t| - |WithoutPlus(t)|];
  }

  lemma ScanBodySound(lead: string, t: string) returns (p: Split)
    requires All(lead, Space) && ScanBody(t).Match?
    ensures Fits("/" + (lead + t), p) && p.groups == ScanBody(t).groups
  {
    if ScanLong(t).Match? {
      p := ScanLongSound(lead, t);
    } else {
      p := ScanShortSound(lead, t);
    }
  }

  lemma ScanSound(s: string) returns (p: Split)
    requires Scan(s).Match?
    ensures Fits(s, p) && p.groups == Scan(s).groups
  {
    hide ScanBody, Fits;
    var n := Run(s[1..], Space);
    assert s == "/" + (s[1..][..n] + s[1..][n..]);
    p := ScanBodySound(s[1..][..n], s[1..][n..]);
  }

  /** The scanner's greedy gaps are the gaps of any split, because a digit ends each of them. */
  lemma ScanRestComplete(p: Split)
    requires FitsAfterCountry(p)
    ensures ScanRest(AfterCountry(p)) == Match(p.groups.(country := ""))
  {
    hide Take, All;
    var g := p.groups;
    var s3 := p.gap3 + (g.line + p.trail);
    var s2 := p.gap2 + (g.exchange + s3);
    TakeComplete(p.gap1, g.area, s2, FirstGap);
    TakeComplete(p.gap2, g.exchange, s3, SecondGap);
    TakeComplete(p.gap3, g.line, p.trail, ThirdGap);
    RunStops(p.trail, "", Space);
    assert p.trail + "" == p.trail;
  }

  lemma ScanComplete(s: string, p: Split)
    requires Fits(s, p)
    ensures Scan(s).Match?
  {
    if p.groups.country != "" {
      ScanCompleteLong(s, p);
    } else {
      ScanCompleteShort(s, p);
    }
  }

  lemma ScanAfterLead(lead: string, t: string)
    requires All(lead, Space) && t != "" && !IsSpace(t[0])
    ensures Scan("/" + (lead + t)) == ScanBody(t)
  {
    var s := "/" + (lead + t);
    assert s[1..] == lead + t;
    RunStops(lead, t, Space);
    assert (lead + t)[|lead|..] == t;
  }

  lemma WithoutPlusOf(plus: string, u: string)
    requires (plus == "" || plus == "+") && u != "" && IsDigit(u[0])
    ensures WithoutPlus(plus + u) == u && plus + u != "" && !IsSpace((plus + u)[0])
  {
    if plus == "" {
      assert plus + u == u;
    } else {
      assert (plus + u)[1..] == u;
    }
  }

  lemma ScanBodyLong(plus: string, country: string, rest: string)
    requires (plus == "" || plus == "+") && |country| == 1 && IsDigit(country[0]) && ScanRest(rest).Match?
    ensures ScanLong(plus + (country + rest)).Match?
    ensures !IsSpace((plus + (country + rest))[0])
  {
    hide ScanRest;
    WithoutPlusOf(plus, country + rest);
    HeadAndTail(country, rest);
  }

  lemma HeadAndTail(head: string, tail: string)
    requires |head| == 1
    ensures (head + tail)[0] == head[0] && (head + tail)[1..] == tail
  {
  }

  lemma ScanCompleteLong(s: string, p: Split)
    requires Fits(s, p) && p.groups.country != ""
    ensures Scan(s).Match?
  {
    ScanRestComplete(p);
    ScanBodyLong(p.plus, p.groups.country, AfterCountry(p));
    ScanAfterLead(p.lead, p.plus + (p.groups.country + AfterCountry(p)));
  }

  /** Without a country code the leading white space may run on into the first gap. */
  lemma ScanCompleteShort(s: string, p: Split)
    requires Fits(s, p) && p.groups.country == ""
    ensures Scan(s).Match?
  {
    var k := Run(p.gap1, Space);
    var q := p.(gap1 := p.gap1[k..]);
    ShiftLead(p, k);
    NotSpace(q);
    ScanAfterLead(p.lead + p.gap1[..k], AfterCountry(q));
    ScanRestComplete(q);
  }

  lemma ShiftLead(p: Split, k: nat)
    requires k <= |p.gap1|
    ensures "/" + (p.lead + ("" + ("" + AfterCountry(p))))
         == "/" + (p.lead + p.gap1[..k] + AfterCountry(p.(gap1 := p.gap1[k..])))
  {
    var rest := p.groups.area + (p.gap2 + (p.groups.exchange + (p.gap3 + (p.groups.line + p.trail))));
    assert p.gap1 == p.gap1[..k] + p.gap1[k..];
    assert p.lead + (p.gap1 + rest) == p.lead + p.gap1[..k] + (p.gap1[k..] + rest);
  }

  lemma NotSpace(p: Split)
    requires FitsAfterCountry(p) && (p.gap1 == "" || !IsSpace(p.gap1[0]))
    ensures AfterCountry(p) != "" && !IsSpace(AfterCountry(p)[0])
  {
    assert AfterCountry(p)[0] == (if p.gap1 == "" then p.groups.area[0] else p.gap1[0]);
  }

  /** The scanner accepts exactly the subjects the pattern matches, with the same captures. */
  lemma ScanIsMatch(s: string)
    ensures Scan(s).Match? <==> Matches(s)
    ensures forall p | Fits(s, p) :: Scan(s) == Match(p.groups)
  {
    if Scan(s).Match? {
      var p := ScanSound(s);
    }
    forall p | Fits(s, p) ensures Scan(s) == Match(p.groups) {
      ScanComplete(s, p);
      var q := ScanSound(s);
      CapturesAreUnique(s, p, q);
    }
  }

  // ---------------------------------------------------------------------------------------
  // The normal form

  function NationalDigits(g: Groups): string {
    g.area + g.exchange + g.line
  }

  /** Country code 7 in place of none or 8, then the ten national digits. */
  function Canonical(d: string): string
    requires |d| >= 10
  {
    var g := Cut(d);
    (if g.country == "" || g.country == "8" then "7" else g.country) + NationalDigits(g)
  }

  /** What the loop has appended to head once it has reached group i. */
  function Appended(head: string, matches: seq<string>, first: nat, i: nat): string
    requires i <= |matches|
  {
    if i <= first then head else Appended(head, matches, first, i - 1) + matches[i - 1]
  }

  /** Appends to valid group by group; matches[0] is the whole subject. */
  method PreparePhoneNumber(matches: seq<string>, valid: string) returns (r: string)
    requires |matches| == 5
    ensures matches[1] == "" || matches[1] == "8" ==> r == valid + "7" + matches[2] + matches[3] + matches[4]
    ensures matches[1] != "" && matches[1] != "8" ==>
              r == valid + matches[1] + matches[2] + matches[3] + matches[4]
  {
    r := valid;
    var i := 1;
    if |matches[1]| == 0 || matches[1] == "8" {
      r := r + "7";
      i := 2;
    }
    ghost var head, first := r, i;
    while i != |matches|
      invariant first <= i <= 5
      invariant r == Appended(head, matches, first, i)
    {
      r := r + matches[i];
      i := i + 1;
    }
    AppendedAll(head, matches, first);
  }

  lemma AppendedAll(head: string, m: seq<string>, first: nat)
    requires |m| == 5 && 1 <= first <= 2
    ensures Appended(head, m, first, 5)
         == (if first == 1 then head + m[1] else head) + m[2] + m[3] + m[4]
  {
    assert Appended(head, m, first, 4) == (if first == 1 then head + m[1] else head) + m[2] + m[3] by {
      assert Appended(head, m, first, 3) == (if first == 1 then head + m[1] else head) + m[2] by {
        assert Appended(head, m, first, 2) == (if first == 1 then head + m[1] else head);
      }
    }
  }

  /** The whole validation: the query is decoded, matched and brought to normal form. */
  method IsValidPhoneNumber(query: string, prepared: string) returns (ok: bool, result: string)
    ensures ok <==> Matches(Decode(query))
    ensures !ok ==> result == prepared
    ensures ok ==> |Digits(Decode(query))| >= 10 && result == prepared + Canonical(Digits(Decode(query)))
  {
    var decoded := UrlDecode(query);
    ScanIsMatch(decoded);
    var scanned := Scan(decoded);
    if scanned.NoMatch? {
      return false, prepared;
    }
    ScannedIsCut(decoded);
    var g := scanned.groups;
    result := PreparePhoneNumber([decoded, g.country, g.area, g.exchange, g.line], prepared);
    CanonicalAppends(prepared, Digits(decoded));
    ok := true;
  }

  lemma ScannedIsCut(s: string)
    requires Scan(s).Match?
    ensures |Digits(s)| >= 10 && Scan(s).groups == Cut(Digits(s))
  {
    var p := ScanSound(s);
    SplitIsCut(s, p);
  }

  lemma CanonicalAppends(prepared: string, d: string)
    requires |d| >= 10
    ensures var g := Cut(d);
            prepared + (if g.country == "" || g.country == "8" then "7" else g.country) + g.area + g.exchange + g.line
            == prepared + Canonical(d)
  {
  }

  /** Normal forms are eleven digits and never start with 8. */
  lemma CanonicalShape(s: string, p: Split)
    requires Fits(s, p)
    ensures |Digits(s)| >= 10
    ensures var c := Canonical(Digits(s)); |c| == 11 && All(c, Digit) && c[0] != '8'
  {
    SplitIsCut(s, p);
  }

  /** A normal form dialled again is accepted, and is its own normal form. */
  lemma CanonicalIsFixed(s: string, p: Split)
    requires Fits(s, p)
    ensures |Digits(s)| >= 10
    ensures var c := Canonical(Digits(s));
            Matches("/" + c) && Digits("/" + c) == c && Canonical(c) == c
  {
    CanonicalShape(s, p);
    PlainNumberMatches(Canonical(Digits(s)));
  }

  /** Eleven digits not starting with 8 are their own normal form. */
  lemma PlainNumberMatches(c: string)
    requires |c| == 11 && All(c, Digit) && c[0] != '8'
    ensures Matches("/" + c) && Digits("/" + c) == c && Canonical(c) == c
  {
    PlainNumberFits(c, Cut(c));
    CutJoins(c);
    DigitsAppend("/", c);
    DigitsOfDigits(c);
    DigitsOfNone("/");
  }

  lemma PlainNumberFits(c: string, g: Groups)
    requires |c| == 11 && All(c, Digit) && g == Cut(c)
    ensures Matches("/" + c)
  {
    hide AfterCountry, Fits;
    var q := Split("", "", g, "", "", "", "");
    CutJoins(c);
    BuildFit("", "", g.country, q);
    EmptyHeads(g.country + AfterCountry(q));
  }

  lemma EmptyHeads(t: string)
    ensures "/" + ("" + ("" + t)) == "/" + t
  {
  }

  lemma CutJoins(c: string)
    requires |c| == 11
    ensures var g := Cut(c);
            && g.country == [c[0]] && c == g.country + NationalDigits(g)
            && c == g.country + AfterCountry(Split("", "", g, "", "", "", ""))
  {
  }

  /** Two numbers get the same normal form exactly when their ten national digits agree and
      their country codes do, with none, 7 and 8 counting as the same code. */
  lemma SameNumberIff(s: string, p: Split, t: string, r: Split)
    requires Fits(s, p) && Fits(t, r)
    ensures |Digits(s)| >= 10 && |Digits(t)| >= 10
    ensures Canonical(Digits(s)) == Canonical(Digits(t))
            <==> NationalDigits(p.groups) == NationalDigits(r.groups) && SameCountry(p.groups.country, r.groups.country)
  {
    SplitIsCut(s, p);
    SplitIsCut(t, r);
    var a := if p.groups.country == "" || p.groups.country == "8" then "7" else p.groups.country;
    var b := if r.groups.country == "" || r.groups.country == "8" then "7" else r.groups.country;
    var x, y := NationalDigits(p.groups), NationalDigits(r.groups);
    assert (a + x)[..1] == a && (a + x)[1..] == x;
    assert (b + y)[..1] == b && (b + y)[1..] == y;
  }

  predicate SameCountry(a: string, b: string) {
    a == b || (a in {"", "7", "8"} && b in {"", "7", "8"})
  }
}
