/**
  The format-string parser of fmt/bundled/core.h: the integer and argument-id parsers, the
  replacement field, and the two paths of parse_format_string, one character at a time for short
  strings and searching for braces for long ones.  Pointers are positions in the string.
*/
module FormatNumbers {
  import opened Decimals
  import opened Division
  import opened Words

  const INT_MAX: int := 0x7FFF_FFFF

  /** static_cast<int> of a 32-bit unsigned value. */
  function AsInt(value: nat): int {
    if value <= INT_MAX then value else value - 0x1_0000_0000
  }

  /** Where the digits that start at `i` end. */
  function DigitsEnd(s: string, i: nat): (end: nat)
    requires i <= |s|
    ensures i <= end <= |s| && AllDigits(s[i..end])
    ensures end == |s| || !IsDigit(s[end])
    decreases |s| - i
  {
    if i < |s| && IsDigit(s[i]) then
      assert forall e :: i < e <= |s| ==> s[i..e] == [s[i]] + s[i + 1..e];
      DigitsEnd(s, i + 1)
    else i
  }

  lemma RunIsMaximal(s: string, i: nat, end: nat)
    requires i <= end <= |s| && AllDigits(s[i..end]) && (end == |s| || !IsDigit(s[end]))
    ensures DigitsEnd(s, i) == end
  {
    var e := DigitsEnd(s, i);
    if e < end {
      assert false;
    } else if end < e {
      assert false;
    }
  }

  /** What parse_nonnegative_int should return for the run at `i`. */
  function IntValue(s: string, i: nat, errorValue: int): int
    requires i <= |s|
  {
    var digits := s[i..DigitsEnd(s, i)];
    if |digits| <= 10 && ValueOf(digits) <= INT_MAX then ValueOf(digits) else errorValue
  }

  lemma {:induction false} ValueBound(s: string)
    requires AllDigits(s)
    ensures ValueOf(s) < Pow(10, |s|)
  {
    if s == "" {
    } else {
      ValueBound(s[..|s| - 1]);
    }
  }

  /** One more digit, modulo the word size. */
  lemma WrappedStep(v: nat, d: nat, W: nat)
    requires W > 0
    ensures ((v % W) * 10 + d) % W == (v * 10 + d) % W
  {
    var q, r := v / W, v % W;
    assert v == q * W + r;
    var q2, r2 := (r * 10 + d) / W, (r * 10 + d) % W;
    assert r * 10 + d == q2 * W + r2;
    assert v * 10 + d == (q * 10 + q2) * W + r2 by {
      assert (q * 10 + q2) * W == (q * W) * 10 + q2 * W;
    }
    DivModUnique(v * 10 + d, W, q * 10 + q2, r2);
  }

  lemma ExtendRun(s: string, begin: nat, p: nat)
    requires begin <= p < |s| && AllDigits(s[begin..p]) && IsDigit(s[p])
    ensures AllDigits(s[begin..p + 1])
    ensures ValueOf(s[begin..p + 1]) == ValueOf(s[begin..p]) * 10 + DigitOf(s[p])
  {
    assert s[begin..p + 1] == s[begin..p] + [s[p]];
    assert s[begin..p + 1][..p - begin] == s[begin..p];
  }

  lemma NextDigit(s: string, begin: nat, p: nat, value: nat)
    requires begin <= p < |s| && AllDigits(s[begin..p]) && IsDigit(s[p])
    requires value == ValueOf(s[begin..p]) % 0x1_0000_0000
    ensures AllDigits(s[begin..p + 1])
    ensures (value * 10 + DigitOf(s[p])) % 0x1_0000_0000 == ValueOf(s[begin..p + 1]) % 0x1_0000_0000
  {
    hide ValueOf;
    ExtendRun(s, begin, p);
    WrappedStep(ValueOf(s[begin..p]), DigitOf(s[p]), 0x1_0000_0000);
  }

  /** Up to nine digits fit the word. */
  lemma NineDigitsFit(s: string)
    requires AllDigits(s) && |s| <= 9
    ensures ValueOf(s) < 0x1_0000_0000 && ValueOf(s) <= INT_MAX && ValueOf(s) % 0x1_0000_0000 == ValueOf(s)
  {
    ValueBound(s);
    PowSum(10, |s|, 9 - |s|);
    assert Pow(10, 9) == 1000000000 by {
      PowSum(10, 4, 4);
      assert Pow(10, 4) == 10000;
      assert Pow(10, 8) == 100000000;
    }
    MulMonotone(1, Pow(10, 9 - |s|), Pow(10, |s|));
  }

  /** parse_nonnegative_int: an unsigned accumulator that may wrap, and an overflow check that
      recomputes the last step in 64 bits. */
  method ParseNonnegativeInt(s: string, begin: nat, errorValue: int) returns (result: int, end: nat)
    requires begin < |s| && IsDigit(s[begin])
    ensures end == DigitsEnd(s, begin)
    ensures begin < end <= |s| && AllDigits(s[begin..end]) && (end == |s| || !('0' <= s[end] <= '9'))
    ensures result == if end - begin <= 10 && ValueOf(s[begin..end]) <= 2147483647 then ValueOf(s[begin..end])
                      else errorValue
    ensures result == IntValue(s, begin, errorValue)
  {
    var value: nat, prev: nat, p := 0, 0, begin;
    assert s[begin..begin] == "" && ValueOf("") == 0;
    hide ValueOf, Pow;
    while true
      invariant begin <= p < |s| && AllDigits(s[begin..p]) && IsDigit(s[p])
      invariant value == ValueOf(s[begin..p]) % 0x1_0000_0000
      decreases |s| - p
    {
      prev := value;
      NextDigit(s, begin, p, value);
      value := (value * 10 + DigitOf(s[p])) % 0x1_0000_0000;
      p := p + 1;
      if !(p != |s| && IsDigit(s[p])) {
        break;
      }
    }
    RunIsMaximal(s, begin, p);
    var numDigits := p - begin;
    end := p;
    if numDigits <= 9 {
      NineDigitsFit(s[begin..p]);
      return AsInt(value), end;
    }
    if numDigits == 10 {
      ExtendRun(s, begin, p - 1);
      NineDigitsFit(s[begin..p - 1]);
    }
    result := if numDigits == 10 && prev * 10 + DigitOf(s[p - 1]) <= INT_MAX then AsInt(value) else errorValue;
  }
}

module FormatParser {
  import opened Decimals
  import opened FormatNumbers
  import opened Wrappers

  predicate IsNameStart(c: char) { 'a' <= c <= 'z' || 'A' <= c <= 'Z' || c == '_' }

  predicate IsNameChar(c: char) { IsNameStart(c) || IsDigit(c) }

  // ---------------------------------------------------------------------------------------
  // The handler

  /** How an argument is named in a replacement field. */
  datatype ArgRef = Auto | Index(n: int) | Name(name: string)

  /** The callbacks whose answers steer the parse: each gets the state the handler has reached
      and gives the next one, or None when it raises an error.  `specs` gets what follows the
      colon and says how much of it the format specifiers take. */
  datatype Handler<!S> = Handler(
    argId: (S, ArgRef) -> Option<(S, int)>,
    field: (S, int) -> Option<S>,
    specs: (S, int, string) -> Option<(S, nat)>)

  datatype Event =
    | Text(text: string)
    | ArgIdAsked(ref: ArgRef)
    | FieldEnded(id: int)
    | SpecsAsked(id: int, rest: string)
    | Error(message: string)

  /** Everything a parse has done so far; an error stops it. */
  datatype Trace<S> = Trace(events: seq<Event>, state: S, stopped: bool)

  function OnText<S>(t: Trace<S>, s: string): Trace<S> { t.(events := t.events + [Text(s)]) }

  function OnError<S>(t: Trace<S>, message: string): Trace<S> {
    t.(events := t.events + [Error(message)], stopped := true)
  }

  function OnArgId<S>(h: Handler<S>, t: Trace<S>, ref: ArgRef): (Trace<S>, int) {
    var asked := t.events + [ArgIdAsked(ref)];
    match h.argId(t.state, ref)
    case None => (Trace(asked, t.state, true), 0)
    case Some(answer) => (Trace(asked, answer.0, false), answer.1)
  }

  function OnField<S>(h: Handler<S>, t: Trace<S>, id: int): Trace<S> {
    var ended := t.events + [FieldEnded(id)];
    match h.field(t.state, id)
    case None => Trace(ended, t.state, true)
    case Some(state) => Trace(ended, state, false)
  }

  /** The answer is a position in the rest of the string. */
  function OnSpecs<S>(h: Handler<S>, t: Trace<S>, id: int, rest: string): (r: (Trace<S>, nat))
    ensures r.1 <= |rest|
  {
    var asked := t.events + [SpecsAsked(id, rest)];
    match h.specs(t.state, id, rest)
    case None => (Trace(asked, t.state, true), 0)
    case Some(answer) => (Trace(asked, answer.0, false), if answer.1 <= |rest| then answer.1 else |rest|)
  }

  // ---------------------------------------------------------------------------------------
  // Replacement fields

  datatype ArgId = ArgId(ref: ArgRef, next: nat) | BadArgId

  function NameEnd(fmt: string, i: nat): (end: nat)
    requires i <= |fmt|
    ensures i <= end <= |fmt| && forall j :: i <= j < end ==> IsNameChar(fmt[j])
    ensures end == |fmt| || !IsNameChar(fmt[end])
    decreases |fmt| - i
  {
    if i < |fmt| && IsNameChar(fmt[i]) then NameEnd(fmt, i + 1) else i
  }

  /** The argument id that starts at `i`. */
  function ArgIdAt(fmt: string, i: nat): (r: ArgId)
    requires i < |fmt|
    ensures r.ArgId? ==> i <= r.next <= |fmt|
  {
    var c := fmt[i];
    if c == '}' || c == ':' then ArgId(Auto, i)
    else if IsDigit(c) then
      var end := if c == '0' then i + 1 else DigitsEnd(fmt, i);
      if end == |fmt| || (fmt[end] != '}' && fmt[end] != ':') then BadArgId
      else ArgId(Index(if c == '0' then 0 else IntValue(fmt, i, INT_MAX)), end)
    else if IsNameStart(c) then ArgId(Name(fmt[i..NameEnd(fmt, i)]), NameEnd(fmt, i))
    else BadArgId
  }

  /** The whole replacement field, or escaped brace, that starts with the brace at `i`: what it
      does and where the text goes on. */
  function Field<S>(h: Handler<S>, t: Trace<S>, fmt: string, i: nat): (r: (Trace<S>, nat))
    requires i < |fmt| && fmt[i] == '{'
    ensures i < r.1 <= |fmt|
  {
    var b := i + 1;
    if b == |fmt| then (OnError(t, "invalid format string"), |fmt|)
    else if fmt[b] == '{' then (OnText(t, "{"), b + 1)
    else if ArgIdAt(fmt, b).BadArgId? then (OnError(t, "invalid format string"), |fmt|)
    else
      var ArgId(ref, next) := ArgIdAt(fmt, b);
      var (t1, id) := OnArgId(h, t, ref);
      if t1.stopped then (t1, |fmt|)
      else if next < |fmt| && fmt[next] == '}' then (OnField(h, t1, id), next + 1)
      else if next < |fmt| && fmt[next] == ':' then FieldWithSpecs(h, t1, id, fmt, next + 1)
      else (OnError(t1, "missing '}' in format string"), |fmt|)
  }

  function FieldWithSpecs<S>(h: Handler<S>, t: Trace<S>, id: int, fmt: string, i: nat): (r: (Trace<S>, nat))
    requires 0 < i <= |fmt|
    ensures i <= r.1 <= |fmt|
  {
    var (t1, k) := OnSpecs(h, t, id, fmt[i..]);
    if t1.stopped then (t1, |fmt|)
    else if i + k == |fmt| || fmt[i + k] != '}' then (OnError(t1, "unknown format specifier"), |fmt|)
    else (t1, i + k + 1)
  }

  /** do_parse_arg_id up to the callback: the id and where it ends. */
  method ParseExplicitArgId(fmt: string, begin: nat) returns (r: ArgId)
    requires begin < |fmt| && fmt[begin] != '}' && fmt[begin] != ':'
    ensures r == ArgIdAt(fmt, begin)
  {
    var c := fmt[begin];
    if IsDigit(c) {
      var index, end := 0, begin;
      if c != '0' {
        index, end := ParseNonnegativeInt(fmt, begin, INT_MAX);
      } else {
        end := end + 1;
      }
      if end == |fmt| || (fmt[end] != '}' && fmt[end] != ':') {
        return BadArgId;
      }
      return ArgId(Index(index), end);
    }
    if !IsNameStart(c) {
      return BadArgId;
    }
    var it := begin;
    while true
      invariant begin <= it < |fmt| && IsNameChar(fmt[it])
      invariant NameEnd(fmt, begin) == NameEnd(fmt, it)
      decreases |fmt| - it
    {
      it := it + 1;
      if !(it != |fmt| && IsNameChar(fmt[it])) {
        break;
      }
    }
    return ArgId(Name(fmt[begin..it]), it);
  }

  /** parse_replacement_field. */
  method ParseReplacementField<S>(h: Handler<S>, t0: Trace<S>, fmt: string, i: nat) returns (t: Trace<S>, next: nat)
    requires i < |fmt| && fmt[i] == '{' && !t0.stopped
    ensures (t, next) == Field(h, t0, fmt, i)
  {
    t := t0;
    var begin := i + 1;
    if begin == |fmt| {
      return OnError(t, "invalid format string"), |fmt|;
    }
    if fmt[begin] == '}' {
      var (asked, id) := OnArgId(h, t, Auto);
      if asked.stopped {
        return asked, |fmt|;
      }
      return OnField(h, asked, id), begin + 1;
    } else if fmt[begin] == '{' {
      assert fmt[begin..begin + 1] == "{";
      return OnText(t, fmt[begin..begin + 1]), begin + 1;
    }
    var id := 0;
    var arg := ArgId(Auto, begin);
    if fmt[begin] != ':' {
      arg := ParseExplicitArgId(fmt, begin);
      if arg.BadArgId? {
        return OnError(t, "invalid format string"), |fmt|;
      }
    }
    var answer := OnArgId(h, t, arg.ref);
    t, id, begin := answer.0, answer.1, arg.next;
    if t.stopped {
      return t, |fmt|;
    }
    if begin != |fmt| && fmt[begin] == '}' {
      return OnField(h, t, id), begin + 1;
    } else if begin != |fmt| && fmt[begin] == ':' {
      var taken := OnSpecs(h, t, id, fmt[begin + 1..]);
      t, begin := taken.0, begin + 1 + taken.1;
      if t.stopped {
        return t, |fmt|;
      }
      if begin == |fmt| || fmt[begin] != '}' {
        return OnError(t, "unknown format specifier"), |fmt|;
      }
      return t, begin + 1;
    }
    return OnError(t, "missing '}' in format string"), |fmt|;
  }

  // ---------------------------------------------------------------------------------------
  // What a format string means

  /** Text that is passed on only when there is some. */
  function Emit<S>(t: Trace<S>, s: string): Trace<S> { if s == "" then t else OnText(t, s) }

  /** The parse from position `p`, with the text from `begin` still to be passed on.  Text before
      an unmatched brace is never passed on. */
  function Run<S>(h: Handler<S>, t: Trace<S>, fmt: string, begin: nat, p: nat): Trace<S>
    requires begin <= p <= |fmt|
    decreases |fmt| - p
  {
    if p == |fmt| then Emit(t, fmt[begin..p])
    else if fmt[p] == '{' then
      var (t1, next) := Field(h, Emit(t, fmt[begin..p]), fmt, p);
      if t1.stopped then t1 else Run(h, t1, fmt, next, next)
    else if fmt[p] == '}' then
      if p + 1 == |fmt| || fmt[p + 1] != '}' then OnError(t, "unmatched '}' in format string")
      else Run(h, Emit(t, fmt[begin..p + 1]), fmt, p + 2, p + 2)
    else Run(h, t, fmt, begin, p + 1)
  }

  function Parsed<S>(h: Handler<S>, t: Trace<S>, fmt: string): Trace<S> { Run(h, t, fmt, 0, 0) }

  function NonEmpty(events: seq<Event>): seq<Event> {
    if events == [] then []
    else if events[|events| - 1] == Text("") then NonEmpty(events[..|events| - 1])
    else NonEmpty(events[..|events| - 1]) + [events[|events| - 1]]
  }

  /** A trace without its empty texts. */
  function Drop<S>(t: Trace<S>): Trace<S> { t.(events := NonEmpty(t.events)) }

  lemma NonEmptyAppend(events: seq<Event>, e: Event)
    ensures NonEmpty(events + [e]) == if e == Text("") then NonEmpty(events) else NonEmpty(events) + [e]
  {
    assert (events + [e])[..|events|] == events;
  }

  lemma DropText<S>(t: Trace<S>, s: string)
    ensures Drop(OnText(t, s)) == Emit(Drop(t), s)
  {
    NonEmptyAppend(t.events, Text(s));
  }

  lemma DropError<S>(t: Trace<S>, message: string)
    ensures Drop(OnError(t, message)) == OnError(Drop(t), message)
  {
    NonEmptyAppend(t.events, Error(message));
  }

  lemma DropArgId<S>(h: Handler<S>, t: Trace<S>, ref: ArgRef)
    ensures OnArgId(h, Drop(t), ref) == (Drop(OnArgId(h, t, ref).0), OnArgId(h, t, ref).1)
  {
    NonEmptyAppend(t.events, ArgIdAsked(ref));
  }

  lemma DropField<S>(h: Handler<S>, t: Trace<S>, id: int)
    ensures OnField(h, Drop(t), id) == Drop(OnField(h, t, id))
  {
    NonEmptyAppend(t.events, FieldEnded(id));
  }

  lemma DropSpecs<S>(h: Handler<S>, t: Trace<S>, id: int, rest: string)
    ensures OnSpecs(h, Drop(t), id, rest) == (Drop(OnSpecs(h, t, id, rest).0), OnSpecs(h, t, id, rest).1)
  {
    NonEmptyAppend(t.events, SpecsAsked(id, rest));
  }

  lemma DropFieldWithSpecs<S>(h: Handler<S>, t: Trace<S>, id: int, fmt: string, i: nat)
    requires 0 < i <= |fmt|
    ensures FieldWithSpecs(h, Drop(t), id, fmt, i)
            == (Drop(FieldWithSpecs(h, t, id, fmt, i).0), FieldWithSpecs(h, t, id, fmt, i).1)
  {
    DropSpecs(h, t, id, fmt[i..]);
    DropError(OnSpecs(h, t, id, fmt[i..]).0, "unknown format specifier");
    hide OnSpecs, OnError;
  }

  /** A replacement field does not see whether empty texts were reported before it. */
  lemma DropReplacementField<S>(h: Handler<S>, t: Trace<S>, fmt: string, i: nat)
    requires i < |fmt| && fmt[i] == '{'
    ensures Field(h, Drop(t), fmt, i) == (Drop(Field(h, t, fmt, i).0), Field(h, t, fmt, i).1)
  {
    hide OnText, OnError, OnArgId, OnField, FieldWithSpecs, ArgIdAt, Drop;
    var b := i + 1;
    DropError(t, "invalid format string");
    DropText(t, "{");
    if b < |fmt| && fmt[b] != '{' && ArgIdAt(fmt, b).ArgId? {
      var ArgId(ref, next) := ArgIdAt(fmt, b);
      DropArgId(h, t, ref);
      var (t1, id) := OnArgId(h, t, ref);
      DropKeepsStopped(t1);
      DropField(h, t1, id);
      DropError(t1, "missing '}' in format string");
      if next < |fmt| {
        DropFieldWithSpecs(h, t1, id, fmt, next + 1);
      }
    }
  }

  lemma DropKeepsStopped<S>(t: Trace<S>)
    ensures Drop(t).stopped == t.stopped
  {
  }

  // ---------------------------------------------------------------------------------------
  // The path for short strings: one character at a time

  method ParseShort<S>(h: Handler<S>, t0: Trace<S>, fmt: string) returns (t: Trace<S>)
    requires !t0.stopped
    ensures Drop(t) == Parsed(h, Drop(t0), fmt)
  {
    hide Field, OnText, OnError, Emit, Drop, IsNameChar;
    t := t0;
    var begin: nat, p: nat := 0, 0;
    DropKeepsStopped(t);
    while p != |fmt|
      invariant begin <= p <= |fmt| && !t.stopped
      invariant Run(h, Drop(t), fmt, begin, p) == Parsed(h, Drop(t0), fmt)
      decreases |fmt| - p
    {
      var c := fmt[p];
      p := p + 1;
      if c == '{' {
        DropText(t, fmt[begin..p - 1]);
        OnTextRuns(t, fmt[begin..p - 1]);
        t := OnText(t, fmt[begin..p - 1]);
        DropReplacementField(h, t, fmt, p - 1);
        t, p := ParseReplacementField(h, t, fmt, p - 1);
        DropKeepsStopped(t);
        if t.stopped {
          return;
        }
        begin := p;
      } else if c == '}' {
        if p == |fmt| || fmt[p] != '}' {
          DropError(t, "unmatched '}' in format string");
          return OnError(t, "unmatched '}' in format string");
        }
        DropText(t, fmt[begin..p]);
        OnTextRuns(t, fmt[begin..p]);
        t := OnText(t, fmt[begin..p]);
        p := p + 1;
        begin := p;
      }
    }
    DropText(t, fmt[begin..p]);
    t := OnText(t, fmt[begin..]);
    assert fmt[begin..] == fmt[begin..p];
  }

  lemma OnTextRuns<S>(t: Trace<S>, s: string)
    ensures OnText(t, s).stopped == t.stopped
  {
  }

  // ---------------------------------------------------------------------------------------
  // The path for long strings: search for braces

  /** find: the first occurrence of a character in a range. */
  method Find(fmt: string, first: nat, last: nat, value: char) returns (found: bool, out: nat)
    requires first <= last <= |fmt|
    ensures first <= out <= last && (found <==> out < last)
    ensures found ==> fmt[out] == value
    ensures forall k :: first <= k < out ==> fmt[k] != value
  {
    out := first;
    while out != last
      invariant first <= out <= last
      invariant forall k :: first <= k < out ==> fmt[k] != value
    {
      if fmt[out] == value {
        return true, out;
      }
      out := out + 1;
    }
    found := false;
  }

  ghost predicate Plain(fmt: string, lo: nat, hi: nat) {
    forall k :: lo <= k < hi && k < |fmt| ==> fmt[k] != '{' && fmt[k] != '}'
  }

  /** Characters that are no braces only wait to be passed on. */
  lemma {:induction false} RunSkipsPlain<S>(h: Handler<S>, t: Trace<S>, fmt: string, begin: nat, p: nat, q: nat)
    requires begin <= p <= q <= |fmt| && Plain(fmt, p, q)
    ensures Run(h, t, fmt, begin, p) == Run(h, t, fmt, begin, q)
    decreases q - p
  {
    hide Field, OnError, Emit;
    if p == q {
    } else {
      RunSkipsPlain(h, t, fmt, begin, p + 1, q);
    }
  }

  /** Text up to the end or to an opening brace may be passed on early. */
  lemma RunFlushes<S>(h: Handler<S>, t: Trace<S>, fmt: string, begin: nat, p: nat)
    requires begin <= p <= |fmt| && (p == |fmt| || fmt[p] == '{')
    ensures Run(h, t, fmt, begin, p) == Run(h, Emit(t, fmt[begin..p]), fmt, p, p)
  {
    hide Field, OnText;
    assert fmt[p..p] == "";
  }

  /** The text writer of the long path: a stretch without opening braces, closing braces doubled. */
  method Write<S>(ghost h: Handler<S>, t0: Trace<S>, fmt: string, begin: nat, end: nat) returns (t: Trace<S>)
    requires begin <= end <= |fmt| && !t0.stopped
    requires forall k :: begin <= k < end ==> fmt[k] != '{'
    requires end == |fmt| || fmt[end] == '{'
    ensures t.stopped ==> Run(h, Drop(t0), fmt, begin, begin) == Drop(t)
    ensures !t.stopped ==> Run(h, Drop(t0), fmt, begin, begin) == Run(h, Drop(t), fmt, end, end)
  {
    hide Field, OnText, OnError, Emit, Drop;
    t := t0;
    if begin == end {
      return;
    }
    var start := begin;
    while true
      invariant begin <= start <= end && !t.stopped
      invariant Run(h, Drop(t), fmt, start, start) == Run(h, Drop(t0), fmt, begin, begin)
      decreases end - start
    {
      var found, p := Find(fmt, start, end, '}');
      RunSkipsPlain(h, Drop(t), fmt, start, start, p);
      if !found {
        RunFlushes(h, Drop(t), fmt, start, end);
        DropText(t, fmt[start..end]);
        OnTextRuns(t, fmt[start..end]);
        return OnText(t, fmt[start..end]);
      }
      p := p + 1;
      if p == end || fmt[p] != '}' {
        DropError(t, "unmatched '}' in format string");
        ErrorStops(t, "unmatched '}' in format string");
        return OnError(t, "unmatched '}' in format string");
      }
      DropText(t, fmt[start..p]);
      OnTextRuns(t, fmt[start..p]);
      t := OnText(t, fmt[start..p]);
      start := p + 1;
    }
  }

  lemma ErrorStops<S>(t: Trace<S>, message: string)
    ensures OnError(t, message).stopped
  {
  }

  method ParseLong<S>(h: Handler<S>, t0: Trace<S>, fmt: string) returns (t: Trace<S>)
    requires !t0.stopped
    ensures Drop(t) == Parsed(h, Drop(t0), fmt)
  {
    hide Field, OnText, OnError, Drop, Plain;
    t := t0;
    var begin: nat := 0;
    while begin != |fmt|
      invariant begin <= |fmt| && !t.stopped
      invariant Run(h, Drop(t), fmt, begin, begin) == Parsed(h, Drop(t0), fmt)
      decreases |fmt| - begin
    {
      var p := begin;
      if fmt[begin] != '{' {
        var found, out := Find(fmt, begin + 1, |fmt|, '{');
        if !found {
          t := Write(h, t, fmt, begin, |fmt|);
          RunAtEnd(h, Drop(t), fmt);
          return;
        }
        p := out;
      }
      t := Write(h, t, fmt, begin, p);
      if t.stopped {
        return;
      }
      RunAtBrace(h, Drop(t), fmt, p);
      DropReplacementField(h, t, fmt, p);
      t, begin := ParseReplacementField(h, t, fmt, p);
      DropKeepsStopped(t);
      if t.stopped {
        return;
      }
    }
    RunAtEnd(h, Drop(t), fmt);
  }

  lemma RunAtEnd<S>(h: Handler<S>, t: Trace<S>, fmt: string)
    ensures Run(h, t, fmt, |fmt|, |fmt|) == t
  {
    assert fmt[|fmt|..|fmt|] == "";
  }

  lemma RunAtBrace<S>(h: Handler<S>, t: Trace<S>, fmt: string, p: nat)
    requires p < |fmt| && fmt[p] == '{'
    ensures var (t1, next) := Field(h, t, fmt, p);
            Run(h, t, fmt, p, p) == if t1.stopped then t1 else Run(h, t1, fmt, next, next)
  {
    hide Field;
    assert fmt[p..p] == "";
  }

  /** parse_format_string: whichever path its length selects, a format string means the same. */
  method ParseFormatString<S>(h: Handler<S>, t0: Trace<S>, fmt: string) returns (t: Trace<S>)
    requires !t0.stopped
    ensures Drop(t) == Parsed(h, Drop(t0), fmt)
  {
    if |fmt| < 32 {
      t := ParseShort(h, t0, fmt);
    } else {
      t := ParseLong(h, t0, fmt);
    }
  }
}
