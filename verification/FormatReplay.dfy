/**
  The events of a parse, replayed against the handler alone: every state is the handler's answer to
  the state before, every field carries the id answered to its own question, and nothing follows
  an error.  And the error of every malformed field or brace, in literal characters.
*/
module FormatReplay {
  import opened Decimals
  import opened Wrappers
  import opened FormatNumbers
  import opened FormatParser
  import opened FormatRoundTrip

  /** Between fields; inside one whose id was answered; after an error; or in no order at all. */
  datatype Replay<S> = Between(state: S) | Inside(state: S, id: int) | Ended(state: S) | Disorder

  function Step<S>(h: Handler<S>, r: Replay<S>, e: Event): Replay<S> {
    match (r, e)
    case (Between(_), Text(_)) => r
    case (Between(s), ArgIdAsked(ref)) =>
      (match h.argId(s, ref) case None => Ended(s) case Some((s1, id)) => Inside(s1, id))
    case (Inside(s, id), FieldEnded(i)) =>
      if i != id then Disorder
      else (match h.field(s, id) case None => Ended(s) case Some(s1) => Between(s1))
    case (Inside(s, id), SpecsAsked(i, rest)) =>
      if i != id then Disorder
      else (match h.specs(s, id, rest) case None => Ended(s) case Some((s1, _)) => Between(s1))
    case (Between(s), Error(_)) => Ended(s)
    case (Inside(s, _), Error(_)) => Ended(s)
    case _ => Disorder
  }

  function Replayed<S>(h: Handler<S>, s0: S, events: seq<Event>): Replay<S> {
    if events == [] then Between(s0)
    else Step(h, Replayed(h, s0, events[..|events| - 1]), events[|events| - 1])
  }

  lemma ReplayedAppend<S>(h: Handler<S>, s0: S, events: seq<Event>, e: Event)
    ensures Replayed(h, s0, events + [e]) == Step(h, Replayed(h, s0, events), e)
  {
    assert (events + [e])[..|events|] == events;
  }

  /** The trace is what the handler, started in s0, has answered to its events. */
  ghost predicate Answered<S>(h: Handler<S>, s0: S, t: Trace<S>) {
    Replayed(h, s0, t.events) == if t.stopped then Ended(t.state) else Between(t.state)
  }

  lemma EmitAnswered<S>(h: Handler<S>, s0: S, t: Trace<S>, s: string)
    requires Answered(h, s0, t) && !t.stopped
    ensures Answered(h, s0, Emit(t, s)) && !Emit(t, s).stopped
  {
    ReplayedAppend(h, s0, t.events, Text(s));
  }

  lemma ErrorAnswered<S>(h: Handler<S>, s0: S, t: Trace<S>, message: string)
    requires Replayed(h, s0, t.events).Between? || Replayed(h, s0, t.events).Inside?
    requires Replayed(h, s0, t.events).state == t.state
    ensures Answered(h, s0, OnError(t, message))
  {
    ReplayedAppend(h, s0, t.events, Error(message));
  }

  lemma ArgIdAnswered<S>(h: Handler<S>, s0: S, t: Trace<S>, ref: ArgRef)
    requires Answered(h, s0, t) && !t.stopped
    ensures var (t1, id) := OnArgId(h, t, ref);
            Replayed(h, s0, t1.events) == if t1.stopped then Ended(t1.state) else Inside(t1.state, id)
  {
    ReplayedAppend(h, s0, t.events, ArgIdAsked(ref));
  }

  lemma FieldEndAnswered<S>(h: Handler<S>, s0: S, t: Trace<S>, id: int)
    requires Replayed(h, s0, t.events) == Inside(t.state, id)
    ensures Answered(h, s0, OnField(h, t, id))
  {
    ReplayedAppend(h, s0, t.events, FieldEnded(id));
  }

  lemma SpecsAnswered<S>(h: Handler<S>, s0: S, t: Trace<S>, id: int, fmt: string, i: nat)
    requires 0 < i <= |fmt| && Replayed(h, s0, t.events) == Inside(t.state, id)
    ensures Answered(h, s0, FieldWithSpecs(h, t, id, fmt, i).0)
  {
    ReplayedAppend(h, s0, t.events, SpecsAsked(id, fmt[i..]));
    var t1 := OnSpecs(h, t, id, fmt[i..]).0;
    if !t1.stopped {
      ErrorAnswered(h, s0, t1, "unknown format specifier");
    }
  }

  lemma FieldAnswered<S>(h: Handler<S>, s0: S, t: Trace<S>, fmt: string, i: nat)
    requires i < |fmt| && fmt[i] == '{' && Answered(h, s0, t) && !t.stopped
    ensures Answered(h, s0, Field(h, t, fmt, i).0)
  {
    hide OnArgId, OnField, FieldWithSpecs, ArgIdAt, Step, Replayed;
    var b := i + 1;
    ErrorAnswered(h, s0, t, "invalid format string");
    TextAnswered(h, s0, t, "{");
    if b < |fmt| && fmt[b] != '{' && ArgIdAt(fmt, b).ArgId? {
      var ArgId(ref, next) := ArgIdAt(fmt, b);
      ArgIdAnswered(h, s0, t, ref);
      var t1, id := OnArgId(h, t, ref).0, OnArgId(h, t, ref).1;
      if !t1.stopped {
        FieldEndAnswered(h, s0, t1, id);
        ErrorAnswered(h, s0, t1, "missing '}' in format string");
        if next < |fmt| {
          SpecsAnswered(h, s0, t1, id, fmt, next + 1);
        }
      }
    }
  }

  lemma TextAnswered<S>(h: Handler<S>, s0: S, t: Trace<S>, s: string)
    requires Answered(h, s0, t) && !t.stopped
    ensures Answered(h, s0, OnText(t, s)) && !OnText(t, s).stopped
  {
    ReplayedAppend(h, s0, t.events, Text(s));
  }

  lemma {:induction false} RunAnswered<S>(h: Handler<S>, s0: S, t: Trace<S>, fmt: string, begin: nat, p: nat)
    requires begin <= p <= |fmt| && Answered(h, s0, t) && !t.stopped
    ensures Answered(h, s0, Run(h, t, fmt, begin, p))
    decreases |fmt| - p
  {
    hide Field, Emit, Answered;
    EmitAnswered(h, s0, t, fmt[begin..p]);
    if p == |fmt| {
    } else if fmt[p] == '{' {
      FieldAnswered(h, s0, Emit(t, fmt[begin..p]), fmt, p);
      var (t1, next) := Field(h, Emit(t, fmt[begin..p]), fmt, p);
      if !t1.stopped {
        RunAnswered(h, s0, t1, fmt, next, next);
      }
    } else if fmt[p] == '}' {
      if p + 1 == |fmt| || fmt[p + 1] != '}' {
        UnmatchedAnswered(h, s0, t);
      } else {
        EmitAnswered(h, s0, t, fmt[begin..p + 1]);
        RunAnswered(h, s0, Emit(t, fmt[begin..p + 1]), fmt, p + 2, p + 2);
      }
    } else {
      RunAnswered(h, s0, t, fmt, begin, p + 1);
    }
  }

  lemma UnmatchedAnswered<S>(h: Handler<S>, s0: S, t: Trace<S>)
    requires Answered(h, s0, t) && !t.stopped
    ensures Answered(h, s0, OnError(t, "unmatched '}' in format string"))
  {
    ErrorAnswered(h, s0, t, "unmatched '}' in format string");
  }

  /** Whatever the format string and the handler: the parse ends in the state that the handler's own
      answers lead to, each field or specifier goes with the id of its question, and an error or a
      refusal is the last event. */
  lemma ParseIsAnswered<S>(h: Handler<S>, s0: S, fmt: string)
    ensures Answered(h, s0, Parsed(h, Trace([], s0, false), fmt))
  {
    RunAnswered(h, s0, Trace([], s0, false), fmt, 0, 0);
  }

  // ---------------------------------------------------------------------------------------
  // Automatic numbering

  /** The handler that numbers its arguments, as basic_format_parse_context::next_arg_id does. */
  function Counting(): Handler<int> {
    Handler((s, ref) => Some((s + 1, s)), (s, id) => Some(s), (s, id, rest) => Some((s, 0)))
  }

  lemma Assemble(a: seq<Event>, b: seq<Event>, c: seq<Event>, d: seq<Event>)
    ensures a + b + c + d == a + (b + c + d)
  {
  }

  /** n automatic fields numbered from k. */
  function Numbered(k: int, n: nat): seq<Event>
    decreases n
  {
    if n == 0 then [] else [ArgIdAsked(Auto)] + [FieldEnded(k)] + Numbered(k + 1, n - 1)
  }

  function AutoFields(n: nat): seq<Piece> {
    if n == 0 then [] else [Replacement(Auto)] + AutoFields(n - 1)
  }

  lemma {:induction false} PlayNumbers(t: Trace<int>, n: nat)
    ensures Play(Counting(), t, AutoFields(n)).events == t.events + Numbered(t.state, n)
    ensures TakesSpecs(Counting(), t.state, AutoFields(n)) && ValidPieces(AutoFields(n))
    decreases n
  {
    if n == 0 {
      assert t.events + [] == t.events;
    } else {
      var t1 := Trace(t.events + [ArgIdAsked(Auto)] + [FieldEnded(t.state)], t.state + 1, false);
      PlayFirst(t, n);
      Assemble(t.events, [ArgIdAsked(Auto)], [FieldEnded(t.state)], Numbered(t.state + 1, n - 1));
      hide Play, TakesSpecs, ValidPieces, AutoFields, Counting;
      PlayNumbers(t1, n - 1);
    }
  }

  lemma PlayFirst(t: Trace<int>, n: nat)
    requires n > 0
    ensures Play(Counting(), t, AutoFields(n))
         == Play(Counting(), Trace(t.events + [ArgIdAsked(Auto)] + [FieldEnded(t.state)], t.state + 1, false),
                 AutoFields(n - 1))
    ensures TakesSpecs(Counting(), t.state, AutoFields(n)) == TakesSpecs(Counting(), t.state + 1, AutoFields(n - 1))
    ensures ValidPieces(AutoFields(n)) <==> ValidPieces(AutoFields(n - 1))
  {
    var pieces := AutoFields(n);
    assert pieces[0] == Replacement(Auto) && pieces[1..] == AutoFields(n - 1);
    assert forall i | 0 <= i < |pieces| - 1 :: pieces[1..][i] == pieces[i + 1];
    assert ValidRef(Auto);
    if ValidPieces(AutoFields(n - 1)) {
      forall i | 0 <= i < |pieces| && !pieces[i].Literal? ensures ValidRef(pieces[i].ref) {
        assert i > 0 ==> pieces[i] == AutoFields(n - 1)[i - 1];
      }
    }
  }

  /** "{}" n times asks for the ids 0, 1, ... n-1 and ends its fields with them. */
  lemma AutomaticNumbering(n: nat)
    ensures Atoms(Parsed(Counting(), Trace([], 0, false), Render(AutoFields(n))).events) == Atoms(Numbered(0, n))
  {
    var t := Trace([], 0, false);
    PlayNumbers(t, n);
    assert [] + Numbered(0, n) == Numbered(0, n);
    ParsePrinted(Counting(), t, AutoFields(n));
  }

  lemma TwoFieldsExample()
    ensures Parsed(Counting(), Trace([], 0, false), "{}{}").events
         == [ArgIdAsked(Auto), FieldEnded(0), ArgIdAsked(Auto), FieldEnded(1)]
  {
    var fmt := "{}{}";
    assert fmt[0..0] == "" && fmt[2..2] == "" && fmt[4..4] == "";
    var t0: Trace<int> := Trace([], 0, false);
    CountedField(t0, fmt, 0);
    var t1 := Field(Counting(), t0, fmt, 0).0;
    CountedField(t1, fmt, 2);
    RunAtBrace(Counting(), t0, fmt, 0);
    RunAtBrace(Counting(), t1, fmt, 2);
    RunAtEnd(Counting(), Field(Counting(), t1, fmt, 2).0, fmt);
  }

  lemma CountedField(t: Trace<int>, fmt: string, i: nat)
    requires i + 1 < |fmt| && fmt[i] == '{' && fmt[i + 1] == '}'
    ensures Field(Counting(), t, fmt, i)
         == (Trace(t.events + [ArgIdAsked(Auto)] + [FieldEnded(t.state)], t.state + 1, false), i + 2)
  {
    assert ArgIdAt(fmt, i + 1) == ArgId(Auto, i + 1);
    assert OnArgId(Counting(), t, Auto) == (Trace(t.events + [ArgIdAsked(Auto)], t.state + 1, false), t.state);
  }

  // ---------------------------------------------------------------------------------------
  // Errors

  predicate NoBraces(s: string) {
    forall i | 0 <= i < |s| :: s[i] != '{' && s[i] != '}'
  }

  /** The events after plain text has been passed on, if there is any. */
  function WithText<S>(t: Trace<S>, s: string): seq<Event> {
    t.events + if s == "" then [] else [Text(s)]
  }

  lemma PlainStart<S>(h: Handler<S>, t: Trace<S>, a: string, rest: string)
    requires NoBraces(a)
    ensures Parsed(h, t, a + rest) == Run(h, t, a + rest, 0, |a|)
    ensures (a + rest)[0..|a|] == a && (a + rest)[|a|..] == rest
  {
    assert Plain(a + rest, 0, |a|);
    RunSkipsPlain(h, t, a + rest, 0, 0, |a|);
  }

  /** A closing brace that is not doubled; the text before it is lost. */
  lemma UnmatchedClosingBrace<S>(h: Handler<S>, t: Trace<S>, a: string, rest: string)
    requires NoBraces(a) && !t.stopped && (rest == "" || rest[0] != '}')
    ensures Parsed(h, t, a + ("}" + rest))
         == Trace(t.events + [Error("unmatched '}' in format string")], t.state, true)
  {
    var fmt := a + ("}" + rest);
    PlainStart(h, t, a, "}" + rest);
    assert fmt[|a|] == '}' && (rest != "" ==> fmt[|a| + 1] == rest[0]);
  }

  /** The first field of a string, after plain text. */
  lemma FirstField<S>(h: Handler<S>, t: Trace<S>, a: string, rest: string)
    requires NoBraces(a) && !t.stopped
    ensures var fmt := a + ("{" + rest);
            && fmt[|a|] == '{' && fmt[|a| + 1..] == rest
            && var (t1, next) := Field(h, Trace(WithText(t, a), t.state, false), fmt, |a|);
            Parsed(h, t, fmt) == if t1.stopped then t1 else Run(h, t1, fmt, next, next)
  {
    var fmt := a + ("{" + rest);
    PlainStart(h, t, a, "{" + rest);
    assert fmt[|a| + 1..] == rest;
    assert t.events + [] == t.events;
    assert Emit(t, a) == Trace(WithText(t, a), t.state, false);
    hide Field;
  }

  /** Nothing, or nothing that could be an id, a colon or a brace, behind an opening brace. */
  lemma BadFieldStart<S>(h: Handler<S>, t: Trace<S>, a: string, rest: string)
    requires NoBraces(a) && !t.stopped
    requires rest == "" || !(IsLetter(rest[0]) || '0' <= rest[0] <= '9' || rest[0] in "{}:")
    ensures Parsed(h, t, a + ("{" + rest))
         == Trace(WithText(t, a) + [Error("invalid format string")], t.state, true)
  {
    var fmt := a + ("{" + rest);
    FirstField(h, t, a, rest);
    assert rest != "" ==> fmt[|a| + 1] == rest[0];
  }

  /** An index that does not end at a colon or a closing brace; a leading zero ends at once. */
  lemma BadIndex<S>(h: Handler<S>, t: Trace<S>, a: string, digits: string, rest: string)
    requires NoBraces(a) && !t.stopped && digits != "" && forall i | 0 <= i < |digits| :: '0' <= digits[i] <= '9'
    requires digits == "0" || digits[0] != '0'
    requires rest == "" || !(rest[0] in ":}")
    requires digits != "0" && rest != "" ==> !('0' <= rest[0] <= '9')
    ensures Parsed(h, t, a + ("{" + (digits + rest)))
         == Trace(WithText(t, a) + [Error("invalid format string")], t.state, true)
  {
    var fmt, b := a + ("{" + (digits + rest)), |a| + 1;
    FirstField(h, t, a, digits + rest);
    IndexEnds(fmt, b, digits, rest);
    assert ArgIdAt(fmt, b) == BadArgId;
    hide ArgIdAt, IntValue, DigitsEnd;
  }

  lemma IndexEnds(fmt: string, b: nat, digits: string, rest: string)
    requires b <= |fmt| && fmt[b..] == digits + rest && digits != ""
    requires forall i | 0 <= i < |digits| :: '0' <= digits[i] <= '9'
    requires rest == "" || digits == "0" || !('0' <= rest[0] <= '9')
    ensures b + |digits| <= |fmt| && fmt[b] == digits[0] && fmt[b..b + |digits|] == digits
    ensures b + |digits| == |fmt| <==> rest == ""
    ensures rest != "" ==> fmt[b + |digits|] == rest[0]
    ensures digits != "0" ==> DigitsEnd(fmt, b) == b + |digits|
  {
    var tail := fmt[b..];
    assert |fmt| == b + |digits| + |rest|;
    assert tail[..|digits|] == digits;
    assert fmt[b..b + |digits|] == tail[..|digits|];
    assert fmt[b] == tail[0];
    if rest != "" {
      assert fmt[b + |digits|] == tail[|digits|] == rest[0];
    }
    assert AllDigits(digits);
    if digits != "0" {
      RunIsMaximal(fmt, b, b + |digits|);
    }
  }

  /** An index too large for an int stands for the largest one. */
  lemma HugeIndex(fmt: string, b: nat, end: nat)
    requires b < end < |fmt| && AllDigits(fmt[b..end]) && fmt[b] != '0' && (fmt[end] == ':' || fmt[end] == '}')
    requires ValueOf(fmt[b..end]) > 2147483647
    ensures ArgIdAt(fmt, b) == ArgId(Index(2147483647), end)
  {
    assert fmt[b] == fmt[b..end][0];
    hide ValueOf, DigitsEnd, IntValue, ArgIdAt;
    RunIsMaximal(fmt, b, end);
    HugeValue(fmt, b, fmt[b..end]);
    ArgIdOfIndex(fmt, b, end);
  }

  lemma HugeValue(fmt: string, b: nat, digits: string)
    requires b + |digits| <= |fmt| && fmt[b..b + |digits|] == digits && DigitsEnd(fmt, b) == b + |digits|
    requires AllDigits(digits) && ValueOf(digits) > 2147483647
    ensures IntValue(fmt, b, INT_MAX) == 2147483647
  {
    hide ValueOf, DigitsEnd;
  }

  lemma ArgIdOfIndex(fmt: string, b: nat, end: nat)
    requires b < end < |fmt| && '1' <= fmt[b] <= '9' && DigitsEnd(fmt, b) == end && (fmt[end] == '}' || fmt[end] == ':')
    ensures ArgIdAt(fmt, b) == ArgId(Index(IntValue(fmt, b, INT_MAX)), end)
  {
    hide IntValue, DigitsEnd;
  }

  /** A name that does not end at a colon or a closing brace: the handler is asked before. */
  lemma NameNotClosed<S>(h: Handler<S>, t: Trace<S>, a: string, name: string, rest: string)
    requires NoBraces(a) && !t.stopped && ValidName(name) && h.argId(t.state, Name(name)).Some?
    requires rest == "" || !(IsLetter(rest[0]) || '0' <= rest[0] <= '9' || rest[0] in ":}")
    ensures Parsed(h, t, a + ("{" + (name + rest)))
         == Trace(WithText(t, a) + [ArgIdAsked(Name(name))] + [Error("missing '}' in format string")],
                  h.argId(t.state, Name(name)).value.0, true)
  {
    var fmt, b := a + ("{" + (name + rest)), |a| + 1;
    FirstField(h, t, a, name + rest);
    NameEnds(fmt, b, name, rest);
    assert ArgIdAt(fmt, b) == ArgId(Name(name), b + |name|);
    hide ArgIdAt, NameEnd;
  }

  lemma NameEnds(fmt: string, b: nat, name: string, rest: string)
    requires b <= |fmt| && fmt[b..] == name + rest && ValidName(name)
    requires rest == "" || !(IsLetter(rest[0]) || '0' <= rest[0] <= '9')
    ensures b + |name| <= |fmt| && fmt[b] == name[0] && fmt[b..b + |name|] == name
    ensures b + |name| == |fmt| <==> rest == ""
    ensures rest != "" ==> fmt[b + |name|] == rest[0]
    ensures NameEnd(fmt, b) == b + |name|
  {
    var tail := fmt[b..];
    assert |fmt| == b + |name| + |rest|;
    assert fmt[b..b + |name|] == tail[..|name|] == name;
    assert fmt[b] == tail[0];
    if rest != "" {
      assert fmt[b + |name|] == tail[|name|] == rest[0];
    }
    assert forall j | b <= j < b + |name| :: fmt[j] == name[j - b];
    NameIsMaximal(fmt, b, b + |name|);
  }

  lemma {:induction false} NameIsMaximal(fmt: string, i: nat, end: nat)
    requires i <= end <= |fmt| && (forall j | i <= j < end :: IsNameChar(fmt[j]))
    requires end == |fmt| || !IsNameChar(fmt[end])
    ensures NameEnd(fmt, i) == end
    decreases end - i
  {
    if i == end {
    } else {
      NameIsMaximal(fmt, i + 1, end);
    }
  }

  /** Specifiers that are not followed by a closing brace, here of an automatic argument. */
  lemma SpecsNotClosed<S>(h: Handler<S>, t: Trace<S>, a: string, rest: string, s1: S, id: int, s2: S, taken: nat)
    requires NoBraces(a) && !t.stopped
    requires h.argId(t.state, Auto) == Some((s1, id)) && h.specs(s1, id, rest) == Some((s2, taken))
    requires taken <= |rest| && (taken == |rest| || rest[taken] != '}')
    ensures Parsed(h, t, a + ("{" + (":" + rest)))
         == Trace(WithText(t, a) + [ArgIdAsked(Auto)] + [SpecsAsked(id, rest)] + [Error("unknown format specifier")],
                  s2, true)
  {
    var fmt, b := a + ("{" + (":" + rest)), |a| + 1;
    FirstField(h, t, a, ":" + rest);
    assert fmt[b..] == ":" + rest && fmt[b] == ':' && fmt[b + 1..] == rest;
    assert ArgIdAt(fmt, b) == ArgId(Auto, b);
    var t0: Trace<S> := Trace(WithText(t, a), t.state, false);
    var t1: Trace<S> := Trace(t0.events + [ArgIdAsked(Auto)], s1, false);
    assert OnArgId(h, t0, Auto) == (t1, id);
    SpecsUnended(h, t1, id, fmt, b + 1, rest, s2, taken);
    hide ArgIdAt, FieldWithSpecs, OnArgId, OnSpecs, OnError;
  }

  lemma SpecsUnended<S>(h: Handler<S>, t: Trace<S>, id: int, fmt: string, i: nat, rest: string, s: S, taken: nat)
    requires 0 < i <= |fmt| && fmt[i..] == rest && h.specs(t.state, id, rest) == Some((s, taken))
    requires taken <= |rest| && (taken == |rest| || rest[taken] != '}')
    ensures FieldWithSpecs(h, t, id, fmt, i)
         == (Trace(t.events + [SpecsAsked(id, rest)] + [Error("unknown format specifier")], s, true), |fmt|)
  {
    assert |fmt| == i + |rest|;
    if taken < |rest| {
      assert fmt[i + taken] == fmt[i..][taken];
    }
  }
}
