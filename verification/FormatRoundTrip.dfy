/**
  Printing and parsing format strings: a list of pieces, written with its braces doubled and its
  argument ids in brackets, is parsed back into exactly these pieces.
*/
module FormatRoundTrip {
  import opened Decimals
  import opened Words
  import opened FormatNumbers
  import opened FormatParser

  /** Text, a replacement field, or one with format specifiers. */
  datatype Piece = Literal(text: string) | Replacement(ref: ArgRef) | Formatted(ref: ArgRef, spec: string)

  predicate IsLetter(c: char) { 'a' <= c <= 'z' || 'A' <= c <= 'Z' || c == '_' }

  /** A letter or underscore, then letters, underscores and digits. */
  predicate ValidName(s: string) {
    s != "" && IsLetter(s[0]) && forall i :: 0 <= i < |s| ==> IsLetter(s[i]) || '0' <= s[i] <= '9'
  }

  predicate ValidRef(ref: ArgRef) {
    match ref
    case Auto => true
    case Index(n) => 0 <= n <= 2147483647
    case Name(name) => ValidName(name)
  }

  predicate ValidPieces(pieces: seq<Piece>) {
    forall i :: 0 <= i < |pieces| && !pieces[i].Literal? ==> ValidRef(pieces[i].ref)
  }

  // ---------------------------------------------------------------------------------------
  // Printing

  function EscapeChar(c: char): string { if c == '{' || c == '}' then [c, c] else [c] }

  function Escape(text: string): string {
    if text == "" then "" else EscapeChar(text[0]) + Escape(text[1..])
  }

  function RenderRef(ref: ArgRef): string {
    match ref
    case Auto => ""
    case Index(n) => if n < 0 then "-" else Decimal(n)
    case Name(name) => name
  }

  function RenderPiece(piece: Piece): string {
    match piece
    case Literal(text) => Escape(text)
    case Replacement(ref) => "{" + RenderRef(ref) + "}"
    case Formatted(ref, spec) => "{" + RenderRef(ref) + ":" + spec + "}"
  }

  function Render(pieces: seq<Piece>): string {
    if pieces == [] then "" else RenderPiece(pieces[0]) + Render(pieces[1..])
  }

  // ---------------------------------------------------------------------------------------
  // What the pieces stand for

  /** The pieces handed to the handler one after the other, each with the state its answer to the
      one before has left; an answer that is an error ends it. */
  function Play<S>(h: Handler<S>, t: Trace<S>, pieces: seq<Piece>): Trace<S>
    decreases |pieces|
  {
    if pieces == [] then t
    else
      match pieces[0]
      case Literal(text) => Play(h, Trace(t.events + [Text(text)], t.state, t.stopped), pieces[1..])
      case Replacement(ref) =>
        (match h.argId(t.state, ref)
         case None => Trace(t.events + [ArgIdAsked(ref)], t.state, true)
         case Some((s1, id)) =>
           var events := t.events + [ArgIdAsked(ref)] + [FieldEnded(id)];
           match h.field(s1, id)
           case None => Trace(events, s1, true)
           case Some(s2) => Play(h, Trace(events, s2, false), pieces[1..]))
      case Formatted(ref, spec) =>
        (match h.argId(t.state, ref)
         case None => Trace(t.events + [ArgIdAsked(ref)], t.state, true)
         case Some((s1, id)) =>
           var events := t.events + [ArgIdAsked(ref)] + [SpecsAsked(id, AfterColon(pieces))];
           match h.specs(s1, id, AfterColon(pieces))
           case None => Trace(events, s1, true)
           case Some((s2, _)) => Play(h, Trace(events, s2, false), pieces[1..]))
  }

  /** What the handler is shown of a field with specifiers: they and all that follows. */
  function AfterColon(pieces: seq<Piece>): string
    requires pieces != [] && pieces[0].Formatted?
  {
    pieces[0].spec + "}" + Render(pieces[1..])
  }

  /** Whenever the handler parses format specifiers, it takes those that were printed, and no more. */
  ghost predicate TakesSpecs<S>(h: Handler<S>, s: S, pieces: seq<Piece>)
    decreases |pieces|
  {
    pieces == []
    || match pieces[0]
       case Literal(_) => TakesSpecs(h, s, pieces[1..])
       case Replacement(ref) =>
         (match h.argId(s, ref)
          case None => true
          case Some((s1, id)) =>
            match h.field(s1, id)
            case None => true
            case Some(s2) => TakesSpecs(h, s2, pieces[1..]))
       case Formatted(ref, spec) =>
         (match h.argId(s, ref)
          case None => true
          case Some((s1, id)) =>
            match h.specs(s1, id, AfterColon(pieces))
            case None => true
            case Some((s2, taken)) => taken == |spec| && TakesSpecs(h, s2, pieces[1..]))
  }

  /** Events with the text cut into characters, so that only its content and place matter. */
  datatype Atom = Ch(c: char) | Call(event: Event)

  function Chars(s: string): seq<Atom> { seq(|s|, i requires 0 <= i < |s| => Ch(s[i])) }

  function AtomsOf(e: Event): seq<Atom> { if e.Text? then Chars(e.text) else [Call(e)] }

  function Atoms(events: seq<Event>): seq<Atom> {
    if events == [] then [] else Atoms(events[..|events| - 1]) + AtomsOf(events[|events| - 1])
  }

  lemma AtomsAppend(events: seq<Event>, e: Event)
    ensures Atoms(events + [e]) == Atoms(events) + AtomsOf(e)
  {
    assert (events + [e])[..|events|] == events;
  }

  ghost predicate Agree<S>(t: Trace<S>, u: Trace<S>) {
    Atoms(t.events) == Atoms(u.events) && t.state == u.state && t.stopped == u.stopped
  }

  /** `t` with the text from `begin` to `p` still to come agrees with `u`. */
  ghost predicate AgreeWith<S>(t: Trace<S>, fmt: string, begin: nat, p: nat, u: Trace<S>)
    requires begin <= p <= |fmt|
  {
    Atoms(t.events) + Chars(fmt[begin..p]) == Atoms(u.events) && t.state == u.state && !t.stopped && !u.stopped
  }

  lemma EmitAgrees<S>(t: Trace<S>, fmt: string, begin: nat, p: nat, u: Trace<S>)
    requires begin <= p <= |fmt| && AgreeWith(t, fmt, begin, p, u)
    ensures Agree(Emit(t, fmt[begin..p]), u)
  {
    AtomsAppend(t.events, Text(fmt[begin..p]));
  }

  lemma TextAgrees<S>(t: Trace<S>, u: Trace<S>, s: string)
    requires Agree(t, u)
    ensures Agree(OnText(t, s), OnText(u, s))
  {
    AtomsAppend(t.events, Text(s));
    AtomsAppend(u.events, Text(s));
  }

  lemma ArgIdAgrees<S>(h: Handler<S>, t: Trace<S>, u: Trace<S>, ref: ArgRef)
    requires Agree(t, u)
    ensures Agree(OnArgId(h, t, ref).0, OnArgId(h, u, ref).0) && OnArgId(h, t, ref).1 == OnArgId(h, u, ref).1
  {
    AtomsAppend(t.events, ArgIdAsked(ref));
    AtomsAppend(u.events, ArgIdAsked(ref));
  }

  lemma FieldAgrees<S>(h: Handler<S>, t: Trace<S>, u: Trace<S>, id: int)
    requires Agree(t, u)
    ensures Agree(OnField(h, t, id), OnField(h, u, id))
  {
    AtomsAppend(t.events, FieldEnded(id));
    AtomsAppend(u.events, FieldEnded(id));
  }

  lemma SpecsAgree<S>(h: Handler<S>, t: Trace<S>, u: Trace<S>, id: int, rest: string)
    requires Agree(t, u)
    ensures Agree(OnSpecs(h, t, id, rest).0, OnSpecs(h, u, id, rest).0)
    ensures OnSpecs(h, t, id, rest).1 == OnSpecs(h, u, id, rest).1
  {
    AtomsAppend(t.events, SpecsAsked(id, rest));
    AtomsAppend(u.events, SpecsAsked(id, rest));
  }

  // ---------------------------------------------------------------------------------------
  // Parsing a printed argument id

  /** What ends an argument id. */
  predicate EndsArgId(c: char) { c == '}' || c == ':' }

  lemma {:induction false} FewDigits(n: nat, k: nat)
    requires k > 0 && n < Pow(10, k)
    ensures |Decimal(n)| <= k
  {
    if n < 10 {
    } else {
      assert Pow(10, 0) == 1;
      assert k > 1;
      FewDigits(n / 10, k - 1);
    }
  }

  lemma TenDigits(n: nat)
    requires n <= INT_MAX
    ensures |Decimal(n)| <= 10
  {
    assert Pow(10, 10) == 10000000000 by {
      PowSum(10, 5, 5);
      assert Pow(10, 5) == 100000 by { assert Pow(10, 3) == 1000; }
    }
    hide Decimal, Pow;
    FewDigits(n, 10);
  }

  lemma {:induction false} NameRun(fmt: string, i: nat, end: nat)
    requires i <= end < |fmt| && (forall j :: i <= j < end ==> IsNameChar(fmt[j])) && !IsNameChar(fmt[end])
    ensures NameEnd(fmt, i) == end
    decreases end - i
  {
    if i == end {
    } else {
      NameRun(fmt, i + 1, end);
    }
  }

  /** The parser reads back the id that was printed before a closing brace or a colon. */
  lemma ArgIdReadBack(fmt: string, i: nat, ref: ArgRef)
    requires ValidRef(ref) && i + |RenderRef(ref)| < |fmt|
    requires fmt[i..i + |RenderRef(ref)|] == RenderRef(ref) && EndsArgId(fmt[i + |RenderRef(ref)|])
    ensures ArgIdAt(fmt, i) == ArgId(ref, i + |RenderRef(ref)|)
    ensures fmt[i] != '{'
  {
    var s := RenderRef(ref);
    var end := i + |s|;
    match ref
    case Auto =>
    case Index(n) =>
      assert fmt[i] == s[0] && IsDigit(s[0]);
      IndexReadBack(fmt, i, n);
    case Name(name) =>
      assert fmt[i] == s[0] && IsNameStart(s[0]);
      forall j | i <= j < end
        ensures IsNameChar(fmt[j])
      {
        assert fmt[j] == s[j - i];
      }
      NameRun(fmt, i, end);
  }

  lemma IndexReadBack(fmt: string, i: nat, n: nat)
    requires n <= INT_MAX && i + |Decimal(n)| < |fmt|
    requires fmt[i..i + |Decimal(n)|] == Decimal(n) && EndsArgId(fmt[i + |Decimal(n)|])
    ensures ArgIdAt(fmt, i) == ArgId(Index(n), i + |Decimal(n)|)
  {
    var s := Decimal(n);
    assert fmt[i] == s[0];
    TenDigits(n);
    RunIsMaximal(fmt, i, i + |s|);
    if s[0] == '0' {
      assert ValueOf("0") == 0;
    }
    hide Decimal, ValueOf;
  }

  // ---------------------------------------------------------------------------------------
  // Parsing printed pieces

  lemma EscapeStep(text: string)
    requires text != ""
    ensures Escape(text) == EscapeChar(text[0]) + Escape(text[1..])
  {
  }

  lemma NothingPending<S>(t: Trace<S>, fmt: string, q: nat, u: Trace<S>)
    requires q <= |fmt| && Agree(t, u) && !t.stopped
    ensures AgreeWith(t, fmt, q, q, u)
  {
    assert fmt[q..q] == "";
  }

  lemma OnePending<S>(t: Trace<S>, fmt: string, begin: nat, p: nat, u: Trace<S>)
    requires begin <= p < |fmt| && AgreeWith(t, fmt, begin, p, u)
    ensures AgreeWith(t, fmt, begin, p + 1, OnText(u, [fmt[p]]))
  {
    hide Chars, Atoms;
    AtomsAppend(u.events, Text([fmt[p]]));
    assert fmt[begin..p + 1] == fmt[begin..p] + [fmt[p]];
    CharsAppend(fmt[begin..p], fmt[p]);
    Associate(Atoms(t.events), Chars(fmt[begin..p]), Chars([fmt[p]]));
  }

  lemma CharsAppend(s: string, c: char)
    ensures Chars(s + [c]) == Chars(s) + Chars([c])
  {
  }

  lemma Running<S>(t: Trace<S>, fmt: string, begin: nat, p: nat, u: Trace<S>, s: string)
    requires begin <= p <= |fmt| && AgreeWith(t, fmt, begin, p, u)
    ensures !Emit(t, s).stopped && !OnText(Emit(t, s), "{").stopped
  {
  }

  lemma RunOpenPair<S>(h: Handler<S>, t: Trace<S>, fmt: string, begin: nat, p: nat)
    requires begin <= p && p + 2 <= |fmt| && fmt[p] == '{' && fmt[p + 1] == '{'
    requires !OnText(Emit(t, fmt[begin..p]), "{").stopped
    ensures Run(h, t, fmt, begin, p) == Run(h, OnText(Emit(t, fmt[begin..p]), "{"), fmt, p + 2, p + 2)
  {
    hide Emit, OnText;
    assert Field(h, Emit(t, fmt[begin..p]), fmt, p) == (OnText(Emit(t, fmt[begin..p]), "{"), p + 2);
  }

  lemma RunClosePair<S>(h: Handler<S>, t: Trace<S>, fmt: string, begin: nat, p: nat)
    requires begin <= p && p + 2 <= |fmt| && fmt[p] == '}' && fmt[p + 1] == '}'
    ensures Run(h, t, fmt, begin, p) == Run(h, Emit(t, fmt[begin..p + 1]), fmt, p + 2, p + 2)
  {
  }

  lemma RunPlainChar<S>(h: Handler<S>, t: Trace<S>, fmt: string, begin: nat, p: nat)
    requires begin <= p < |fmt| && fmt[p] != '{' && fmt[p] != '}'
    ensures Run(h, t, fmt, begin, p) == Run(h, t, fmt, begin, p + 1)
  {
  }

  lemma EscapedAt(fmt: string, p: nat, c: char)
    requires p + |EscapeChar(c)| <= |fmt| && fmt[p..p + |EscapeChar(c)|] == EscapeChar(c)
    ensures p < |fmt| && fmt[p] == c
    ensures c == '{' || c == '}' ==> |EscapeChar(c)| == 2 && p + 2 <= |fmt| && fmt[p + 1] == c
    ensures c != '{' && c != '}' ==> |EscapeChar(c)| == 1
  {
    assert fmt[p] == fmt[p..p + |EscapeChar(c)|][0];
    if |EscapeChar(c)| == 2 {
      assert fmt[p + 1] == fmt[p..p + |EscapeChar(c)|][1];
    }
  }

  /** One literal character, doubled if it is a brace, joins the text. */
  lemma RunChar<S>(h: Handler<S>, t: Trace<S>, fmt: string, begin: nat, p: nat, u: Trace<S>, c: char)
    returns (t': Trace<S>, begin': nat)
    requires begin <= p && p + |EscapeChar(c)| <= |fmt| && fmt[p..p + |EscapeChar(c)|] == EscapeChar(c)
    requires AgreeWith(t, fmt, begin, p, u)
    ensures begin' <= p + |EscapeChar(c)|
    ensures Run(h, t, fmt, begin, p) == Run(h, t', fmt, begin', p + |EscapeChar(c)|)
    ensures AgreeWith(t', fmt, begin', p + |EscapeChar(c)|, OnText(u, [c]))
  {
    hide Run, Agree, AgreeWith, OnText, Emit, EscapeChar;
    EscapedAt(fmt, p, c);
    if c == '{' {
      var e := Emit(t, fmt[begin..p]);
      EmitAgrees(t, fmt, begin, p, u);
      Running(t, fmt, begin, p, u, fmt[begin..p]);
      TextAgrees(e, u, "{");
      NothingPending(OnText(e, "{"), fmt, p + 2, OnText(u, "{"));
      RunOpenPair(h, t, fmt, begin, p);
      t', begin' := OnText(e, "{"), p + 2;
    } else if c == '}' {
      var e := Emit(t, fmt[begin..p + 1]);
      OnePending(t, fmt, begin, p, u);
      EmitAgrees(t, fmt, begin, p + 1, OnText(u, [c]));
      Running(t, fmt, begin, p, u, fmt[begin..p + 1]);
      NothingPending(e, fmt, p + 2, OnText(u, [c]));
      RunClosePair(h, t, fmt, begin, p);
      t', begin' := e, p + 2;
    } else {
      OnePending(t, fmt, begin, p, u);
      RunPlainChar(h, t, fmt, begin, p);
      t', begin' := t, begin;
    }
  }

  lemma CharsSplit(c: char, rest: string)
    ensures Chars([c] + rest) == Chars([c]) + Chars(rest)
  {
  }

  lemma Associate(a: seq<Atom>, b: seq<Atom>, c: seq<Atom>)
    ensures a + b + c == a + (b + c)
  {
  }

  lemma CharsInParts(events: seq<Event>, c: char, rest: string)
    ensures Atoms(events + [Text([c])] + [Text(rest)]) == Atoms(events + [Text([c] + rest)])
  {
    hide Atoms, Chars;
    AtomsAppend(events, Text([c]));
    AtomsAppend(events + [Text([c])], Text(rest));
    AtomsAppend(events, Text([c] + rest));
    CharsSplit(c, rest);
    Associate(Atoms(events), Chars([c]), Chars(rest));
  }

  lemma TextInParts<S>(t: Trace<S>, fmt: string, begin: nat, p: nat, u: Trace<S>, c: char, rest: string)
    requires begin <= p <= |fmt| && AgreeWith(t, fmt, begin, p, OnText(OnText(u, [c]), rest))
    ensures AgreeWith(t, fmt, begin, p, OnText(u, [c] + rest))
  {
    CharsInParts(u.events, c, rest);
    hide Atoms, Chars;
  }

  lemma NoText<S>(t: Trace<S>, fmt: string, begin: nat, p: nat, u: Trace<S>)
    requires begin <= p <= |fmt| && AgreeWith(t, fmt, begin, p, u)
    ensures AgreeWith(t, fmt, begin, p, OnText(u, ""))
  {
    AtomsAppend(u.events, Text(""));
  }

  lemma {:induction false} RunLiteral<S>(h: Handler<S>, t: Trace<S>, fmt: string, begin: nat, p: nat,
                                           u: Trace<S>, text: string)
    returns (t': Trace<S>, begin': nat)
    requires begin <= p && p + |Escape(text)| <= |fmt| && fmt[p..p + |Escape(text)|] == Escape(text)
    requires AgreeWith(t, fmt, begin, p, u)
    ensures begin' <= p + |Escape(text)|
    ensures Run(h, t, fmt, begin, p) == Run(h, t', fmt, begin', p + |Escape(text)|)
    ensures AgreeWith(t', fmt, begin', p + |Escape(text)|, OnText(u, text))
    decreases |text|
  {
    hide Run, EscapeChar, AgreeWith, OnText;
    if text == "" {
      NoText(t, fmt, begin, p, u);
      return t, begin;
    }
    var c, rest := text[0], text[1..];
    EscapeStep(text);
    hide Escape;
    SplitRange(fmt, p, EscapeChar(c), Escape(rest));
    var t1, b1 := RunChar(h, t, fmt, begin, p, u, c);
    t', begin' := RunLiteral(h, t1, fmt, b1, p + |EscapeChar(c)|, OnText(u, [c]), rest);
    TextInParts(t', fmt, begin', p + |Escape(text)|, u, c, rest);
    assert text == [c] + rest;
  }

  lemma SplitRange(fmt: string, p: nat, a: string, b: string)
    requires p + |a| + |b| <= |fmt| && fmt[p..p + (|a| + |b|)] == a + b
    ensures fmt[p..p + |a|] == a && fmt[p + |a|..p + |a| + |b|] == b
  {
    var ab := fmt[p..p + (|a| + |b|)];
    assert fmt[p..p + |a|] == ab[..|a|];
    assert fmt[p + |a|..p + |a| + |b|] == ab[|a|..];
  }

  /** A printed replacement field asks for its id and ends. */
  lemma FieldOfPrinted<S>(h: Handler<S>, t: Trace<S>, fmt: string, p: nat, ref: ArgRef)
    requires ValidRef(ref) && p + |RenderRef(ref)| + 2 <= |fmt|
    requires fmt[p] == '{' && fmt[p + 1..p + 1 + |RenderRef(ref)|] == RenderRef(ref)
    requires fmt[p + 1 + |RenderRef(ref)|] == '}'
    ensures var (t1, id) := OnArgId(h, t, ref);
            Field(h, t, fmt, p) == if t1.stopped then (t1, |fmt|) else (OnField(h, t1, id), p + 2 + |RenderRef(ref)|)
  {
    ArgIdReadBack(fmt, p + 1, ref);
    hide ArgIdAt, RenderRef, ValidRef, OnArgId, OnField;
  }

  lemma SliceOfTail(fmt: string, p: nat, a: nat, b: nat)
    requires p + b <= |fmt| && a <= b
    ensures fmt[p..][a..b] == fmt[p + a..p + b]
    ensures fmt[p..][b..] == fmt[p + b..]
  {
  }

  lemma BracedParts(s: string, c: char, rest: string)
    ensures var t := "{" + s + [c] + rest;
            && t[0] == '{' && t[1..1 + |s|] == s && t[1 + |s|] == c && t[2 + |s|..] == rest
  {
  }

  lemma PrintedField(fmt: string, p: nat, ref: ArgRef, c: char, rest: string)
    requires p <= |fmt| && fmt[p..] == "{" + RenderRef(ref) + [c] + rest
    ensures p + |RenderRef(ref)| + 2 <= |fmt| && fmt[p] == '{'
    ensures fmt[p + 1..p + 1 + |RenderRef(ref)|] == RenderRef(ref) && fmt[p + 1 + |RenderRef(ref)|] == c
    ensures fmt[p + 2 + |RenderRef(ref)|..] == rest
  {
    hide RenderRef;
    var s := RenderRef(ref);
    BracedParts(s, c, rest);
    assert |fmt[p..]| == |s| + 2 + |rest|;
    SliceOfTail(fmt, p, 1, 1 + |s|);
    SliceOfTail(fmt, p, 1, 2 + |s|);
    assert fmt[p] == fmt[p..][0] && fmt[p + 1 + |s|] == fmt[p..][1 + |s|];
  }

  lemma SplitTail(fmt: string, p: nat, a: string, b: string)
    requires p <= |fmt| && fmt[p..] == a + b
    ensures p + |a| <= |fmt| && fmt[p..p + |a|] == a && fmt[p + |a|..] == b
  {
    var tail := fmt[p..];
    assert fmt[p..p + |a|] == tail[..|a|];
    assert fmt[p + |a|..] == tail[|a|..];
  }

  lemma {:induction false} RunPieces<S>(h: Handler<S>, t: Trace<S>, fmt: string, begin: nat, p: nat,
                                          u: Trace<S>, pieces: seq<Piece>)
    requires begin <= p <= |fmt| && fmt[p..] == Render(pieces) && ValidPieces(pieces)
    requires AgreeWith(t, fmt, begin, p, u) && TakesSpecs(h, u.state, pieces)
    ensures Agree(Run(h, t, fmt, begin, p), Play(h, u, pieces))
    decreases |pieces|
  {
    if pieces == [] {
      EmitAgrees(t, fmt, begin, p, u);
    } else {
      match pieces[0]
      case Literal(text) => RunLiteralPiece(h, t, fmt, begin, p, u, pieces, text);
      case Replacement(ref) => RunReplacementPiece(h, t, fmt, begin, p, u, pieces, ref);
      case Formatted(ref, spec) => RunFormattedPiece(h, t, fmt, begin, p, u, pieces, ref, spec);
    }
  }

  lemma FirstLiteral<S>(h: Handler<S>, u: Trace<S>, pieces: seq<Piece>, text: string)
    requires pieces != [] && pieces[0] == Literal(text) && ValidPieces(pieces)
    ensures Render(pieces) == Escape(text) + Render(pieces[1..])
    ensures Play(h, u, pieces) == Play(h, OnText(u, text), pieces[1..])
    ensures TakesSpecs(h, u.state, pieces) == TakesSpecs(h, OnText(u, text).state, pieces[1..])
    ensures ValidPieces(pieces[1..])
  {
    hide Escape;
  }

  lemma {:induction false} RunLiteralPiece<S>(h: Handler<S>, t: Trace<S>, fmt: string, begin: nat, p: nat,
                                                u: Trace<S>, pieces: seq<Piece>, text: string)
    requires begin <= p <= |fmt| && fmt[p..] == Render(pieces) && ValidPieces(pieces)
    requires AgreeWith(t, fmt, begin, p, u) && TakesSpecs(h, u.state, pieces)
    requires pieces != [] && pieces[0] == Literal(text)
    ensures Agree(Run(h, t, fmt, begin, p), Play(h, u, pieces))
    decreases |pieces|, 0
  {
    hide Run, Play, Escape, Render, Agree, AgreeWith, OnText, ValidPieces, TakesSpecs;
    FirstLiteral(h, u, pieces, text);
    var rest := pieces[1..];
    SplitTail(fmt, p, Escape(text), Render(rest));
    var t1, b1 := RunLiteral(h, t, fmt, begin, p, u, text);
    RunPieces(h, t1, fmt, b1, p + |Escape(text)|, OnText(u, text), rest);
  }

  /** Both sides of a replacement field up to the remaining pieces. */
  lemma RunField<S>(h: Handler<S>, t: Trace<S>, fmt: string, begin: nat, p: nat)
    requires begin <= p < |fmt| && fmt[p] == '{'
    ensures var (t1, next) := Field(h, Emit(t, fmt[begin..p]), fmt, p);
            Run(h, t, fmt, begin, p) == if t1.stopped then t1 else Run(h, t1, fmt, next, next)
  {
    hide Field, Emit;
  }

  lemma PlayReplacement<S>(h: Handler<S>, u: Trace<S>, pieces: seq<Piece>, ref: ArgRef)
    requires pieces != [] && pieces[0] == Replacement(ref)
    ensures var (u1, id) := OnArgId(h, u, ref);
            Play(h, u, pieces) == if u1.stopped then u1
                                  else if OnField(h, u1, id).stopped then OnField(h, u1, id)
                                  else Play(h, OnField(h, u1, id), pieces[1..])
    ensures var (u1, id) := OnArgId(h, u, ref);
            TakesSpecs(h, u.state, pieces) && !u1.stopped && !OnField(h, u1, id).stopped ==>
              TakesSpecs(h, OnField(h, u1, id).state, pieces[1..])
  {
  }

  lemma FirstReplacement(pieces: seq<Piece>, ref: ArgRef)
    requires pieces != [] && pieces[0] == Replacement(ref) && ValidPieces(pieces)
    ensures Render(pieces) == "{" + RenderRef(ref) + "}" + Render(pieces[1..])
    ensures ValidRef(ref) && ValidPieces(pieces[1..])
  {
    hide RenderRef, ValidRef;
  }

  /** Running and playing the first field reach the same answers. */
  lemma FieldsAgree<S>(h: Handler<S>, e: Trace<S>, u: Trace<S>, ref: ArgRef)
    requires Agree(e, u)
    ensures OnArgId(h, e, ref).1 == OnArgId(h, u, ref).1
    ensures var id := OnArgId(h, u, ref).1;
            && Agree(OnArgId(h, e, ref).0, OnArgId(h, u, ref).0)
            && Agree(OnField(h, OnArgId(h, e, ref).0, id), OnField(h, OnArgId(h, u, ref).0, id))
  {
    ArgIdAgrees(h, e, u, ref);
    hide OnArgId, OnField, Agree;
    FieldAgrees(h, OnArgId(h, e, ref).0, OnArgId(h, u, ref).0, OnArgId(h, u, ref).1);
  }

  lemma SameStop<S>(t: Trace<S>, u: Trace<S>)
    requires Agree(t, u)
    ensures t.stopped == u.stopped
  {
  }

  lemma {:induction false} RunReplacementPiece<S>(h: Handler<S>, t: Trace<S>, fmt: string, begin: nat, p: nat,
                                                    u: Trace<S>, pieces: seq<Piece>, ref: ArgRef)
    requires begin <= p <= |fmt| && fmt[p..] == Render(pieces) && ValidPieces(pieces)
    requires AgreeWith(t, fmt, begin, p, u) && TakesSpecs(h, u.state, pieces)
    requires pieces != [] && pieces[0] == Replacement(ref)
    ensures Agree(Run(h, t, fmt, begin, p), Play(h, u, pieces))
    decreases |pieces|, 0
  {
    hide Run, Play, Render, RenderRef, ValidRef, ValidPieces, Agree, AgreeWith, OnArgId, OnField, Field, Emit;
    hide TakesSpecs;
    var rest := pieces[1..];
    FirstReplacement(pieces, ref);
    PrintedField(fmt, p, ref, '}', Render(rest));
    EmitAgrees(t, fmt, begin, p, u);
    var e := Emit(t, fmt[begin..p]);
    FieldOfPrinted(h, e, fmt, p, ref);
    RunField(h, t, fmt, begin, p);
    PlayReplacement(h, u, pieces, ref);
    FieldsAgree(h, e, u, ref);
    var t1, u1, id := OnArgId(h, e, ref).0, OnArgId(h, u, ref).0, OnArgId(h, u, ref).1;
    var t2, u2 := OnField(h, t1, id), OnField(h, u1, id);
    SameStop(t1, u1);
    SameStop(t2, u2);
    if !t1.stopped && !t2.stopped {
      NothingPending(t2, fmt, p + 2 + |RenderRef(ref)|, u2);
      RunPieces(h, t2, fmt, p + 2 + |RenderRef(ref)|, p + 2 + |RenderRef(ref)|, u2, rest);
    }
  }

  lemma PlayFormatted<S>(h: Handler<S>, u: Trace<S>, pieces: seq<Piece>, ref: ArgRef, spec: string)
    requires pieces != [] && pieces[0] == Formatted(ref, spec)
    ensures var (u1, id) := OnArgId(h, u, ref);
            var (u2, k) := OnSpecs(h, u1, id, AfterColon(pieces));
            && Play(h, u, pieces) == (if u1.stopped then u1 else if u2.stopped then u2 else Play(h, u2, pieces[1..]))
            && (TakesSpecs(h, u.state, pieces) ==>
                  u1.stopped || u2.stopped || (k == |spec| && TakesSpecs(h, u2.state, pieces[1..])))
  {
    hide AfterColon, Render;
    assert |AfterColon(pieces)| >= |spec| by { SpecComesFirst(pieces); }
  }

  lemma SpecComesFirst(pieces: seq<Piece>)
    requires pieces != [] && pieces[0].Formatted?
    ensures |AfterColon(pieces)| >= |pieces[0].spec|
  {
    hide Render;
  }

  lemma FirstFormatted(pieces: seq<Piece>, ref: ArgRef, spec: string)
    requires pieces != [] && pieces[0] == Formatted(ref, spec) && ValidPieces(pieces)
    ensures Render(pieces) == "{" + RenderRef(ref) + [':'] + AfterColon(pieces)
    ensures ValidRef(ref) && ValidPieces(pieces[1..])
  {
    hide RenderRef, ValidRef;
    Regroup("{" + RenderRef(ref), ":", spec, "}", Render(pieces[1..]));
  }

  lemma Regroup(a: string, b: string, c: string, d: string, e: string)
    ensures a + b + c + d + e == a + b + (c + d + e)
  {
  }

  /** A printed field with specifiers asks for its id and then has its specifiers parsed. */
  lemma FieldOfFormatted<S>(h: Handler<S>, t: Trace<S>, fmt: string, p: nat, ref: ArgRef)
    requires ValidRef(ref) && p + |RenderRef(ref)| + 2 <= |fmt|
    requires fmt[p] == '{' && fmt[p + 1..p + 1 + |RenderRef(ref)|] == RenderRef(ref)
    requires fmt[p + 1 + |RenderRef(ref)|] == ':'
    ensures var (t1, id) := OnArgId(h, t, ref);
            Field(h, t, fmt, p) == if t1.stopped then (t1, |fmt|)
                                   else FieldWithSpecs(h, t1, id, fmt, p + 2 + |RenderRef(ref)|)
  {
    ArgIdReadBack(fmt, p + 1, ref);
    hide ArgIdAt, RenderRef, ValidRef, OnArgId, FieldWithSpecs;
  }

  lemma SpecsTaken<S>(h: Handler<S>, t: Trace<S>, id: int, fmt: string, i: nat, spec: string, rest: string)
    requires 0 < i <= |fmt| && fmt[i..] == spec + "}" + rest
    requires OnSpecs(h, t, id, fmt[i..]).0.stopped || OnSpecs(h, t, id, fmt[i..]).1 == |spec|
    ensures i + |spec| < |fmt| && fmt[i + |spec| + 1..] == rest
    ensures var t1 := OnSpecs(h, t, id, fmt[i..]).0;
            FieldWithSpecs(h, t, id, fmt, i) == if t1.stopped then (t1, |fmt|) else (t1, i + |spec| + 1)
  {
    hide OnSpecs;
    assert |fmt[i..]| == |spec| + 1 + |rest|;
    assert fmt[i + |spec|] == fmt[i..][|spec|] == '}';
    SliceOfTail(fmt, i, 0, |spec| + 1);
  }

  /** Running and playing a field with specifiers reach the same answers. */
  lemma SpecFieldsAgree<S>(h: Handler<S>, e: Trace<S>, u: Trace<S>, ref: ArgRef, rest: string)
    requires Agree(e, u)
    ensures OnArgId(h, e, ref).1 == OnArgId(h, u, ref).1
    ensures var id := OnArgId(h, u, ref).1;
            && Agree(OnArgId(h, e, ref).0, OnArgId(h, u, ref).0)
            && Agree(OnSpecs(h, OnArgId(h, e, ref).0, id, rest).0, OnSpecs(h, OnArgId(h, u, ref).0, id, rest).0)
            && OnSpecs(h, OnArgId(h, e, ref).0, id, rest).1 == OnSpecs(h, OnArgId(h, u, ref).0, id, rest).1
  {
    ArgIdAgrees(h, e, u, ref);
    hide OnArgId, OnSpecs, Agree;
    SpecsAgree(h, OnArgId(h, e, ref).0, OnArgId(h, u, ref).0, OnArgId(h, u, ref).1, rest);
  }

  lemma {:induction false} RunFormattedPiece<S>(h: Handler<S>, t: Trace<S>, fmt: string, begin: nat, p: nat,
                                                  u: Trace<S>, pieces: seq<Piece>, ref: ArgRef, spec: string)
    requires begin <= p <= |fmt| && fmt[p..] == Render(pieces) && ValidPieces(pieces)
    requires AgreeWith(t, fmt, begin, p, u) && TakesSpecs(h, u.state, pieces)
    requires pieces != [] && pieces[0] == Formatted(ref, spec)
    ensures Agree(Run(h, t, fmt, begin, p), Play(h, u, pieces))
    decreases |pieces|, 0
  {
    hide Run, Play, Render, RenderRef, ValidRef, ValidPieces, Agree, AgreeWith, OnArgId, OnSpecs, Field, Emit;
    hide TakesSpecs, FieldWithSpecs;
    var rest, colon := pieces[1..], p + 2 + |RenderRef(ref)|;
    FirstFormatted(pieces, ref, spec);
    PrintedField(fmt, p, ref, ':', AfterColon(pieces));
    EmitAgrees(t, fmt, begin, p, u);
    var e := Emit(t, fmt[begin..p]);
    FieldOfFormatted(h, e, fmt, p, ref);
    RunField(h, t, fmt, begin, p);
    PlayFormatted(h, u, pieces, ref, spec);
    SpecFieldsAgree(h, e, u, ref, AfterColon(pieces));
    var t1, u1, id := OnArgId(h, e, ref).0, OnArgId(h, u, ref).0, OnArgId(h, u, ref).1;
    var t2, u2 := OnSpecs(h, t1, id, AfterColon(pieces)).0, OnSpecs(h, u1, id, AfterColon(pieces)).0;
    SameStop(t1, u1);
    SameStop(t2, u2);
    if !t1.stopped {
      SpecsTaken(h, t1, id, fmt, colon, spec, Render(rest));
      if !t2.stopped {
        NothingPending(t2, fmt, colon + |spec| + 1, u2);
        RunPieces(h, t2, fmt, colon + |spec| + 1, colon + |spec| + 1, u2, rest);
      }
    }
  }

  /** Parsing the printed pieces does what the pieces say, for every handler that parses the
      specifiers it is given. */
  lemma ParsePrinted<S>(h: Handler<S>, t: Trace<S>, pieces: seq<Piece>)
    requires ValidPieces(pieces) && !t.stopped && TakesSpecs(h, t.state, pieces)
    ensures Agree(Parsed(h, t, Render(pieces)), Play(h, t, pieces))
  {
    var fmt := Render(pieces);
    assert fmt[0..] == fmt;
    assert fmt[0..0] == "";
    RunPieces(h, t, fmt, 0, 0, t, pieces);
  }

  /** Any text can be printed: with its braces doubled it comes out unchanged and nothing is
      asked of the handler. */
  lemma EscapedTextComesBack<S>(h: Handler<S>, t: Trace<S>, text: string)
    requires !t.stopped
    ensures Agree(Parsed(h, t, Escape(text)), Trace(t.events + [Text(text)], t.state, false))
  {
    var pieces := [Literal(text)];
    assert pieces[1..] == [];
    assert Render(pieces) == Escape(text) + "";
    assert Escape(text) + "" == Escape(text);
    assert Play(h, t, pieces) == OnText(t, text);
    ParsePrinted(h, t, pieces);
  }
}
