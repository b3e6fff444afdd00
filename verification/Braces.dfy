/**
 * The brace scanner (`nlq/chat.py`): it follows the depth of the open braces and passes over
 * string literals, escapes included.
 */
module Braces {
  import opened Facts

  // ----- The scanner

  /** The three variables of the loop. */
  datatype State = State(depth: int, inString: bool, escaped: bool)

  const START: State := State(0, false, false)

  /** One character, as the loop body treats it. */
  function Step(state: State, c: char): State {
    if state.inString then
      if state.escaped then state.(escaped := false)
      else if c == '\\' then state.(escaped := true)
      else if c == '"' then state.(inString := false)
      else state
    else if c == '"' then state.(inString := true)
    else if c == '{' then state.(depth := state.depth + 1)
    else if c == '}' then state.(depth := state.depth - 1)
    else state
  }

  /** The character at which the loop returns. */
  predicate Closes(state: State, c: char) {
    !state.inString && c == '}' && state.depth == 1
  }

  /** The loop stops after this many characters, or runs off the end. */
  datatype Outcome = Closed(length: nat) | Open(state: State)

  function Shift(outcome: Outcome, k: nat): Outcome {
    match outcome
    case Closed(n) => Closed(n + k)
    case Open(state) => outcome
  }

  function Scan(state: State, text: string): (r: Outcome)
    ensures r.Closed? ==> 0 < r.length <= |text|
    decreases |text|
  {
    if text == [] then Open(state)
    else if Closes(state, text[0]) then Closed(1)
    else Shift(Scan(Step(state, text[0]), text[1..]), 1)
  }

  lemma {:induction false} ScanConcat(state: State, a: string, b: string)
    ensures Scan(state, a + b) == match Scan(state, a) { case Closed(n) => Closed(n) case Open(t) => Shift(Scan(t,
          b), |a|) }
    decreases |a|
  {
    if a == [] {
      assert a + b == b;
    } else if !Closes(state, a[0]) {
      ScanConcat(Step(state, a[0]), a[1..], b);
      assert (a + b)[1..] == a[1..] + b;
    }
  }

  /** The text up to where the scan closes, nothing when it stays open. */
  ghost predicate IsBalancedAt(text: string, start: nat, span: string)
    requires start <= |text|
  {
    match Scan(START, text[start..])
    case Closed(n) => n <= |text| - start && span == text[start..start + n]
    case Open(_) => span == []
  }

  /** `_balanced_at`: the text from start up to where the scan closes, nothing when it does not. */
  method BalancedAt(text: string, start: nat) returns (span: string)
    requires start <= |text|
    ensures IsBalancedAt(text, start, span)
  {
    var state := START;
    for position := start to |text|
      invariant Scan(START, text[start..]) == Shift(Scan(state, text[position..]), position - start)
    {
      var c := text[position];
      assert text[position..][0] == c && text[position..][1..] == text[position + 1..];
      if Closes(state, c) {
        return text[start..position + 1];
      }
      state := Step(state, c);
    }
    return [];
  }

  // ----- What the scanner accepts, without a scanner

  /** Between braces: plain characters, string literals and groups of the same. */
  datatype Body =
    | End
    | Plain(c: char, rest: Body)
    | Quoted(units: seq<Unit>, rest: Body)
    | Group(inner: Body, rest: Body)

  /** Inside a literal: any character but a quote or a backslash, or an escape of any character. */
  datatype Unit = Bare(c: char) | Escape(c: char)

  predicate BareUnit(unit: Unit) {
    unit.Bare? ==> unit.c != '"' && unit.c != '\\'
  }

  function UnitText(unit: Unit): string {
    match unit
    case Bare(c) => [c]
    case Escape(c) => ['\\', c]
  }

  function UnitsText(units: seq<Unit>): string {
    if units == [] then [] else UnitText(units[0]) + UnitsText(units[1..])
  }

  predicate Proper(body: Body) {
    match body
    case End => true
    case Plain(c, rest) => c != '"' && c != '{' && c != '}' && Proper(rest)
    case Quoted(units, rest) => (forall i | 0 <= i < |units| :: BareUnit(units[i])) && Proper(rest)
    case Group(inner, rest) => Proper(inner) && Proper(rest)
  }

  function BodyText(body: Body): string {
    match body
    case End => []
    case Plain(c, rest) => [c] + BodyText(rest)
    case Quoted(units, rest) => "\"" + UnitsText(units) + "\"" + BodyText(rest)
    case Group(inner, rest) => "{" + BodyText(inner) + "}" + BodyText(rest)
  }

  function GroupText(body: Body): string {
    "{" + BodyText(body) + "}"
  }

  function Outside(depth: int): State {
    State(depth, false, false)
  }

  /** Text the scanner passes through inside braces, leaving its state as it was. */
  ghost predicate Neutral(text: string) {
    forall depth | depth >= 1 :: Scan(Outside(depth), text) == Open(Outside(depth))
  }

  lemma NeutralConcat(a: string, b: string)
    requires Neutral(a) && Neutral(b)
    ensures Neutral(a + b)
  {
    forall depth | depth >= 1 ensures Scan(Outside(depth), a + b) == Open(Outside(depth)) {
      ScanConcat(Outside(depth), a, b);
    }
  }

  /** No quote and no brace: nothing happens. */
  lemma {:induction false} NeutralPlain(text: string)
    requires '"' !in text && '{' !in text && '}' !in text
    ensures Neutral(text)
  {
    if text != [] {
      assert text[0] in text;
      NeutralPlain(text[1..]);
    }
  }

  lemma ScanOne(state: State, c: char, rest: string)
    requires !Closes(state, c)
    ensures Scan(state, [c] + rest) == Shift(Scan(Step(state, c), rest), 1)
  {
    assert ([c] + rest)[1..] == rest;
  }

  lemma {:induction false} ScanUnits(depth: int, units: seq<Unit>, rest: string)
    requires forall i | 0 <= i < |units| :: BareUnit(units[i])
    ensures Scan(State(depth, true, false), UnitsText(units) + rest)
         == Shift(Scan(State(depth, true, false), rest), |UnitsText(units)|)
    decreases |units|
  {
    var inside := State(depth, true, false);
    if units == [] {
      assert UnitsText(units) + rest == rest;
    } else {
      var more := UnitsText(units[1..]) + rest;
      ScanUnits(depth, units[1..], rest);
      assert UnitsText(units) + rest == UnitText(units[0]) + more;
      if units[0].Bare? {
        ScanOne(inside, units[0].c, more);
      } else {
        assert UnitText(units[0]) + more == ['\\'] + ([units[0].c] + more);
        ScanOne(inside, '\\', [units[0].c] + more);
        ScanOne(State(depth, true, true), units[0].c, more);
      }
    }
  }

  lemma NeutralQuoted(units: seq<Unit>)
    requires forall i | 0 <= i < |units| :: BareUnit(units[i])
    ensures Neutral("\"" + UnitsText(units) + "\"")
  {
    forall depth | depth >= 1
      ensures Scan(Outside(depth), "\"" + UnitsText(units) + "\"") == Open(Outside(depth))
    {
      var after := UnitsText(units) + "\"";
      assert "\"" + UnitsText(units) + "\"" == ['"'] + after;
      ScanOne(Outside(depth), '"', after);
      ScanUnits(depth, units, "\"");
      assert "\"" == ['"'] + [];
      ScanOne(State(depth, true, false), '"', []);
    }
  }

  /** Past the opening brace and the neutral text after it. */
  lemma ScanInner(depth: int, inner: string, after: string)
    requires Neutral(inner) && depth >= 0
    ensures Scan(Outside(depth), ['{'] + (inner + after)) == Shift(Scan(Outside(depth + 1), after), |inner| + 1)
  {
    ScanOne(Outside(depth), '{', inner + after);
    ScanConcat(Outside(depth + 1), inner, after);
  }

  lemma WrappedText(inner: string, rest: string)
    ensures "{" + inner + "}" + rest == ['{'] + (inner + (['}'] + rest))
  {}

  /** Braces around neutral text: entered, passed, left. */
  lemma ScanWrapped(depth: int, inner: string, rest: string)
    requires Neutral(inner) && depth >= 0
    ensures Scan(Outside(depth), "{" + inner + "}" + rest)
         == if depth == 0 then Closed(|inner| + 2) else Shift(Scan(Outside(depth), rest), |inner| + 2)
  {
    WrappedText(inner, rest);
    ScanInner(depth, inner, ['}'] + rest);
    if depth > 0 {
      ScanOne(Outside(depth + 1), '}', rest);
    }
  }

  lemma NeutralWrapped(inner: string)
    requires Neutral(inner)
    ensures Neutral("{" + inner + "}")
  {
    forall depth | depth >= 1 ensures Scan(Outside(depth), "{" + inner + "}") == Open(Outside(depth)) {
      assert "{" + inner + "}" + [] == "{" + inner + "}";
      ScanWrapped(depth, inner, []);
    }
  }

  lemma {:induction false} NeutralBody(body: Body)
    requires Proper(body)
    ensures Neutral(BodyText(body))
  {
    match body
    case End =>
    case Plain(c, rest) =>
      NeutralPlain([c]);
      NeutralBody(rest);
      NeutralConcat([c], BodyText(rest));
    case Quoted(units, rest) =>
      NeutralQuoted(units);
      NeutralBody(rest);
      NeutralConcat("\"" + UnitsText(units) + "\"", BodyText(rest));
    case Group(inner, rest) =>
      NeutralBody(inner);
      NeutralWrapped(BodyText(inner));
      NeutralBody(rest);
      NeutralConcat("{" + BodyText(inner) + "}", BodyText(rest));
  }

  /** A balanced group is returned whole, whatever follows it. */
  lemma GroupCloses(body: Body, rest: string)
    requires Proper(body)
    ensures Scan(START, GroupText(body) + rest) == Closed(|GroupText(body)|)
  {
    NeutralBody(body);
    ScanWrapped(0, BodyText(body), rest);
  }

  /** The text is the rest of a literal and its closing quote, and the scan goes on outside. */
  ghost predicate UnitsParsed(depth: int, text: string, n: int, units: seq<Unit>, tail: string) {
    && (forall i | 0 <= i < |units| :: BareUnit(units[i]))
    && text == UnitsText(units) + "\"" + tail
    && Rescan(depth, tail, n - |UnitsText(units)| - 1)
  }

  ghost predicate Rescan(depth: int, text: string, n: int) {
    n >= 0 && Scan(Outside(depth), text) == Closed(n)
  }

  lemma UnitsCons(depth: int, n: int, unit: Unit, more: seq<Unit>, text: string, tail: string)
    requires BareUnit(unit) && UnitsParsed(depth, text, n, more, tail)
    ensures UnitsParsed(depth, UnitText(unit) + text, |UnitText(unit)| + n, [unit] + more, tail)
  {
    assert ([unit] + more)[1..] == more;
    assert UnitText(unit) + (UnitsText(more) + "\"" + tail) == UnitText(unit) + UnitsText(more) + "\"" + tail;
  }

  /** A literal the scanner leaves again was a literal. */
  lemma {:induction false} ParseUnits(depth: int, text: string, n: nat) returns (units: seq<Unit>, tail: string)
    requires Scan(State(depth, true, false), text) == Closed(n)
    ensures UnitsParsed(depth, text, n, units, tail)
    decreases |text|
  {
    if text[0] == '"' {
      units, tail := [], text[1..];
    } else if text[0] == '\\' {
      assert text[1..] != [];
      assert text[2..] == text[1..][1..];
      units, tail := ParseUnits(depth, text[2..], n - 2);
      UnitsCons(depth, n - 2, Escape(text[1]), units, text[2..], tail);
      assert text == UnitText(Escape(text[1])) + text[2..];
      units := [Escape(text[1])] + units;
    } else {
      units, tail := ParseUnits(depth, text[1..], n - 1);
      UnitsCons(depth, n - 1, Bare(text[0]), units, text[1..], tail);
      assert text == UnitText(Bare(text[0])) + text[1..];
      units := [Bare(text[0])] + units;
    }
  }

  /** The text is a body and the brace that ends it, and the scan goes on one level up. */
  ghost predicate Parsed(depth: int, text: string, n: int, body: Body, tail: string) {
    && Proper(body)
    && text == BodyText(body) + "}" + tail
    && if depth == 1 then n == |BodyText(body)| + 1 else Rescan(depth - 1, tail, n - |BodyText(body)| - 1)
  }

  lemma ParsedCons(depth: int, n: int, head: string, rest: Body, body: Body, text: string, tail: string)
    requires Parsed(depth, text, n, rest, tail)
    requires Proper(body) && BodyText(body) == head + BodyText(rest)
    ensures Parsed(depth, head + text, |head| + n, body, tail)
  {
    assert head + (BodyText(rest) + "}" + tail) == head + BodyText(rest) + "}" + tail;
  }

  lemma ParsedEnd(depth: int, text: string, n: nat)
    requires depth >= 1 && Scan(Outside(depth), text) == Closed(n) && text[0] == '}'
    ensures Parsed(depth, text, n, End, text[1..])
  {
    assert text == "}" + text[1..];
  }

  /** A scan that closes from some depth first reads a body and the brace that ends it. */
  lemma {:induction false} ParseBody(depth: int, text: string, n: nat) returns (body: Body, tail: string)
    requires depth >= 1 && Scan(Outside(depth), text) == Closed(n)
    ensures Parsed(depth, text, n, body, tail)
    decreases |text|, 1
  {
    var c := text[0];
    if c == '}' {
      ParsedEnd(depth, text, n);
      body, tail := End, text[1..];
    } else if c == '"' {
      body, tail := ParseQuoted(depth, text, n);
    } else if c == '{' {
      body, tail := ParseGroup(depth, text, n);
    } else {
      body, tail := ParsePlain(depth, text, n);
    }
  }

  lemma {:induction false} ParsePlain(depth: int, text: string, n: nat) returns (body: Body, tail: string)
    requires depth >= 1 && Scan(Outside(depth), text) == Closed(n)
    requires text[0] != '"' && text[0] != '{' && text[0] != '}'
    ensures Parsed(depth, text, n, body, tail)
    decreases |text|, 0
  {
    var c := text[0];
    var rest;
    rest, tail := ParseBody(depth, text[1..], n - 1);
    body := Plain(c, rest);
    ParsedCons(depth, n - 1, [c], rest, body, text[1..], tail);
    assert text == [c] + text[1..];
  }

  lemma {:induction false} ParseQuoted(depth: int, text: string, n: nat) returns (body: Body, tail: string)
    requires depth >= 1 && Scan(Outside(depth), text) == Closed(n) && text[0] == '"'
    ensures Parsed(depth, text, n, body, tail)
    decreases |text|, 0
  {
    var units, after := ParseUnits(depth, text[1..], n - 1);
    var head := "\"" + UnitsText(units) + "\"";
    assert text == head + after;
    body, tail := ParseBody(depth, after, n - |head|);
    ParsedCons(depth, n - |head|, head, body, Quoted(units, body), after, tail);
    body := Quoted(units, body);
  }

  lemma {:induction false} ParseGroup(depth: int, text: string, n: nat) returns (body: Body, tail: string)
    requires depth >= 1 && Scan(Outside(depth), text) == Closed(n) && text[0] == '{'
    ensures Parsed(depth, text, n, body, tail)
    decreases |text|, 0
  {
    var inner, after := ParseBody(depth + 1, text[1..], n - 1);
    var head := "{" + BodyText(inner) + "}";
    assert text == head + after;
    body, tail := ParseBody(depth, after, n - |head|);
    ParsedCons(depth, n - |head|, head, body, Group(inner, body), after, tail);
    body := Group(inner, body);
  }

  lemma ClosedIsGroup(text: string, n: nat) returns (body: Body)
    requires n <= |text| && text != [] && text[0] == '{' && Scan(START, text) == Closed(n)
    ensures Proper(body) && GroupText(body) == text[..n]
  {
    var tail;
    body, tail := ParseBody(1, text[1..], n - 1);
    assert text == ['{'] + text[1..];
    assert text == GroupText(body) + tail;
  }

  lemma GroupIsClosed(text: string, n: nat, body: Body)
    requires n <= |text| && Proper(body) && GroupText(body) == text[..n]
    ensures Scan(START, text) == Closed(n)
  {
    assert text == GroupText(body) + text[n..];
    GroupCloses(body, text[n..]);
  }

  /**
   * At an opening brace the scanner closes after n characters exactly when those n characters
   * are a balanced group.
   */
  lemma ClosesExactlyOnGroups(text: string, n: nat)
    requires n <= |text| && text != [] && text[0] == '{'
    ensures Scan(START, text) == Closed(n) <==> exists body :: Proper(body) && GroupText(body) == text[..n]
  {
    if Scan(START, text) == Closed(n) {
      var body := ClosedIsGroup(text, n);
    }
    if body :| Proper(body) && GroupText(body) == text[..n] {
      GroupIsClosed(text, n, body);
    }
  }

  // ----- `_braced`

  datatype Span = Span(start: nat, text: string)

  /** Every balanced group, outermost first, in order: `rest` is the text from `offset` on. */
  function Spans(rest: string, offset: nat): seq<Span>
    decreases |rest|
  {
    if rest == [] then []
    else if rest[0] != '{' then Spans(rest[1..], offset + 1)
    else
      match Scan(START, rest)
      case Closed(n) => [Span(offset, rest[..n])] + Spans(rest[n..], offset + n)
      case Open(_) => Spans(rest[1..], offset + 1)
  }

  function Texts(spans: seq<Span>): (r: seq<string>)
    ensures |r| == |spans| && forall i | 0 <= i < |r| :: r[i] == spans[i].text
  {
    if spans == [] then [] else [spans[0].text] + Texts(spans[1..])
  }

  lemma {:induction false} TextsConcat(a: seq<Span>, b: seq<Span>)
    ensures Texts(a + b) == Texts(a) + Texts(b)
  {
    if a == [] {
      assert a + b == b;
    } else {
      assert (a + b)[1..] == a[1..] + b;
      TextsConcat(a[1..], b);
    }
  }

  lemma TextsAppend(spans: seq<Span>, one: Span)
    ensures Texts(spans + [one]) == Texts(spans) + [one.text]
  {
    TextsConcat(spans, [one]);
  }

  /** `text.find("{", position)`. */
  function FindBrace(text: string, position: nat): (r: Option<nat>)
    requires position <= |text|
    ensures r.None? ==> forall i | position <= i < |text| :: text[i] != '{'
    ensures r.Some? ==> position <= r.value < |text| && text[r.value] == '{'
                        && forall i | position <= i < r.value :: text[i] != '{'
    decreases |text| - position
  {
    if position == |text| then None
    else if text[position] == '{' then Some(position)
    else FindBrace(text, position + 1)
  }

  lemma {:induction false} ProseHoldsNoSpan(prose: string, rest: string, offset: nat)
    requires '{' !in prose
    ensures Spans(prose + rest, offset) == Spans(rest, offset + |prose|)
    decreases |prose|
  {
    if prose == [] {
      assert prose + rest == rest;
    } else {
      assert prose[0] in prose && (prose + rest)[1..] == prose[1..] + rest;
      ProseHoldsNoSpan(prose[1..], rest, offset + 1);
    }
  }

  lemma ConcatAssociates<T>(x: seq<T>, y: seq<T>, z: seq<T>)
    ensures x + y + z == x + (y + z)
  {}

  lemma SpansPastChar(text: string, position: nat)
    requires position < |text| && text[position] != '{'
    ensures Spans(text[position..], position) == Spans(text[position + 1..], position + 1)
  {
    assert text[position..][1..] == text[position + 1..];
  }

  lemma {:induction false} NextSpan(text: string, position: nat, start: nat)
    requires position <= start <= |text| && forall i | position <= i < start :: text[i] != '{'
    ensures Spans(text[position..], position) == Spans(text[start..], start)
    decreases start - position
  {
    if position < start {
      SpansPastChar(text, position);
      NextSpan(text, position + 1, start);
    }
  }

  /** One turn of the loop at a brace: past the group, or past the brace. */
  lemma SpanAt(text: string, start: nat)
    requires start < |text| && text[start] == '{'
    ensures match Scan(START, text[start..])
            case Closed(n) => Spans(text[start..], start)
                  == [Span(start, text[start..start + n])] + Spans(text[start + n..], start + n)
            case Open(_) => Spans(text[start..], start) == Spans(text[start + 1..], start + 1)
  {
    var rest := text[start..];
    assert rest[1..] == text[start + 1..];
    if Scan(START, rest).Closed? {
      var n := Scan(START, rest).length;
      assert rest[n..] == text[start + n..] && rest[..n] == text[start..start + n];
    }
  }

  /** What the loop has found so far, and what is left to walk. */
  ghost predicate Walked(text: string, spans: seq<Span>, position: nat) {
    position <= |text| && Spans(text, 0) == spans + Spans(text[position..], position)
  }

  lemma GroupSpan(text: string, position: nat, start: nat, n: nat)
    requires position <= start < |text| && text[start] == '{'
    requires forall i | position <= i < start :: text[i] != '{'
    requires Scan(START, text[start..]) == Closed(n)
    ensures n <= |text| - start
    ensures Spans(text[position..], position)
         == [Span(start, text[start..start + n])] + Spans(text[start + n..], start + n)
  {
    NextSpan(text, position, start);
    SpanAt(text, start);
  }

  lemma WalkedGroup(text: string, spans: seq<Span>, position: nat, start: nat, n: nat)
    requires Walked(text, spans, position) && position <= start < |text| && text[start] == '{'
    requires forall i | position <= i < start :: text[i] != '{'
    requires Scan(START, text[start..]) == Closed(n)
    ensures Walked(text, spans + [Span(start, text[start..start + n])], start + n)
  {
    GroupSpan(text, position, start, n);
    ConcatAssociates(spans, [Span(start, text[start..start + n])], Spans(text[start + n..], start + n));
  }

  lemma WalkedBrace(text: string, spans: seq<Span>, position: nat, start: nat)
    requires Walked(text, spans, position) && position <= start < |text| && text[start] == '{'
    requires forall i | position <= i < start :: text[i] != '{'
    requires Scan(START, text[start..]).Open?
    ensures Walked(text, spans, start + 1)
  {
    NextSpan(text, position, start);
    SpanAt(text, start);
  }

  lemma WalkedAll(text: string, spans: seq<Span>, position: nat)
    requires Walked(text, spans, position) && forall i | position <= i < |text| :: text[i] != '{'
    ensures Spans(text, 0) == spans
  {
    NextSpan(text, position, |text|);
  }

  lemma WalkedNothing(text: string)
    ensures Walked(text, [], 0) && Texts([]) == []
  {
    assert text[0..] == text;
  }

  /** Past a group that closed, or past a brace that did not. */
  lemma WalkedOn(text: string, spans: seq<Span>, position: nat, start: nat, span: string)
    requires Walked(text, spans, position) && position <= start < |text| && text[start] == '{'
    requires forall i | position <= i < start :: text[i] != '{'
    requires IsBalancedAt(text, start, span)
    ensures span != [] ==> Walked(text, spans + [Span(start, span)], start + |span|)
    ensures span == [] ==> Walked(text, spans, start + 1)
  {
    if span != [] {
      WalkedGroup(text, spans, position, start, |span|);
    } else {
      WalkedBrace(text, spans, position, start);
    }
  }

  method Braced(text: string) returns (found: seq<string>)
    ensures found == Texts(Spans(text, 0))
  {
    found := [];
    var position := 0;
    ghost var spans: seq<Span> := [];
    WalkedNothing(text);
    while true
      invariant found == Texts(spans)
      invariant Walked(text, spans, position)
      decreases |text| - position
    {
      var start := FindBrace(text, position);
      if start.None? {
        WalkedAll(text, spans, position);
        return;
      }
      var span := BalancedAt(text, start.value);
      WalkedOn(text, spans, position, start.value, span);
      if span != [] {
        TextsAppend(spans, Span(start.value, span));
        spans := spans + [Span(start.value, span)];
        found := found + [span];
        position := start.value + |span|;
      } else {
        position := start.value + 1;
      }
    }
  }
}
