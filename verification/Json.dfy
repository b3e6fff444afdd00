/**
 * JSON texts as RFC 8259 writes them (sections 2 to 7), blanks and escapes included, and what
 * the brace scanner makes of them.
 */
module Json {
  import opened Facts
  import opened Braces

  // ----- Concrete syntax

  datatype Value =
    | Word(text: string)
    | Number(minus: bool, whole: string, fraction: Option<string>, exponent: Option<Exponent>)
    | Text(units: seq<Char>)
    | Array(blank: string, elements: Elements)
    | Object(blank: string, members: Members)

  datatype Exponent = Exponent(mark: char, sign: string, digits: string)

  datatype Elements = NoElement | Element(before: string, value: Value, after: string, rest: Elements)

  datatype Members = NoMember | Member(before: string, name: seq<Char>, middle: string, gap: string, value: Value,
                                       after: string, rest: Members)

  /** One character of a string, as section 7 lets it be written. */
  datatype Char = Unescaped(c: char) | Short(c: char) | Hex(a: char, b: char, c: char, d: char)

  predicate IsBlank(text: string) {
    forall i | 0 <= i < |text| :: text[i] == ' ' || text[i] == '\t' || text[i] == '\n' || text[i] == '\r'
  }

  predicate IsDigit(c: char) { '0' <= c <= '9' }

  predicate IsHexDigit(c: char) { IsDigit(c) || 'a' <= c <= 'f' || 'A' <= c <= 'F' }

  predicate AreDigits(text: string) {
    text != [] && forall i | 0 <= i < |text| :: IsDigit(text[i])
  }

  predicate IsChar(unit: Char) {
    match unit
    case Unescaped(c) => c >= ' ' && c != '"' && c != '\\'
    case Short(c) => c in "\"\\/bfnrt"
    case Hex(a, b, c, d) => IsHexDigit(a) && IsHexDigit(b) && IsHexDigit(c) && IsHexDigit(d)
  }

  predicate AreChars(units: seq<Char>) {
    forall i | 0 <= i < |units| :: IsChar(units[i])
  }

  predicate IsExponent(exponent: Exponent) {
    (exponent.mark == 'e' || exponent.mark == 'E')
    && (exponent.sign == "" || exponent.sign == "+" || exponent.sign == "-")
    && AreDigits(exponent.digits)
  }

  predicate Valid(value: Value) {
    match value
    case Word(text) => text == "false" || text == "null" || text == "true"
    case Number(_, whole, fraction, exponent) =>
      && AreDigits(whole) && (whole[0] == '0' ==> |whole| == 1)
      && (fraction.Some? ==> AreDigits(fraction.value))
      && (exponent.Some? ==> IsExponent(exponent.value))
    case Text(units) => AreChars(units)
    case Array(blank, elements) => IsBlank(blank) && ValidElements(elements)
    case Object(blank, members) => IsBlank(blank) && ValidMembers(members)
  }

  predicate ValidElements(elements: Elements) {
    match elements
    case NoElement => true
    case Element(before, value, after, rest) => IsBlank(before) && Valid(value) && IsBlank(after) && ValidElements(rest)
  }

  predicate ValidMembers(members: Members) {
    match members
    case NoMember => true
    case Member(before, name, middle, gap, value, after, rest) =>
      && IsBlank(before) && AreChars(name) && IsBlank(middle) && IsBlank(gap)
      && Valid(value) && IsBlank(after) && ValidMembers(rest)
  }

  // ----- The printer

  function CharText(unit: Char): string {
    match unit
    case Unescaped(c) => [c]
    case Short(c) => ['\\', c]
    case Hex(a, b, c, d) => ['\\', 'u', a, b, c, d]
  }

  function CharsText(units: seq<Char>): string {
    if units == [] then [] else CharText(units[0]) + CharsText(units[1..])
  }

  function StringText(units: seq<Char>): string {
    "\"" + CharsText(units) + "\""
  }

  function NumberText(minus: bool, whole: string, fraction: Option<string>, exponent: Option<Exponent>): string {
    (if minus then "-" else "")
    + whole
    + (if fraction.Some? then "." + fraction.value else "")
    + (if exponent.Some? then [exponent.value.mark] + exponent.value.sign + exponent.value.digits else "")
  }

  function Print(value: Value): string {
    match value
    case Word(text) => text
    case Number(minus, whole, fraction, exponent) => NumberText(minus, whole, fraction, exponent)
    case Text(units) => StringText(units)
    case Array(blank, elements) => "[" + (if elements.NoElement? then blank else PrintElements(elements)) + "]"
    case Object(blank, members) => "{" + ObjectInner(blank, members) + "}"
  }

  function ObjectInner(blank: string, members: Members): string
    decreases members, 1
  {
    if members.NoMember? then blank else PrintMembers(members)
  }

  function PrintElements(elements: Elements): string {
    match elements
    case NoElement => []
    case Element(before, value, after, rest) =>
      before + Print(value) + after + (if rest.NoElement? then "" else "," + PrintElements(rest))
  }

  function PrintMembers(members: Members): string
    decreases members, 0
  {
    match members
    case NoMember => []
    case Member(before, name, middle, gap, value, after, rest) =>
      before + StringText(name) + middle + ":" + gap + Print(value) + after
      + (if rest.NoMember? then "" else "," + PrintMembers(rest))
  }

  // ----- Every value passes through the scanner

  function AsUnits(unit: Char): seq<Unit> {
    match unit
    case Unescaped(c) => [Bare(c)]
    case Short(c) => [Escape(c)]
    case Hex(a, b, c, d) => [Escape('u'), Bare(a), Bare(b), Bare(c), Bare(d)]
  }

  lemma {:induction false} UnitsTextConcat(a: seq<Unit>, b: seq<Unit>)
    ensures UnitsText(a + b) == UnitsText(a) + UnitsText(b)
  {
    if a == [] {
      assert a + b == b;
    } else {
      assert (a + b)[1..] == a[1..] + b;
      UnitsTextConcat(a[1..], b);
    }
  }

  lemma {:induction false} BaresText(units: seq<Unit>, text: string)
    requires |units| == |text| && forall i | 0 <= i < |units| :: units[i] == Bare(text[i])
    ensures UnitsText(units) == text
    decreases |units|
  {
    if units != [] {
      BaresText(units[1..], text[1..]);
      assert text == [text[0]] + text[1..];
    }
  }

  lemma CharAsUnits(unit: Char)
    requires IsChar(unit)
    ensures UnitsText(AsUnits(unit)) == CharText(unit)
    ensures forall i | 0 <= i < |AsUnits(unit)| :: BareUnit(AsUnits(unit)[i])
  {
    match unit
    case Unescaped(c) => BaresText([Bare(c)], [c]);
    case Short(c) => assert UnitsText([Escape(c)][1..]) == [];
    case Hex(a, b, c, d) =>
      BaresText([Bare(a), Bare(b), Bare(c), Bare(d)], [a, b, c, d]);
      UnitsTextConcat([Escape('u')], [Bare(a), Bare(b), Bare(c), Bare(d)]);
      assert UnitsText([Escape('u')][1..]) == [];
      assert [Escape('u')] + [Bare(a), Bare(b), Bare(c), Bare(d)] == AsUnits(unit);
  }

  lemma {:induction false} CharsAsUnits(units: seq<Char>) returns (scanned: seq<Unit>)
    requires AreChars(units)
    ensures UnitsText(scanned) == CharsText(units)
    ensures forall i | 0 <= i < |scanned| :: BareUnit(scanned[i])
    decreases |units|
  {
    if units == [] {
      scanned := [];
    } else {
      var rest := CharsAsUnits(units[1..]);
      CharAsUnits(units[0]);
      UnitsTextConcat(AsUnits(units[0]), rest);
      scanned := AsUnits(units[0]) + rest;
    }
  }

  lemma StringNeutral(units: seq<Char>)
    requires AreChars(units)
    ensures Neutral(StringText(units))
  {
    var scanned := CharsAsUnits(units);
    NeutralQuoted(scanned);
  }

  lemma BlankNeutral(text: string)
    requires IsBlank(text)
    ensures Neutral(text)
  {
    NeutralPlain(text);
  }

  lemma NumberNeutral(minus: bool, whole: string, fraction: Option<string>, exponent: Option<Exponent>)
    requires Valid(Number(minus, whole, fraction, exponent))
    ensures Neutral(NumberText(minus, whole, fraction, exponent))
  {
    NeutralPlain(if minus then "-" else "");
    NeutralPlain(whole);
    var point := if fraction.Some? then "." + fraction.value else "";
    NeutralPlain(point);
    NeutralConcat(if minus then "-" else "", whole);
    NeutralConcat((if minus then "-" else "") + whole, point);
    if exponent.Some? {
      NeutralPlain([exponent.value.mark] + exponent.value.sign + exponent.value.digits);
      NeutralConcat((if minus then "-" else "") + whole + point,
                    [exponent.value.mark] + exponent.value.sign + exponent.value.digits);
    } else {
      NeutralPlain("");
      NeutralConcat((if minus then "-" else "") + whole + point, "");
    }
  }

  /** A JSON value leaves the scanner as it found it, braces and quotes inside strings included. */
  lemma {:induction false} ValueNeutral(value: Value)
    requires Valid(value)
    ensures Neutral(Print(value))
    decreases value
  {
    match value
    case Word(text) => NeutralPlain(text);
    case Number(minus, whole, fraction, exponent) => NumberNeutral(minus, whole, fraction, exponent);
    case Text(units) => StringNeutral(units);
    case Array(blank, elements) =>
      var inner := if elements.NoElement? then blank else PrintElements(elements);
      BlankNeutral(blank);
      ElementsNeutral(elements);
      NeutralPlain("[");
      NeutralPlain("]");
      NeutralConcat("[", inner);
      NeutralConcat("[" + inner, "]");
    case Object(blank, members) =>
      BlankNeutral(blank);
      MembersNeutral(members);
      NeutralWrapped(ObjectInner(blank, members));
  }

  lemma {:induction false} ElementsNeutral(elements: Elements)
    requires ValidElements(elements)
    ensures Neutral(PrintElements(elements))
    decreases elements
  {
    match elements
    case NoElement => NeutralPlain("");
    case Element(before, value, after, rest) =>
      BlankNeutral(before);
      ValueNeutral(value);
      BlankNeutral(after);
      ElementsNeutral(rest);
      NeutralConcat(before, Print(value));
      NeutralConcat(before + Print(value), after);
      NeutralPlain(",");
      NeutralPlain("");
      NeutralConcat(",", PrintElements(rest));
      NeutralConcat(before + Print(value) + after, if rest.NoElement? then "" else "," + PrintElements(rest));
  }

  /** The name, the colon and the blanks around them. */
  lemma NameNeutral(before: string, name: seq<Char>, middle: string, gap: string)
    requires IsBlank(before) && AreChars(name) && IsBlank(middle) && IsBlank(gap)
    ensures Neutral(before + StringText(name) + middle + ":" + gap)
  {
    BlankNeutral(before);
    StringNeutral(name);
    BlankNeutral(middle);
    NeutralPlain(":");
    BlankNeutral(gap);
    NeutralConcat(before, StringText(name));
    NeutralConcat(before + StringText(name), middle);
    NeutralConcat(before + StringText(name) + middle, ":");
    NeutralConcat(before + StringText(name) + middle + ":", gap);
  }

  lemma {:induction false} MembersNeutral(members: Members)
    requires ValidMembers(members)
    ensures Neutral(PrintMembers(members))
    decreases members
  {
    match members
    case NoMember => NeutralPlain("");
    case Member(before, name, middle, gap, value, after, rest) =>
      var head := before + StringText(name) + middle + ":" + gap;
      NameNeutral(before, name, middle, gap);
      ValueNeutral(value);
      BlankNeutral(after);
      MembersNeutral(rest);
      NeutralConcat(head, Print(value));
      NeutralConcat(head + Print(value), after);
      NeutralPlain(",");
      NeutralPlain("");
      NeutralConcat(",", PrintMembers(rest));
      NeutralConcat(head + Print(value) + after, if rest.NoMember? then "" else "," + PrintMembers(rest));
  }

  /** At its opening brace the scanner returns the printed object, whatever follows it. */
  lemma ObjectReturned(value: Value, rest: string)
    requires Valid(value) && value.Object?
    ensures Scan(START, Print(value) + rest) == Closed(|Print(value)|)
  {
    BlankNeutral(value.blank);
    MembersNeutral(value.members);
    ScanWrapped(0, ObjectInner(value.blank, value.members), rest);
  }

  // ----- The list of candidates

  /** The span lies in the text and is what the scanner returns where it starts. */
  ghost predicate Lies(span: Span, rest: string, offset: nat) {
    && offset <= span.start <= offset + |rest|
    && span.text <= rest[span.start - offset..]
    && Scan(START, rest[span.start - offset..]) == Closed(|span.text|)
  }

  ghost predicate AllLie(spans: seq<Span>, rest: string, offset: nat) {
    forall i | 0 <= i < |spans| :: Lies(spans[i], rest, offset)
  }

  /** In order and apart. */
  ghost predicate Apart(spans: seq<Span>, offset: nat) {
    && (forall i | 0 <= i < |spans| :: offset <= spans[i].start)
    && (forall i, j | 0 <= i < j < |spans| :: spans[i].start + |spans[i].text| <= spans[j].start)
  }

  lemma LiesLater(span: Span, rest: string, offset: nat, k: nat)
    requires k <= |rest| && Lies(span, rest[k..], offset + k)
    ensures Lies(span, rest, offset)
  {
    assert rest[k..][span.start - offset - k..] == rest[span.start - offset..];
  }

  predicate OpensGroup(text: string) {
    text != [] && text[0] == '{' && Scan(START, text).Closed?
  }

  lemma SpansOfGroup(rest: string, offset: nat, n: nat)
    requires OpensGroup(rest) && Scan(START, rest) == Closed(n)
    ensures Spans(rest, offset) == [Span(offset, rest[..n])] + Spans(rest[n..], offset + n)
  {}

  lemma SpansPastOther(rest: string, offset: nat)
    requires rest != [] && !OpensGroup(rest)
    ensures Spans(rest, offset) == Spans(rest[1..], offset + 1)
  {}

  ghost predicate InOrder(spans: seq<Span>, rest: string, offset: nat) {
    AllLie(spans, rest, offset) && Apart(spans, offset)
  }

  lemma InOrderLater(spans: seq<Span>, rest: string, offset: nat, k: nat)
    requires k <= |rest| && InOrder(spans, rest[k..], offset + k)
    ensures InOrder(spans, rest, offset)
  {
    forall i | 0 <= i < |spans| ensures Lies(spans[i], rest, offset) {
      LiesLater(spans[i], rest, offset, k);
    }
  }

  lemma LiesFirst(rest: string, offset: nat, n: nat)
    requires n <= |rest| && Scan(START, rest) == Closed(n)
    ensures Lies(Span(offset, rest[..n]), rest, offset)
  {
    assert rest[0..] == rest;
  }

  lemma ApartCons(first: Span, later: seq<Span>, offset: nat)
    requires first.start == offset && Apart(later, offset + |first.text|)
    ensures Apart([first] + later, offset)
  {}

  lemma AllLieCons(first: Span, later: seq<Span>, rest: string, offset: nat)
    requires Lies(first, rest, offset) && AllLie(later, rest, offset)
    ensures AllLie([first] + later, rest, offset)
  {
    var all := [first] + later;
    forall i | 0 <= i < |all| ensures Lies(all[i], rest, offset) {
      assert all[i] == if i == 0 then first else later[i - 1];
    }
  }

  /** Spans come in order, apart, inside the text, and each is what the scanner returns where it starts. */
  lemma {:induction false} SpansInOrder(rest: string, offset: nat)
    ensures InOrder(Spans(rest, offset), rest, offset)
    decreases |rest|
  {
    if OpensGroup(rest) {
      var n := Scan(START, rest).length;
      var later := Spans(rest[n..], offset + n);
      SpansOfGroup(rest, offset, n);
      SpansInOrder(rest[n..], offset + n);
      InOrderLater(later, rest, offset, n);
      LiesFirst(rest, offset, n);
      AllLieCons(Span(offset, rest[..n]), later, rest, offset);
      ApartCons(Span(offset, rest[..n]), later, offset);
    } else if rest != [] {
      SpansPastOther(rest, offset);
      SpansInOrder(rest[1..], offset + 1);
      InOrderLater(Spans(rest[1..], offset + 1), rest, offset, 1);
    }
  }

  ghost predicate Starts(spans: seq<Span>, at: nat) {
    exists i :: 0 <= i < |spans| && spans[i].start == at
  }

  ghost predicate Swallows(spans: seq<Span>, at: nat) {
    exists i :: 0 <= i < |spans| && spans[i].start < at < spans[i].start + |spans[i].text|
  }

  lemma StartsLater(first: Span, spans: seq<Span>, at: nat)
    ensures Starts(spans, at) ==> Starts([first] + spans, at)
    ensures Swallows(spans, at) ==> Swallows([first] + spans, at)
    ensures first.start == at ==> Starts([first] + spans, at)
    ensures first.start < at < first.start + |first.text| ==> Swallows([first] + spans, at)
  {
    var all := [first] + spans;
    assert all[0] == first;
    assert forall i | 0 <= i < |spans| :: all[i + 1] == spans[i];
  }

  ghost predicate Covered(spans: seq<Span>, at: nat) {
    Starts(spans, at) || Swallows(spans, at)
  }

  lemma CoveredByFirst(rest: string, offset: nat, n: nat, at: nat)
    requires n <= |rest| && offset <= at
    requires at < offset + n || Covered(Spans(rest[n..], offset + n), at)
    ensures Covered([Span(offset, rest[..n])] + Spans(rest[n..], offset + n), at)
  {
    StartsLater(Span(offset, rest[..n]), Spans(rest[n..], offset + n), at);
  }

  /** No group is missed: a brace that closes starts a span or lies inside one. */
  lemma {:induction false} NoneMissed(rest: string, offset: nat, k: nat)
    requires k < |rest| && OpensGroup(rest[k..])
    ensures Covered(Spans(rest, offset), offset + k)
    decreases |rest|
  {
    if OpensGroup(rest) {
      var n := Scan(START, rest).length;
      SpansOfGroup(rest, offset, n);
      if k >= n {
        assert rest[n..][k - n..] == rest[k..];
        NoneMissed(rest[n..], offset + n, k - n);
      }
      CoveredByFirst(rest, offset, n, offset + k);
    } else {
      assert k > 0 by {
        assert rest[0..] == rest;
      }
      SpansPastOther(rest, offset);
      assert rest[1..][k - 1..] == rest[k..];
      NoneMissed(rest[1..], offset + 1, k - 1);
    }
  }

  /** A printed object anywhere in an answer is a candidate, unless a group opened before it swallows it. */
  lemma ObjectFoundOrSwallowed(before: string, value: Value, after: string)
    requires Valid(value) && value.Object?
    ensures var spans := Spans(before + Print(value) + after, 0);
            Span(|before|, Print(value)) in spans <==> !Swallows(spans, |before|)
  {
    var text := before + Print(value) + after;
    var spans := Spans(text, 0);
    assert text[|before|..] == Print(value) + after;
    ObjectReturned(value, after);
    NoneMissed(text, 0, |before|);
    SpansInOrder(text, 0);
    if Starts(spans, |before|) {
      var i :| 0 <= i < |spans| && spans[i].start == |before|;
      assert Lies(spans[i], text, 0);
      assert spans[i].text == (Print(value) + after)[..|Print(value)|];
      assert spans[i] in spans;
    }
  }

  /** What may stand before the object: prose without an opening brace, and asides in braces. */
  datatype Chunk = Prose(text: string) | Aside(body: Body)

  predicate IsChunk(chunk: Chunk) {
    match chunk
    case Prose(text) => '{' !in text
    case Aside(body) => Proper(body)
  }

  function ChunkText(chunk: Chunk): string {
    match chunk
    case Prose(text) => text
    case Aside(body) => GroupText(body)
  }

  function ChunksText(chunks: seq<Chunk>): string {
    if chunks == [] then [] else ChunkText(chunks[0]) + ChunksText(chunks[1..])
  }

  /** What a chunk adds in front of the candidates after it. */
  function AsideOf(chunk: Chunk): seq<string> {
    if chunk.Aside? then [GroupText(chunk.body)] else []
  }

  function Asides(chunks: seq<Chunk>): seq<string> {
    if chunks == [] then []
    else AsideOf(chunks[0]) + Asides(chunks[1..])
  }

  lemma ObjectFirst(value: Value, after: string, offset: nat)
    requires Valid(value) && value.Object?
    ensures [Print(value)] <= Texts(Spans(Print(value) + after, offset))
  {
    var text := Print(value) + after;
    ObjectReturned(value, after);
    SpansOfGroup(text, offset, |Print(value)|);
    assert text[..|Print(value)|] == Print(value);
  }

  lemma AsideFirst(body: Body, rest: string, offset: nat)
    requires Proper(body)
    ensures Texts(Spans(GroupText(body) + rest, offset))
          == [GroupText(body)] + Texts(Spans(rest, offset + |GroupText(body)|))
  {
    var head := GroupText(body);
    var text := head + rest;
    GroupCloses(body, rest);
    SpansOfGroup(text, offset, |head|);
    assert text[..|head|] == head && text[|head|..] == rest;
    TextsConcat([Span(offset, head)], Spans(rest, offset + |head|));
  }

  lemma PrefixConcat<T>(head: seq<T>, a: seq<T>, b: seq<T>)
    requires a <= b
    ensures head + a <= head + b
  {}

  lemma ChunkFirst(chunk: Chunk, rest: string, offset: nat, offered: seq<string>)
    requires IsChunk(chunk) && offered <= Texts(Spans(rest, offset + |ChunkText(chunk)|))
    ensures AsideOf(chunk) + offered <= Texts(Spans(ChunkText(chunk) + rest, offset))
  {
    if chunk.Prose? {
      ProseHoldsNoSpan(chunk.text, rest, offset);
      assert [] + offered == offered;
    } else {
      AsideFirst(chunk.body, rest, offset);
      PrefixConcat(AsideOf(chunk), offered, Texts(Spans(rest, offset + |ChunkText(chunk)|)));
    }
  }

  lemma {:induction false} AsidesFirst(chunks: seq<Chunk>, text: string, printed: string, offset: nat)
    requires forall i | 0 <= i < |chunks| :: IsChunk(chunks[i])
    requires forall at: nat :: [printed] <= Texts(Spans(text, at))
    ensures Asides(chunks) + [printed] <= Texts(Spans(ChunksText(chunks) + text, offset))
    decreases |chunks|
  {
    if chunks == [] {
      assert [] + text == text && [] + [printed] == [printed];
    } else {
      var head := ChunkText(chunks[0]);
      AsidesFirst(chunks[1..], text, printed, offset + |head|);
      ChunkFirst(chunks[0], ChunksText(chunks[1..]) + text, offset, Asides(chunks[1..]) + [printed]);
      ConcatAssociates(head, ChunksText(chunks[1..]), text);
      ConcatAssociates(AsideOf(chunks[0]), Asides(chunks[1..]), [printed]);
    }
  }

  /** After any prose and asides, the asides come first and the object comes next. */
  lemma ObjectAfterAsides(chunks: seq<Chunk>, value: Value, after: string, offset: nat)
    requires (forall i | 0 <= i < |chunks| :: IsChunk(chunks[i])) && Valid(value) && value.Object?
    ensures Asides(chunks) + [Print(value)] <= Texts(Spans(ChunksText(chunks) + (Print(value) + after), offset))
  {
    forall at: nat ensures [Print(value)] <= Texts(Spans(Print(value) + after, at)) {
      ObjectFirst(value, after, at);
    }
    AsidesFirst(chunks, Print(value) + after, Print(value), offset);
  }

  // ----- `intent_json`

  /** Every reading worth trying, in order; empty ones are dropped. */
  function NonEmpty(found: seq<string>): (r: seq<string>) {
    if found == [] then []
    else (if found[0] == [] then [] else [found[0]]) + NonEmpty(found[1..])
  }

  /** `objectOf` is `json.loads` where it answers an object. */
  function FirstObject<O>(candidates: seq<string>, objectOf: string -> Option<O>): Option<O> {
    if candidates == [] then None
    else if objectOf(candidates[0]).Some? then objectOf(candidates[0])
    else FirstObject(candidates[1..], objectOf)
  }

  function Fenced(fence: Option<string>): seq<string> {
    match fence
    case None => []
    case Some(inner) => [inner]
  }

  /** The first candidate that is an object; `stripped` and `fence` are what the two expressions left. */
  method IntentJson<O>(text: string, stripped: string, fence: Option<string>, objectOf: string -> Option<O>)
    returns (meant: Option<O>)
    ensures meant == FirstObject(NonEmpty([text, stripped] + Fenced(fence) + Texts(Spans(stripped, 0))), objectOf)
  {
    var spans := Braced(stripped);
    var candidates := NonEmpty([text, stripped] + Fenced(fence) + spans);
    for i := 0 to |candidates|
      invariant FirstObject(candidates, objectOf) == FirstObject(candidates[i..], objectOf)
    {
      var parsed := objectOf(candidates[i]);
      if parsed.Some? {
        return parsed;
      }
      assert candidates[i..][1..] == candidates[i + 1..];
    }
    return None;
  }

  lemma {:induction false} FirstAmong<O>(candidates: seq<string>, objectOf: string -> Option<O>, k: nat)
    requires k < |candidates| && candidates[k] != [] && objectOf(candidates[k]).Some?
    requires forall i | 0 <= i < k :: objectOf(candidates[i]).None?
    ensures FirstObject(NonEmpty(candidates), objectOf) == objectOf(candidates[k])
    decreases k
  {
    if k > 0 {
      FirstAmong(candidates[1..], objectOf, k - 1);
      var rest := NonEmpty(candidates[1..]);
      if candidates[0] == [] {
        assert NonEmpty(candidates) == [] + rest == rest;
      } else {
        assert NonEmpty(candidates) == [candidates[0]] + rest;
        assert ([candidates[0]] + rest)[1..] == rest;
      }
    }
  }

  ghost predicate NoneHoldsObject<O>(candidates: seq<string>, objectOf: string -> Option<O>) {
    forall i | 0 <= i < |candidates| :: objectOf(candidates[i]).None?
  }

  /**
   * An answer that prefaces its object with prose and asides in braces is still read: the
   * object is returned as soon as no earlier candidate parses as one.
   */
  lemma PrefacedObjectIsRead<O>(text: string, chunks: seq<Chunk>, value: Value, after: string, fence: Option<string>,
                                objectOf: string -> Option<O>, stripped: string)
    requires (forall i | 0 <= i < |chunks| :: IsChunk(chunks[i])) && Valid(value) && value.Object?
    requires stripped == ChunksText(chunks) + (Print(value) + after)
    requires objectOf(Print(value)).Some?
    requires NoneHoldsObject([text, stripped] + Fenced(fence) + Asides(chunks), objectOf)
    ensures FirstObject(NonEmpty([text, stripped] + Fenced(fence) + Texts(Spans(stripped, 0))), objectOf)
         == objectOf(Print(value))
  {
    ObjectAfterAsides(chunks, value, after, 0);
    CandidateAfterPrefix([text, stripped] + Fenced(fence), Asides(chunks), Print(value), Texts(Spans(stripped, 0)),
          objectOf);
  }

  lemma CandidateAfterPrefix<O>(early: seq<string>, asides: seq<string>, printed: string, spans: seq<string>,
                                objectOf: string -> Option<O>)
    requires asides + [printed] <= spans && printed != [] && objectOf(printed).Some?
    requires NoneHoldsObject(early + asides, objectOf)
    ensures FirstObject(NonEmpty(early + spans), objectOf) == objectOf(printed)
  {
    var k := |early + asides|;
    assert spans[|asides|] == (asides + [printed])[|asides|];
    forall i | 0 <= i < k ensures (early + spans)[i] == (early + asides)[i] {
      if i >= |early| {
        assert spans[i - |early|] == (asides + [printed])[i - |early|];
      }
    }
    FirstAmong(early + spans, objectOf, k);
  }

  /** Nothing is returned exactly when no candidate of any length parses as an object. */
  lemma {:induction false} NothingMeant<O>(candidates: seq<string>, objectOf: string -> Option<O>)
    ensures FirstObject(NonEmpty(candidates), objectOf).None?
       <==> forall i | 0 <= i < |candidates| && candidates[i] != [] :: objectOf(candidates[i]).None?
  {
    if candidates != [] {
      var rest := NonEmpty(candidates[1..]);
      NothingMeant(candidates[1..], objectOf);
      assert forall i | 0 < i < |candidates| :: candidates[i] == candidates[1..][i - 1];
      if candidates[0] == [] {
        assert NonEmpty(candidates) == [] + rest == rest;
      } else {
        assert NonEmpty(candidates) == [candidates[0]] + rest;
        assert ([candidates[0]] + rest)[1..] == rest;
      }
    }
  }

  /** A fence is tried after the answer as it came and before any braces in it. */
  lemma FenceIsRead<O>(text: string, stripped: string, inner: string, objectOf: string -> Option<O>)
    requires inner != [] && objectOf(inner).Some? && objectOf(text).None? && objectOf(stripped).None?
    ensures FirstObject(NonEmpty([text, stripped] + Fenced(Some(inner)) + Texts(Spans(stripped, 0))), objectOf)
         == objectOf(inner)
  {
    var candidates := [text, stripped] + Fenced(Some(inner)) + Texts(Spans(stripped, 0));
    assert candidates[0] == text && candidates[1] == stripped && candidates[2] == inner;
    FirstAmong(candidates, objectOf, 2);
  }

  // ----- The grammar at work

  const WORDS: Elements :=
    Element("", Word("true"), "", Element("", Word("false"), "", Element("", Word("null"), "", NoElement)))

  const AMOUNT: Value := Number(true, "10", Some("5"), Some(Exponent('E', "-", "2")))

  const UNITS: seq<Char> := [Unescaped('a'), Short('n'), Hex('0', '0', 'e', 'F')]

  lemma WordsPrinted()
    ensures ValidElements(WORDS) && PrintElements(WORDS) == "true,false,null"
  {
    var last := Element("", Word("null"), "", NoElement);
    assert PrintElements(last) == "null";
    assert PrintElements(Element("", Word("false"), "", last)) == "false,null";
  }

  lemma AmountPrinted()
    ensures Valid(AMOUNT) && Print(AMOUNT) == "-10.5E-2"
  {}

  lemma UnitsPrinted()
    ensures AreChars(UNITS) && CharsText(UNITS) == "a\\n\\u00eF"
  {
    assert UNITS[1..] == [Short('n'), Hex('0', '0', 'e', 'F')];
    assert UNITS[1..][1..] == [Hex('0', '0', 'e', 'F')];
    assert CharsText(UNITS[1..][1..]) == "\\u00eF";
    assert CharsText(UNITS[1..]) == "\\n\\u00eF";
  }

  lemma RestPrinted()
    ensures ValidElements(Element("\t", Text(UNITS), "\n", WORDS))
    ensures PrintElements(Element("\t", Text(UNITS), "\n", WORDS))
         == "\t" + ("\"" + "a\\n\\u00eF" + "\"") + "\n" + ("," + "true,false,null")
  {
    WordsPrinted();
    UnitsPrinted();
  }

  /** A list with a number, a string and the three words, blanks between them. */
  lemma ListPrinted()
    ensures var value := Array("", Element(" ", AMOUNT, " ", Element("\t", Text(UNITS), "\n", WORDS)));
            && Valid(value)
            && Print(value)
            == "[" + (" " + "-10.5E-2" + " "
                      + ("," + ("\t" + ("\"" + "a\\n\\u00eF" + "\"") + "\n" + ("," + "true,false,null")))) + "]"
  {
    AmountPrinted();
    RestPrinted();
    var rest := Element("\t", Text(UNITS), "\n", WORDS);
    assert PrintElements(Element(" ", AMOUNT, " ", rest)) == " " + Print(AMOUNT) + " " + ("," + PrintElements(rest));
  }

  const EMPTY_MEMBER: Members := Member(" ", [Unescaped('b')], "", "", Object(" ", NoMember), "", NoMember)

  lemma MemberPrinted()
    ensures ValidMembers(EMPTY_MEMBER) && PrintMembers(EMPTY_MEMBER) == " \"b\":{ }"
  {
    assert CharsText([Unescaped('b')]) == "b";
    assert Print(Object(" ", NoMember)) == "{ }";
  }

  /** Two members of an object, one of them an empty list, one an empty object. */
  lemma ObjectPrinted()
    ensures var value := Object("", Member("", [Unescaped('a')], " ", " ", Array(" ", NoElement), "", EMPTY_MEMBER));
            Valid(value) && Print(value) == "{" + ("\"a\" : [ ]" + ("," + " \"b\":{ }")) + "}"
  {
    MemberPrinted();
    assert CharsText([Unescaped('a')]) == "a" && StringText([Unescaped('a')]) == "\"a\"";
    assert Print(Array(" ", NoElement)) == "[ ]";
    var members := Member("", [Unescaped('a')], " ", " ", Array(" ", NoElement), "", EMPTY_MEMBER);
    assert "" + "\"a\"" + " " + ":" + " " + "[ ]" + "" == "\"a\" : [ ]";
    assert PrintMembers(members) == "\"a\" : [ ]" + ("," + PrintMembers(EMPTY_MEMBER));
  }
}
