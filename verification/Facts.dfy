/**
 * What the analyses know of a message (`derived/model.py`).
 *
 * The reader hands out distinct ids and turns every collected column into a sorted tuple
 * without repeats, so a column is a set here.
 */
module Facts {
  import opened Order

  datatype Option<+T> = None | Some(value: T)

  datatype MessageFacts = MessageFacts(
    id: nat,
    subjectNorm: Text,
    participantKey: Text,
    simhash: nat,
    refs: set<Text>,
    threadId: Option<Text>,
    participants: set<nat>,
    attachments: set<Text>,
    outbound: bool,
    sentAt: Option<nat>)

  /** Python's `one.thread_id or ""`. */
  function ThreadKey(one: MessageFacts): Text {
    match one.threadId
    case None => EMPTY
    case Some(thread) => thread
  }

  /** A suggestion: two messages, how they were found alike, and how much. */
  datatype SimilarityEdge = SimilarityEdge(left: nat, right: nat, how: Text, weight: real)

  ghost predicate DistinctIds(facts: seq<MessageFacts>) {
    forall i, j | 0 <= i < j < |facts| :: facts[i].id != facts[j].id
  }

  ghost function Ids(facts: seq<MessageFacts>): set<nat> {
    set one | one in facts :: one.id
  }

  /** The earliest date some messages carry, none where none carries one. */
  ghost predicate IsFirstSeen(date: Option<nat>, own: set<MessageFacts>) {
    match date
    case None => forall one | one in own :: one.sentAt == None
    case Some(t) =>
      && (exists one :: one in own && one.sentAt == Some(t))
      && forall one | one in own && one.sentAt.Some? :: t <= one.sentAt.value
  }

  /** And the latest. */
  ghost predicate IsLastSeen(date: Option<nat>, own: set<MessageFacts>) {
    match date
    case None => forall one | one in own :: one.sentAt == None
    case Some(t) =>
      && (exists one :: one in own && one.sentAt == Some(t))
      && forall one | one in own && one.sentAt.Some? :: one.sentAt.value <= t
  }

  /** The ends of the dates in order are the earliest and the latest. */
  lemma DatesEnd(own: set<MessageFacts>, dates: seq<nat>)
    requires dates == Sorted(set one | one in own && one.sentAt.Some? :: one.sentAt.value)
    ensures IsFirstSeen(if dates == [] then None else Some(dates[0]), own)
    ensures IsLastSeen(if dates == [] then None else Some(dates[|dates| - 1]), own)
  {
    assert dates != [] ==> dates[0] in dates && dates[|dates| - 1] in dates;
    forall one | one in own && one.sentAt.Some? ensures one.sentAt.value in dates {}
  }
}
