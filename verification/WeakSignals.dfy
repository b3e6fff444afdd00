/**
 * The pair table of A2's weak signals (`derived/topics.py`, `_join_weak`): what it holds
 * after any prefix of the buckets, and why its size stays within the budget.
 */
module WeakSignals {
  import opened Order
  import opened Closure
  import opened Buckets
  import opened TopicRules

  /** The three dictionaries keyed by pair: accumulated score, heaviest signal, signals seen. */
  datatype Table = Table(score: map<Link, real>, carrier: map<Link, Text>, counted: map<Link, set<Text>>) {

    /** One pair of one bucket: a signal the pair has already been counted for adds nothing. */
    function Count(pair: Link, name: Text): Table {
      var seen := if pair in counted then counted[pair] else {};
      if name in seen then this
      else
        Table(
          score[pair := (if pair in score then score[pair] else 0.0) + WeightOf(name)],
          if WeightOf(name) > WeightOf(if pair in carrier then carrier[pair] else EMPTY)
            then carrier[pair := name] else carrier,
          counted[pair := seen + {name}])
    }
  }

  predicate ExactNames(names: set<Text>) {
    forall name | name in names :: IsExact(name)
  }

  ghost predicate Entry(t: Table, pair: Link) {
    && pair in t.score && pair in t.carrier && pair in t.counted
    && t.counted[pair] != {} && ExactNames(t.counted[pair])
    && t.score[pair] == TotalWeight(t.counted[pair])
    && t.carrier[pair] == Heaviest(t.counted[pair])
  }

  /** Score and carrier are functions of the signals seen. */
  ghost predicate Consistent(t: Table) {
    && t.score.Keys == t.carrier.Keys == t.counted.Keys
    && forall pair {:trigger Entry(t, pair)} | pair in t.counted :: Entry(t, pair)
  }

  lemma WeightAdds(names: set<Text>, name: Text)
    requires IsExact(name) && name !in names
    ensures TotalWeight(names + {name}) == TotalWeight(names) + WeightOf(name)
  {}

  lemma HeaviestAdds(names: set<Text>, name: Text)
    requires IsExact(name) && ExactNames(names)
    ensures Heaviest(names + {name}) == if WeightOf(name) > WeightOf(Heaviest(names)) then name else Heaviest(names)
    ensures names == {} ==> Heaviest(names) == EMPTY
  {
    assert names == {} || exists other :: other in names && IsExact(other);
  }

  lemma CountKeepsEntry(t: Table, pair: Link, name: Text)
    requires Consistent(t) && IsExact(name)
    ensures Entry(t.Count(pair, name), pair)
  {
    if pair in t.counted {
      assert Entry(t, pair);
      if name !in t.counted[pair] {
        WeightAdds(t.counted[pair], name);
        HeaviestAdds(t.counted[pair], name);
      }
    } else {
      WeightAdds({}, name);
      HeaviestAdds({}, name);
      assert {} + {name} == {name};
    }
  }

  lemma CountKeeps(t: Table, pair: Link, name: Text)
    requires Consistent(t) && IsExact(name)
    ensures Consistent(t.Count(pair, name))
    ensures t.Count(pair, name).counted
         == t.counted[pair := (if pair in t.counted then t.counted[pair] else {}) + {name}]
  {
    var after := t.Count(pair, name);
    CountKeepsEntry(t, pair, name);
    if pair in t.counted {
      assert Entry(t, pair);
    }
    forall other | other in after.counted ensures Entry(after, other) {
      if other != pair {
        assert Entry(t, other);
      }
    }
    if pair in t.counted && name in t.counted[pair] {
      assert t.counted[pair] + {name} == t.counted[pair];
    }
  }

  // ----- Which pairs, and which signals each

  /** The signals of a pair after some buckets and part of the next. */
  ghost function Seen(scored: seq<Bucket>, name: Text, done: set<Link>, pair: Link): set<Text> {
    SharedSignals(scored, pair) + if pair in done then {name} else {}
  }

  ghost predicate SeenIs(t: Table, scored: seq<Bucket>, name: Text, done: set<Link>, pair: Link) {
    && (pair in t.counted <==> Seen(scored, name, done, pair) != {})
    && (pair in t.counted ==> t.counted[pair] == Seen(scored, name, done, pair))
  }

  ghost predicate Tallied(t: Table, scored: seq<Bucket>, name: Text, done: set<Link>) {
    forall pair {:trigger SeenIs(t, scored, name, done, pair)} :: SeenIs(t, scored, name, done, pair)
  }

  lemma TallyStep(t: Table, scored: seq<Bucket>, name: Text, done: set<Link>, pair: Link)
    requires Consistent(t) && Tallied(t, scored, name, done) && IsExact(name)
    ensures Tallied(t.Count(pair, name), scored, name, done + {pair})
  {
    CountKeeps(t, pair, name);
    forall other ensures SeenIs(t.Count(pair, name), scored, name, done + {pair}, other) {
      assert SeenIs(t, scored, name, done, other);
    }
  }

  lemma TallyBucket(t: Table, scored: seq<Bucket>, b: Bucket, next: Text)
    requires Tallied(t, scored, b.major, PairsOf(b.members))
    ensures Tallied(t, scored + [b], next, {})
  {
    var more := scored + [b];
    assert more[..|more| - 1] == scored;
    forall pair ensures SeenIs(t, more, next, {}, pair) {
      assert SeenIs(t, scored, b.major, PairsOf(b.members), pair);
    }
  }

  lemma {:induction false} CoveredIsShared(scored: seq<Bucket>, pair: Link)
    ensures pair in Covered(scored) <==> SharedSignals(scored, pair) != {}
  {
    if scored != [] {
      CoveredIsShared(scored[..|scored| - 1], pair);
    }
  }

  /** The table's keys are the covered pairs. */
  lemma TallyKeys(t: Table, scored: seq<Bucket>, name: Text)
    requires Tallied(t, scored, name, {})
    ensures t.counted.Keys == Covered(scored)
    ensures forall pair {:trigger t.counted[pair]} | pair in t.counted :: t.counted[pair] == SharedSignals(scored, pair)
  {
    forall pair: Link
      ensures pair in t.counted <==> pair in Covered(scored)
      ensures pair in t.counted ==> t.counted[pair] == SharedSignals(scored, pair)
    {
      assert SeenIs(t, scored, name, {}, pair);
      CoveredIsShared(scored, pair);
    }
  }

  method ScoreBucket(table: Table, b: Bucket, ghost scored: seq<Bucket>) returns (t: Table)
    requires Consistent(table) && Tallied(table, scored, b.major, {}) && IsExact(b.major)
    ensures Consistent(t) && Tallied(t, scored, b.major, PairsOf(b.members))
  {
    t := table;
    var todo := PairsOf(b.members);
    ghost var done: set<Link> := {};
    while todo != {}
      invariant done + todo == PairsOf(b.members)
      invariant Consistent(t) && Tallied(t, scored, b.major, done)
      decreases todo
    {
      var pair :| pair in todo;
      CountKeeps(t, pair, b.major);
      TallyStep(t, scored, b.major, done, pair);
      t := t.Count(pair, b.major);
      todo, done := todo - {pair}, done + {pair};
    }
    assert done == PairsOf(b.members);
  }

  ghost predicate ExactBuckets(pending: seq<Bucket>) {
    forall k | 0 <= k < |pending| :: IsExact(pending[k].major)
  }

  ghost predicate Scores(t: Table, scored: seq<Bucket>) {
    Consistent(t) && Tallied(t, scored, EMPTY, {})
  }

  lemma TallyRename(t: Table, scored: seq<Bucket>, name: Text, other: Text)
    requires Tallied(t, scored, name, {})
    ensures Tallied(t, scored, other, {})
  {
    forall pair ensures SeenIs(t, scored, other, {}, pair) {
      assert SeenIs(t, scored, name, {}, pair);
    }
  }

  lemma NothingScored(t: Table)
    requires t == Table(map[], map[], map[])
    ensures Scores(t, [])
  {
    forall pair ensures SeenIs(t, [], EMPTY, {}, pair) {}
  }

  /** One bucket of the loop. */
  method ScoreNext(table: Table, pending: seq<Bucket>, index: nat) returns (t: Table)
    requires ExactBuckets(pending) && index < |pending| && Scores(table, pending[..index])
    ensures Scores(t, pending[..index + 1])
  {
    var b := pending[index];
    TallyRename(table, pending[..index], EMPTY, b.major);
    t := ScoreBucket(table, b, pending[..index]);
    TallyBucket(t, pending[..index], b, EMPTY);
    assert pending[..index + 1] == pending[..index] + [b];
  }

  lemma ScoresSize(t: Table, scored: seq<Bucket>)
    requires Scores(t, scored)
    ensures |t.score| == |Covered(scored)|
  {
    TallyKeys(t, scored, EMPTY);
    assert t.score.Keys == Covered(scored);
  }

  /** Smallest buckets first, until one does not fit; the rest is counted, not scored. */
  method ScoreBuckets(pending: seq<Bucket>, config: Config) returns (t: Table, dropped: nat)
    requires ExactBuckets(pending)
    ensures Scores(t, pending[..Fitting(pending, 0, config)])
    ensures dropped == PairSum(pending[Fitting(pending, 0, config)..])
  {
    t := Table(map[], map[], map[]);
    var index := 0;
    NothingScored(t);
    assert pending[..0] == [];
    while index < |pending|
      invariant index <= |pending|
      invariant Fitting(pending, index, config) == Fitting(pending, 0, config)
      invariant Scores(t, pending[..index])
    {
      ScoresSize(t, pending[..index]);
      if |t.score| + Pairs(|pending[index].members|) > config.maxWeakPairs {
        break;
      }
      t := ScoreNext(t, pending, index);
      index := index + 1;
    }
    dropped := PairSum(pending[index..]);
  }

  // ----- The size of the table

  ghost function PairsWith(x: nat, rest: set<nat>): set<Link> {
    set y | y in rest :: if x < y then (x, y) else (y, x)
  }

  lemma {:induction false} PairsWithSize(x: nat, rest: set<nat>)
    requires x !in rest
    ensures |PairsWith(x, rest)| == |rest|
  {
    if rest != {} {
      var y :| y in rest;
      PairsWithSize(x, rest - {y});
      var pair := if x < y then (x, y) else (y, x);
      assert PairsWith(x, rest) == PairsWith(x, rest - {y}) + {pair};
      assert pair !in PairsWith(x, rest - {y});
    }
  }

  /** A bucket of k members holds exactly k(k-1)/2 pairs. */
  lemma {:induction false} PairsOfSize(members: set<nat>)
    ensures |PairsOf(members)| == Pairs(|members|)
    decreases members
  {
    if members == {} {
      assert PairsOf(members) == {};
    } else {
      var x :| x in members;
      PairsOfSize(members - {x});
      OneMore(members, x);
    }
  }

  lemma OneMore(members: set<nat>, x: nat)
    requires x in members
    ensures |members| == |members - {x}| + 1
    ensures |PairsOf(members)| == |PairsOf(members - {x})| + |members - {x}|
  {
    var rest := members - {x};
    assert members == rest + {x};
    PairsWithSize(x, rest);
    PairsOfGrow(members, x);
    DisjointSize(PairsOf(members), PairsOf(rest), PairsWith(x, rest));
  }

  lemma PairsOfGrow(members: set<nat>, x: nat)
    requires x in members
    ensures PairsOf(members) == PairsOf(members - {x}) + PairsWith(x, members - {x})
    ensures PairsOf(members - {x}) !! PairsWith(x, members - {x})
  {
    var rest := members - {x};
    forall p | p in PairsOf(members) ensures p in PairsOf(rest) || p in PairsWith(x, rest) {
      if p.0 == x { assert p.1 in rest; }
      if p.1 == x { assert p.0 in rest; }
    }
  }

  /** Whatever is scored, the table never outgrows the budget. */
  lemma {:induction false} TableWithinBudget(pending: seq<Bucket>, n: nat, config: Config)
    requires n <= |pending| && |Covered(pending[..n])| <= Max0(config.maxWeakPairs)
    ensures |Covered(pending[..Fitting(pending, n, config)])| <= Max0(config.maxWeakPairs)
    decreases |pending| - n
  {
    if n < |pending| && |Covered(pending[..n])| + Pairs(|pending[n].members|) <= config.maxWeakPairs {
      PairsOfSize(pending[n].members);
      assert pending[..n + 1][..n] == pending[..n];
      var before, more := Covered(pending[..n]), PairsOf(pending[n].members);
      assert |before + more| + |before * more| == |before| + |more|;
      TableWithinBudget(pending, n + 1, config);
    }
  }
}
