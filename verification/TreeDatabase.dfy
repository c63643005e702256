/** What all neighbours of one link together say about a tree. */
module TreeDatabase {
  import opened Types
  import opened Metrics
  import opened NeighborSpec

  /** What is stored about each neighbour of a link. */
  type Database = map<Ip, Nb>

  /** The claim to be upstream that no other neighbour's claim is better than. */
  ghost predicate BestOf(db: Database, t: Tree, best: Option<AssertMetric>) {
    match best
    case None => forall n :: n in db ==> db[n].TreeState(t).1 == None
    case Some(c) =>
      && c.ip in db && db[c.ip].TreeState(t).1 == Some(c.metric)
      && forall n :: n in db && db[n].TreeState(t).1.Some? ==> !AssertMetric(db[n].TreeState(t).1.value, n).IsBetterThan(c)
  }

  /** One interested neighbour is enough. */
  ghost predicate SomeInterest(db: Database, t: Tree) {
    exists n :: n in db && db[n].TreeState(t).0
  }

  /** Some synchronised neighbour is upstream. */
  ghost predicate Brings(db: Database, t: Tree) {
    exists n :: n in db && db[n].TreeState(t).1.Some?
  }

  lemma BestBrings(db: Database, t: Tree, best: Option<AssertMetric>)
    requires BestOf(db, t, best)
    ensures best.Some? <==> Brings(db, t)
  {
    if best.Some? {
      assert db[best.value.ip].TreeState(t).1.Some?;
    }
  }

  /** Each neighbour's answer about one tree: whether it is interested, and as what it is upstream. */
  type Answers = map<Ip, (bool, Option<Metric>)>

  function AnswersOf(db: Database, t: Tree): Answers {
    map n | n in db :: db[n].TreeState(t)
  }

  /** The answers are gone through in any order. */
  method Survey(answers: Answers, ghost db: Database, ghost t: Tree) returns (interested: bool, best: Option<AssertMetric>)
    requires answers == AnswersOf(db, t)
    ensures BestOf(db, t, best) && interested == SomeInterest(db, t)
  {
    interested, best := false, None;
    var todo := answers.Keys;
    while todo != {}
      invariant todo <= db.Keys
      invariant interested <==> exists n :: n in db && n !in todo && db[n].TreeState(t).0
      invariant best.None? ==> forall n :: n in db && n !in todo ==> db[n].TreeState(t).1 == None
      invariant best.Some? ==>
                  && best.value.ip in db && db[best.value.ip].TreeState(t).1 == Some(best.value.metric)
                  && forall n :: n in db && n !in todo && db[n].TreeState(t).1.Some? ==>
                       !AssertMetric(db[n].TreeState(t).1.value, n).IsBetterThan(best.value)
    {
      var n :| n in todo;
      var (wants, metric) := answers[n];
      interested := interested || wants;
      if metric.Some? {
        var claim := AssertMetric(metric.value, n);
        if best.None? || claim.IsBetterThan(best.value) {
          best := Some(claim);
        }
      }
      todo := todo - {n};
    }
  }

  /** The best claim in explicit terms: the lowest preference, then the lowest cost, then the highest
      address. */
  lemma BestIsLowest(db: Database, t: Tree, best: Option<AssertMetric>, n: Ip)
    requires BestOf(db, t, best) && n in db && db[n].TreeState(t).1.Some?
    ensures best.Some?
    ensures var m, c := db[n].TreeState(t).1.value, best.value;
            || c == AssertMetric(m, n)
            || c.metric.preference < m.preference
            || (c.metric.preference == m.preference && c.metric.cost < m.cost)
            || (c.metric == m && c.ip > n)
  {
  }

  /** It does not matter in which order the neighbours are looked at. */
  lemma BestIsUnique(db: Database, t: Tree, a: Option<AssertMetric>, b: Option<AssertMetric>)
    requires BestOf(db, t, a) && BestOf(db, t, b)
    ensures a == b
  {
    BestBrings(db, t, a);
    BestBrings(db, t, b);
    if a.Some? {
      AssertOrderIsTotal(a.value, b.value);
    }
  }
}
