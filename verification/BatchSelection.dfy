/** What "order by a column, limit to a batch" may return, and when it is the same set every
    time it is asked. */
module BatchSelection {

  /** The rank an ORDER BY column gives each eligible row. */
  type Ranks = map<nat, real>

  /** A legal answer: the whole set if it is short, else `batch` rows none of which ranks
      above a row left out. Rows of equal rank may come in any order. */
  predicate FirstBatch(ranks: Ranks, picked: set<nat>, batch: nat) {
    && picked <= ranks.Keys
    && |picked| == (if |ranks| <= batch then |ranks| else batch)
    && forall x, y | x in picked && y in ranks && y !in picked :: ranks[x] <= ranks[y]
  }

  lemma {:induction false} SomeFirstBatch(ranks: Ranks, batch: nat) returns (picked: set<nat>)
    ensures FirstBatch(ranks, picked, batch)
  {
    picked := {};
    if batch > 0 && ranks != map[] {
      var low := Lowest(ranks);
      var rest := SomeFirstBatch(ranks - {low}, batch - 1);
      assert (ranks - {low}).Keys == ranks.Keys - {low};
      picked := rest + {low};
    }
  }

  lemma {:induction false} Lowest(ranks: Ranks) returns (low: nat)
    requires ranks != map[]
    ensures low in ranks && forall y | y in ranks :: ranks[low] <= ranks[y]
    decreases |ranks|
  {
    var x :| x in ranks;
    var rest := ranks - {x};
    assert rest.Keys == ranks.Keys - {x};
    assert forall y | y in ranks && y != x :: y in rest && rest[y] == ranks[y];
    low := x;
    if rest != map[] {
      var m := Lowest(rest);
      if ranks[m] < ranks[x] {
        low := m;
      }
    }
  }

  /** A tie across the edge of a batch. */
  predicate TiedAtEdge(ranks: Ranks, picked: set<nat>) {
    exists x, y :: x in picked && y in ranks && y !in picked && x in ranks && ranks[x] == ranks[y]
  }

  lemma SubsetOfSameSize(s: set<nat>, t: set<nat>)
    requires s <= t && |s| == |t|
    ensures s == t
  {
    assert t == s + (t - s);
    assert |t| == |s| + |t - s|;
  }

  lemma Difference(s: set<nat>, t: set<nat>) returns (x: nat)
    requires |s| == |t| && s != t
    ensures x in s && x !in t
  {
    if s <= t {
      SubsetOfSameSize(s, t);
    }
    x :| x in s && x !in t;
  }

  lemma TwoAnswersMeanTie(ranks: Ranks, picked: set<nat>, other: set<nat>, batch: nat)
    requires FirstBatch(ranks, picked, batch) && FirstBatch(ranks, other, batch) && picked != other
    ensures TiedAtEdge(ranks, picked)
  {
    var x := Difference(picked, other);
    var y := Difference(other, picked);
    assert ranks[x] == ranks[y];
  }

  /** The answer is forced exactly when no tie lies across the edge of the batch. */
  lemma ForcedIffNoTieAtEdge(ranks: Ranks, picked: set<nat>, batch: nat)
    requires FirstBatch(ranks, picked, batch)
    ensures (forall other | FirstBatch(ranks, other, batch) :: other == picked) <==> !TiedAtEdge(ranks, picked)
  {
    if TiedAtEdge(ranks, picked) {
      var other := Swapped(ranks, picked, batch);
    } else {
      forall other | FirstBatch(ranks, other, batch)
        ensures other == picked
      {
        if other != picked {
          TwoAnswersMeanTie(ranks, picked, other, batch);
        }
      }
    }
  }

  /** With a tie across the edge there is another legal answer. */
  lemma Swapped(ranks: Ranks, picked: set<nat>, batch: nat) returns (other: set<nat>)
    requires FirstBatch(ranks, picked, batch) && TiedAtEdge(ranks, picked)
    ensures FirstBatch(ranks, other, batch) && other != picked
  {
    var x, y :| x in picked && y in ranks && y !in picked && x in ranks && ranks[x] == ranks[y];
    other := picked - {x} + {y};
    assert y in other;
  }
}
