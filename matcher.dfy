/** Greedy one-to-one assignment of discovered fields to canonical types: the
    types are taken in a fixed priority order, each takes the best-scoring field
    not yet taken, and only a score of at least the threshold counts. */
module Matcher {
  import opened Wrappers
  import opened Dom
  import opened CanonicalProfile
  import opened FieldDiscovery
  import opened FieldScoring

  const MinScoreThreshold: int := 40

  /** Specific fields before generic ones: first and last name before full name */
  const PriorityOrder: seq<CanonicalFieldType> :=
    [Email, Phone, FirstName, LastName, FullName, Resume, CoverLetter,
     LinkedinUrl, PortfolioUrl, City, Country]

  /** The position of a type in the priority order, or its length for types
      the matcher never assigns */
  function Rank(t: CanonicalFieldType): nat {
    match t
    case Email => 0
    case Phone => 1
    case FirstName => 2
    case LastName => 3
    case FullName => 4
    case Resume => 5
    case CoverLetter => 6
    case LinkedinUrl => 7
    case PortfolioUrl => 8
    case City => 9
    case Country => 10
    case _ => 11
  }

  /** Rank inverts the priority order, so the order lists each type once. */
  lemma RankInvertsPriorityOrder()
    ensures forall i :: 0 <= i < |PriorityOrder| ==> Rank(PriorityOrder[i]) == i
    ensures forall t :: Rank(t) < |PriorityOrder| ==> PriorityOrder[Rank(t)] == t
  {
  }

  /** The type at position `k` of the priority order is the one type of rank `k`. */
  lemma PriorityRank(k: nat)
    requires k < |PriorityOrder|
    ensures forall t :: Rank(t) == k <==> t == PriorityOrder[k]
  {
    RankInvertsPriorityOrder();
  }

  /** A type of the priority order has a rank inside it. */
  lemma InOrderRank(t: CanonicalFieldType)
    requires t in PriorityOrder
    ensures Rank(t) < |PriorityOrder|
  {
    RankInvertsPriorityOrder();
  }

  /** A scorer: `scoreCandidate` in the engine; the assignment rules below hold
      for any scorer. */
  type Scorer = (Candidate, CanonicalFieldType) -> int

  /** The best score seen and the position it was seen at */
  datatype Best = Best(score: int, index: Option<nat>)

  /** The inner loop over the first `n` candidates: unused candidates only, a
      strictly higher score replaces the best, starting from -1 */
  function BestAmong(cs: seq<Candidate>, t: CanonicalFieldType, used: set<Element>, n: nat, score: Scorer): (b: Best)
    requires n <= |cs|
    ensures b.index.Some? ==> b.index.value < n
  {
    if n == 0 then Best(-1, None)
    else
      var b := BestAmong(cs, t, used, n - 1, score);
      if cs[n - 1].element in used then b
      else
        var s := score(cs[n - 1], t);
        if s > b.score then Best(s, Some(n - 1)) else b
  }

  /** The chosen candidate is unused and has the highest score among unused
      candidates, the first such in input order; with nothing chosen the best
      score stays -1, so every unused candidate scored below 0. */
  lemma {:induction false} BestAmongIsFirstMaximum(cs: seq<Candidate>, t: CanonicalFieldType, used: set<Element>, n: nat, score: Scorer)
    requires n <= |cs|
    ensures var b := BestAmong(cs, t, used, n, score);
      && (b.index.Some? ==> cs[b.index.value].element !in used && score(cs[b.index.value], t) == b.score)
      && (forall j :: 0 <= j < n && cs[j].element !in used ==> score(cs[j], t) <= b.score)
      && (b.index.Some? ==> forall j :: 0 <= j < b.index.value && cs[j].element !in used ==> score(cs[j], t) < b.score)
      && (b.index.None? ==> b.score == -1)
      && b.score >= -1
  {
    if n > 0 {
      BestAmongIsFirstMaximum(cs, t, used, n - 1, score);
    }
  }

  /** The result map and the set of elements already taken */
  datatype MatchState = MatchState(result: map<CanonicalFieldType, Candidate>, used: set<Element>)

  /** One iteration of the outer loop, for type `t` */
  function Step(cs: seq<Candidate>, t: CanonicalFieldType, st: MatchState, score: Scorer): MatchState {
    var b := BestAmong(cs, t, st.used, |cs|, score);
    if b.index.Some? && b.score >= MinScoreThreshold then
      MatchState(st.result[t := cs[b.index.value]], st.used + {cs[b.index.value].element})
    else st
  }

  /** The state after the first `k` types of the priority order */
  function MatchUpTo(cs: seq<Candidate>, k: nat, score: Scorer): MatchState
    requires k <= |PriorityOrder|
  {
    if k == 0 then MatchState(map[], {})
    else Step(cs, PriorityOrder[k - 1], MatchUpTo(cs, k - 1, score), score)
  }

  /** `matchFields(candidates)` */
  function MatchResult(cs: seq<Candidate>): map<CanonicalFieldType, Candidate> {
    MatchUpTo(cs, |PriorityOrder|, ScoreCandidate).result
  }

  /** The engine's assignment maps only priority types, never two of them to
      one element. */
  lemma MatchResultShape(cs: seq<Candidate>)
    ensures forall t :: t in MatchResult(cs) ==> t in PriorityOrder
    ensures Injective(MatchResult(cs))
  {
    MatchUpToShape(cs, ScoreCandidate);
  }

  /** The keys and the injectivity of an assignment, for any scorer */
  lemma MatchUpToShape(cs: seq<Candidate>, score: Scorer)
    ensures var result := MatchUpTo(cs, |PriorityOrder|, score).result;
      && (forall t :: t in result ==> t in PriorityOrder)
      && Injective(result)
  {
    MatchResultWellMatched(cs, score);
  }

  /** No element is assigned to two types. */
  predicate Injective(m: map<CanonicalFieldType, Candidate>) {
    forall t1, t2 :: t1 in m && t2 in m && t1 != t2 ==> m[t1].element != m[t2].element
  }

  /** What holds of every assignment the matcher makes */
  predicate WellMatched(cs: seq<Candidate>, k: nat, st: MatchState, score: Scorer)
    requires k <= |PriorityOrder|
  {
    && (forall t :: t in st.result ==> Rank(t) < k)
    && (forall t :: t in st.result ==> st.result[t] in cs && score(st.result[t], t) >= MinScoreThreshold)
    && (forall t1, t2 :: t1 in st.result && t2 in st.result && t1 != t2 ==>
          st.result[t1].element != st.result[t2].element)
    && st.used == set t | t in st.result :: st.result[t].element
  }

  /** Assigning an unused, well-scoring candidate to the next type keeps the
      assignment well matched. */
  lemma AssignWellMatched(cs: seq<Candidate>, k: nat, st: MatchState, c: Candidate, score: Scorer)
    requires 0 < k <= |PriorityOrder|
    requires WellMatched(cs, k - 1, st, score)
    requires Rank(PriorityOrder[k - 1]) == k - 1
    requires c in cs && score(c, PriorityOrder[k - 1]) >= MinScoreThreshold && c.element !in st.used
    ensures WellMatched(cs, k, MatchState(st.result[PriorityOrder[k - 1] := c], st.used + {c.element}), score)
  {
    var t := PriorityOrder[k - 1];
    AssignInjective(st.result, st.used, t, c);
    AssignUsed(st.result, st.used, t, c);
  }

  /** Adding a fresh key whose element is not in `used` keeps the map injective
      on elements. */
  lemma AssignInjective(result: map<CanonicalFieldType, Candidate>, used: set<Element>, t: CanonicalFieldType, c: Candidate)
    requires forall t1, t2 :: t1 in result && t2 in result && t1 != t2 ==> result[t1].element != result[t2].element
    requires forall u :: u in result ==> result[u].element in used
    requires c.element !in used
    ensures var r := result[t := c];
      forall t1, t2 :: t1 in r && t2 in r && t1 != t2 ==> r[t1].element != r[t2].element
  {
  }

  /** The taken elements stay those of the map's values. */
  lemma AssignUsed(result: map<CanonicalFieldType, Candidate>, used: set<Element>, t: CanonicalFieldType, c: Candidate)
    requires used == set u | u in result :: result[u].element
    requires t !in result
    ensures var r := result[t := c];
      used + {c.element} == set u | u in r :: r[u].element
  {
    var r := result[t := c];
    forall e | e in used + {c.element} ensures e in set u | u in r :: r[u].element {
      if e == c.element {
        assert r[t].element == e;
      } else {
        var u :| u in result && result[u].element == e;
        assert r[u].element == e;
      }
    }
  }

  /** Leaving the state unchanged at the next type keeps it well matched. */
  lemma SkipWellMatched(cs: seq<Candidate>, k: nat, st: MatchState, score: Scorer)
    requires 0 < k <= |PriorityOrder|
    requires WellMatched(cs, k - 1, st, score)
    ensures WellMatched(cs, k, st, score)
  {
  }

  lemma {:induction false} MatchUpToWellMatched(cs: seq<Candidate>, k: nat, score: Scorer)
    requires k <= |PriorityOrder|
    ensures WellMatched(cs, k, MatchUpTo(cs, k, score), score)
  {
    if k > 0 {
      MatchUpToWellMatched(cs, k - 1, score);
      var st := MatchUpTo(cs, k - 1, score);
      var t := PriorityOrder[k - 1];
      var b := BestAmong(cs, t, st.used, |cs|, score);
      BestAmongIsFirstMaximum(cs, t, st.used, |cs|, score);
      RankInvertsPriorityOrder();
      if b.index.Some? && b.score >= MinScoreThreshold {
        AssignWellMatched(cs, k, st, cs[b.index.value], score);
      } else {
        SkipWellMatched(cs, k, st, score);
      }
    }
  }

  /** The type at position `k` is not yet assigned when its turn comes. */
  lemma NextTypeFree(cs: seq<Candidate>, k: nat, score: Scorer)
    requires k < |PriorityOrder|
    ensures PriorityOrder[k] !in MatchUpTo(cs, k, score).result
  {
    MatchUpToWellMatched(cs, k, score);
    RankInvertsPriorityOrder();
  }

  /** Later steps keep every assignment already made. */
  lemma {:induction false} MatchUpToKeeps(cs: seq<Candidate>, k: nat, k': nat, score: Scorer)
    requires k <= k' <= |PriorityOrder|
    ensures forall t :: t in MatchUpTo(cs, k, score).result ==>
              t in MatchUpTo(cs, k', score).result &&
              MatchUpTo(cs, k', score).result[t] == MatchUpTo(cs, k, score).result[t]
    decreases k' - k
  {
    if k < k' {
      MatchUpToKeeps(cs, k, k' - 1, score);
      NextTypeFree(cs, k' - 1, score);
    }
  }

  /** A type not assigned at its own step is never assigned later. */
  lemma {:induction false} NotAssignedLater(cs: seq<Candidate>, k: nat, k': nat, score: Scorer)
    requires k < k' <= |PriorityOrder|
    requires PriorityOrder[k] !in MatchUpTo(cs, k + 1, score).result
    ensures PriorityOrder[k] !in MatchUpTo(cs, k', score).result
    decreases k' - k
  {
    if k' > k + 1 {
      NotAssignedLater(cs, k, k' - 1, score);
      RankInvertsPriorityOrder();
    }
  }

  /** The type at position `k` of the priority order is assigned exactly when
      some candidate not taken by the earlier types scores at least the
      threshold; it then gets the first highest-scoring such candidate. */
  lemma AssignedIff(cs: seq<Candidate>, k: nat, score: Scorer)
    requires k < |PriorityOrder|
    ensures var t, used, result := PriorityOrder[k], MatchUpTo(cs, k, score).used, MatchUpTo(cs, |PriorityOrder|, score).result;
      && (t in result <==>
            exists j :: 0 <= j < |cs| && cs[j].element !in used && score(cs[j], t) >= MinScoreThreshold)
      && (t in result ==>
            exists j :: 0 <= j < |cs| && result[t] == cs[j] && cs[j].element !in used
              && (forall i :: 0 <= i < |cs| && cs[i].element !in used ==> score(cs[i], t) <= score(cs[j], t))
              && (forall i :: 0 <= i < j && cs[i].element !in used ==> score(cs[i], t) < score(cs[j], t)))
  {
    var t := PriorityOrder[k];
    var st := MatchUpTo(cs, k, score);
    BestAmongIsFirstMaximum(cs, t, st.used, |cs|, score);
    NextTypeFree(cs, k, score);
    MatchUpToKeeps(cs, k + 1, |PriorityOrder|, score);
    var b := BestAmong(cs, t, st.used, |cs|, score);
    if !(b.index.Some? && b.score >= MinScoreThreshold) {
      NotAssignedLater(cs, k, |PriorityOrder|, score);
    }
  }

  /** The result maps only priority types, to candidates from the input that
      score at least the threshold, and never two types to one element. */
  lemma MatchResultWellMatched(cs: seq<Candidate>, score: Scorer)
    ensures var result := MatchUpTo(cs, |PriorityOrder|, score).result;
      && (forall t :: t in result ==> t in PriorityOrder)
      && (forall t :: t in result ==> result[t] in cs && score(result[t], t) >= MinScoreThreshold)
      && (forall t1, t2 :: t1 in result && t2 in result && t1 != t2 ==> result[t1].element != result[t2].element)
  {
    MatchUpToWellMatched(cs, |PriorityOrder|, score);
    RankInvertsPriorityOrder();
  }

  /** No candidates, no assignments. */
  lemma {:induction false} MatchUpToEmpty(k: nat, score: Scorer)
    requires k <= |PriorityOrder|
    ensures MatchUpTo([], k, score) == MatchState(map[], {})
  {
    if k > 0 {
      MatchUpToEmpty(k - 1, score);
    }
  }

  /** The inner loop of `matchFields` for one type, with the scorer passed in */
  method BestCandidateFor(candidates: seq<Candidate>, t: CanonicalFieldType, usedElements: set<Element>, scoreCandidate: Scorer)
    returns (bestCandidate: Option<Candidate>, bestScore: int)
    ensures var b := BestAmong(candidates, t, usedElements, |candidates|, scoreCandidate);
      && bestScore == b.score
      && (bestCandidate.None? <==> b.index.None?)
      && (bestCandidate.Some? ==> bestCandidate.value == candidates[b.index.value])
  {
    bestCandidate := None;
    bestScore := -1;
    var j := 0;
    while j < |candidates|
      invariant 0 <= j <= |candidates|
      invariant var b := BestAmong(candidates, t, usedElements, j, scoreCandidate);
        && bestScore == b.score
        && (bestCandidate.None? <==> b.index.None?)
        && (bestCandidate.Some? ==> bestCandidate.value == candidates[b.index.value])
    {
      var candidate := candidates[j];
      if candidate.element !in usedElements {
        var score := scoreCandidate(candidate, t);
        if score > bestScore {
          bestScore := score;
          bestCandidate := Some(candidate);
        }
      }
      j := j + 1;
    }
  }

  /** The outer loop of `matchFields`: the result map and the set of elements
      already taken, updated type by type in priority order */
  method MatchFieldsBy(candidates: seq<Candidate>, scoreCandidate: Scorer) returns (result: map<CanonicalFieldType, Candidate>)
    ensures result == MatchUpTo(candidates, |PriorityOrder|, scoreCandidate).result
    ensures forall t :: t in result ==> t in PriorityOrder
    ensures forall t :: t in result ==> result[t] in candidates && scoreCandidate(result[t], t) >= MinScoreThreshold
    ensures forall t1, t2 :: t1 in result && t2 in result && t1 != t2 ==> result[t1].element != result[t2].element
  {
    result := map[];
    var usedElements: set<Element> := {};
    var k := 0;
    while k < |PriorityOrder|
      invariant 0 <= k <= |PriorityOrder|
      invariant MatchState(result, usedElements) == MatchUpTo(candidates, k, scoreCandidate)
    {
      var t := PriorityOrder[k];
      var bestCandidate, bestScore := BestCandidateFor(candidates, t, usedElements, scoreCandidate);
      if bestCandidate.Some? && bestScore >= MinScoreThreshold {
        result := result[t := bestCandidate.value];
        usedElements := usedElements + {bestCandidate.value.element};
      }
      k := k + 1;
    }
    MatchResultWellMatched(candidates, scoreCandidate);
  }

  /** `matchFields(candidates)`: the greedy assignment with the engine's scorer */
  method MatchFields(candidates: seq<Candidate>) returns (result: map<CanonicalFieldType, Candidate>)
    ensures result == MatchResult(candidates)
    ensures forall t :: t in result ==> t in PriorityOrder && result[t] in candidates
    ensures forall t1, t2 :: t1 in result && t2 in result && t1 != t2 ==> result[t1].element != result[t2].element
  {
    result := MatchFieldsBy(candidates, ScoreCandidate);
  }
}
