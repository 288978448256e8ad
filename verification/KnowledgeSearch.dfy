// The hybrid ranker of backend/app/application/services/knowledge.py: which candidates of the vector
// search count as evidence, and in what order they are returned.
module KnowledgeSearch {
  // A candidate of the vector search, with its vector score.
  datatype Candidate = Candidate(chunk: nat, content: string, score: real)

  datatype Hit = Hit(candidate: Candidate, score: real, matched: nat)

  // The tokeniser of _relevance_terms.
  type Terms = string -> set<string>

  const MINIMUM_SCORE := 0.60
  const MINIMUM_MATCHES := 2

  // _lexical_relevance: the matched query terms, and their share of all query terms.
  function Matched(query: set<string>, content: set<string>): nat { |query * content| }

  function Lexical(query: set<string>, content: set<string>): real {
    if query == {} then 0.0 else Matched(query, content) as real / |query| as real
  }

  function Clamp(x: real): real { if x < 0.0 then 0.0 else if x > 1.0 then 1.0 else x }

  function Calibrated(query: set<string>, content: set<string>, vector: real): real {
    0.80 * Lexical(query, content) + 0.20 * Clamp(vector)
  }

  function HitOf(query: set<string>, c: Candidate, terms: Terms): Hit {
    Hit(c, Calibrated(query, terms(c.content), c.score), Matched(query, terms(c.content)))
  }

  predicate Evidence(hit: Hit) { hit.matched >= MINIMUM_MATCHES && hit.score >= MINIMUM_SCORE }

  // The accepted candidates, in the order of the vector search.
  function Accepted(query: set<string>, candidates: seq<Candidate>, terms: Terms): seq<Hit> {
    if candidates == [] then []
    else
      var hit := HitOf(query, candidates[|candidates| - 1], terms);
      Accepted(query, candidates[..|candidates| - 1], terms) + if Evidence(hit) then [hit] else []
  }

  // list.sort(key=score, reverse=True): descending, equal scores in their original order.
  function Sorted(hits: seq<Hit>): seq<Hit> {
    if hits == [] then [] else Place(Sorted(hits[..|hits| - 1]), hits[|hits| - 1])
  }

  function Place(sorted: seq<Hit>, hit: Hit): seq<Hit> {
    if sorted == [] || sorted[0].score < hit.score then [hit] + sorted else [sorted[0]] + Place(sorted[1..], hit)
  }

  function Min(a: nat, b: nat): nat { if a < b then a else b }

  method Search(query: set<string>, candidates: seq<Candidate>, topK: nat, terms: Terms) returns (hits: seq<Hit>)
    ensures var ranked := Sorted(Accepted(query, candidates, terms));
            hits == ranked[..Min(Min(topK, 20), |ranked|)]
  {
    var limit := Min(topK, 20);
    var accepted: seq<Hit> := [];
    for k := 0 to |candidates|
      invariant accepted == Accepted(query, candidates[..k], terms)
    {
      assert candidates[..k + 1][..k] == candidates[..k];
      var content := terms(candidates[k].content);
      var matched := Matched(query, content);
      var score := Calibrated(query, content, candidates[k].score);
      if matched < MINIMUM_MATCHES || score < MINIMUM_SCORE {
        continue;
      }
      accepted := accepted + [Hit(candidates[k], score, matched)];
    }
    assert candidates[..|candidates|] == candidates;
    var ranked := Sorted(accepted);
    hits := ranked[..Min(limit, |ranked|)];
  }

  // ---- what counts as evidence ----------------------------------------------------------------

  lemma MatchedIsAPart(query: set<string>, content: set<string>)
    ensures Matched(query, content) <= |query|
  {
    assert query == query * content + (query - content);
  }

  lemma ShareMeans(part: nat, whole: nat, share: real)
    requires whole > 0
    ensures part as real / whole as real >= share <==> part as real >= share * whole as real
  {
    var ratio := part as real / whole as real;
    assert ratio * whole as real == part as real;
  }

  // The vector score alone never makes evidence, and alone never unmakes it: a candidate that
  // matches fewer than half of the query's terms is rejected however close its vector, one that
  // matches three quarters (and at least two) is accepted however far it is.
  lemma VectorScoreDecidesOnlyInBetween(query: set<string>, c: Candidate, terms: Terms)
    ensures var hit := HitOf(query, c, terms);
            && (Evidence(hit) ==> hit.matched >= 2 && 2 * hit.matched >= |query|)
            && (hit.matched >= 2 && 4 * hit.matched >= 3 * |query| ==> Evidence(hit))
            && 0.0 <= hit.score <= 1.0
  {
    var content := terms(c.content);
    MatchedIsAPart(query, content);
    if query != {} {
      ShareMeans(Matched(query, content), |query|, 0.5);
      ShareMeans(Matched(query, content), |query|, 0.75);
      ShareIsAtMostOne(Matched(query, content), |query|);
    }
  }

  // A vector score outside [0, 1] counts as its nearest end.
  function Nearest(score: real): (v: real)
    ensures 0.0 <= v <= 1.0
    ensures forall w | 0.0 <= w <= 1.0 :: Distance(score, v) <= Distance(score, w)
  {
    if score < 0.0 then 0.0 else if score > 1.0 then 1.0 else score
  }

  function Distance(a: real, b: real): real { if a < b then b - a else a - b }

  // 4m + nv: five times the score of a candidate that matches m of the n terms, times n.
  function Points(m: nat, n: nat, v: real): real { 4.0 * m as real + n as real * v }

  function PointsOf(query: set<string>, c: Candidate, terms: Terms): real {
    Points(|query * terms(c.content)|, |query|, Nearest(c.score))
  }

  lemma ScoreInPoints(query: set<string>, c: Candidate, terms: Terms) returns (score: real, points: real)
    requires query != {}
    ensures score == HitOf(query, c, terms).score && points == PointsOf(query, c, terms)
    ensures score * (5.0 * |query| as real) == points
  {
    var m, n := |query * terms(c.content)|, |query|;
    var share := m as real / n as real;
    assert share * n as real == m as real;
    Scaled(share, Nearest(c.score), m as real, n as real);
    score, points := HitOf(query, c, terms).score, PointsOf(query, c, terms);
  }

  lemma Scaled(share: real, v: real, m: real, n: real)
    requires share * n == m
    ensures (0.80 * share + 0.20 * v) * (5.0 * n) == 4.0 * m + n * v
  {
    assert (0.80 * share + 0.20 * v) * (5.0 * n) == 4.0 * (share * n) + v * n;
  }

  lemma ScaleKeepsOrder(a: real, b: real, scale: real)
    requires scale > 0.0
    ensures a >= b <==> a * scale >= b * scale
    ensures a > b <==> a * scale > b * scale
  {
    ProductOfPositives(a - b, scale);
    ProductOfPositives(b - a, scale);
    assert (a - b) * scale == a * scale - b * scale && (b - a) * scale == b * scale - a * scale;
  }

  lemma ProductOfPositives(x: real, scale: real)
    requires scale > 0.0
    ensures x > 0.0 ==> x * scale > 0.0
    ensures x == 0.0 ==> x * scale == 0.0
  {
  }

  lemma ReachesInPoints(score: real, points: real, n: real)
    requires n > 0.0 && score * (5.0 * n) == points
    ensures score >= 0.60 <==> points >= 3.0 * n
  {
    ScaleKeepsOrder(score, 0.60, 5.0 * n);
  }

  lemma MoreInPoints(a: real, b: real, pointsA: real, pointsB: real, n: real)
    requires n > 0.0 && a * (5.0 * n) == pointsA && b * (5.0 * n) == pointsB
    ensures a > b <==> pointsA > pointsB
  {
    ScaleKeepsOrder(a, b, 5.0 * n);
  }

  // With m of n terms matched, a candidate is evidence exactly when m is two or more and
  // 4m + nv reaches 3n, v being its vector score.
  lemma EvidenceIff(query: set<string>, c: Candidate, terms: Terms)
    requires query != {}
    ensures Evidence(HitOf(query, c, terms)) <==>
            |query * terms(c.content)| >= 2 && PointsOf(query, c, terms) >= 3.0 * |query| as real
  {
    var score, points := ScoreInPoints(query, c, terms);
    ReachesInPoints(score, points, |query| as real);
  }

  // Of two candidates for the same query the one with more points ranks first.
  lemma MorePointsRankFirst(query: set<string>, a: Candidate, b: Candidate, terms: Terms)
    requires query != {}
    ensures HitOf(query, a, terms).score > HitOf(query, b, terms).score <==>
            PointsOf(query, a, terms) > PointsOf(query, b, terms)
  {
    var scoreA, pointsA := ScoreInPoints(query, a, terms);
    var scoreB, pointsB := ScoreInPoints(query, b, terms);
    MoreInPoints(scoreA, scoreB, pointsA, pointsB, |query| as real);
  }

  // So among equal matches the one whose vector is closer.
  lemma CloserRanksFirst(query: set<string>, a: Candidate, b: Candidate, terms: Terms)
    requires query != {} && |query * terms(a.content)| == |query * terms(b.content)|
    ensures HitOf(query, a, terms).score > HitOf(query, b, terms).score <==> Nearest(a.score) > Nearest(b.score)
  {
    MorePointsRankFirst(query, a, b, terms);
    CloserHasMore(|query * terms(a.content)|, |query|, Nearest(a.score), Nearest(b.score));
  }

  lemma CloserHasMore(m: nat, n: nat, v: real, w: real)
    requires n > 0
    ensures Points(m, n, v) > Points(m, n, w) <==> v > w
  {
    ScaleKeepsOrder(v, w, n as real);
    assert n as real * v == v * n as real && n as real * w == w * n as real;
  }

  lemma ShareIsAtMostOne(part: nat, whole: nat)
    requires whole > 0 && part <= whole
    ensures 0.0 <= part as real / whole as real <= 1.0
  {
    var ratio := part as real / whole as real;
    assert ratio * whole as real == part as real;
  }

  // A query of a single term finds nothing, whatever is indexed.
  lemma {:induction false} OneTermFindsNothing(query: set<string>, candidates: seq<Candidate>, terms: Terms)
    requires |query| < MINIMUM_MATCHES
    ensures Accepted(query, candidates, terms) == []
  {
    if candidates != [] {
      OneTermFindsNothing(query, candidates[..|candidates| - 1], terms);
      MatchedIsAPart(query, terms(candidates[|candidates| - 1].content));
    }
  }

  lemma {:induction false} AcceptedIff(query: set<string>, candidates: seq<Candidate>, terms: Terms, hit: Hit)
    ensures hit in Accepted(query, candidates, terms) <==>
            hit.candidate in candidates && hit == HitOf(query, hit.candidate, terms) && Evidence(hit)
  {
    if candidates != [] {
      AcceptedIff(query, candidates[..|candidates| - 1], terms, hit);
      assert candidates == candidates[..|candidates| - 1] + [candidates[|candidates| - 1]];
    }
  }

  // ---- the ranking ----------------------------------------------------------------------------

  predicate Descending(hits: seq<Hit>) {
    |hits| < 2 || (hits[0].score >= hits[1].score && Descending(hits[1..]))
  }

  lemma {:induction false} PlaceDescends(sorted: seq<Hit>, hit: Hit)
    requires Descending(sorted)
    ensures Descending(Place(sorted, hit)) && Place(sorted, hit) != []
    ensures Place(sorted, hit)[0] == hit || (sorted != [] && Place(sorted, hit)[0] == sorted[0])
  {
    if sorted != [] && sorted[0].score >= hit.score {
      PlaceDescends(sorted[1..], hit);
      assert Place(sorted, hit)[1..] == Place(sorted[1..], hit);
    } else {
      assert Place(sorted, hit)[1..] == sorted;
    }
  }

  lemma {:induction false} PlaceAddsOne(sorted: seq<Hit>, hit: Hit)
    ensures multiset(Place(sorted, hit)) == multiset(sorted) + multiset{hit}
  {
    if sorted != [] && sorted[0].score >= hit.score {
      PlaceAddsOne(sorted[1..], hit);
      assert sorted == [sorted[0]] + sorted[1..];
    }
  }

  lemma {:induction false} SortedDescends(hits: seq<Hit>)
    ensures Descending(Sorted(hits))
  {
    if hits != [] {
      SortedDescends(hits[..|hits| - 1]);
      PlaceDescends(Sorted(hits[..|hits| - 1]), hits[|hits| - 1]);
    }
  }

  lemma {:induction false} SortedIsPermutation(hits: seq<Hit>)
    ensures multiset(Sorted(hits)) == multiset(hits)
  {
    if hits != [] {
      var before, last := hits[..|hits| - 1], hits[|hits| - 1];
      SortedIsPermutation(before);
      PlaceAddsOne(Sorted(before), last);
      assert hits == before + [last];
    }
  }

  lemma {:induction false} DescendingAt(hits: seq<Hit>, i: nat, j: nat)
    requires Descending(hits) && i <= j < |hits|
    ensures hits[i].score >= hits[j].score
  {
    if i > 0 {
      DescendingAt(hits[1..], i - 1, j - 1);
    } else if j > 0 {
      DescendingAt(hits[1..], 0, j - 1);
    }
  }

  // What is returned is the best of the evidence: nothing left out scores higher than anything
  // returned, and nothing is left out while there is room.
  lemma ReturnedAreTheBest(accepted: seq<Hit>, limit: nat)
    ensures var ranked := Sorted(accepted);
            var returned, left := ranked[..Min(limit, |ranked|)], ranked[Min(limit, |ranked|)..];
            && multiset(returned) + multiset(left) == multiset(accepted)
            && Descending(ranked)
            && (forall a, b | a in returned && b in left :: a.score >= b.score)
            && (left != [] ==> |returned| == limit)
  {
    SortedDescends(accepted);
    SortedIsPermutation(accepted);
    assert |Sorted(accepted)| == |multiset(Sorted(accepted))| == |multiset(accepted)| == |accepted|;
    CutSplits(Sorted(accepted), Min(limit, |accepted|));
  }

  lemma CutSplits(ranked: seq<Hit>, cut: nat)
    requires Descending(ranked) && cut <= |ranked|
    ensures multiset(ranked[..cut]) + multiset(ranked[cut..]) == multiset(ranked)
    ensures forall a, b | a in ranked[..cut] && b in ranked[cut..] :: a.score >= b.score
  {
    assert ranked == ranked[..cut] + ranked[cut..];
    forall a, b | a in ranked[..cut] && b in ranked[cut..] ensures a.score >= b.score {
      AboveTheCut(ranked, cut, a, b);
    }
  }

  lemma AboveTheCut(ranked: seq<Hit>, cut: nat, a: Hit, b: Hit)
    requires Descending(ranked) && cut <= |ranked| && a in ranked[..cut] && b in ranked[cut..]
    ensures a.score >= b.score
  {
    var i :| 0 <= i < cut && ranked[..cut][i] == a;
    var j :| 0 <= j < |ranked| - cut && ranked[cut..][j] == b;
    DescendingAt(ranked, i, cut + j);
  }

  // Equal scores keep the order of the vector search: the sort only ever moves a hit before one
  // that scores strictly less.
  function WithScore(hits: seq<Hit>, score: real): seq<Hit> {
    if hits == [] then [] else OneWith(hits[0], score) + WithScore(hits[1..], score)
  }

  function OneWith(hit: Hit, score: real): seq<Hit> { if hit.score == score then [hit] else [] }

  lemma {:induction false} WithScoreAppend(hits: seq<Hit>, last: Hit, score: real)
    ensures WithScore(hits + [last], score) == WithScore(hits, score) + OneWith(last, score)
  {
    if hits == [] {
      assert [last][1..] == [];
    } else {
      var rest := hits[1..];
      WithScoreAppend(rest, last, score);
      assert (hits + [last])[1..] == rest + [last];
      assert OneWith(hits[0], score) + (WithScore(rest, score) + OneWith(last, score))
          == (OneWith(hits[0], score) + WithScore(rest, score)) + OneWith(last, score);
    }
  }

  lemma {:induction false} NoneBelow(sorted: seq<Hit>, score: real)
    requires Descending(sorted) && sorted != [] && sorted[0].score < score
    ensures WithScore(sorted, score) == []
  {
    if |sorted| > 1 {
      NoneBelow(sorted[1..], score);
    }
  }

  lemma {:induction false} PlaceIsStable(sorted: seq<Hit>, hit: Hit, score: real)
    requires Descending(sorted)
    ensures WithScore(Place(sorted, hit), score) == WithScore(sorted, score) + OneWith(hit, score)
  {
    if sorted == [] || sorted[0].score < hit.score {
      assert ([hit] + sorted)[1..] == sorted;
      if sorted != [] && hit.score == score {
        NoneBelow(sorted, score);
      }
    } else {
      PlaceIsStable(sorted[1..], hit, score);
      assert Place(sorted, hit)[1..] == Place(sorted[1..], hit);
    }
  }

  lemma {:induction false} SortIsStable(hits: seq<Hit>, score: real)
    ensures WithScore(Sorted(hits), score) == WithScore(hits, score)
  {
    if hits != [] {
      var before, last := hits[..|hits| - 1], hits[|hits| - 1];
      assert hits == before + [last];
      assert Sorted(hits) == Place(Sorted(before), last);
      SortIsStable(before, score);
      SortedDescends(before);
      PlaceIsStable(Sorted(before), last, score);
      WithScoreAppend(before, last, score);
    }
  }
}
