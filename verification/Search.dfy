/**
 Hybrid card search: vector and lexical candidates merged and ranked by one key, and the titles of
 connected cards, first come first kept.
 */
module Search {
  import opened Common
  import opened Sorting

  const RRF_K := 60

  datatype Match = Match(id: int, version: int, title: string, content: string)

  datatype VectorCandidate = VectorCandidate(card: Match, rank: nat)

  datatype LexicalCandidate = LexicalCandidate(
    card: Match, rank: nat, score: real, exactTitle: bool, titlePhrase: bool, allTokens: bool)

  datatype SearchError = VectorLimitTooSmall

  /** `_rrf` */
  function Rrf(rank: Option<nat>): real {
    if rank == None then 0.0 else 1.0 / (RRF_K + rank.value) as real
  }

  function Bit(b: bool): real {
    if b then 1.0 else 0.0
  }

  /** The dictionaries filled from the candidates: last rank, last lexical candidate per card. */
  datatype Ranks = Ranks(vector: map<int, nat>, lexical: map<int, LexicalCandidate>, limit: int)

  /** `sort_key`: title boosts, fused score, lexical score, the two ranks, and the card id last. */
  function SortKey(m: Match, r: Ranks): seq<real> {
    var lexical := Get(r.lexical, m.id);
    var vectorRank := Get(r.vector, m.id);
    [if lexical.Some? then -Bit(lexical.value.exactTitle) else 0.0,
     if lexical.Some? then -Bit(lexical.value.titlePhrase) else 0.0,
     if lexical.Some? then -Bit(lexical.value.allTokens) else 0.0,
     -(Rrf(vectorRank) + Rrf(if lexical.Some? then Some(lexical.value.rank) else None)),
     if lexical.Some? then -lexical.value.score else 0.0,
     if lexical.Some? then lexical.value.rank as real else (r.limit + 1) as real,
     if vectorRank.Some? then vectorRank.value as real else (r.limit + 1) as real,
     m.id as real]
  }

  /** Comparison of equally long keys, first difference first. */
  predicate KeyBefore(a: seq<real>, b: seq<real>) {
    a == [] || b == [] || a[0] < b[0] || (a[0] == b[0] && KeyBefore(a[1..], b[1..]))
  }

  function RankBefore(r: Ranks): (Match, Match) -> bool {
    (x, y) => KeyBefore(SortKey(x, r), SortKey(y, r))
  }

  function VectorRanks(vector: seq<VectorCandidate>): map<int, nat> {
    if vector == [] then map[]
    else VectorRanks(vector[..|vector| - 1])[vector[|vector| - 1].card.id := vector[|vector| - 1].rank]
  }

  function LexicalById(lexical: seq<LexicalCandidate>): map<int, LexicalCandidate> {
    if lexical == [] then map[]
    else LexicalById(lexical[..|lexical| - 1])[lexical[|lexical| - 1].card.id := lexical[|lexical| - 1]]
  }

  predicate HasId(matches: seq<Match>, id: int) {
    exists k :: 0 <= k < |matches| && matches[k].id == id
  }

  /** The dictionary of matches in insertion order: a vector candidate only fills an empty place. */
  function FromVector(vector: seq<VectorCandidate>): seq<Match> {
    if vector == [] then []
    else
      var kept := FromVector(vector[..|vector| - 1]);
      var card := vector[|vector| - 1].card;
      if HasId(kept, card.id) then kept else kept + [card]
  }

  function Replaced(matches: seq<Match>, card: Match): seq<Match> {
    seq(|matches|, k requires 0 <= k < |matches| => if matches[k].id == card.id then card else matches[k])
  }

  /** A lexical candidate takes its card's place, or a new one at the end. */
  function Merged(vector: seq<VectorCandidate>, lexical: seq<LexicalCandidate>): seq<Match> {
    if lexical == [] then FromVector(vector)
    else
      var kept := Merged(vector, lexical[..|lexical| - 1]);
      var card := lexical[|lexical| - 1].card;
      if HasId(kept, card.id) then Replaced(kept, card) else kept + [card]
  }

  function RanksOf(vector: seq<VectorCandidate>, lexical: seq<LexicalCandidate>, limit: int): Ranks {
    Ranks(VectorRanks(vector), LexicalById(lexical), limit)
  }

  function Ranked(vector: seq<VectorCandidate>, lexical: seq<LexicalCandidate>, limit: int): seq<Match> {
    SortBy(Merged(vector, lexical), RankBefore(RanksOf(vector, lexical, limit)))
  }

  /** `search_searchable_cards`, for the candidates its two searches return. */
  method SearchCards(vector: seq<VectorCandidate>, lexical: seq<LexicalCandidate>, limit: int, vectorLimit: int)
    returns (r: Outcome<seq<Match>, SearchError>)
    ensures r == if limit <= 0 then Ok([])
                 else if vectorLimit < limit then Raised(VectorLimitTooSmall)
                 else Ok(First(Ranked(vector, lexical, limit), limit))
  {
    if limit <= 0 {
      return Ok([]);
    }
    if vectorLimit < limit {
      return Raised(VectorLimitTooSmall);
    }
    var matches: seq<Match> := [];
    var vectorRanks: map<int, nat> := map[];
    for k := 0 to |vector|
      invariant matches == FromVector(vector[..k]) && vectorRanks == VectorRanks(vector[..k])
    {
      assert vector[..k + 1][..k] == vector[..k];
      if !HasId(matches, vector[k].card.id) {
        matches := matches + [vector[k].card];
      }
      vectorRanks := vectorRanks[vector[k].card.id := vector[k].rank];
    }
    assert vector[..|vector|] == vector;
    var lexicalById: map<int, LexicalCandidate> := map[];
    for k := 0 to |lexical|
      invariant matches == Merged(vector, lexical[..k]) && lexicalById == LexicalById(lexical[..k])
    {
      assert lexical[..k + 1][..k] == lexical[..k];
      matches := if HasId(matches, lexical[k].card.id) then Replaced(matches, lexical[k].card) else matches + [lexical[k].card];
      lexicalById := lexicalById[lexical[k].card.id := lexical[k]];
    }
    assert lexical[..|lexical|] == lexical;
    var ranked := SortBy(matches, RankBefore(Ranks(vectorRanks, lexicalById, limit)));
    return Ok(First(ranked, limit));
  }

  // ----- what the ranking is -----

  lemma {:induction false} KeysCompare(a: seq<real>, b: seq<real>)
    requires |a| == |b|
    ensures KeyBefore(a, b) || KeyBefore(b, a)
    ensures KeyBefore(a, b) && KeyBefore(b, a) ==> a == b
  {
    if a != [] {
      KeysCompare(a[1..], b[1..]);
      assert a == [a[0]] + a[1..] && b == [b[0]] + b[1..];
    }
  }

  lemma {:induction false} KeysChain(a: seq<real>, b: seq<real>, c: seq<real>)
    requires |a| == |b| == |c| && KeyBefore(a, b) && KeyBefore(b, c)
    ensures KeyBefore(a, c)
  {
    if a != [] && a[0] == b[0] == c[0] {
      KeysChain(a[1..], b[1..], c[1..]);
    }
  }

  lemma KeyNamesCard(x: Match, y: Match, r: Ranks)
    requires SortKey(x, r) == SortKey(y, r)
    ensures x.id == y.id
  {
    assert SortKey(x, r)[7] == SortKey(y, r)[7];
  }

  /** The ranking is a strict total order on cards with different ids. */
  lemma RankingIsOrder(r: Ranks)
    ensures Preorder(RankBefore(r))
    ensures forall x, y {:trigger RankBefore(r)(x, y)} :: RankBefore(r)(x, y) && RankBefore(r)(y, x) ==> x.id == y.id
  {
    var le := RankBefore(r);
    forall x, y ensures le(x, y) || le(y, x) {
      KeysCompare(SortKey(x, r), SortKey(y, r));
    }
    forall x, y, z | le(x, y) && le(y, z) ensures le(x, z) {
      KeysChain(SortKey(x, r), SortKey(y, r), SortKey(z, r));
    }
    forall x, y | le(x, y) && le(y, x) ensures x.id == y.id {
      KeysCompare(SortKey(x, r), SortKey(y, r));
      KeyNamesCard(x, y, r);
    }
  }

  function Exact(m: Match, r: Ranks): bool {
    m.id in r.lexical && r.lexical[m.id].exactTitle
  }

  function Phrase(m: Match, r: Ranks): bool {
    m.id in r.lexical && r.lexical[m.id].titlePhrase
  }

  function AllTokens(m: Match, r: Ranks): bool {
    m.id in r.lexical && r.lexical[m.id].allTokens
  }

  /** The reciprocal ranks of both searches, added up. */
  function Fused(m: Match, r: Ranks): real {
    Rrf(Get(r.vector, m.id)) + if m.id in r.lexical then Rrf(Some(r.lexical[m.id].rank)) else 0.0
  }

  /** The first differing component decides. */
  lemma {:induction false} FirstDifference(a: seq<real>, b: seq<real>, i: nat)
    requires |a| == |b| && i < |a| && a[..i] == b[..i] && a[i] < b[i]
    ensures KeyBefore(a, b) && !KeyBefore(b, a)
  {
    if i > 0 {
      assert a[0] == a[..i][0] == b[..i][0] == b[0];
      assert a[1..][..i - 1] == a[..i][1..] && b[1..][..i - 1] == b[..i][1..];
      FirstDifference(a[1..], b[1..], i - 1);
    }
  }

  /**
   Exact titles come first, then titles holding the phrase, then titles holding all words; among
   cards alike in these the higher fused score comes first.
   */
  lemma TitlesBeforeScores(x: Match, y: Match, r: Ranks)
    requires (Exact(x, r) && !Exact(y, r))
             || (Exact(x, r) == Exact(y, r) && Phrase(x, r) && !Phrase(y, r))
             || (Exact(x, r) == Exact(y, r) && Phrase(x, r) == Phrase(y, r) && AllTokens(x, r) && !AllTokens(y, r))
             || (Exact(x, r) == Exact(y, r) && Phrase(x, r) == Phrase(y, r) && AllTokens(x, r) == AllTokens(y, r)
                 && Fused(x, r) > Fused(y, r))
    ensures RankBefore(r)(x, y) && !RankBefore(r)(y, x)
  {
    var a, b := SortKey(x, r), SortKey(y, r);
    var i := if Exact(x, r) != Exact(y, r) then 0 else if Phrase(x, r) != Phrase(y, r) then 1
             else if AllTokens(x, r) != AllTokens(y, r) then 2 else 3;
    FirstDifference(a, b, i);
  }

  function ScoreOf(m: Match, r: Ranks): real {
    if m.id in r.lexical then r.lexical[m.id].score else 0.0
  }

  /** The ranks of a card, one more than the limit where a search did not find it. */
  function LexicalRank(m: Match, r: Ranks): int {
    if m.id in r.lexical then r.lexical[m.id].rank else r.limit + 1
  }

  function VectorRank(m: Match, r: Ranks): int {
    if m.id in r.vector then r.vector[m.id] else r.limit + 1
  }

  /** Alike in titles and fused score, a card comes first by its lexical score, then its lexical rank, its vector rank, and its id. */
  lemma TiesAreBroken(x: Match, y: Match, r: Ranks)
    requires Exact(x, r) == Exact(y, r) && Phrase(x, r) == Phrase(y, r) && AllTokens(x, r) == AllTokens(y, r) && Fused(x, r) == Fused(y, r)
    requires if ScoreOf(x, r) != ScoreOf(y, r) then ScoreOf(x, r) > ScoreOf(y, r)
             else if LexicalRank(x, r) != LexicalRank(y, r) then LexicalRank(x, r) < LexicalRank(y, r)
             else if VectorRank(x, r) != VectorRank(y, r) then VectorRank(x, r) < VectorRank(y, r)
             else x.id < y.id
    ensures RankBefore(r)(x, y) && !RankBefore(r)(y, x)
  {
    var a, b := SortKey(x, r), SortKey(y, r);
    var i := if ScoreOf(x, r) != ScoreOf(y, r) then 4 else if LexicalRank(x, r) != LexicalRank(y, r) then 5
             else if VectorRank(x, r) != VectorRank(y, r) then 6 else 7;
    SameFront(a, b, i);
    FirstDifference(a, b, i);
  }

  lemma SameFront(a: seq<real>, b: seq<real>, i: nat)
    requires |a| == |b| && i <= |a| && forall k :: 0 <= k < i ==> a[k] == b[k]
    ensures a[..i] == b[..i]
  {
  }

  /** The vector rank of a card is the rank of the last vector candidate of it. */
  lemma {:induction false} VectorRankIsLast(vector: seq<VectorCandidate>, id: int)
    ensures id in VectorRanks(vector) <==> InVector(vector, id)
    ensures id in VectorRanks(vector) ==>
              exists p :: 0 <= p < |vector| && vector[p].card.id == id && vector[p].rank == VectorRanks(vector)[id]
                          && forall q :: p < q < |vector| ==> vector[q].card.id != id
  {
    if vector != [] {
      var n := |vector| - 1;
      VectorRankIsLast(vector[..n], id);
      if vector[n].card.id == id {
        assert vector[n].rank == VectorRanks(vector)[id];
      } else if id in VectorRanks(vector) {
        var p :| 0 <= p < n && vector[..n][p].card.id == id && vector[..n][p].rank == VectorRanks(vector[..n])[id]
                 && forall q :: p < q < n ==> vector[..n][q].card.id != id;
        assert vector[p].card.id == id;
        forall q | p < q < |vector| ensures vector[q].card.id != id {
          assert q < n ==> vector[..n][q] == vector[q];
        }
      }
      if InVector(vector, id) && vector[n].card.id != id {
        var p :| 0 <= p < |vector| && vector[p].card.id == id;
        assert vector[..n][p].card.id == id;
      }
    }
  }

  /** A better rank scores higher, and any rank more than none. */
  lemma BetterRankScoresHigher(a: nat, b: nat)
    requires a < b
    ensures Rrf(Some(a)) > Rrf(Some(b)) > Rrf(None)
  {
    LargerDivides((RRF_K + a) as real, (RRF_K + b) as real);
  }

  lemma LargerDivides(p: real, q: real)
    requires 0.0 < p < q
    ensures 1.0 / p > 1.0 / q > 0.0
  {
    var x, y := 1.0 / p, 1.0 / q;
    assert x * p == 1.0 && y * q == 1.0;
    assert y > 0.0;
    assert (x - y) * p == y * (q - p);
    assert y * (q - p) > 0.0;
  }

  ghost predicate DistinctCards(s: seq<Match>) {
    forall i, j :: 0 <= i < j < |s| ==> s[i].id != s[j].id
  }

  ghost predicate InVector(vector: seq<VectorCandidate>, id: int) {
    exists k :: 0 <= k < |vector| && vector[k].card.id == id
  }

  ghost predicate InLexical(lexical: seq<LexicalCandidate>, id: int) {
    exists k :: 0 <= k < |lexical| && lexical[k].card.id == id
  }

  lemma {:induction false} FromVectorAre(vector: seq<VectorCandidate>, id: int)
    ensures DistinctCards(FromVector(vector))
    ensures HasId(FromVector(vector), id) <==> InVector(vector, id)
  {
    if vector != [] {
      var n := |vector| - 1;
      FromVectorAre(vector[..n], id);
      var kept, card := FromVector(vector[..n]), vector[n].card;
      HasSnoc(kept, card, id);
      assert InVector(vector, id) <==> InVector(vector[..n], id) || card.id == id by {
        if InVector(vector, id) && card.id != id {
          var k :| 0 <= k < |vector| && vector[k].card.id == id;
          assert vector[..n][k].card.id == id;
        }
        if k :| 0 <= k < n && vector[..n][k].card.id == id {
          assert vector[k].card.id == id;
        }
      }
    }
  }

  lemma HasSnoc(s: seq<Match>, card: Match, id: int)
    ensures HasId(s + [card], id) <==> HasId(s, id) || card.id == id
  {
    var all := s + [card];
    if k :| 0 <= k < |s| && s[k].id == id {
      assert all[k].id == id;
    }
    if card.id == id {
      assert all[|s|].id == id;
    }
    if k :| 0 <= k < |all| && all[k].id == id {
      assert k < |s| ==> s[k].id == id;
    }
  }

  lemma HasReplaced(s: seq<Match>, card: Match, id: int)
    ensures HasId(Replaced(s, card), id) <==> HasId(s, id)
    ensures DistinctCards(s) ==> DistinctCards(Replaced(s, card))
  {
    var all := Replaced(s, card);
    if k :| 0 <= k < |s| && s[k].id == id {
      assert all[k].id == id;
    }
    if k :| 0 <= k < |all| && all[k].id == id {
      assert s[k].id == id;
    }
  }

  /** Each candidate card is merged once. */
  lemma {:induction false} MergedAre(vector: seq<VectorCandidate>, lexical: seq<LexicalCandidate>, id: int)
    ensures DistinctCards(Merged(vector, lexical))
    ensures HasId(Merged(vector, lexical), id) <==> InVector(vector, id) || InLexical(lexical, id)
  {
    if lexical == [] {
      FromVectorAre(vector, id);
    } else {
      var n := |lexical| - 1;
      MergedAre(vector, lexical[..n], id);
      var kept, card := Merged(vector, lexical[..n]), lexical[n].card;
      HasSnoc(kept, card, id);
      HasReplaced(kept, card, id);
      assert InLexical(lexical, id) <==> InLexical(lexical[..n], id) || card.id == id by {
        if InLexical(lexical, id) && card.id != id {
          var k :| 0 <= k < |lexical| && lexical[k].card.id == id;
          assert lexical[..n][k].card.id == id;
        }
        if k :| 0 <= k < n && lexical[..n][k].card.id == id {
          assert lexical[k].card.id == id;
        }
      }
      if card.id == id {
        assert HasId(kept, card.id) ==> HasId(Replaced(kept, card), id);
      }
    }
  }

  lemma DifferentCards(s: seq<Match>, x: Match, y: Match)
    requires DistinctCards(s) && x in s && y in s
    ensures x != y ==> x.id != y.id
  {
  }

  lemma RankedCards(vector: seq<VectorCandidate>, lexical: seq<LexicalCandidate>, limit: int)
    ensures var ranked := Ranked(vector, lexical, limit);
            && Sorted(ranked, RankBefore(RanksOf(vector, lexical, limit)))
            && multiset(ranked) == multiset(Merged(vector, lexical))
            && DistinctCards(ranked)
  {
    var merged, ranked := Merged(vector, lexical), Ranked(vector, lexical, limit);
    RankingIsOrder(RanksOf(vector, lexical, limit));
    SortBySorts(merged, RankBefore(RanksOf(vector, lexical, limit)));
    MergedAre(vector, lexical, 0);
    assert AllDifferent(merged);
    AllDifferentByElements(merged, ranked);
    SameElements(merged, ranked);
    forall i, j | 0 <= i < j < |ranked| ensures ranked[i].id != ranked[j].id {
      assert ranked[i] in merged && ranked[j] in merged && ranked[i] != ranked[j];
      DifferentCards(merged, ranked[i], ranked[j]);
    }
  }

  lemma CutIsFirst(ranked: seq<Match>, limit: nat, le: (Match, Match) -> bool, x: Match, y: Match)
    requires Sorted(ranked, le) && DistinctCards(ranked)
    ensures DistinctCards(First(ranked, limit))
    ensures x in First(ranked, limit) ==> x in ranked
    ensures x in First(ranked, limit) && y in ranked && y !in First(ranked, limit) ==> le(x, y)
  {
    var shown := First(ranked, limit);
    if x in shown && y in ranked {
      var i :| 0 <= i < |shown| && shown[i] == x;
      var j :| 0 <= j < |ranked| && ranked[j] == y;
      assert ranked[i] == x;
      if j < |shown| {
        assert shown[j] == y;
      } else {
        assert le(ranked[i], ranked[j]);
      }
    }
  }

  /**
   The answer: no card twice, as many as the limit allows, every card a candidate of either search,
   and no candidate left out ranks before one that is shown.
   */
  lemma SearchShowsTheFirst(vector: seq<VectorCandidate>, lexical: seq<LexicalCandidate>, limit: nat, x: Match, y: Match)
    ensures var shown := First(Ranked(vector, lexical, limit), limit);
            var merged := Merged(vector, lexical);
            && DistinctCards(shown)
            && |shown| == (if |merged| <= limit then |merged| else limit)
            && (x in shown ==> x in merged)
            && (x in shown && y in merged && y !in shown ==> RankBefore(RanksOf(vector, lexical, limit))(x, y) && x.id != y.id)
  {
    var ranked, merged := Ranked(vector, lexical, limit), Merged(vector, lexical);
    RankedCards(vector, lexical, limit);
    SameElements(merged, ranked);
    assert |ranked| == |multiset(ranked)| == |multiset(merged)| == |merged|;
    CutIsFirst(ranked, limit, RankBefore(RanksOf(vector, lexical, limit)), x, y);
    MergedAre(vector, lexical, 0);
    if x in merged && y in merged {
      DifferentCards(merged, x, y);
    }
  }

  /** A card found lexically is shown as its last lexical candidate describes it. */
  lemma {:induction false} LexicalWins(vector: seq<VectorCandidate>, lexical: seq<LexicalCandidate>, m: Match)
    requires m in Merged(vector, lexical) && m.id in LexicalById(lexical)
    ensures m == LexicalById(lexical)[m.id].card
  {
    var n := |lexical| - 1;
    var kept, card := Merged(vector, lexical[..n]), lexical[n].card;
    LexicalIdsMatch(lexical[..n], m.id);
    if m.id != card.id {
      if HasId(kept, card.id) {
        var k :| 0 <= k < |kept| && Replaced(kept, card)[k] == m;
        assert kept[k] == m;
      }
      LexicalWins(vector, lexical[..n], m);
    } else if HasId(kept, card.id) {
      var k :| 0 <= k < |kept| && Replaced(kept, card)[k] == m;
    } else {
      assert forall k :: 0 <= k < |kept| ==> kept[k].id != card.id;
    }
  }

  lemma {:induction false} LexicalIdsMatch(lexical: seq<LexicalCandidate>, id: int)
    ensures id in LexicalById(lexical) ==> LexicalById(lexical)[id].card.id == id
  {
    if lexical != [] {
      LexicalIdsMatch(lexical[..|lexical| - 1], id);
    }
  }

  // ----- connected titles -----

  datatype Titled = Titled(id: int, title: string)

  function SeenIds(kept: seq<Titled>): set<int> {
    if kept == [] then {} else SeenIds(kept[..|kept| - 1]) + {kept[|kept| - 1].id}
  }

  function SeenTitles(kept: seq<Titled>, excluded: set<string>): set<string> {
    if kept == [] then excluded else SeenTitles(kept[..|kept| - 1], excluded) + {kept[|kept| - 1].title}
  }

  predicate Seen(kept: seq<Titled>, c: Titled, excluded: set<string>) {
    c.id in SeenIds(kept) || c.title in SeenTitles(kept, excluded)
  }

  /** Seen means: an excluded title, or the card or title of something kept. */
  lemma {:induction false} SeenIs(kept: seq<Titled>, c: Titled, excluded: set<string>)
    ensures Seen(kept, c, excluded) <==>
            c.title in excluded || exists k :: 0 <= k < |kept| && (kept[k].id == c.id || kept[k].title == c.title)
  {
    if kept != [] {
      var n := |kept| - 1;
      SeenIs(kept[..n], c, excluded);
      if k :| 0 <= k < n && (kept[k].id == c.id || kept[k].title == c.title) {
        assert kept[..n][k] == kept[k];
      }
    }
  }

  /** The candidates kept among the first `n`. */
  function Kept(candidates: seq<Titled>, n: nat, excluded: set<string>, limit: int): seq<Titled>
    requires n <= |candidates|
  {
    if n == 0 then []
    else
      var kept := Kept(candidates, n - 1, excluded, limit);
      if |kept| >= limit || Seen(kept, candidates[n - 1], excluded) then kept else kept + [candidates[n - 1]]
  }

  function Titles(kept: seq<Titled>): seq<string> {
    seq(|kept|, k requires 0 <= k < |kept| => kept[k].title)
  }

  lemma {:induction false} KeptAreNew(candidates: seq<Titled>, n: nat, excluded: set<string>, limit: int)
    requires n <= |candidates|
    ensures var kept := Kept(candidates, n, excluded, limit);
            && |kept| <= (if limit > 0 then limit else 0)
            && (forall k :: 0 <= k < |kept| ==> kept[k] in candidates[..n] && kept[k].title !in excluded)
            && (forall i, j :: 0 <= i < j < |kept| ==> kept[i].id != kept[j].id && kept[i].title != kept[j].title)
  {
    if n > 0 {
      KeptAreNew(candidates, n - 1, excluded, limit);
      SeenIs(Kept(candidates, n - 1, excluded, limit), candidates[n - 1], excluded);
      assert candidates[..n] == candidates[..n - 1] + [candidates[n - 1]];
    }
  }

  lemma SeenStays(kept: seq<Titled>, more: seq<Titled>, c: Titled, excluded: set<string>)
    requires kept <= more && Seen(kept, c, excluded)
    ensures Seen(more, c, excluded)
  {
    SeenIs(kept, c, excluded);
    SeenIs(more, c, excluded);
    if c.title !in excluded {
      var k :| 0 <= k < |kept| && (kept[k].id == c.id || kept[k].title == c.title);
      assert more[k] == kept[k];
    }
  }

  /**
   Titles are new, of different cards, and at most the limit; when there is room left, every other
   candidate is an excluded title or repeats a card or a title already kept.
   */
  lemma {:induction false} KeptUntilFull(candidates: seq<Titled>, n: nat, excluded: set<string>, limit: int, i: nat)
    requires i < n <= |candidates| && |Kept(candidates, n, excluded, limit)| < limit
    ensures Seen(Kept(candidates, n, excluded, limit), candidates[i], excluded)
  {
    var before, kept := Kept(candidates, n - 1, excluded, limit), Kept(candidates, n, excluded, limit);
    if i < n - 1 {
      KeptUntilFull(candidates, n - 1, excluded, limit, i);
      SeenStays(before, kept, candidates[i], excluded);
    } else if kept != before {
      SeenIs(kept, candidates[i], excluded);
      assert kept[|before|] == candidates[i];
    }
  }

  lemma {:induction false} FullStays(candidates: seq<Titled>, n: nat, m: nat, excluded: set<string>, limit: int)
    requires n <= m <= |candidates| && |Kept(candidates, n, excluded, limit)| >= limit
    ensures Kept(candidates, m, excluded, limit) == Kept(candidates, n, excluded, limit)
  {
    if n < m {
      FullStays(candidates, n, m - 1, excluded, limit);
    }
  }

  lemma {:induction false} NoneKept(candidates: seq<Titled>, n: nat, excluded: set<string>, limit: int)
    requires n <= |candidates| && limit <= 0
    ensures Kept(candidates, n, excluded, limit) == []
  {
    if n > 0 {
      NoneKept(candidates, n - 1, excluded, limit);
    }
  }

  lemma KeptNext(candidates: seq<Titled>, n: nat, next: nat, excluded: set<string>, limit: int)
    requires next == n + 1 <= |candidates| && |Kept(candidates, n, excluded, limit)| < limit
    ensures var kept := Kept(candidates, n, excluded, limit);
            Kept(candidates, next, excluded, limit) ==
            if Seen(kept, candidates[n], excluded) then kept else kept + [candidates[n]]
  {
  }

  lemma SeenSnoc(kept: seq<Titled>, c: Titled, excluded: set<string>)
    ensures SeenIds(kept + [c]) == SeenIds(kept) + {c.id}
    ensures SeenTitles(kept + [c], excluded) == SeenTitles(kept, excluded) + {c.title}
  {
    assert (kept + [c])[..|kept|] == kept;
  }

  /** `get_connected_titles`, for the candidates its query returns. */
  method GetConnectedTitles(candidates: seq<Titled>, excluded: set<string>, limit: int) returns (titles: seq<string>)
    ensures titles == Titles(Kept(candidates, |candidates|, excluded, limit))
  {
    if limit <= 0 {
      NoneKept(candidates, |candidates|, excluded, limit);
      return Titles([]);
    }
    var kept: seq<Titled> := [];
    var seenIds: set<int>, seenTitles: set<string> := {}, excluded;
    var n := 0;
    while n < |candidates| && |kept| < limit
      invariant n <= |candidates| && kept == Kept(candidates, n, excluded, limit)
      invariant seenIds == SeenIds(kept) && seenTitles == SeenTitles(kept, excluded)
      decreases |candidates| - n
    {
      var c := candidates[n];
      KeptNext(candidates, n, n + 1, excluded, limit);
      if c.id !in seenIds && c.title !in seenTitles {
        SeenSnoc(kept, c, excluded);
        seenIds, seenTitles := seenIds + {c.id}, seenTitles + {c.title};
        kept := kept + [c];
      }
      n := n + 1;
    }
    if n < |candidates| {
      FullStays(candidates, n, |candidates|, excluded, limit);
    }
    return Titles(kept);
  }
}
