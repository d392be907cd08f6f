// The specification of Hand.extract_pairs (card.py): sort the hand by rank,
// split it into runs of equal rank (itertools.groupby), and in every run of
// two or more cards take consecutive pairs (recipes.grouper(run, 2)); an odd
// card of a run stays in the hand.

module Pairing {
  import opened Recipes
  import opened Sorting
  import opened Cards

  /** `sorted(stack)`: stable, by rank. */
  function SortedHand(s: seq<Card>): seq<Card>
  {
    SortBy(s, RankOf)
  }

  predicate OneRank(g: seq<Card>)
  {
    forall i :: 0 <= i < |g| ==> g[i].rank == g[0].rank
  }

  /** Length of the run of cards sharing the first card's rank. */
  function RunLength(s: seq<Card>): (n: nat)
    requires s != []
    ensures 1 <= n <= |s|
    ensures forall i :: 0 <= i < n ==> s[i].rank == s[0].rank
    ensures n < |s| ==> s[n].rank != s[0].rank
  {
    if |s| == 1 || s[1].rank != s[0].rank then 1 else 1 + RunLength(s[1..])
  }

  /** `itertools.groupby(s, key=rank)`: the maximal runs of equal rank, in order. */
  function GroupByRank(s: seq<Card>): (groups: seq<seq<Card>>)
    ensures |groups| <= |s|
    decreases |s|
  {
    if s == [] then []
    else
      var n := RunLength(s);
      [s[..n]] + GroupByRank(s[n..])
  }

  /** The runs of groupby cover the hand in order, each holds one rank, and
      neighbouring runs differ in rank (the runs are maximal). */
  lemma GroupByRankFacts(s: seq<Card>)
    ensures Flatten(GroupByRank(s)) == s
    ensures forall i :: 0 <= i < |GroupByRank(s)| ==> GroupByRank(s)[i] != [] && OneRank(GroupByRank(s)[i])
    ensures forall i, j :: 0 <= i < j < |GroupByRank(s)| && j == i + 1 ==>
              GroupByRank(s)[i][0].rank != GroupByRank(s)[j][0].rank
  {
    GroupsCover(s);
    GroupsOneRank(s);
    GroupsMaximal(s);
  }

  lemma {:induction false} GroupsCover(s: seq<Card>)
    ensures Flatten(GroupByRank(s)) == s
    decreases |s|
  {
    if s != [] {
      var n := RunLength(s);
      assert GroupByRank(s) == [s[..n]] + GroupByRank(s[n..]);
      GroupsCover(s[n..]);
      assert s == s[..n] + s[n..];
    }
  }

  lemma {:induction false} GroupsOneRank(s: seq<Card>)
    ensures forall i :: 0 <= i < |GroupByRank(s)| ==> GroupByRank(s)[i] != [] && OneRank(GroupByRank(s)[i])
    decreases |s|
  {
    if s != [] {
      var n := RunLength(s);
      var rest := GroupByRank(s[n..]);
      var groups: seq<seq<Card>> := GroupByRank(s);
      assert groups == [s[..n]] + rest;
      GroupsOneRank(s[n..]);
      assert OneRank(s[..n]);
      forall i | 0 < i < |groups| ensures groups[i] != [] && OneRank(groups[i]) {
        assert groups[i] == rest[i - 1];
      }
    }
  }

  lemma {:induction false} GroupsMaximal(s: seq<Card>)
    ensures forall i, j :: 0 <= i < j < |GroupByRank(s)| && j == i + 1 ==>
              GroupByRank(s)[i] != [] && GroupByRank(s)[j] != [] &&
              GroupByRank(s)[i][0].rank != GroupByRank(s)[j][0].rank
    decreases |s|
  {
    if s != [] {
      var n := RunLength(s);
      var rest := GroupByRank(s[n..]);
      var groups: seq<seq<Card>> := GroupByRank(s);
      assert groups == [s[..n]] + rest;
      GroupsMaximal(s[n..]);
      GroupsOneRank(s);
      forall i: int, j: int | 0 <= i < j < |groups| && j == i + 1
        ensures groups[i] != [] && groups[j] != [] && groups[i][0].rank != groups[j][0].rank
      {
        if i == 0 {
          GroupsCover(s[n..]);
          GroupsOneRank(s[n..]);
          FlattenHead(rest);
          assert groups[0][0] == s[0] && groups[1][0] == s[n];
        } else {
          assert groups[i] == rest[i - 1] && groups[j] == rest[j - 1];
        }
      }
    } else {
      assert GroupByRank(s) == [];
    }
  }

  lemma FlattenHead(xss: seq<seq<Card>>)
    requires xss != [] && xss[0] != []
    ensures Flatten(xss) != [] && Flatten(xss)[0] == xss[0][0]
  {
  }

  /** Pairs of cards from chunks of two. */
  function ChunkPairs(chunks: seq<seq<Card>>): seq<(Card, Card)>
    requires forall i :: 0 <= i < |chunks| ==> |chunks[i]| == 2
  {
    if chunks == [] then [] else [(chunks[0][0], chunks[0][1])] + ChunkPairs(chunks[1..])
  }

  /** The pairs taken from one run: `grouper(run, 2)`. */
  function RunPairs(g: seq<Card>): seq<(Card, Card)>
  {
    ChunkPairs(Grouper(g, 2))
  }

  /** What a run leaves in the hand: its last card when its length is odd. */
  function Leftover(g: seq<Card>): seq<Card>
  {
    g[2 * (|g| / 2)..]
  }

  /** Pairs from every run of two or more cards, run by run. */
  function PairsOf(groups: seq<seq<Card>>): seq<(Card, Card)>
  {
    if groups == [] then []
    else (if |groups[0]| > 1 then RunPairs(groups[0]) else []) + PairsOf(groups[1..])
  }

  function LeftoversOf(groups: seq<seq<Card>>): seq<Card>
  {
    if groups == [] then [] else Leftover(groups[0]) + LeftoversOf(groups[1..])
  }

  /** The pairs `extract_pairs` returns for a hand s. */
  function ExtractedPairs(s: seq<Card>): seq<(Card, Card)>
  {
    PairsOf(GroupByRank(SortedHand(s)))
  }

  /** The hand `extract_pairs` leaves behind. */
  function RemainingHand(s: seq<Card>): seq<Card>
  {
    LeftoversOf(GroupByRank(SortedHand(s)))
  }

  /** The cards of a list of pairs. */
  function PairCards(ps: seq<(Card, Card)>): multiset<Card>
  {
    if ps == [] then multiset{} else multiset{ps[0].0, ps[0].1} + PairCards(ps[1..])
  }

  /** No two cards share a rank. */
  predicate PairFree(s: seq<Card>)
  {
    forall i, j {:trigger s[i].rank, s[j].rank} :: 0 <= i < j < |s| ==> s[i].rank != s[j].rank
  }

  /** Number of cards of rank r. */
  function CountRank(s: seq<Card>, r: int): nat
  {
    |WithKey(s, RankOf, r)|
  }

  /** Number of pairs whose cards have rank r. */
  function PairsOfRank(ps: seq<(Card, Card)>, r: int): nat
  {
    if ps == [] then 0 else (if ps[0].0.rank == r then 1 else 0) + PairsOfRank(ps[1..], r)
  }

  // ---------------------------------------------------------------------------
  // Concatenation lemmas used by the extraction loop

  lemma {:induction false} PairsOfAppend(a: seq<seq<Card>>, b: seq<seq<Card>>)
    ensures PairsOf(a + b) == PairsOf(a) + PairsOf(b)
  {
    if a == [] {
      assert a + b == b;
    } else {
      assert (a + b)[1..] == a[1..] + b;
      PairsOfAppend(a[1..], b);
    }
  }

  lemma {:induction false} LeftoversOfAppend(a: seq<seq<Card>>, b: seq<seq<Card>>)
    ensures LeftoversOf(a + b) == LeftoversOf(a) + LeftoversOf(b)
  {
    if a == [] {
      assert a + b == b;
    } else {
      assert (a + b)[1..] == a[1..] + b;
      LeftoversOfAppend(a[1..], b);
    }
  }

  lemma {:induction false} ChunkPairsAppend(a: seq<seq<Card>>, b: seq<seq<Card>>)
    requires forall i :: 0 <= i < |a| ==> |a[i]| == 2
    requires forall i :: 0 <= i < |b| ==> |b[i]| == 2
    ensures ChunkPairs(a + b) == ChunkPairs(a) + ChunkPairs(b)
  {
    if a == [] {
      assert a + b == b;
    } else {
      assert (a + b)[1..] == a[1..] + b;
      ChunkPairsAppend(a[1..], b);
    }
  }

  lemma {:induction false} PairCardsAppend(a: seq<(Card, Card)>, b: seq<(Card, Card)>)
    ensures PairCards(a + b) == PairCards(a) + PairCards(b)
  {
    if a == [] {
      assert a + b == b;
    } else {
      assert (a + b)[1..] == a[1..] + b;
      PairCardsAppend(a[1..], b);
    }
  }

  lemma {:induction false} PairsOfRankAppend(a: seq<(Card, Card)>, b: seq<(Card, Card)>, r: int)
    ensures PairsOfRank(a + b, r) == PairsOfRank(a, r) + PairsOfRank(b, r)
  {
    if a == [] {
      assert a + b == b;
    } else {
      assert (a + b)[1..] == a[1..] + b;
      PairsOfRankAppend(a[1..], b, r);
    }
  }

  lemma {:induction false} WithKeyAppend(a: seq<Card>, b: seq<Card>, r: int)
    ensures WithKey(a + b, RankOf, r) == WithKey(a, RankOf, r) + WithKey(b, RankOf, r)
  {
    if a == [] {
      assert a + b == b;
    } else {
      assert a + b == [a[0]] + (a[1..] + b) && a == [a[0]] + a[1..];
      WithKeyAppend(a[1..], b, r);
      WithKeyCons(a[0], a[1..] + b, RankOf, r);
      WithKeyCons(a[0], a[1..], RankOf, r);
    }
  }

  // ---------------------------------------------------------------------------
  // One run

  /** The pairs of chunks hold exactly the chunks' cards. */
  lemma {:induction false} ChunkPairsCards(chunks: seq<seq<Card>>)
    requires forall i :: 0 <= i < |chunks| ==> |chunks[i]| == 2
    ensures PairCards(ChunkPairs(chunks)) == multiset(Flatten(chunks))
    ensures |ChunkPairs(chunks)| == |chunks|
  {
    if chunks != [] {
      ChunkPairsCards(chunks[1..]);
      assert chunks[0] == [chunks[0][0], chunks[0][1]];
    }
  }

  /** A run is split into its pairs and its leftover, and nothing else. */
  lemma RunConserves(g: seq<Card>)
    ensures multiset(g) == multiset(Leftover(g)) + PairCards(RunPairs(g))
    ensures |g| == |Leftover(g)| + 2 * |RunPairs(g)|
    ensures |Leftover(g)| == |g| % 2 && |RunPairs(g)| == |g| / 2
  {
    var k := 2 * (|g| / 2);
    HalfAndRest(|g|);
    GrouperFlatten(g, 2);
    ChunkPairsCards(Grouper(g, 2));
    SplitMultiset(g, k);
  }

  lemma HalfAndRest(a: nat)
    ensures 2 * (a / 2) <= a && a - 2 * (a / 2) == a % 2
  {
  }

  lemma SplitMultiset(g: seq<Card>, k: nat)
    requires k <= |g|
    ensures multiset(g) == multiset(g[..k]) + multiset(g[k..])
  {
    assert g == g[..k] + g[k..];
  }

  /** Every pair of a one-rank run has the run's rank. */
  lemma {:induction false} ChunkPairsRank(chunks: seq<seq<Card>>, r: int)
    requires forall i :: 0 <= i < |chunks| ==> |chunks[i]| == 2
    requires forall i, j :: 0 <= i < |chunks| && 0 <= j < 2 ==> chunks[i][j].rank == r
    ensures forall i :: 0 <= i < |ChunkPairs(chunks)| ==>
              ChunkPairs(chunks)[i].0.rank == r && ChunkPairs(chunks)[i].1.rank == r
    ensures PairsOfRank(ChunkPairs(chunks), r) == |chunks|
  {
    if chunks != [] {
      ChunkPairsRank(chunks[1..], r);
    }
  }

  lemma RunPairsRank(g: seq<Card>)
    requires g != [] && OneRank(g)
    ensures forall i :: 0 <= i < |RunPairs(g)| ==>
              RunPairs(g)[i].0.rank == g[0].rank && RunPairs(g)[i].1.rank == g[0].rank
    ensures PairsOfRank(RunPairs(g), g[0].rank) == |g| / 2
  {
    var chunks: seq<seq<Card>> := Grouper(g, 2);
    forall i: int, j: int | 0 <= i < |chunks| && 0 <= j < 2 ensures chunks[i][j].rank == g[0].rank {
      GrouperChunk(g, 2, i);
      assert chunks[i][j] == g[2 * i + j];
    }
    ChunkPairsRank(chunks, g[0].rank);
  }

  /** A pair list with no pair of rank r. */
  lemma {:induction false} PairsOfRankNone(ps: seq<(Card, Card)>, r: int)
    requires forall i :: 0 <= i < |ps| ==> ps[i].0.rank != r
    ensures PairsOfRank(ps, r) == 0
  {
    if ps != [] {
      PairsOfRankNone(ps[1..], r);
    }
  }

  lemma {:induction false} WithKeyNone(s: seq<Card>, r: int)
    requires forall i :: 0 <= i < |s| ==> s[i].rank != r
    ensures WithKey(s, RankOf, r) == []
  {
    if s != [] {
      WithKeyNone(s[1..], r);
    }
  }

  lemma {:induction false} WithKeyAll(s: seq<Card>, r: int)
    requires forall i :: 0 <= i < |s| ==> s[i].rank == r
    ensures WithKey(s, RankOf, r) == s
  {
    if s != [] {
      WithKeyAll(s[1..], r);
    }
  }

  // ---------------------------------------------------------------------------
  // All runs

  /** Groups are one-rank runs whose ranks strictly increase. */
  predicate AscendingRuns(groups: seq<seq<Card>>)
  {
    && (forall i :: 0 <= i < |groups| ==> groups[i] != [] && OneRank(groups[i]))
    && (forall i, j :: 0 <= i < j < |groups| ==> groups[i][0].rank < groups[j][0].rank)
  }

  lemma AscendingTail(groups: seq<seq<Card>>)
    requires groups != [] && AscendingRuns(groups)
    ensures AscendingRuns(groups[1..])
    ensures groups[1..] != [] ==> groups[0][0].rank < groups[1][0].rank
  {
    var rest: seq<seq<Card>> := groups[1..];
    forall i, j | 0 <= i < j < |rest| ensures rest[i][0].rank < rest[j][0].rank {
      assert rest[i] == groups[i + 1] && rest[j] == groups[j + 1];
    }
  }

  lemma AscendingCons(g: seq<Card>, rest: seq<seq<Card>>)
    requires g != [] && OneRank(g) && AscendingRuns(rest)
    requires rest != [] ==> g[0].rank < rest[0][0].rank
    ensures AscendingRuns([g] + rest)
  {
    var groups: seq<seq<Card>> := [g] + rest;
    forall i: int, j: int | 0 <= i < j < |groups| ensures groups[i][0].rank < groups[j][0].rank {
      if i == 0 {
        assert groups[j] == rest[j - 1];
        if j > 1 {
          assert rest[0][0].rank < rest[j - 1][0].rank;
        }
      } else {
        assert groups[i] == rest[i - 1] && groups[j] == rest[j - 1];
      }
    }
  }

  lemma SortedSuffix(s: seq<Card>, n: nat)
    requires n <= |s| && SortedBy(s, RankOf)
    ensures SortedBy(s[n..], RankOf)
  {
    forall i, j | 0 <= i < j < |s[n..]| ensures RankOf(s[n..][i]) <= RankOf(s[n..][j]) {
      assert s[n..][i] == s[n + i] && s[n..][j] == s[n + j];
    }
  }

  /** Runs of a rank-sorted hand have strictly increasing ranks. */
  lemma {:induction false} GroupsAscend(s: seq<Card>)
    requires SortedBy(s, RankOf)
    ensures AscendingRuns(GroupByRank(s))
    decreases |s|
  {
    if s != [] {
      var n := RunLength(s);
      var rest := GroupByRank(s[n..]);
      assert GroupByRank(s) == [s[..n]] + rest;
      SortedSuffix(s, n);
      GroupsAscend(s[n..]);
      if rest != [] {
        GroupsCover(s[n..]);
        GroupsOneRank(s[n..]);
        FlattenHead(rest);
        assert rest[0][0] == s[n];
        assert RankOf(s[0]) <= RankOf(s[n]);
      }
      assert OneRank(s[..n]);
      AscendingCons(s[..n], rest);
    }
  }

  /** Every card of the runs has a rank at least that of the first run. */
  lemma {:induction false} RunsRankAbove(groups: seq<seq<Card>>, b: int)
    requires AscendingRuns(groups)
    requires groups != [] ==> b <= groups[0][0].rank
    ensures forall c :: c in LeftoversOf(groups) ==> b <= c.rank
    ensures forall c :: c in Flatten(groups) ==> b <= c.rank
    ensures forall i :: 0 <= i < |PairsOf(groups)| ==> b <= PairsOf(groups)[i].0.rank
  {
    if groups != [] {
      var g := groups[0];
      var rest := groups[1..];
      AscendingTail(groups);
      if rest != [] {
        assert groups[0][0].rank < groups[1][0].rank;
      }
      RunsRankAbove(rest, b);
      assert forall c :: c in g ==> c.rank == g[0].rank;
      assert forall c :: c in Leftover(g) ==> c in g;
      if |g| > 1 {
        RunPairsRank(g);
      }
      var own := if |g| > 1 then RunPairs(g) else [];
      forall i | 0 <= i < |PairsOf(groups)| ensures b <= PairsOf(groups)[i].0.rank {
        if i >= |own| {
          assert PairsOf(groups)[i] == PairsOf(rest)[i - |own|];
        }
      }
    }
  }

  /** The leftovers of ascending runs have strictly increasing ranks. */
  lemma {:induction false} LeftoversAscend(groups: seq<seq<Card>>)
    requires AscendingRuns(groups)
    ensures forall i, j :: 0 <= i < j < |LeftoversOf(groups)| ==>
              LeftoversOf(groups)[i].rank < LeftoversOf(groups)[j].rank
  {
    if groups != [] {
      var g := groups[0];
      var rest := groups[1..];
      AscendingTail(groups);
      LeftoversAscend(rest);
      if rest != [] {
        assert groups[0][0].rank < groups[1][0].rank;
        RunsRankAbove(rest, g[0].rank + 1);
      }
      var own := Leftover(g);
      assert |own| <= 1;
      var all := LeftoversOf(groups);
      forall i, j | 0 <= i < j < |all| ensures all[i].rank < all[j].rank {
        if i < |own| {
          assert all[i] in g;
          assert all[j] == LeftoversOf(rest)[j - |own|];
          assert all[j] in LeftoversOf(rest);
        } else {
          assert all[i] == LeftoversOf(rest)[i - |own|];
          assert all[j] == LeftoversOf(rest)[j - |own|];
        }
      }
    }
  }

  /** Every pair has two cards of one rank. */
  lemma {:induction false} PairsSameRank(groups: seq<seq<Card>>)
    requires AscendingRuns(groups)
    ensures forall i :: 0 <= i < |PairsOf(groups)| ==>
              PairsOf(groups)[i].0.rank == PairsOf(groups)[i].1.rank
  {
    if groups != [] {
      var g := groups[0];
      var rest := groups[1..];
      AscendingTail(groups);
      PairsSameRank(rest);
      if |g| > 1 {
        RunPairsRank(g);
      }
      var own := if |g| > 1 then RunPairs(g) else [];
      var all := PairsOf(groups);
      assert all == own + PairsOf(rest);
      forall i | 0 <= i < |all| ensures all[i].0.rank == all[i].1.rank {
        if i >= |own| {
          assert all[i] == PairsOf(rest)[i - |own|];
        }
      }
    }
  }

  /** Pair ranks never decrease. */
  lemma {:induction false} PairsAscend(groups: seq<seq<Card>>)
    requires AscendingRuns(groups)
    ensures forall i, j :: 0 <= i < j < |PairsOf(groups)| ==>
              PairsOf(groups)[i].0.rank <= PairsOf(groups)[j].0.rank
  {
    if groups != [] {
      var g := groups[0];
      var rest := groups[1..];
      AscendingTail(groups);
      PairsAscend(rest);
      var own := if |g| > 1 then RunPairs(g) else [];
      var tail := PairsOf(rest);
      var all := PairsOf(groups);
      assert all == own + tail;
      assert forall i :: 0 <= i < |own| ==> own[i].0.rank == g[0].rank by {
        if |g| > 1 {
          RunPairsRank(g);
        }
      }
      assert forall j :: 0 <= j < |tail| ==> g[0].rank <= tail[j].0.rank by {
        if rest != [] {
          assert groups[0][0].rank < groups[1][0].rank;
        }
        RunsRankAbove(rest, g[0].rank);
      }
      forall i, j | 0 <= i < j < |all| ensures all[i].0.rank <= all[j].0.rank {
        if j < |own| {
          assert all[i] == own[i] && all[j] == own[j];
        } else if i < |own| {
          assert all[i] == own[i] && all[j] == tail[j - |own|];
        } else {
          assert all[i] == tail[i - |own|] && all[j] == tail[j - |own|];
        }
      }
    }
  }

  /** Runs split into leftovers and pairs, and nothing else. */
  lemma {:induction false} RunsConserve(groups: seq<seq<Card>>)
    ensures multiset(Flatten(groups)) == multiset(LeftoversOf(groups)) + PairCards(PairsOf(groups))
  {
    if groups != [] {
      var g := groups[0];
      RunsConserve(groups[1..]);
      RunConserves(g);
      var own := if |g| > 1 then RunPairs(g) else [];
      assert |g| <= 1 ==> RunPairs(g) == [] && Leftover(g) == g;
      PairCardsAppend(own, PairsOf(groups[1..]));
    }
  }

  /** A rank's cards in ascending runs all lie in one run: the count over
      the runs is the first run's count plus the rest's, one of them zero. */
  lemma RunsRankSplit(groups: seq<seq<Card>>, r: int)
    requires groups != [] && AscendingRuns(groups)
    ensures AscendingRuns(groups[1..])
    ensures CountRank(Flatten(groups), r)
            == if groups[0][0].rank == r then CountRank(groups[0], r) else CountRank(Flatten(groups[1..]), r)
  {
    var g := groups[0];
    var rest := groups[1..];
    AscendingTail(groups);
    WithKeyAppend(g, Flatten(rest), r);
    assert Flatten(groups) == g + Flatten(rest);
    RunCounts(g, r);
    if g[0].rank == r {
      RunsAboveRank(rest, r);
    }
  }

  /** Of a rank with k cards in ascending runs, k % 2 stay among the leftovers. */
  lemma {:induction false} RunsLeftoverCount(groups: seq<seq<Card>>, r: int)
    requires AscendingRuns(groups)
    ensures CountRank(LeftoversOf(groups), r) == CountRank(Flatten(groups), r) % 2
  {
    if groups != [] {
      var g := groups[0];
      var rest := groups[1..];
      RunsRankSplit(groups, r);
      RunsLeftoverCount(rest, r);
      RunCounts(g, r);
      WithKeyAppend(Leftover(g), LeftoversOf(rest), r);
      assert LeftoversOf(groups) == Leftover(g) + LeftoversOf(rest);
      if g[0].rank == r {
        RunsAboveRank(rest, r);
      }
    }
  }

  /** Of a rank with k cards in ascending runs, k / 2 pairs are formed. */
  lemma {:induction false} RunsPairCount(groups: seq<seq<Card>>, r: int)
    requires AscendingRuns(groups)
    ensures PairsOfRank(PairsOf(groups), r) == CountRank(Flatten(groups), r) / 2
  {
    if groups != [] {
      var g := groups[0];
      var rest := groups[1..];
      RunsRankSplit(groups, r);
      RunsPairCount(rest, r);
      RunCounts(g, r);
      var own := if |g| > 1 then RunPairs(g) else [];
      PairsOfRankAppend(own, PairsOf(rest), r);
      assert PairsOf(groups) == own + PairsOf(rest);
      if g[0].rank == r {
        RunsAboveRank(rest, r);
      }
    }
  }

  /** Rank counts within one run. */
  lemma RunCounts(g: seq<Card>, r: int)
    requires g != [] && OneRank(g)
    ensures CountRank(g, r) == if g[0].rank == r then |g| else 0
    ensures CountRank(Leftover(g), r) == CountRank(g, r) % 2
    ensures PairsOfRank(if |g| > 1 then RunPairs(g) else [], r) == CountRank(g, r) / 2
  {
    RunConserves(g);
    assert forall i :: 0 <= i < |Leftover(g)| ==> Leftover(g)[i] == g[2 * (|g| / 2) + i];
    var own := if |g| > 1 then RunPairs(g) else [];
    if |g| > 1 {
      RunPairsRank(g);
    }
    if g[0].rank == r {
      WithKeyAll(g, r);
      WithKeyAll(Leftover(g), r);
    } else {
      WithKeyNone(g, r);
      WithKeyNone(Leftover(g), r);
      assert forall i :: 0 <= i < |own| ==> own[i].0.rank != r;
      PairsOfRankNone(own, r);
    }
  }

  /** Runs that all lie above rank r hold no card and no pair of rank r. */
  lemma RunsAboveRank(groups: seq<seq<Card>>, r: int)
    requires AscendingRuns(groups)
    requires groups != [] ==> r < groups[0][0].rank
    ensures CountRank(Flatten(groups), r) == 0
    ensures CountRank(LeftoversOf(groups), r) == 0
    ensures PairsOfRank(PairsOf(groups), r) == 0
  {
    RunsRankAbove(groups, r + 1);
    assert forall i :: 0 <= i < |Flatten(groups)| ==> Flatten(groups)[i] in Flatten(groups);
    WithKeyNone(Flatten(groups), r);
    assert forall i :: 0 <= i < |LeftoversOf(groups)| ==> LeftoversOf(groups)[i] in LeftoversOf(groups);
    WithKeyNone(LeftoversOf(groups), r);
    PairsOfRankNone(PairsOf(groups), r);
  }

  // ---------------------------------------------------------------------------
  // extract_pairs on a whole hand

  /** Sorting keeps the cards and the count of every rank. */
  lemma SortedHandFacts(s: seq<Card>)
    ensures SortedBy(SortedHand(s), RankOf)
    ensures multiset(SortedHand(s)) == multiset(s) && |SortedHand(s)| == |s|
    ensures forall r :: CountRank(SortedHand(s), r) == CountRank(s, r)
  {
    SortByIsSorted(s, RankOf);
    SortByPermutes(s, RankOf);
    forall r ensures CountRank(SortedHand(s), r) == CountRank(s, r) {
      SortByStable(s, RankOf, r);
    }
  }

  /** Extraction moves cards from the hand into pairs: none is lost or copied. */
  lemma ExtractConserves(s: seq<Card>)
    ensures multiset(s) == multiset(RemainingHand(s)) + PairCards(ExtractedPairs(s))
    ensures |s| == |RemainingHand(s)| + 2 * |ExtractedPairs(s)|
  {
    SortedHandFacts(s);
    GroupByRankFacts(SortedHand(s));
    RunsConserve(GroupByRank(SortedHand(s)));
    PairCardsSize(ExtractedPairs(s));
    assert |multiset(s)| == |multiset(RemainingHand(s))| + |PairCards(ExtractedPairs(s))|;
  }

  lemma {:induction false} PairCardsSize(ps: seq<(Card, Card)>)
    ensures |PairCards(ps)| == 2 * |ps|
  {
    if ps != [] {
      PairCardsSize(ps[1..]);
    }
  }

  /** The hand left by extraction is sorted with strictly increasing ranks,
      so no two of its cards share a rank. */
  lemma RemainingIsPairFree(s: seq<Card>)
    ensures PairFree(RemainingHand(s))
    ensures SortedBy(RemainingHand(s), RankOf)
  {
    SortedHandFacts(s);
    GroupsAscend(SortedHand(s));
    LeftoversAscend(GroupByRank(SortedHand(s)));
  }

  /** For a rank with k cards in the hand, extraction gives k / 2 pairs of that
      rank and leaves k % 2 of its cards in the hand. */
  lemma ExtractRankCounts(s: seq<Card>, r: int)
    ensures PairsOfRank(ExtractedPairs(s), r) == CountRank(s, r) / 2
    ensures CountRank(RemainingHand(s), r) == CountRank(s, r) % 2
  {
    SortedHandFacts(s);
    GroupsAscend(SortedHand(s));
    GroupByRankFacts(SortedHand(s));
    RunsLeftoverCount(GroupByRank(SortedHand(s)), r);
    RunsPairCount(GroupByRank(SortedHand(s)), r);
  }

  /** Each extracted pair holds two cards of one rank, in ascending rank order. */
  lemma ExtractedPairsShape(s: seq<Card>)
    ensures forall i :: 0 <= i < |ExtractedPairs(s)| ==>
              ExtractedPairs(s)[i].0.rank == ExtractedPairs(s)[i].1.rank
    ensures forall i, j :: 0 <= i < j < |ExtractedPairs(s)| ==>
              ExtractedPairs(s)[i].0.rank <= ExtractedPairs(s)[j].0.rank
  {
    SortedHandFacts(s);
    GroupsAscend(SortedHand(s));
    PairsSameRank(GroupByRank(SortedHand(s)));
    PairsAscend(GroupByRank(SortedHand(s)));
  }

  /** Two cards of one rank anywhere in the hand mean at least one pair is banked. */
  lemma SharedRankGivesPair(s: seq<Card>, i: nat, j: nat)
    requires i < j < |s| && s[i].rank == s[j].rank
    ensures |ExtractedPairs(s)| >= 1
    ensures |RemainingHand(s)| < |s|
  {
    var r := s[i].rank;
    CountAtLeastTwo(s, i, j);
    ExtractRankCounts(s, r);
    PairsOfRankBound(ExtractedPairs(s), r);
    ExtractConserves(s);
  }

  lemma {:induction false} PairsOfRankBound(ps: seq<(Card, Card)>, r: int)
    ensures PairsOfRank(ps, r) <= |ps|
  {
    if ps != [] {
      PairsOfRankBound(ps[1..], r);
    }
  }

  lemma {:induction false} CountAtLeastTwo(s: seq<Card>, i: nat, j: nat)
    requires i < j < |s| && s[i].rank == s[j].rank
    ensures CountRank(s, s[i].rank) >= 2
  {
    if i == 0 {
      CountAtLeastOne(s[1..], j - 1, s[0].rank);
    } else {
      CountAtLeastTwo(s[1..], i - 1, j - 1);
    }
  }

  lemma {:induction false} CountAtLeastOne(s: seq<Card>, j: nat, r: int)
    requires j < |s| && s[j].rank == r
    ensures CountRank(s, r) >= 1
  {
    if j > 0 {
      CountAtLeastOne(s[1..], j - 1, r);
    }
  }

  /** A hand without two cards of one rank gives no pairs and is only sorted. */
  lemma PairFreeExtractsNothing(s: seq<Card>)
    requires PairFree(s)
    ensures ExtractedPairs(s) == []
    ensures RemainingHand(s) == SortedHand(s)
  {
    SortedHandFacts(s);
    ExtractConserves(s);
    if ExtractedPairs(s) != [] {
      var p := ExtractedPairs(s)[0];
      var r := p.0.rank;
      ExtractRankCounts(s, r);
      PairsOfRankPositive(ExtractedPairs(s), r);
      PairFreeCount(s, r);
      assert false;
    }
    assert multiset(RemainingHand(s)) == multiset(SortedHand(s));
    GroupsAscend(SortedHand(s));
    GroupByRankFacts(SortedHand(s));
    RunsSplit(GroupByRank(SortedHand(s)));
  }

  lemma PairsOfRankPositive(ps: seq<(Card, Card)>, r: int)
    requires ps != [] && ps[0].0.rank == r
    ensures PairsOfRank(ps, r) >= 1
  {
  }

  lemma {:induction false} PairFreeCount(s: seq<Card>, r: int)
    requires PairFree(s)
    ensures CountRank(s, r) <= 1
  {
    if s != [] {
      assert PairFree(s[1..]) by {
        forall i, j | 0 <= i < j < |s[1..]| ensures s[1..][i].rank != s[1..][j].rank {
          assert s[1..][i] == s[i + 1] && s[1..][j] == s[j + 1];
        }
      }
      PairFreeCount(s[1..], r);
      if s[0].rank == r {
        assert forall i :: 0 <= i < |s[1..]| ==> s[1..][i].rank != r by {
          forall i | 0 <= i < |s[1..]| ensures s[1..][i].rank != r {
            assert s[1..][i] == s[i + 1];
          }
        }
        WithKeyNone(s[1..], r);
      }
    }
  }

  /** When no pairs come out, every run leaves all of its cards. */
  lemma {:induction false} RunsSplit(groups: seq<seq<Card>>)
    requires PairsOf(groups) == []
    ensures LeftoversOf(groups) == Flatten(groups)
  {
    if groups != [] {
      var g := groups[0];
      var own := if |g| > 1 then RunPairs(g) else [];
      assert PairsOf(groups) == own + PairsOf(groups[1..]);
      if |g| > 1 {
        RunConserves(g);
        assert false;
      }
      assert Leftover(g) == g;
      RunsSplit(groups[1..]);
    }
  }

  /** A worked hand: from 2♠ 2♥ 2♦ 5♣ 5♦ 9♠, `extract_pairs` takes the pairs
      (2♠, 2♥) and (5♣, 5♦) and leaves 2♦ and 9♠ in the hand. */
  lemma ExtractPairsExample(s: seq<Card>)
    requires s == [Card(2, Spade), Card(2, Heart), Card(2, Diamond), Card(5, Club), Card(5, Diamond), Card(9, Spade)]
    ensures ExtractedPairs(s) == [(Card(2, Spade), Card(2, Heart)), (Card(5, Club), Card(5, Diamond))]
    ensures RemainingHand(s) == [Card(2, Diamond), Card(9, Spade)]
  {
    var twos := [Card(2, Spade), Card(2, Heart), Card(2, Diamond)];
    var fives := [Card(5, Club), Card(5, Diamond)];
    var nines := [Card(9, Spade)];
    assert GroupByRank(SortedHand(s)) == [twos, fives, nines] by {
      SortBySortedIdentity(s, RankOf);
      ExampleGroups(s, twos, fives, nines);
    }
    assert ExtractedPairs(s) == RunPairs(twos) + RunPairs(fives) by {
      ThreeRuns(twos, fives, nines);
    }
    assert RemainingHand(s) == Leftover(twos) + Leftover(fives) + nines by {
      ThreeRuns(twos, fives, nines);
    }
    ExampleRuns(twos, fives);
  }

  /** Pairs and leftovers of three runs, the last a single card. */
  lemma ThreeRuns(a: seq<Card>, b: seq<Card>, c: seq<Card>)
    requires |a| > 1 && |b| > 1 && |c| == 1
    ensures PairsOf([a, b, c]) == RunPairs(a) + RunPairs(b)
    ensures LeftoversOf([a, b, c]) == Leftover(a) + Leftover(b) + c
  {
    var g, h, k := [a, b, c], [b, c], [c];
    assert g[1..] == h && h[1..] == k && k[1..] == [];
    assert Leftover(c) == c[0..] == c;
    assert LeftoversOf(k) == Leftover(c) + LeftoversOf(k[1..]);
    assert PairsOf(k) == [] && LeftoversOf(k) == c;
    assert PairsOf(h) == RunPairs(b) + PairsOf(k);
    assert LeftoversOf(h) == Leftover(b) + LeftoversOf(k);
  }

  /** The pairs and the leftovers of the runs of the worked hand. */
  lemma ExampleRuns(twos: seq<Card>, fives: seq<Card>)
    requires twos == [Card(2, Spade), Card(2, Heart), Card(2, Diamond)]
    requires fives == [Card(5, Club), Card(5, Diamond)]
    ensures RunPairs(twos) == [(Card(2, Spade), Card(2, Heart))] && Leftover(twos) == [Card(2, Diamond)]
    ensures RunPairs(fives) == [(Card(5, Club), Card(5, Diamond))] && Leftover(fives) == []
  {
    var g2, g5 := [twos[..2]], [fives[..2]];
    assert Grouper(twos, 2) == g2 by {
      assert Grouper(twos[2..], 2) == [];
    }
    assert Grouper(fives, 2) == g5 by {
      assert Grouper(fives[2..], 2) == [];
    }
    assert ChunkPairs(g2) == [(g2[0][0], g2[0][1])] + ChunkPairs(g2[1..]);
    assert ChunkPairs(g5) == [(g5[0][0], g5[0][1])] + ChunkPairs(g5[1..]);
    assert Leftover(twos) == twos[2..] && Leftover(fives) == fives[2..];
  }

  /** The runs of the worked hand. */
  lemma ExampleGroups(s: seq<Card>, twos: seq<Card>, fives: seq<Card>, nines: seq<Card>)
    requires s == [Card(2, Spade), Card(2, Heart), Card(2, Diamond), Card(5, Club), Card(5, Diamond), Card(9, Spade)]
    requires twos == s[..3] && fives == s[3..5] && nines == s[5..]
    ensures GroupByRank(s) == [twos, fives, nines]
  {
    var t, u := s[3..], s[5..];
    assert RunLength(u) == 1;
    assert GroupByRank(u) == [u] by {
      assert u[..1] == u && u[1..] == [];
      assert GroupByRank(u) == [u[..1]] + GroupByRank(u[1..]);
    }
    assert RunLength(t) == 2 by {
      assert t[1..] == u + [] || RunLength(t[1..]) == 1;
    }
    assert t[..2] == fives && t[2..] == u;
    assert GroupByRank(t) == [fives, nines];
    assert RunLength(s) == 3 by {
      assert RunLength(s[2..]) == 1;
      assert RunLength(s[1..]) == 2;
    }
    assert s[3..] == t;
  }
}
