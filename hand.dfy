// Hand and Deck of card.py: both keep their cards in a deque (`stack`) that
// their methods update in place; here the deque is a sequence field, its left
// end at index 0.

module Hands {
  import opened Recipes
  import opened Sorting
  import opened Cards
  import opened Pairing

  /** The cards carried by a list of optional cards, in order. */
  function Present(cards: seq<Option<Card>>): (r: seq<Card>)
    ensures |r| <= |cards|
  {
    if cards == [] then []
    else (if cards[0].Some? then [cards[0].value] else []) + Present(cards[1..])
  }

  /** When every entry carries a card, Present lists them all, position by position. */
  lemma {:induction false} PresentAll(cards: seq<Option<Card>>)
    requires forall i :: 0 <= i < |cards| ==> cards[i].Some?
    ensures |Present(cards)| == |cards|
    ensures forall i :: 0 <= i < |cards| ==> Present(cards)[i] == cards[i].value
  {
    if cards != [] {
      PresentAll(cards[1..]);
      assert forall i :: 1 <= i < |cards| ==> cards[i] == cards[1..][i - 1];
    }
  }

  class Hand {
    var stack: seq<Card>
    /** The seat of the player the hand belongs to: bookkeeping for proofs
        that no two players share a hand. */
    ghost const seat: int

    /** `Hand(cards)`; `Hand()` is `Hand([])`. */
    constructor (cards: seq<Card>, ghost seat: int)
      ensures stack == cards && this.seat == seat
    {
      stack := cards;
      this.seat := seat;
    }

    /** `count()` and `len(hand)`: the number of cards held, counted with
        repetition, and zero exactly for an empty hand. */
    function Count(): (r: nat)
      reads this
      ensures r == |multiset(stack)|
      ensures r == 0 <==> stack == []
    {
      |stack|
    }

    /** `sort()`: the hand in stable rank order. */
    method Sort()
      modifies `stack
      ensures stack == SortedHand(old(stack))
      ensures SortedBy(stack, RankOf) && multiset(stack) == multiset(old(stack))
    {
      stack := SortedHand(stack);
      SortedHandFacts(old(stack));
    }

    /** `pop_card(n)`: rotate left by n, pop the left end, rotate right by n.
        For 0 <= n < |stack| this removes and returns the card at index n. */
    method PopCard(n: int) returns (card: Card)
      requires stack != []
      modifies `stack
      ensures card == Rotate(old(stack), -n)[0]
      ensures stack == Rotate(Rotate(old(stack), -n)[1..], n)
      ensures 0 <= n < |old(stack)| ==>
                card == old(stack)[n] && stack == old(stack)[..n] + old(stack)[n + 1..]
    {
      var rotated := Rotate(stack, -n);
      card := rotated[0];
      stack := Rotate(rotated[1..], n);
      if 0 <= n < |old(stack)| {
        PopRotations(old(stack), n);
      }
    }

    /** `add_to_hand(*cards)`: a non-card argument (None here) raises TypeError
        and leaves the hand as it was; otherwise the cards go to the right end. */
    method AddToHand(cards: seq<Option<Card>>) returns (ok: bool)
      modifies `stack
      ensures ok <==> forall i :: 0 <= i < |cards| ==> cards[i].Some?
      ensures ok ==> stack == old(stack) + Present(cards)
      ensures !ok ==> stack == old(stack)
    {
      if cards != [] {
        var i := 0;
        while i < |cards|
          invariant 0 <= i <= |cards|
          invariant forall k :: 0 <= k < i ==> cards[k].Some?
        {
          if cards[i].None? {
            return false;
          }
          i := i + 1;
        }
        stack := stack + Present(cards);
      }
      return true;
    }

    /** `has_match(other)`: the index of the first card with other's rank; the
        index comes from `stack.index(c)` for the first such card c. */
    method HasMatch(other: Option<Card>) returns (index: Option<nat>)
      ensures index == FirstMatch(stack, other)
      ensures index.Some? <==> exists c :: c in stack && SameRank(c, other)
    {
      var i := 0;
      while i < |stack|
        invariant 0 <= i <= |stack|
        invariant forall j :: 0 <= j < i ==> !SameRank(stack[j], other)
      {
        var c := stack[i];
        if SameRank(c, other) {
          assert forall j :: 0 <= j < i ==> stack[j] != c;
          var k := IndexOf(stack, c);
          IndexOfFirst(stack, c);
          assert k == i;
          return Some(k);
        }
        i := i + 1;
      }
      return None;
    }

    /** `take_from_hand(*cards)`: each card in turn is found with `index` and
        popped. A card missing from what is left makes `index` raise ValueError,
        which the method does not catch, so every card must be there in turn
        (RemovableIff: the hand holds the cards, counted with repetition). */
    method TakeFromHand(cards: seq<Card>) returns (taken: seq<Card>)
      requires Removable(stack, cards)
      modifies `stack
      ensures taken == cards
      ensures stack == RemoveEach(old(stack), cards)
    {
      ghost var s0 := stack;
      taken := [];
      var i := 0;
      assert cards[0..] == cards;
      while i < |cards|
        invariant 0 <= i <= |cards|
        invariant Removable(stack, cards[i..])
        invariant RemoveEach(stack, cards[i..]) == RemoveEach(s0, cards)
        invariant taken == cards[..i]
      {
        var x := cards[i];
        RemoveEachStep(stack, cards, i);
        var c := TakeCard(x);
        assert cards[..i + 1] == cards[..i] + [x];
        taken := taken + [c];
        i := i + 1;
      }
      assert cards[..i] == cards && cards[i..] == [];
    }

    /** One step of `take_from_hand`: `pop_card(stack.index(c))`, which takes
        out the first card equal to c. */
    method TakeCard(x: Card) returns (card: Card)
      requires x in stack
      modifies `stack
      ensures card == x
      ensures stack == RemoveFirst(old(stack), x)
    {
      var at := IndexOf(stack, x);
      card := PopCard(at);
      PopIsRemoveFirst(old(stack), x);
    }

    /** `clear_hand()`. */
    method ClearHand()
      modifies `stack
      ensures stack == []
    {
      stack := [];
    }

    /** `extract_pairs()`: sort, group by rank, and take each run of two or
        more cards out of the hand two at a time. */
    method ExtractPairs() returns (pairs: seq<(Card, Card)>)
      modifies `stack
      ensures pairs == ExtractedPairs(old(stack))
      ensures stack == RemainingHand(old(stack))
    {
      Sort();
      var grouped := GroupByRank(stack);
      GroupByRankFacts(stack);
      GroupsAscend(stack);
      pairs := TakeRuns(grouped);
    }

    /** The outer loop of `extract_pairs`: `for _, group in groupby(...)`. */
    method TakeRuns(grouped: seq<seq<Card>>) returns (pairs: seq<(Card, Card)>)
      requires AscendingRuns(grouped) && stack == Flatten(grouped)
      modifies `stack
      ensures pairs == PairsOf(grouped)
      ensures stack == LeftoversOf(grouped)
    {
      pairs := [];
      var gi := 0;
      assert grouped[..0] == [] && grouped[0..] == grouped;
      while gi < |grouped|
        invariant 0 <= gi <= |grouped|
        invariant stack == LeftoversOf(grouped[..gi]) + Flatten(grouped[gi..])
        invariant pairs == PairsOf(grouped[..gi])
      {
        var group := grouped[gi];
        ghost var before := LeftoversOf(grouped[..gi]);
        ghost var after := Flatten(grouped[gi + 1..]);
        RunStart(grouped, gi, stack);
        LeftoversBelow(grouped, gi);
        if |group| > 1 {
          var runPairs := TakeRunPairs(group, before, after);
          RunDone(grouped, gi, stack);
          pairs := pairs + runPairs;
        } else {
          RunDone(grouped, gi, stack);
        }
        gi := gi + 1;
      }
      assert grouped[..gi] == grouped;
    }

    /** The inner loop of `extract_pairs`: `for pair in grouper(run, 2)`,
        each pair taken out of the hand with `take_from_hand`. */
    method TakeRunPairs(run: seq<Card>, ghost before: seq<Card>, ghost after: seq<Card>)
      returns (runPairs: seq<(Card, Card)>)
      requires run != [] && OneRank(run)
      requires forall c :: c in before ==> c.rank < run[0].rank
      requires stack == before + run + after
      modifies `stack
      ensures runPairs == RunPairs(run)
      ensures stack == before + Leftover(run) + after
    {
      var chunks := Grouper(run, 2);
      runPairs := [];
      var k := 0;
      assert chunks[..0] == [];
      assert run[2 * 0..] == run;
      while k < |chunks|
        invariant 0 <= k <= |chunks|
        invariant stack == before + run[2 * k..] + after
        invariant runPairs == ChunkPairs(chunks[..k])
      {
        RunChunkStep(before, run, k, after, chunks);
        ChunkPairsSnoc(chunks, k);
        var taken := TakeFromHand(chunks[k]);
        runPairs := runPairs + [(taken[0], taken[1])];
        k := k + 1;
      }
      assert chunks[..k] == chunks;
    }
  }

  /** The hand at the start of run gi: leftovers so far, run gi, later runs. */
  lemma RunStart(grouped: seq<seq<Card>>, gi: nat, s: seq<Card>)
    requires gi < |grouped| && AscendingRuns(grouped)
    requires s == LeftoversOf(grouped[..gi]) + Flatten(grouped[gi..])
    ensures s == LeftoversOf(grouped[..gi]) + grouped[gi] + Flatten(grouped[gi + 1..])
    ensures grouped[gi] != [] && OneRank(grouped[gi])
    ensures |grouped[gi]| <= 1 ==> Leftover(grouped[gi]) == grouped[gi]
  {
    assert grouped[gi..] == [grouped[gi]] + grouped[gi + 1..];
  }

  /** After run gi, its pairs and leftover join those of the runs before it. */
  lemma RunDone(grouped: seq<seq<Card>>, gi: nat, s: seq<Card>)
    requires gi < |grouped|
    requires s == LeftoversOf(grouped[..gi]) + Leftover(grouped[gi]) + Flatten(grouped[gi + 1..])
    ensures s == LeftoversOf(grouped[..gi + 1]) + Flatten(grouped[gi + 1..])
    ensures |grouped[gi]| > 1 ==> PairsOf(grouped[..gi + 1]) == PairsOf(grouped[..gi]) + RunPairs(grouped[gi])
    ensures |grouped[gi]| <= 1 ==> PairsOf(grouped[..gi + 1]) == PairsOf(grouped[..gi])
  {
    assert grouped[..gi + 1] == grouped[..gi] + [grouped[gi]];
    assert PairsOf([grouped[gi]]) == (if |grouped[gi]| > 1 then RunPairs(grouped[gi]) else []) + PairsOf([]);
    PairsOfAppend(grouped[..gi], [grouped[gi]]);
    LeftoversOfAppend(grouped[..gi], [grouped[gi]]);
  }

  lemma PairsSnoc(a: seq<(Card, Card)>, b: seq<(Card, Card)>, ab: seq<(Card, Card)>, p: (Card, Card))
    requires ab == a + b
    ensures ab + [p] == a + (b + [p])
  {
  }

  lemma ChunkPairsSnoc(chunks: seq<seq<Card>>, k: nat)
    requires k < |chunks| && forall i :: 0 <= i < |chunks| ==> |chunks[i]| == 2
    ensures ChunkPairs(chunks[..k + 1]) == ChunkPairs(chunks[..k]) + [(chunks[k][0], chunks[k][1])]
  {
    ChunkPairsAppend(chunks[..k], [chunks[k]]);
    assert chunks[..k + 1] == chunks[..k] + [chunks[k]];
  }

  /** take_from_hand's loop: removing cards[i..] is removing cards[i] first. */
  lemma RemoveEachStep(s: seq<Card>, cards: seq<Card>, i: nat)
    requires i < |cards| && Removable(s, cards[i..])
    ensures cards[i] in s && Removable(RemoveFirst(s, cards[i]), cards[i + 1..])
    ensures RemoveEach(s, cards[i..]) == RemoveEach(RemoveFirst(s, cards[i]), cards[i + 1..])
  {
    assert cards[i..][0] == cards[i] && cards[i..][1..] == cards[i + 1..];
  }

  lemma PopIsRemoveFirst(s: seq<Card>, x: Card)
    requires x in s
    ensures s[..IndexOf(s, x)] + s[IndexOf(s, x) + 1..] == RemoveFirst(s, x)
  {
  }

  /** The cards left by the runs before run gi are all of lower rank. */
  lemma {:induction false} LeftoversBelow(groups: seq<seq<Card>>, gi: nat)
    requires AscendingRuns(groups) && gi < |groups|
    ensures forall c :: c in LeftoversOf(groups[..gi]) ==> c.rank < groups[gi][0].rank
  {
    if gi > 0 {
      LeftoversBelow(groups, gi - 1);
      assert groups[..gi] == groups[..gi - 1] + [groups[gi - 1]];
      LeftoversOfAppend(groups[..gi - 1], [groups[gi - 1]]);
      assert LeftoversOf([groups[gi - 1]]) == Leftover(groups[gi - 1]);
      assert groups[gi - 1][0].rank < groups[gi][0].rank;
      LeftoverWithin(groups[gi - 1]);
    }
  }

  lemma LeftoverWithin(g: seq<Card>)
    ensures forall c :: c in Leftover(g) ==> c in g
  {
    forall c | c in Leftover(g) ensures c in g {
      var i :| 0 <= i < |Leftover(g)| && Leftover(g)[i] == c;
      assert g[2 * (|g| / 2) + i] == c;
    }
  }

  /** Chunk k of `grouper(run, 2)` is the pair at the front of what is left
      of the run, and taking it leaves the run two cards shorter. */
  lemma RunChunkStep(before: seq<Card>, run: seq<Card>, k: nat, after: seq<Card>, chunks: seq<seq<Card>>)
    requires run != [] && OneRank(run)
    requires forall c :: c in before ==> c.rank < run[0].rank
    requires chunks == Grouper(run, 2) && k < |chunks|
    ensures Removable(before + run[2 * k..] + after, chunks[k])
    ensures RemoveEach(before + run[2 * k..] + after, chunks[k]) == before + run[2 * (k + 1)..] + after
  {
    GrouperChunk(run, 2, k);
    TakePairStep(before, run, k, after, chunks[k]);
  }

  /** Taking one pair from the front of a run, with lower cards before it. */
  lemma TakePairStep(before: seq<Card>, group: seq<Card>, k: nat, after: seq<Card>, chunk: seq<Card>)
    requires group != [] && OneRank(group) && 2 * k + 2 <= |group|
    requires forall c :: c in before ==> c.rank < group[0].rank
    requires chunk == group[2 * k .. 2 * k + 2]
    ensures Removable(before + group[2 * k..] + after, chunk)
    ensures RemoveEach(before + group[2 * k..] + after, chunk) == before + group[2 * (k + 1)..] + after
  {
    var a, b := group[2 * k], group[2 * k + 1];
    var rest := group[2 * k + 2..] + after;
    assert group[2 * k..] == [a, b] + group[2 * k + 2..];
    assert before + group[2 * k..] + after == before + [a] + ([b] + rest);
    assert before + group[2 * (k + 1)..] + after == before + rest;
    TakeTwo(before, a, b, rest, chunk);
  }

  lemma TakeTwo(before: seq<Card>, a: Card, b: Card, rest: seq<Card>, chunk: seq<Card>)
    requires a !in before && b !in before && chunk == [a, b]
    ensures Removable(before + [a] + ([b] + rest), chunk)
    ensures RemoveEach(before + [a] + ([b] + rest), chunk) == before + rest
  {
    var s := before + [a] + ([b] + rest);
    RemoveFirstAt(before, a, [b] + rest);
    RemoveFirstAt(before, b, rest);
    var t := before + [b] + rest;
    assert RemoveFirst(s, a) == t;
    assert chunk[1..] == [b] && [b][1..] == [];
    assert Removable(t, [b]) && RemoveEach(t, [b]) == before + rest;
  }

  class Deck {
    var stack: seq<Card>

    /** `Deck()`: the standard deck, then `shuffle_deck()`. `random.sample`
        is the parameter `sample`, any ordering of the standard deck. */
    constructor (sample: seq<Card>)
      requires multiset(sample) == multiset(StandardDeck())
      ensures stack == Rotate(sample, -26)
      ensures multiset(stack) == multiset(StandardDeck()) && |stack| == 52
    {
      stack := StandardDeck();
      new;
      ShuffleDeck(sample, 26);
      assert |stack| == |multiset(stack)| == |multiset(StandardDeck())|;
    }

    /** `len(deck)`: the number of cards left, counted with repetition, and
        zero exactly for an empty deck. */
    function Len(): (r: nat)
      reads this
      ensures r == |multiset(stack)|
      ensures r == 0 <==> stack == []
    {
      |stack|
    }

    /** `shuffle_deck(cut)`: a random ordering (the parameter `sample`),
        then a rotation `cut` steps to the left. */
    method ShuffleDeck(sample: seq<Card>, cut: int)
      requires multiset(sample) == multiset(stack)
      modifies `stack
      ensures stack == Rotate(sample, -cut)
      ensures multiset(stack) == multiset(old(stack))
    {
      stack := Rotate(sample, -cut);
      RotatePermutes(sample, -cut);
    }

    /** `take_top()`: the left end, or None when the deck is empty. */
    method TakeTop() returns (card: Option<Card>)
      modifies `stack
      ensures old(stack) == [] ==> card == None && stack == []
      ensures old(stack) != [] ==> card == Some(old(stack)[0]) && stack == old(stack)[1..]
    {
      if stack == [] {
        return None;
      }
      card := Some(stack[0]);
      stack := stack[1..];
    }

    /** `deal_hands(*hands)`: RuntimeError without hands; otherwise up to
        7 cards per hand are taken from the top and dealt round-robin. When
        that is more than the deck holds, a reduced hand count is computed
        but never used: every hand still takes part and dealing stops when
        the deck runs out. */
    method DealHands(hands: seq<Hand>) returns (ok: bool)
      requires forall i, j :: 0 <= i < j < |hands| ==> hands[i] != hands[j]
      modifies `stack, hands`stack
      ensures ok <==> hands != []
      ensures !ok ==> stack == old(stack)
      ensures ok ==>
        var m := if HandSize * |hands| <= |old(stack)| then HandSize * |hands| else |old(stack)|;
        && stack == old(stack)[m..]
        && forall j :: 0 <= j < |hands| ==>
             hands[j].stack == old(hands[j].stack) + DealtTo(old(stack)[..m], j, |hands|)
    {
      if hands == [] {
        return false;
      }
      var handSize := HandSize;
      var numHands := |hands|;
      var totalDealt := handSize * numHands;
      if totalDealt > |stack| {
        var toss := numHands - MaxPlayers;
        numHands := numHands - toss;
      }
      DealCycle(hands, totalDealt);
      return true;
    }

    /** `for c in islice(self, total_dealt): next(cycle_hands).add_to_hand(c)`:
        the deck's iterator pops the left end until the deck is empty. */
    method DealCycle(hands: seq<Hand>, totalDealt: nat)
      requires hands != [] && forall i, j :: 0 <= i < j < |hands| ==> hands[i] != hands[j]
      modifies `stack, hands`stack
      ensures var m := if totalDealt <= |old(stack)| then totalDealt else |old(stack)|;
        && stack == old(stack)[m..]
        && forall j :: 0 <= j < |hands| ==>
             hands[j].stack == old(hands[j].stack) + DealtTo(old(stack)[..m], j, |hands|)
    {
      var n := |hands|;
      ghost var deck := stack;
      var i := 0;
      while i < totalDealt && stack != []
        invariant 0 <= i <= |deck| && i <= totalDealt
        invariant stack == deck[i..]
        invariant forall j :: 0 <= j < n ==> hands[j].stack == old(hands[j].stack) + DealtTo(deck[..i], j, n)
      {
        var c := TakeTop();
        assert c == Some(deck[i]);
        Give(hands, i % n, c.value);
        forall j | 0 <= j < n
          ensures hands[j].stack == old(hands[j].stack) + DealtTo(deck[..i + 1], j, n)
        {
          DealtToStep(deck, i, n, j);
        }
        i := i + 1;
      }
      assert i == if totalDealt <= |deck| then totalDealt else |deck|;
    }
  }

  /** `next(cycle_hands).add_to_hand(c)`: the card goes to the end of hand k
      and to no other hand. */
  method Give(hands: seq<Hand>, k: nat, card: Card)
    requires k < |hands| && forall i, j :: 0 <= i < j < |hands| ==> hands[i] != hands[j]
    modifies hands`stack
    ensures forall j :: 0 <= j < |hands| ==>
              hands[j].stack == old(hands[j].stack) + (if j == k then [card] else [])
  {
    var h := hands[k];
    var added := h.AddToHand([Some(card)]);
    assert Present([Some(card)]) == [card];
    forall j | 0 <= j < |hands|
      ensures hands[j].stack == old(hands[j].stack) + (if j == k then [card] else [])
    {
      if j != k {
        assert hands[j] != h;
      }
    }
  }

  /** Dealing one more card extends only the hand whose turn it is. */
  lemma DealtToStep(deck: seq<Card>, i: nat, n: nat, j: nat)
    requires i < |deck| && n > 0
    ensures DealtTo(deck[..i + 1], j, n)
         == DealtTo(deck[..i], j, n) + (if i % n == j then [deck[i]] else [])
  {
    assert deck[..i + 1][..i] == deck[..i];
  }

  /** Total number of cards that hands 0..k-1 receive. */
  function DealtCards(dealt: seq<Card>, k: nat, n: nat): nat
    requires n > 0
  {
    if k == 0 then 0 else DealtCards(dealt, k - 1, n) + |DealtTo(dealt, k - 1, n)|
  }

  /** The cards that hands k..n-1 receive, together. */
  function DealtFrom(dealt: seq<Card>, k: nat, n: nat): multiset<Card>
    requires n > 0
    decreases n - k
  {
    if k >= n then multiset{} else multiset(DealtTo(dealt, k, n)) + DealtFrom(dealt, k + 1, n)
  }

  /** Every dealt card goes to exactly one hand: the hands together receive
      exactly the dealt cards, and as many of them as were dealt. */
  lemma {:induction false} DealtPartition(dealt: seq<Card>, n: nat)
    requires n > 0
    ensures DealtFrom(dealt, 0, n) == multiset(dealt)
    ensures DealtCards(dealt, n, n) == |dealt|
    decreases |dealt|
  {
    if dealt != [] {
      var last := |dealt| - 1;
      var pre, r := dealt[..last], last % n;
      DealtPartition(pre, n);
      DealtCardsStep(dealt, n, n, r);
      forall c ensures DealtFrom(dealt, 0, n)[c] == multiset(dealt)[c] {
        DealtFromStep(dealt, 0, n, r, c);
        LastCount(dealt, c);
      }
    } else {
      DealtNothing(n, n);
      DealtNone(0, n);
    }
  }

  /** Dropping the last card of a sequence removes one copy of it. */
  lemma LastCount(s: seq<Card>, c: Card)
    requires s != []
    ensures multiset(s)[c] == multiset(s[..|s| - 1])[c] + (if s[|s| - 1] == c then 1 else 0)
  {
    assert s == s[..|s| - 1] + [s[|s| - 1]];
  }

  lemma {:induction false} DealtNone(k: nat, n: nat)
    requires n > 0
    ensures DealtFrom([], k, n) == multiset{}
    decreases n - k
  {
    if k < n {
      DealtNone(k + 1, n);
    }
  }

  /** Dealing one more card adds it to hands k..n-1 exactly when it is the
      turn of one of them. */
  lemma {:induction false} DealtFromStep(dealt: seq<Card>, k: nat, n: nat, r: nat, c: Card)
    requires dealt != [] && 0 < n && r == (|dealt| - 1) % n
    ensures DealtFrom(dealt, k, n)[c]
         == DealtFrom(dealt[..|dealt| - 1], k, n)[c] + (if dealt[|dealt| - 1] == c && k <= r then 1 else 0)
    decreases n - k
  {
    if k < n {
      DealtFromStep(dealt, k + 1, n, r, c);
      DealtFromOnce(dealt, k, n, r, c);
    } else {
      DealtFromEnd(dealt, k, n, r, c);
    }
  }

  /** Past the last hand there is nothing to receive: the card's hand r is
      below n. */
  lemma DealtFromEnd(dealt: seq<Card>, k: nat, n: nat, r: nat, c: Card)
    requires dealt != [] && n <= k && 0 < n && r == (|dealt| - 1) % n
    ensures DealtFrom(dealt, k, n)[c]
         == DealtFrom(dealt[..|dealt| - 1], k, n)[c] + (if dealt[|dealt| - 1] == c && k <= r then 1 else 0)
  {
    assert r < n;
  }

  /** One step of `DealtFromStep`, from hands k+1..n-1 to hands k..n-1. */
  lemma DealtFromOnce(dealt: seq<Card>, k: nat, n: nat, r: nat, c: Card)
    requires dealt != [] && k < n && r == (|dealt| - 1) % n
    requires DealtFrom(dealt, k + 1, n)[c]
          == DealtFrom(dealt[..|dealt| - 1], k + 1, n)[c] + (if dealt[|dealt| - 1] == c && k + 1 <= r then 1 else 0)
    ensures DealtFrom(dealt, k, n)[c]
         == DealtFrom(dealt[..|dealt| - 1], k, n)[c] + (if dealt[|dealt| - 1] == c && k <= r then 1 else 0)
  {
    var pre := dealt[..|dealt| - 1];
    DealtToLastCount(dealt, k, n, r, c);
    DealtFromCount(dealt, k, n, c);
    DealtFromCount(pre, k, n, c);
    CountStep(DealtFrom(dealt, k, n)[c], DealtFrom(pre, k, n)[c],
              multiset(DealtTo(dealt, k, n))[c], multiset(DealtTo(pre, k, n))[c],
              DealtFrom(dealt, k + 1, n)[c], DealtFrom(pre, k + 1, n)[c],
              r, k, dealt[|dealt| - 1] == c);
  }

  lemma DealtFromCount(dealt: seq<Card>, k: nat, n: nat, c: Card)
    requires k < n
    ensures DealtFrom(dealt, k, n)[c] == multiset(DealtTo(dealt, k, n))[c] + DealtFrom(dealt, k + 1, n)[c]
  {
  }

  /** The counting behind `DealtFromStep`: the new card lands in hand k or in
      a later one, or in neither. */
  lemma CountStep(a: int, b: int, t: int, t0: int, a1: int, b1: int, r: nat, k: nat, hit: bool)
    requires a == t + a1 && b == t0 + b1
    requires t == t0 + (if hit && r == k then 1 else 0)
    requires a1 == b1 + (if hit && k + 1 <= r then 1 else 0)
    ensures a == b + (if hit && k <= r then 1 else 0)
  {
  }

  lemma DealtToLastCount(dealt: seq<Card>, j: nat, n: nat, r: nat, c: Card)
    requires dealt != [] && 0 < n && r == (|dealt| - 1) % n
    ensures multiset(DealtTo(dealt, j, n))[c]
         == multiset(DealtTo(dealt[..|dealt| - 1], j, n))[c] + (if dealt[|dealt| - 1] == c && r == j then 1 else 0)
  {
    var last := |dealt| - 1;
    var extra := if last % n == j then [dealt[last]] else [];
    assert DealtTo(dealt, j, n) == DealtTo(dealt[..last], j, n) + extra;
    assert multiset(DealtTo(dealt, j, n)) == multiset(DealtTo(dealt[..last], j, n)) + multiset(extra);
  }

  lemma {:induction false} DealtNothing(k: nat, n: nat)
    requires n > 0
    ensures DealtCards([], k, n) == 0
  {
    if k > 0 {
      DealtNothing(k - 1, n);
    }
  }

  lemma {:induction false} DealtCardsStep(dealt: seq<Card>, k: nat, n: nat, r: nat)
    requires dealt != [] && 0 < n && k <= n && r == (|dealt| - 1) % n
    ensures DealtCards(dealt, k, n) == DealtCards(dealt[..|dealt| - 1], k, n) + (if r < k then 1 else 0)
  {
    if k > 0 {
      DealtCardsStep(dealt, k - 1, n, r);
    }
  }
}
