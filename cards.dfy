// The value layer of card.py: cards, their comparisons, the standard deck,
// and the pure sequence operations that Hand and Deck perform on their deques.

module Cards {
  import opened Sorting
  import Recipes

  /** Python's `None` next to a value. */
  datatype Option<T> = None | Some(value: T)

  /** GOFISH_HAND_SIZE and GOFISH_MAX_PLAYERS (card.py). */
  const HandSize: nat := 7
  const MaxPlayers: nat := 5

  datatype Suit = Spade | Club | Heart | Diamond

  /** Declaration order of the Suit enum, which itertools.product follows. */
  const Suits: seq<Suit> := [Spade, Club, Heart, Diamond]

  /** A card is a value: equality is structural on (rank, suit). */
  datatype Card = Card(rank: int, suit: Suit)

  /** The ordering dunders compare ranks only. */
  predicate Less(a: Card, b: Card) { a.rank < b.rank }
  predicate LessEq(a: Card, b: Card) { a.rank <= b.rank }
  predicate Greater(a: Card, b: Card) { a.rank > b.rank }
  predicate GreaterEq(a: Card, b: Card) { a.rank >= b.rank }

  /** The sort key that `sorted` uses through `__lt__`. */
  function RankOf(c: Card): int { c.rank }

  /** `same_rank`: a missing card (None has no `rank`) never has the same rank. */
  predicate SameRank(c: Card, other: Option<Card>)
  {
    match other
    case None => false
    case Some(o) => c.rank == o.rank
  }

  /** The four comparisons are one total preorder on ranks: `>` and `>=` are
      `<` and `<=` turned around, and `<=` is "not `<` the other way". */
  lemma CardOrder(a: Card, b: Card)
    ensures Greater(a, b) <==> Less(b, a)
    ensures GreaterEq(a, b) <==> LessEq(b, a)
    ensures LessEq(a, b) <==> !Less(b, a)
    ensures LessEq(a, b) || LessEq(b, a)
  {
  }

  /** Sorting by the rank key is sorting by the comparisons: every card is `<=`
      each later one, and no later card is `<` an earlier one, which is all
      that `sorted` asks of `__lt__`. */
  lemma SortedByRank(s: seq<Card>)
    ensures SortedBy(s, RankOf) <==> forall i, j :: 0 <= i < j < |s| ==> LessEq(s[i], s[j])
    ensures SortedBy(s, RankOf) <==> forall i, j :: 0 <= i < j < |s| ==> !Less(s[j], s[i])
  {
  }

  /** `same_rank` against a card holds exactly when neither card is `<` or
      `>` the other, and it is symmetric; against None it never holds. */
  lemma SameRankOrder(c: Card, other: Option<Card>)
    ensures other.None? ==> !SameRank(c, other)
    ensures other.Some? ==> (SameRank(c, other) <==> !Less(c, other.value) && !Greater(c, other.value))
    ensures other.Some? ==> (SameRank(c, other) <==> SameRank(other.value, Some(c)))
  {
  }

  predicate Distinct(s: seq<Card>)
  {
    forall i, j :: 0 <= i < j < |s| ==> s[i] != s[j]
  }

  /** The four cards of one rank, in suit order. */
  function RankRow(r: int): seq<Card>
  {
    [Card(r, Spade), Card(r, Club), Card(r, Heart), Card(r, Diamond)]
  }

  lemma RankRowMembers(r: int)
    ensures forall c :: c in RankRow(r) <==> c.rank == r
  {
    forall c: Card | c.rank == r ensures c in RankRow(r) {
      match c.suit
      case Spade => assert c == RankRow(r)[0];
      case Club => assert c == RankRow(r)[1];
      case Heart => assert c == RankRow(r)[2];
      case Diamond => assert c == RankRow(r)[3];
    }
  }

  /** product(range(lo, 14), Suit) as cards: rank-major, suits in enum order. */
  function RanksFrom(lo: int): (cards: seq<Card>)
    requires 1 <= lo <= 14
    ensures |cards| == 4 * (14 - lo)
    decreases 14 - lo
  {
    if lo == 14 then [] else RankRow(lo) + RanksFrom(lo + 1)
  }

  /** The cards of ranks lo..13 each occur once. */
  lemma {:induction false} RanksFromFacts(lo: int)
    requires 1 <= lo <= 14
    ensures forall c :: c in RanksFrom(lo) <==> lo <= c.rank <= 13
    ensures Distinct(RanksFrom(lo))
    decreases 14 - lo
  {
    if lo < 14 {
      var row, rest := RankRow(lo), RanksFrom(lo + 1);
      RanksFromFacts(lo + 1);
      RankRowMembers(lo);
      assert RanksFrom(lo) == row + rest;
      assert Distinct(row + rest) by {
        assert Distinct(row);
        forall c | c in row ensures c !in rest {
          assert c.rank == lo;
        }
        DistinctAppend(row, rest);
      }
    }
  }

  lemma DistinctAppend(a: seq<Card>, b: seq<Card>)
    requires Distinct(a) && Distinct(b)
    requires forall c :: c in a ==> c !in b
    ensures Distinct(a + b)
  {
    forall i, j | 0 <= i < j < |a + b| ensures (a + b)[i] != (a + b)[j] {
      if j < |a| {
        assert (a + b)[i] == a[i] && (a + b)[j] == a[j];
      } else if i < |a| {
        assert (a + b)[i] == a[i] && (a + b)[j] == b[j - |a|];
        assert a[i] in a && b[j - |a|] in b;
      } else {
        assert (a + b)[i] == b[i - |a|] && (a + b)[j] == b[j - |a|];
      }
    }
  }

  /** `get_standard_deck`: 52 cards, one per rank 1..13 and suit. */
  function StandardDeck(): (deck: seq<Card>)
    ensures |deck| == 52
  {
    RanksFrom(1)
  }

  /** The standard deck holds no card twice and exactly the cards of ranks 1..13. */
  lemma StandardDeckFacts()
    ensures Distinct(StandardDeck())
    ensures forall c :: c in StandardDeck() <==> 1 <= c.rank <= 13
  {
    RanksFromFacts(1);
  }

  /** Each card of ranks 1..13 occurs exactly once in the standard deck. */
  lemma StandardDeckCounts(c: Card)
    ensures multiset(StandardDeck())[c] == if 1 <= c.rank <= 13 then 1 else 0
  {
    StandardDeckFacts();
    DistinctCount(StandardDeck(), c);
  }

  /** A shuffled standard deck, told card by card: every card of ranks 1..13
      exactly once and nothing else. */
  ghost predicate FullDeck(s: seq<Card>)
  {
    forall c :: multiset(s)[c] == if 1 <= c.rank <= 13 then 1 else 0
  }

  /** A full deck is exactly a permutation of the standard deck. */
  lemma FullDeckIff(s: seq<Card>)
    ensures FullDeck(s) <==> multiset(s) == multiset(StandardDeck())
  {
    forall c ensures multiset(StandardDeck())[c] == if 1 <= c.rank <= 13 then 1 else 0 {
      StandardDeckCounts(c);
    }
  }

  lemma {:induction false} DistinctCount(s: seq<Card>, c: Card)
    requires Distinct(s)
    ensures multiset(s)[c] == if c in s then 1 else 0
  {
    if s != [] {
      DistinctTail(s);
      DistinctCount(s[1..], c);
      assert s == [s[0]] + s[1..];
    }
  }

  /** The tail of a repetition-free sequence is repetition-free and lacks the head. */
  lemma DistinctTail(s: seq<Card>)
    requires s != [] && Distinct(s)
    ensures Distinct(s[1..]) && s[0] !in s[1..]
  {
    var t := s[1..];
    forall i, j | 0 <= i < j < |t| ensures t[i] != t[j] {
      assert t[i] == s[i + 1] && t[j] == s[j + 1];
    }
    forall k | 0 <= k < |t| ensures t[k] != s[0] {
      assert t[k] == s[k + 1];
    }
  }

  /** Index of the first card with the rank of `other`, as `has_match` finds it. */
  function FirstMatch(s: seq<Card>, other: Option<Card>): (r: Option<nat>)
    ensures r.Some? ==> r.value < |s| && SameRank(s[r.value], other)
    ensures r.Some? ==> forall j :: 0 <= j < r.value ==> !SameRank(s[j], other)
    ensures r.None? <==> forall j :: 0 <= j < |s| ==> !SameRank(s[j], other)
  {
    if s == [] then None
    else if SameRank(s[0], other) then Some(0)
    else
      var rest := FirstMatch(s[1..], other);
      assert forall j :: 1 <= j < |s| ==> s[j] == s[1..][j - 1];
      assert forall j :: 0 <= j < |s| - 1 ==> s[1..][j] == s[j + 1];
      if rest.None? then None else Some(rest.value + 1)
  }

  /** `deque.index(x)`: position of the first card equal to x. */
  function IndexOf(s: seq<Card>, x: Card): (i: nat)
    requires x in s
    ensures i < |s| && s[i] == x
  {
    if s[0] == x then 0
    else
      TailHolds(s, x);
      1 + IndexOf(s[1..], x)
  }

  /** A card other than the head of s occurs in the tail. */
  lemma TailHolds(s: seq<Card>, x: Card)
    requires x in s && s[0] != x
    ensures x in s[1..]
  {
    assert s == [s[0]] + s[1..];
  }

  /** No card before IndexOf(s, x) equals x: it is the first occurrence. */
  lemma {:induction false} IndexOfFirst(s: seq<Card>, x: Card)
    requires x in s
    ensures forall j :: 0 <= j < IndexOf(s, x) ==> s[j] != x
  {
    if s[0] != x {
      TailHolds(s, x);
      IndexOfFirst(s[1..], x);
      forall j | 0 < j < IndexOf(s, x) ensures s[j] != x {
        assert s[j] == s[1..][j - 1];
      }
    }
  }

  /** The first card equal to x removed, the others kept in order. */
  function RemoveFirst(s: seq<Card>, x: Card): (r: seq<Card>)
    requires x in s
    ensures |r| == |s| - 1
  {
    var i := IndexOf(s, x);
    s[..i] + s[i + 1..]
  }

  /** Removing the first copy of x takes exactly one x out of the multiset. */
  lemma RemoveFirstMultiset(s: seq<Card>, x: Card)
    requires x in s
    ensures multiset(RemoveFirst(s, x)) == multiset(s) - multiset{x}
  {
    var i := IndexOf(s, x);
    assert s == s[..i] + [x] + s[i + 1..];
  }

  /** Taking out the card at index i leaves the other cards. */
  lemma TakeOutAt(s: seq<Card>, i: nat)
    requires i < |s|
    ensures multiset(s[..i] + s[i + 1..]) + multiset{s[i]} == multiset(s)
  {
    assert s == s[..i] + [s[i]] + s[i + 1..];
  }

  /** Each card of xs is, in turn, found in what the earlier ones left: the
      condition under which `take_from_hand` raises no ValueError. */
  predicate Removable(s: seq<Card>, xs: seq<Card>)
    decreases |xs|
  {
    xs == [] || (xs[0] in s && Removable(RemoveFirst(s, xs[0]), xs[1..]))
  }

  /** The first equal card removed for each of xs in turn, as `take_from_hand` does. */
  function RemoveEach(s: seq<Card>, xs: seq<Card>): (r: seq<Card>)
    requires Removable(s, xs)
    ensures |r| == |s| - |xs|
    decreases |xs|
  {
    if xs == [] then s else RemoveEach(RemoveFirst(s, xs[0]), xs[1..])
  }

  /** The cards can be taken in turn exactly when the hand holds each of them
      at least as often as xs names it. */
  lemma {:induction false} RemovableIff(s: seq<Card>, xs: seq<Card>)
    ensures Removable(s, xs) <==> multiset(xs) <= multiset(s)
    decreases |xs|
  {
    if xs != [] {
      var x := xs[0];
      assert xs == [x] + xs[1..];
      if x in s {
        RemovableIff(RemoveFirst(s, x), xs[1..]);
        RemoveFirstMultiset(s, x);
      }
      SubMultisetStep(multiset(xs[1..]), x, multiset(s));
    }
  }

  lemma SubMultisetStep(a: multiset<Card>, x: Card, m: multiset<Card>)
    ensures multiset{x} + a <= m <==> x in m && a <= m - multiset{x}
  {
  }

  /** take_from_hand removes exactly the named cards, counted with repetition. */
  lemma {:induction false} RemoveEachMultiset(s: seq<Card>, xs: seq<Card>)
    requires Removable(s, xs)
    ensures multiset(RemoveEach(s, xs)) == multiset(s) - multiset(xs)
    decreases |xs|
  {
    if xs != [] {
      var x := xs[0];
      assert xs == [x] + xs[1..];
      RemoveEachMultiset(RemoveFirst(s, x), xs[1..]);
      RemoveFirstMultiset(s, x);
      MultisetMinusStep(multiset(s), x, multiset(xs[1..]));
    }
  }

  lemma MultisetMinusStep(m: multiset<Card>, x: Card, a: multiset<Card>)
    ensures m - multiset{x} - a == m - (multiset{x} + a)
  {
  }

  /** A card that does not occur before a given position is removed from there. */
  lemma RemoveFirstAt(pre: seq<Card>, x: Card, post: seq<Card>)
    requires x !in pre
    ensures x in pre + [x] + post
    ensures RemoveFirst(pre + [x] + post, x) == pre + post
  {
    var s := pre + [x] + post;
    assert s[|pre|] == x;
    assert forall j :: 0 <= j < |pre| ==> s[j] == pre[j];
    var i := IndexOf(s, x);
    IndexOfFirst(s, x);
    assert i == |pre|;
    assert s[..i] == pre;
    assert s[i + 1..] == post;
  }

  /** k reduced into 0..m-1 by whole turns of m, as `deque.rotate` reduces its
      step count modulo the length (Python's % with a positive modulus). */
  function Steps(k: int, m: nat): (r: int)
    requires m > 0
    ensures 0 <= r < m
    decreases if k < 0 then m - k else k
  {
    if k < 0 then Steps(k + m, m)
    else if k >= m then Steps(k - m, m)
    else k
  }

  /** Steps is the remainder of Euclidean division, which for a positive
      modulus is Python's %. */
  lemma {:induction false} StepsIsMod(k: int, m: nat)
    requires m > 0
    ensures Steps(k, m) == k % m
    decreases if k < 0 then m - k else k
  {
    if k < 0 {
      StepsIsMod(k + m, m);
      ModPlusModulus(k, m);
    } else if k >= m {
      StepsIsMod(k - m, m);
      ModPlusModulus(k - m, m);
    } else {
      Recipes.DivUnique(k, m, 0, k);
    }
  }

  lemma ModPlusModulus(k: int, m: int)
    requires m > 0
    ensures (k + m) % m == k % m
  {
    var q, r := k / m, k % m;
    Recipes.MulSucc(m, q);
    assert k + m == (q + 1) * m + r;
    Recipes.DivUnique(k + m, m, q + 1, r);
  }

  /** `deque.rotate(k)`: k steps to the right (to the left for negative k);
      the step count is taken modulo the length, an empty deque is unchanged. */
  function Rotate<T>(s: seq<T>, k: int): (r: seq<T>)
    ensures |r| == |s|
  {
    if s == [] then s else RotateRight(s, Steps(k, |s|))
  }

  /** j single steps to the right, each `appendleft(pop())`. */
  function RotateRight<T>(s: seq<T>, j: nat): (r: seq<T>)
    ensures |r| == |s|
  {
    if j == 0 || s == [] then s else StepRight(RotateRight(s, j - 1))
  }

  /** One step to the right: the last element moves to the front. */
  function StepRight<T>(t: seq<T>): (r: seq<T>)
    requires t != []
    ensures |r| == |t|
  {
    [t[|t| - 1]] + t[..|t| - 1]
  }

  /** j steps to the right bring the last j elements, in order, to the front. */
  lemma {:induction false} RotateRightSplit<T>(s: seq<T>, j: nat)
    requires j <= |s|
    ensures RotateRight(s, j) == s[|s| - j..] + s[..|s| - j]
  {
    var len := |s|;
    if j == 0 {
      assert s[len..] + s[..len] == s;
    } else {
      RotateRightSplit(s, j - 1);
      StepRightSplit(s, j);
    }
  }

  /** One more step to the right moves one more element to the front. */
  lemma StepRightSplit<T>(s: seq<T>, j: nat)
    requires 1 <= j <= |s|
    ensures StepRight(s[|s| - j + 1..] + s[..|s| - j + 1]) == s[|s| - j..] + s[..|s| - j]
  {
    var len := |s|;
    var front, back := s[len - j + 1..], s[..len - j + 1];
    var t := front + back;
    assert back == s[..len - j] + [s[len - j]];
    assert t == (front + s[..len - j]) + [s[len - j]];
    assert [s[len - j]] + front == s[len - j..];
  }

  /** The rotation as the two slices it joins. */
  lemma RotateSplit<T>(s: seq<T>, k: int)
    requires s != []
    ensures var j := Steps(k, |s|); Rotate(s, k) == s[|s| - j..] + s[..|s| - j]
  {
    var j := Steps(k, |s|);
    assert Rotate(s, k) == RotateRight(s, j);
    RotateRightSplit(s, j);
  }

  /** Rotation only reorders. */
  lemma RotatePermutes<T>(s: seq<T>, k: int)
    ensures multiset(Rotate(s, k)) == multiset(s)
  {
    if s != [] {
      RotateSplit(s, k);
      var j := Steps(k, |s|);
      assert s == s[..|s| - j] + s[|s| - j..];
    }
  }

  /** rotate(0) leaves the order alone; rotate(-1) moves the head to the back. */
  lemma RotateZeroAndMinusOne<T>(s: seq<T>)
    ensures Rotate(s, 0) == s
    ensures s != [] ==> Rotate(s, -1) == s[1..] + [s[0]]
  {
    if s != [] {
      RotateSplit(s, 0);
      RotateSplit(s, -1);
      assert s[|s|..] + s[..|s|] == s;
      assert Steps(-1, |s|) == |s| - 1 by {
        if |s| > 1 {
          assert Steps(-1 + |s|, |s|) == |s| - 1;
        } else {
          assert Steps(0, 1) == 0;
        }
      }
    }
  }

  /** pop_card's two rotations and popleft lose no element and add none. */
  lemma PopPermutes<T>(s: seq<T>, n: int)
    requires s != []
    ensures multiset(s) == multiset(Rotate(Rotate(s, -n)[1..], n)) + multiset{Rotate(s, -n)[0]}
  {
    RotatePermutes(s, -n);
    RotatePermutes(Rotate(s, -n)[1..], n);
    PopMultiset(s, Rotate(s, -n), Rotate(Rotate(s, -n)[1..], n));
  }

  lemma PopMultiset<T>(s: seq<T>, r: seq<T>, u: seq<T>)
    requires r != [] && multiset(r) == multiset(s) && multiset(u) == multiset(r[1..])
    ensures multiset(s) == multiset(u) + multiset{r[0]}
  {
    assert r == [r[0]] + r[1..];
  }

  /** pop_card's rotate(-n), popleft, rotate(n) takes out the card at index n
      and leaves the rest in order, for every valid index. */
  lemma PopRotations<T>(s: seq<T>, n: int)
    requires 0 <= n < |s|
    ensures Rotate(s, -n)[0] == s[n]
    ensures Rotate(Rotate(s, -n)[1..], n) == s[..n] + s[n + 1..]
  {
    RotateLeft(s, n);
    var t := Rotate(s, -n)[1..];
    assert t == s[n + 1..] + s[..n];
    RotateRightBack(s[n + 1..], s[..n]);
  }

  /** rotate(-n) with 0 <= n < len starts the deque at index n. */
  lemma RotateLeft<T>(s: seq<T>, n: int)
    requires 0 <= n < |s|
    ensures Rotate(s, -n) == s[n..] + s[..n]
  {
    var len := |s|;
    RotateSplit(s, -n);
    if n == 0 {
      assert s[len..] + s[..len] == s;
    } else {
      assert Steps(-n, len) == Steps(len - n, len) == len - n;
    }
  }

  /** rotate(n) on a deque whose last n elements are b brings b to the front. */
  lemma RotateRightBack<T>(a: seq<T>, b: seq<T>)
    ensures Rotate(a + b, |b|) == b + a
  {
    var t := a + b;
    if t != [] {
      RotateSplit(t, |b|);
      var len := |t|;
      if |b| < len {
        assert t[len - |b|..] == b && t[..len - |b|] == a;
      } else {
        assert Steps(len, len) == Steps(0, len) == 0;
        assert a == [] && t[len..] + t[..len] == t;
      }
    }
  }

  /** The cards that round-robin dealing hands to hand j of n: those at the
      positions of `dealt` that are j modulo n. */
  function DealtTo(dealt: seq<Card>, j: nat, n: nat): seq<Card>
    requires n > 0
    decreases |dealt|
  {
    if dealt == [] then []
    else
      var last := |dealt| - 1;
      DealtTo(dealt[..last], j, n) + (if last % n == j then [dealt[last]] else [])
  }

  /** Hand j receives ceil((m - j) / n) of m dealt cards, so with at least n
      cards every hand gets one: no hand is dropped. */
  lemma {:induction false} DealtCount(dealt: seq<Card>, j: nat, n: nat)
    requires j < n
    ensures |DealtTo(dealt, j, n)| == (|dealt| + n - 1 - j) / n
    decreases |dealt|
  {
    if dealt != [] {
      var m := |dealt| - 1;
      DealtCount(dealt[..m], j, n);
      var x := m + n - 1 - j;
      SuccDiv(x, n);
      assert (x + 1) % n == 0 <==> m % n == j by {
        ModShift(m, n, j);
      }
    }
  }

  /** (x + 1) / n steps up exactly when x + 1 is a multiple of n. */
  lemma SuccDiv(x: nat, n: nat)
    requires n > 0
    ensures (x + 1) / n == x / n + (if (x + 1) % n == 0 then 1 else 0)
  {
    var q, r := x / n, x % n;
    assert x == q * n + r;
    if r == n - 1 {
      assert x + 1 == (q + 1) * n + 0;
      Recipes.DivUnique(x + 1, n, q + 1, 0);
    } else {
      assert x + 1 == q * n + (r + 1);
      Recipes.DivUnique(x + 1, n, q, r + 1);
    }
  }

  /** m + n - j is a multiple of n exactly when m is j modulo n. */
  lemma ModShift(m: nat, n: nat, j: nat)
    requires j < n
    ensures (m + n - j) % n == 0 <==> m % n == j
  {
    var q, r := m / n, m % n;
    assert m == q * n + r;
    if r == j {
      assert m + n - j == (q + 1) * n + 0;
      Recipes.DivUnique(m + n - j, n, q + 1, 0);
    } else if r > j {
      assert m + n - j == (q + 1) * n + (r - j);
      Recipes.DivUnique(m + n - j, n, q + 1, r - j);
    } else {
      assert m + n - j == q * n + (n + r - j);
      Recipes.DivUnique(m + n - j, n, q, n + r - j);
    }
  }

  /** Dealing 7 cards to each of n hands (52 >= 7n) gives each exactly 7. */
  lemma DealtSevenEach(dealt: seq<Card>, j: nat, n: nat)
    requires j < n && |dealt| == HandSize * n
    ensures |DealtTo(dealt, j, n)| == HandSize
  {
    DealtCount(dealt, j, n);
    assert |dealt| + n - 1 - j == HandSize * n + (n - 1 - j);
    Recipes.DivUnique(|dealt| + n - 1 - j, n, HandSize, n - 1 - j);
  }
}
