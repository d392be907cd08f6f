// The game session of game_logic.py and the turn engine of turn.py. A turn
// works on its game (turn order, deck, players) and the game builds the turns,
// so the two classes share one module.
//
// Cards never appear or vanish: during a game, the deck, the hands and twice
// the number of banked pairs add up to a constant (CardTotal), and every
// executed turn either empties the deck by one card or banks a pair (Progress).

module GameLogic {
  import opened Sorting
  import opened Cards
  import opened Pairing
  import opened Hands
  import opened Players
  import opened Turns

  // ---------------------------------------------------------------------------
  // Totals over the players

  function Sum(s: seq<nat>): nat
  {
    if s == [] then 0 else Sum(s[..|s| - 1]) + s[|s| - 1]
  }

  /** Cards held by p, counting a banked pair as its two cards. */
  function Holding(p: Player): nat
    reads p, p.hand
  {
    |p.hand.stack| + 2 * |p.pairs|
  }

  /** Cards held by each player. */
  function Holdings(ps: seq<Player>): (h: seq<nat>)
    reads ps, HandsOf(ps)
    ensures |h| == |ps| && forall i :: 0 <= i < |ps| ==> h[i] == Holding(ps[i])
  {
    seq(|ps|, i requires 0 <= i < |ps| reads ps, HandsOf(ps) => Holding(ps[i]))
  }

  /** Number of cards in each player's hand. */
  function HandSizes(ps: seq<Player>): (hs: seq<nat>)
    reads HandsOf(ps)
    ensures |hs| == |ps| && forall i :: 0 <= i < |ps| ==> hs[i] == |ps[i].hand.stack|
  {
    seq(|ps|, i requires 0 <= i < |ps| reads HandsOf(ps) => |ps[i].hand.stack|)
  }

  /** `map(attrgetter('hand'), players)`. */
  function HandsOf(ps: seq<Player>): (hs: seq<Hand>)
    ensures |hs| == |ps| && forall i :: 0 <= i < |ps| ==> hs[i] == ps[i].hand
  {
    seq(|ps|, i requires 0 <= i < |ps| => ps[i].hand)
  }

  /** The number of cards `deal_hands` takes from a deck of `len` cards for
      n hands: seven each, or the whole deck when it holds fewer. */
  function DealCount(n: nat, len: nat): (m: nat)
    ensures m <= len && m <= HandSize * n
    ensures m == HandSize * n || m == len
  {
    if HandSize * n <= len then HandSize * n else len
  }

  /** The hand h after round-robin dealing of `dealt` among n hands gave it,
      as hand j, its share. */
  function Receive(h: seq<Card>, dealt: seq<Card>, j: nat, n: nat): (r: seq<Card>)
    requires n > 0
    ensures h == [] ==> r == DealtTo(dealt, j, n)
  {
    h + DealtTo(dealt, j, n)
  }

  lemma CollectedFromEmpty(p: Player, h: seq<Card>, dealt: seq<Card>, j: nat, n: nat, q: seq<(Card, Card)>)
    requires n > 0 && h == []
    requires CollectedFrom(p, Receive(h, dealt, j, n), q)
    ensures CollectedFrom(p, DealtTo(dealt, j, n), q)
  {
  }

  /** p collected the pairs of the hand `before`: it holds what
      `extract_pairs` leaves of it and has banked `pairs0` followed by the
      extracted pairs. */
  ghost predicate CollectedFrom(p: Player, before: seq<Card>, pairs0: seq<(Card, Card)>)
    reads p, p.hand
  {
    p.hand.stack == RemainingHand(before) && p.pairs == pairs0 + ExtractedPairs(before)
  }

  /** Holdings and hand sizes given player by player. */
  lemma HoldingsAre(ps: seq<Player>, h: seq<nat>, hs: seq<nat>)
    requires |h| == |hs| == |ps|
    requires forall k :: 0 <= k < |ps| ==> h[k] == Holding(ps[k]) && hs[k] == |ps[k].hand.stack|
    ensures Holdings(ps) == h && HandSizes(ps) == hs
  {
  }

  /** Changing one entry changes the sum by the difference. */
  lemma {:induction false} SumOneChanged(s: seq<nat>, t: seq<nat>, i: nat)
    requires |s| == |t| && i < |s|
    requires forall k :: 0 <= k < |s| && k != i ==> s[k] == t[k]
    ensures Sum(t) + s[i] == Sum(s) + t[i]
    decreases |s|
  {
    var n := |s| - 1;
    if i == n {
      assert s[..n] == t[..n];
    } else {
      SumOneChanged(s[..n], t[..n], i);
    }
  }

  lemma SumTwoChanged(s: seq<nat>, t: seq<nat>, i: nat, j: nat)
    requires |s| == |t| && i < |s| && j < |s| && i != j
    requires forall k :: 0 <= k < |s| && k != i && k != j ==> s[k] == t[k]
    ensures Sum(t) + s[i] + s[j] == Sum(s) + t[i] + t[j]
  {
    var u := s[i := t[i]];
    SumOneChanged(s, u, i);
    SumOneChanged(u, t, j);
  }

  /** A player's lot: the cards in hand and the pairs banked. */
  type Lot = (seq<Card>, seq<(Card, Card)>)

  /** The cards of a lot: the hand and the two cards of each pair. */
  function Belongings(l: Lot): multiset<Card>
  {
    multiset(l.0) + PairCards(l.1)
  }

  /** The lot of each player. */
  ghost function Lots(ps: seq<Player>): (ls: seq<Lot>)
    reads ps, HandsOf(ps)
    ensures |ls| == |ps| && forall i :: 0 <= i < |ps| ==> ls[i] == (ps[i].hand.stack, ps[i].pairs)
  {
    seq(|ps|, i requires 0 <= i < |ps| reads ps, HandsOf(ps) => (ps[i].hand.stack, ps[i].pairs))
  }

  /** Multisets that agree on every card are equal. */
  lemma SameCards(a: multiset<Card>, b: multiset<Card>)
    requires forall c :: a[c] == b[c]
    ensures a == b
  {
  }

  /** The cards of all the lots of ls together. */
  function Pool(ls: seq<Lot>): multiset<Card>
  {
    if ls == [] then multiset{} else Pool(ls[..|ls| - 1]) + Belongings(ls[|ls| - 1])
  }

  /** The cards of each lot of ls. */
  function LotCards(ls: seq<Lot>): (cs: seq<multiset<Card>>)
    ensures |cs| == |ls| && forall i :: 0 <= i < |ls| ==> cs[i] == Belongings(ls[i])
  {
    seq(|ls|, i requires 0 <= i < |ls| => Belongings(ls[i]))
  }

  /** The union of the multisets of s. */
  function Union(s: seq<multiset<Card>>): multiset<Card>
  {
    if s == [] then multiset{} else Union(s[..|s| - 1]) + s[|s| - 1]
  }

  /** The pool of ls is the union of the cards of its lots. */
  lemma {:induction false} PoolIsUnion(ls: seq<Lot>)
    ensures Pool(ls) == Union(LotCards(ls))
    decreases |ls|
  {
    if ls != [] {
      var n := |ls| - 1;
      assert LotCards(ls)[..n] == LotCards(ls[..n]);
      PoolIsUnion(ls[..n]);
    }
  }

  /** Replacing one entry replaces its cards in the union. */
  lemma {:induction false} UnionOneChanged(s: seq<multiset<Card>>, t: seq<multiset<Card>>, i: nat)
    requires |s| == |t| && i < |s|
    requires forall k :: 0 <= k < |s| && k != i ==> s[k] == t[k]
    ensures Union(t) + s[i] == Union(s) + t[i]
    decreases |s|
  {
    var n := |s| - 1;
    if i == n {
      assert s[..n] == t[..n];
    } else {
      UnionOneChanged(s[..n], t[..n], i);
      calc {
        Union(t) + s[i];
        (Union(t[..n]) + s[i]) + t[n];
        (Union(s[..n]) + t[i]) + s[n];
        Union(s) + t[i];
      }
    }
  }

  lemma UnionTwoChanged(s: seq<multiset<Card>>, t: seq<multiset<Card>>, i: nat, j: nat)
    requires |s| == |t| && i < |s| && j < |s| && i != j
    requires forall k :: 0 <= k < |s| && k != i && k != j ==> s[k] == t[k]
    ensures Union(t) + s[i] + s[j] == Union(s) + t[i] + t[j]
  {
    var u := s[i := t[i]];
    UnionOneChanged(s, u, i);
    UnionOneChanged(u, t, j);
    calc {
      Union(t) + s[i] + s[j];
      (Union(t) + u[j]) + s[i];
      (Union(u) + s[i]) + t[j];
      Union(s) + t[i] + t[j];
    }
  }

  /** Cards exchanged between a pile d and lots i and j of s only: the pile
      and the pool of s keep their cards between them. */
  lemma ExchangeInPool(s: seq<Lot>, t: seq<Lot>, i: nat, j: nat, d: multiset<Card>, e: multiset<Card>)
    requires |s| == |t| && i < |s| && j < |s| && i != j
    requires forall k :: 0 <= k < |s| && k != i && k != j ==> s[k] == t[k]
    requires e + Belongings(t[i]) + Belongings(t[j]) == d + Belongings(s[i]) + Belongings(s[j])
    ensures e + Pool(t) == d + Pool(s)
  {
    var cs, ct := LotCards(s), LotCards(t);
    PoolIsUnion(s);
    PoolIsUnion(t);
    UnionTwoChanged(cs, ct, i, j);
    forall c
      ensures (e + Union(ct))[c] == (d + Union(cs))[c]
    {
      assert (e + ct[i] + ct[j])[c] == (d + cs[i] + cs[j])[c];
      assert (Union(ct) + cs[i] + cs[j])[c] == (Union(cs) + ct[i] + ct[j])[c];
    }
  }

  /** The players' cards number what their holdings add up to. */
  lemma {:induction false} PoolCounts(ps: seq<Player>)
    ensures |Pool(Lots(ps))| == Sum(Holdings(ps))
    decreases |ps|
  {
    if ps != [] {
      var n := |ps| - 1;
      var ls, hs := Lots(ps), Holdings(ps);
      assert ls[..n] == Lots(ps[..n]) by {
        assert forall i :: 0 <= i < n ==> ls[..n][i] == Lots(ps[..n])[i];
      }
      assert hs[..n] == Holdings(ps[..n]) by {
        assert forall i :: 0 <= i < n ==> hs[..n][i] == Holdings(ps[..n])[i];
      }
      PoolCounts(ps[..n]);
      PairCardsSize(ps[n].pairs);
      assert |Belongings(ls[n])| == hs[n];
    }
  }


  /** Entries that grow by what round-robin dealing gives them grow, in total,
      by the number of cards dealt. */
  lemma SumDealt(s: seq<nat>, t: seq<nat>, dealt: seq<Card>)
    requires |s| == |t| > 0
    requires forall j :: 0 <= j < |s| ==> t[j] == s[j] + |DealtTo(dealt, j, |s|)|
    ensures Sum(t) == Sum(s) + |dealt|
  {
    SumDealtTo(s, t, dealt, |s|);
    DealtPartition(dealt, |s|);
  }

  /** The first |s| of n hands grow, together, by what dealing gives them. */
  lemma {:induction false} SumDealtTo(s: seq<nat>, t: seq<nat>, dealt: seq<Card>, n: nat)
    requires |s| == |t| <= n && n > 0
    requires forall j :: 0 <= j < |s| ==> t[j] == s[j] + |DealtTo(dealt, j, n)|
    ensures Sum(t) == Sum(s) + DealtCards(dealt, |s|, n)
  {
    if s != [] {
      var k := |s| - 1;
      SumDealtTo(s[..k], t[..k], dealt, n);
    }
  }

  /** A sum whose entries after the first are all zero is its first entry. */
  lemma {:induction false} SumFirstOnly(s: seq<nat>)
    requires s != [] && forall i :: 1 <= i < |s| ==> s[i] == 0
    ensures Sum(s) == s[0]
  {
    if |s| > 1 {
      SumFirstOnly(s[..|s| - 1]);
    }
  }

  /** In a sequence without repetitions every element occurs at most once. */
  lemma {:induction false} AtMostOnce(s: seq<Player>, x: Player)
    requires forall i, j :: 0 <= i < j < |s| ==> s[i] != s[j]
    ensures multiset(s)[x] <= 1
  {
    if s != [] {
      assert s == [s[0]] + s[1..];
      assert forall i, j :: 0 <= i < j < |s[1..]| ==> s[1..][i] != s[1..][j] by {
        forall i, j | 0 <= i < j < |s[1..]| ensures s[1..][i] != s[1..][j] {
          assert s[1..][i] == s[i + 1] && s[1..][j] == s[j + 1];
        }
      }
      AtMostOnce(s[1..], x);
      if s[0] == x {
        assert x !in s[1..];
      }
    }
  }

  /** While a turn runs, the turn order holds every player but the active one. */
  lemma OrderWithoutActive(order: seq<Player>, active: Player, players: seq<Player>)
    requires multiset(order) + multiset{active} == multiset(players)
    requires forall i :: 0 <= i < |players| ==> players[i].sortOrder == i
    ensures |order| + 1 == |players|
    ensures active in players
    ensures forall p :: p in order ==> p in players && p != active
  {
    assert DistinctPlayers(players);
    assert |multiset(order) + multiset{active}| == |multiset(players)|;
    assert active in multiset(players);
    forall p | p in order ensures p in players && p != active {
      AtMostOnce(players, p);
      assert multiset(players)[p] == multiset(order)[p] + multiset{active}[p];
      assert p in multiset(players);
    }
  }

  /** The players a computer remembers are players of the game other than itself. */
  ghost predicate KeysWithin(m: seq<(Player, set<Card>)>, ps: seq<Player>, owner: Player)
  {
    forall e :: e in m ==> AtSeat(e.0, ps) && e.0 != owner
  }

  /** p is the player in the seat its sort order names. */
  ghost predicate AtSeat(p: Player, ps: seq<Player>)
  {
    0 <= p.sortOrder < |ps| && ps[p.sortOrder] == p
  }

  lemma RememberKeysWithin(m: seq<(Player, set<Card>)>, ps: seq<Player>, owner: Player, k: Player, c: Card)
    requires KeysWithin(m, ps, owner) && AtSeat(k, ps) && k != owner
    ensures KeysWithin(Remembered(m, k, c), ps, owner)
  {
    UpdateKeys(m, k, c);
    var r := Remembered(m, k, c);
    forall e | e in r ensures AtSeat(e.0, ps) && e.0 != owner {
      var i :| 0 <= i < |r| && r[i] == e;
      assert Keys(r)[i] == e.0;
      if e.0 != k {
        assert e.0 in Keys(m);
        var j :| 0 <= j < |m| && Keys(m)[j] == e.0;
        assert m[j] in m;
      }
    }
  }

  // ---------------------------------------------------------------------------
  // Ranking

  /** `key=lambda x: x.num_pairs` with `reverse=True`: Python's reversed sort
      keeps equal elements in their original order, so it is the stable
      ascending sort on the negated count. */
  function PairsDescending<T>(e: (T, int)): int
  {
    -e.1
  }

  function Firsts<T>(s: seq<(T, int)>): (r: seq<T>)
    ensures |r| == |s| && forall i :: 0 <= i < |s| ==> r[i] == s[i].0
  {
    seq(|s|, i requires 0 <= i < |s| => s[i].0)
  }

  /** `sorted(players, key=num_pairs, reverse=True)` over (player, pair count) entries. */
  function Ranking<T>(s: seq<(T, int)>): seq<T>
  {
    Firsts(SortBy(s, PairsDescending))
  }

  /** The ranking lists the same entries, by non-increasing count. */
  lemma RankingFacts<T>(s: seq<(T, int)>)
    ensures |Ranking(s)| == |s|
    ensures forall i :: 0 <= i < |s| ==> SortBy(s, PairsDescending)[i] in s
    ensures forall e :: e in s ==> e in SortBy(s, PairsDescending)
    ensures forall i, j :: 0 <= i < j < |s| ==>
              SortBy(s, PairsDescending)[i].1 >= SortBy(s, PairsDescending)[j].1
  {
    var sorted := SortBy(s, PairsDescending);
    SortByIsSorted(s, PairsDescending);
    SortByPermutes(s, PairsDescending);
    forall i | 0 <= i < |s| ensures sorted[i] in s {
      assert sorted[i] in multiset(sorted);
    }
    forall e | e in s ensures e in sorted {
      assert e in multiset(s);
    }
    forall i, j | 0 <= i < j < |s| ensures sorted[i].1 >= sorted[j].1 {
      assert PairsDescending(sorted[i]) <= PairsDescending(sorted[j]);
    }
  }

  /** The first entry tops the ranking exactly when no entry has a higher
      count: stability lets it win every tie (the human is listed first). */
  lemma TopOfRanking<T>(s: seq<(T, int)>)
    requires s != []
    requires forall i :: 1 <= i < |s| ==> s[i].0 != s[0].0
    ensures Ranking(s)[0] == s[0].0 <==> forall i :: 0 <= i < |s| ==> s[i].1 <= s[0].1
  {
    if forall i :: 0 <= i < |s| ==> s[i].1 <= s[0].1 {
      TopWhenNoneHigher(s);
    }
    if Ranking(s)[0] == s[0].0 {
      NoneHigherWhenTop(s);
    }
  }

  lemma TopWhenNoneHigher<T>(s: seq<(T, int)>)
    requires s != []
    requires forall i :: 0 <= i < |s| ==> s[i].1 <= s[0].1
    ensures Ranking(s)[0] == s[0].0
  {
    var sorted := SortBy(s, PairsDescending);
    RankingFacts(s);
    var k := PairsDescending(s[0]);
    assert s[0] in sorted;
    var p :| 0 <= p < |sorted| && sorted[p] == s[0];
    assert PairsDescending(sorted[0]) == k by {
      var q :| 0 <= q < |s| && s[q] == sorted[0];
      if p > 0 {
        assert sorted[0].1 >= sorted[p].1;
      }
    }
    SortByStable(s, PairsDescending, k);
    WithKeyCons(sorted[0], sorted[1..], PairsDescending, k);
    WithKeyCons(s[0], s[1..], PairsDescending, k);
    assert sorted == [sorted[0]] + sorted[1..];
    assert s == [s[0]] + s[1..];
  }

  lemma NoneHigherWhenTop<T>(s: seq<(T, int)>)
    requires s != []
    requires forall i :: 1 <= i < |s| ==> s[i].0 != s[0].0
    requires Ranking(s)[0] == s[0].0
    ensures forall i :: 0 <= i < |s| ==> s[i].1 <= s[0].1
  {
    var sorted := SortBy(s, PairsDescending);
    RankingFacts(s);
    var q :| 0 <= q < |s| && s[q] == sorted[0];
    assert q == 0;
    forall i | 0 <= i < |s| ensures s[i].1 <= s[0].1 {
      assert s[i] in sorted;
      var p :| 0 <= p < |sorted| && sorted[p] == s[i];
      if p > 0 {
        assert sorted[0].1 >= sorted[p].1;
      }
    }
  }

  /** `filtfalse_players(players, pred)`: the players pred rejects, in order. */
  function FiltFalse<T>(ps: seq<T>, pred: T -> bool): (r: seq<T>)
  {
    if ps == [] then []
    else (if pred(ps[0]) then [] else [ps[0]]) + FiltFalse(ps[1..], pred)
  }

  /** FiltFalse keeps exactly the elements the predicate rejects. */
  lemma {:induction false} FiltFalseMembers<T>(ps: seq<T>, pred: T -> bool)
    ensures forall x :: x in FiltFalse(ps, pred) <==> x in ps && !pred(x)
    ensures |FiltFalse(ps, pred)| <= |ps|
  {
    if ps != [] {
      FiltFalseMembers(ps[1..], pred);
      assert ps == [ps[0]] + ps[1..];
    }
  }

  /** Filtering a concatenation filters each part, in order. */
  lemma {:induction false} FiltFalseAppend<T>(ps: seq<T>, qs: seq<T>, pred: T -> bool)
    ensures FiltFalse(ps + qs, pred) == FiltFalse(ps, pred) + FiltFalse(qs, pred)
    decreases |ps|
  {
    if ps != [] {
      assert (ps + qs)[1..] == ps[1..] + qs;
      FiltFalseAppend(ps[1..], qs, pred);
    } else {
      assert ps + qs == qs;
    }
  }

  /** Each rejected element keeps its multiplicity; each accepted one is gone. */
  lemma {:induction false} FiltFalseCounts<T>(ps: seq<T>, pred: T -> bool, x: T)
    ensures multiset(FiltFalse(ps, pred))[x] == if pred(x) then 0 else multiset(ps)[x]
    decreases |ps|
  {
    if ps != [] {
      var head := if pred(ps[0]) then [] else [ps[0]];
      FiltFalseCounts(ps[1..], pred, x);
      assert multiset(FiltFalse(ps, pred)) == multiset(head) + multiset(FiltFalse(ps[1..], pred));
      assert ps == [ps[0]] + ps[1..];
      assert multiset(ps) == multiset{ps[0]} + multiset(ps[1..]);
    }
  }

  // ---------------------------------------------------------------------------
  // Building the players and the turn order

  /** A computer player as `AiPlayer(id)` leaves it. */
  ghost predicate Newcomer(p: Player, id: int)
    reads p, p.hand
  {
    && p.name == "COMPUTER_" + DecimalString(id) && !p.isHuman && p.sortOrder == id && p.hand.seat == id
    && p.hand.stack == [] && p.pairs == [] && p.oppChoices == []
  }

  /** `create_ai_player(num_ai)`: computer players numbered 1..num_ai. */
  method CreateAiPlayers(numAi: nat) returns (ais: seq<Player>)
    ensures |ais| == numAi
    ensures forall i :: 0 <= i < numAi ==> fresh(ais[i]) && fresh(ais[i].hand) && Newcomer(ais[i], i + 1)
  {
    ais := [];
    var id := 1;
    while id <= numAi
      invariant 1 <= id <= numAi + 1 && |ais| == id - 1
      invariant forall i :: 0 <= i < |ais| ==> fresh(ais[i]) && fresh(ais[i].hand) && Newcomer(ais[i], i + 1)
    {
      var p := new Player.Ai(id);
      ais := ais + [p];
      id := id + 1;
    }
  }

  /** `build_players(user)`: the user first, then the computer players. */
  method BuildPlayers(user: Player, numAi: nat) returns (ps: seq<Player>)
    requires user.isHuman && user.sortOrder == 0 && user.hand.seat == 0 && user.oppChoices == []
    ensures |ps| == numAi + 1 && ps[0] == user
    ensures forall i :: 1 <= i < |ps| ==> fresh(ps[i]) && fresh(ps[i].hand) && Newcomer(ps[i], i)
    ensures Memories(ps) && (numAi >= 1 ==> Seated(ps, user))
  {
    var ais := CreateAiPlayers(numAi);
    ps := [user] + ais;
    assert forall i :: 1 <= i < |ps| ==> ps[i] == ais[i - 1];
  }

  /** `randomize_turns(players)`: `random.shuffle`, which swaps position i
      with a position j <= i drawn at random, for i from the end down to 1.
      `draws(i)` stands for the random draw at position i. */
  method RandomizeTurns(players: seq<Player>, draws: nat -> nat) returns (order: seq<Player>)
    ensures multiset(order) == multiset(players)
  {
    order := players;
    var i := |order|;
    while i > 1
      invariant 0 <= i <= |order| == |players|
      invariant multiset(order) == multiset(players)
    {
      i := i - 1;
      var j := draws(i) % (i + 1);
      var x, y := order[i], order[j];
      order := order[i := y][j := x];
    }
  }

  predicate DistinctPlayers(ps: seq<Player>)
  {
    forall i, j :: 0 <= i < j < |ps| ==> ps[i] != ps[j]
  }

  /** No two players share a hand. */
  predicate DistinctHands(ps: seq<Player>)
  {
    forall i, j :: 0 <= i < j < |ps| ==> ps[i].hand != ps[j].hand
  }

  /** The user is player 0 and the only human, and every player sits at the
      seat its `_sort_order` names, as does its hand: so no two seats share a
      player or a hand. Only constant fields are involved, so no update
      undoes it. */
  ghost predicate Seated(ps: seq<Player>, user: Player)
  {
    && |ps| >= 2 && ps[0] == user
    && forall i :: 0 <= i < |ps| ==> ps[i].isHuman == (i == 0) && ps[i].sortOrder == i && ps[i].hand.seat == i
  }

  /** Seated players, and their hands, are pairwise distinct. */
  lemma SeatedDistinct(ps: seq<Player>, user: Player)
    requires Seated(ps, user)
    ensures DistinctPlayers(ps) && DistinctHands(ps)
  {
  }

  /** A computer player remembers only requests of other players of the game;
      the human remembers nothing. */
  ghost predicate Memories(ps: seq<Player>)
    reads ps`oppChoices
  {
    forall i {:trigger ps[i].oppChoices} :: 0 <= i < |ps| ==>
      && (ps[i].isHuman ==> ps[i].oppChoices == [])
      && KeysWithin(ps[i].oppChoices, ps, ps[i])
  }

  /** The deck, the players and the turn order a game starts from: a deck in
      the order `sample`, the user followed by `num_ai` new computer players,
      and a shuffled turn order. */
  method Reseat(user: Player, sample: seq<Card>, numAi: nat, draws: nat -> nat)
    returns (deck: Deck, ps: seq<Player>, order: seq<Player>)
    requires user.isHuman && user.sortOrder == 0 && user.hand.seat == 0 && user.oppChoices == []
    requires FullDeck(sample) && 1 <= numAi <= MaxPlayers
    ensures fresh(deck) && FullDeck(deck.stack) && |deck.stack| == 52 && deck.stack == Rotate(sample, -26)
    ensures Seated(ps, user) && Memories(ps) && |ps| == numAi + 1 && multiset(order) == multiset(ps)
    ensures forall i :: 1 <= i < |ps| ==> fresh(ps[i]) && fresh(ps[i].hand)
    ensures forall i :: 1 <= i < |ps| ==> ps[i].hand.stack == [] && ps[i].pairs == []
  {
    FullDeckIff(sample);
    deck := new Deck(sample);
    FullDeckIff(deck.stack);
    ps := BuildPlayers(user, numAi);
    order := RandomizeTurns(ps, draws);
  }

  /** The objects `GoFish()` starts from: a new human user, seated by Reseat. */
  method SetUp(sample: seq<Card>, name: string, numAi: nat, draws: nat -> nat)
    returns (deck: Deck, user: Player, ps: seq<Player>, order: seq<Player>)
    requires FullDeck(sample) && 1 <= numAi <= MaxPlayers
    ensures fresh(deck) && FullDeck(deck.stack) && |deck.stack| == 52
    ensures Seated(ps, user) && Memories(ps) && |ps| == numAi + 1 && multiset(order) == multiset(ps)
    ensures user.name == name
    ensures forall i :: 0 <= i < |ps| ==> ps[i].hand.stack == [] && ps[i].pairs == []
  {
    user := new Player.Human(name);
    deck, ps, order := Reseat(user, sample, numAi, draws);
  }

  /** `p.collect_pairs()` for the player p at position i, seen from the game:
      no card is gained or lost, p's hand is left without pairs and every
      other hand is untouched. */
  method Bank(ps: seq<Player>, i: nat)
    requires i < |ps| && DistinctPlayers(ps) && DistinctHands(ps)
    modifies ps`pairs, HandsOf(ps)`stack
    ensures ps[i].pairs == old(ps[i].pairs) + ExtractedPairs(old(ps[i].hand.stack))
    ensures ps[i].hand.stack == RemainingHand(old(ps[i].hand.stack))
    ensures forall j :: 0 <= j < |ps| && j != i ==> ps[j].hand.stack == old(ps[j].hand.stack) && ps[j].pairs == old(ps[j].pairs)
    ensures forall j :: 0 <= j < |ps| ==> Holding(ps[j]) == old(Holding(ps[j])) && ps[j].oppChoices == old(ps[j].oppChoices)
    ensures PairFree(ps[i].hand.stack)
  {
    var p := ps[i];
    p.CollectPairs();
    forall j | 0 <= j < |ps| && j != i
      ensures ps[j].hand.stack == old(ps[j].hand.stack) && ps[j].pairs == old(ps[j].pairs)
    {
      assert ps[j] != p && ps[j].hand != p.hand;
    }
  }

  /** Every player of ps collects its pairs in turn; the cards each holds
      stay as many. */
  method BankAll(ps: seq<Player>)
    requires DistinctPlayers(ps) && DistinctHands(ps)
    modifies ps`pairs, HandsOf(ps)`stack
    ensures forall i :: 0 <= i < |ps| ==> CollectedFrom(ps[i], old(ps[i].hand.stack), old(ps[i].pairs))
    ensures forall i :: 0 <= i < |ps| ==> Holding(ps[i]) == old(Holding(ps[i]))
    ensures forall i :: 0 <= i < |ps| ==> PairFree(ps[i].hand.stack)
  {
    ghost var ls := Lots(ps);
    var i := 0;
    while i < |ps|
      invariant 0 <= i <= |ps|
      invariant forall j :: 0 <= j < |ps| ==> Holding(ps[j]) == |ls[j].0| + 2 * |ls[j].1|
      invariant forall j :: 0 <= j < i ==> PairFree(ps[j].hand.stack)
      invariant forall j :: 0 <= j < i ==> CollectedFrom(ps[j], ls[j].0, ls[j].1)
      invariant forall j :: i <= j < |ps| ==> ps[j].hand.stack == ls[j].0 && ps[j].pairs == ls[j].1
    {
      Bank(ps, i);
      i := i + 1;
    }
  }

  // ---------------------------------------------------------------------------

  class GoFish {
    var deck: Deck
    const user: Player
    var players: seq<Player>
    var turnOrder: seq<Player>
    /** The class-level `winloss` tally. */
    var wins: nat
    var losses: nat
    var gamesPlayed: nat

    ghost predicate Valid()
      reads `players, players`oppChoices
    {
      Seated(players, user) && Memories(players)
    }

    /** Deck, hands and banked pairs (two cards each). */
    ghost function CardTotal(): nat
      reads `deck, `players, deck, players, HandsOf(players)
    {
      |deck.stack| + Sum(Holdings(players))
    }

    /** Every card in play: the deck, the hands and the banked pairs. */
    ghost function AllCards(): multiset<Card>
      reads `deck, `players, deck, players, HandsOf(players)
    {
      multiset(deck.stack) + Pool(Lots(players))
    }

    /** The state dealing from deck d onto n empty hands leaves: d loses its
        top m cards, and player i holds what is left of its round-robin share
        of them once its pairs are banked after the pairs it already had,
        p0 for the user and none for the computer players. */
    ghost predicate DealtFresh(d: seq<Card>, n: nat, p0: seq<(Card, Card)>)
      requires n > 0
      reads `deck, `players, deck, players, HandsOf(players)
    {
      var m := DealCount(n, |d|);
      && |players| == n
      && deck.stack == d[m..]
      && SharesCollected(d[..m], n, p0)
    }

    /** Player i holds what is left of its share of `dealt` once its pairs
        are banked after p0 (the user) or after none (computer players). */
    ghost predicate SharesCollected(dealt: seq<Card>, n: nat, p0: seq<(Card, Card)>)
      requires n > 0
      reads `players, players, HandsOf(players)
    {
      forall i {:trigger DealtTo(dealt, i, n)} :: 0 <= i < |players| ==>
        CollectedFrom(players[i], DealtTo(dealt, i, n), if i == 0 then p0 else [])
    }

    /** Each player holds what is left of its hand before plus its
        round-robin share of `dealt` once the pairs of that are banked after
        the pairs it had before. */
    twostate predicate DealtOnto(dealt: seq<Card>, n: nat)
      requires n > 0
      reads `players, players, HandsOf(players)
    {
      && players == old(players)
      && forall i {:trigger DealtTo(dealt, i, n)} :: 0 <= i < |players| ==>
           CollectedFrom(players[i], Receive(old(players[i].hand.stack), dealt, i, n), old(players[i].pairs))
    }

    /** The measure every turn from a non-empty deck decreases. */
    ghost function Progress(): nat
      reads `deck, `players, deck, HandsOf(players)
    {
      2 * |deck.stack| + Sum(HandSizes(players))
    }

    /** `GoFish()`: a deck in the order `sample`, the user, `num_ai` computer
        players and a shuffled turn order. */
    constructor (sample: seq<Card>, name: string, numAi: nat, draws: nat -> nat)
      requires FullDeck(sample) && 1 <= numAi <= MaxPlayers
      ensures Valid() && multiset(turnOrder) == multiset(players)
      ensures fresh(deck) && FullDeck(deck.stack) && |deck.stack| == 52
      ensures user.name == name && |players| == numAi + 1
      ensures |deck.stack| == 52 && Sum(Holdings(players)) == 0
      ensures wins == 0 && losses == 0 && gamesPlayed == 0
    {
      var d, u, ps, order := SetUp(sample, name, numAi, draws);
      deck := d;
      user := u;
      players := ps;
      turnOrder := order;
      wins, losses, gamesPlayed := 0, 0, 0;
      new;
      SumFirstOnly(Holdings(players));
    }

    /** `game_over()` as written: `p.hand.count == 0` compares the bound method
        `count` with 0, which is never equal, so only the deck decides. */
    predicate GameOver()
      reads `deck, deck
      ensures GameOver() <==> deck.stack == []
    {
      deck.Len() == 0
    }

    /** `deck.deal_hands(*map(attrgetter('hand'), players))`: the top
        cards of the deck, seven per player or all there are, go round-robin
        to the players' hands, and no card is gained or lost. */
    method Deal()
      requires players != [] && DistinctHands(players)
      modifies deck`stack, HandsOf(players)`stack
      ensures var m := DealCount(|players|, |old(deck.stack)|);
              && deck.stack == old(deck.stack)[m..]
              && forall i :: 0 <= i < |players| ==>
                   players[i].hand.stack == Receive(old(players[i].hand.stack), old(deck.stack)[..m], i, |players|)
      ensures CardTotal() == old(CardTotal())
    {
      var hands := HandsOf(players);
      ghost var h0 := Holdings(players);
      ghost var d0 := deck.stack;
      var ok := deck.DealHands(hands);
      var m := DealCount(|players|, |d0|);
      assert forall j :: 0 <= j < |players| ==>
        Holdings(players)[j] == h0[j] + |DealtTo(d0[..m], j, |players|)|;
      SumDealt(h0, Holdings(players), d0[..m]);
    }

    /** `for p in players: p.collect_pairs()`. */
    method BankPairs()
      requires Valid()
      modifies players`pairs, HandsOf(players)`stack
      ensures Valid()
      ensures forall i :: 0 <= i < |players| ==>
                CollectedFrom(players[i], old(players[i].hand.stack), old(players[i].pairs))
      ensures Holdings(players) == old(Holdings(players))
      ensures forall i :: 0 <= i < |players| ==> PairFree(players[i].hand.stack)
    {
      ghost var h0 := Holdings(players);
      SeatedDistinct(players, user);
      BankAll(players);
      assert Holdings(players) == h0;
    }

    /** The part of `new_game` every game shares: deal, then bank the pairs
        of the dealt hands. Every player collects the pairs of its old hand
        plus its round-robin share of the top of the deck. */
    method DealAndBank()
      requires Valid()
      modifies deck`stack, players`pairs, HandsOf(players)`stack
      ensures Valid()
      ensures var m := DealCount(|players|, |old(deck.stack)|);
              && deck.stack == old(deck.stack)[m..]
              && DealtOnto(old(deck.stack)[..m], |players|)
      ensures CardTotal() == old(CardTotal())
      ensures forall i :: 0 <= i < |players| ==> PairFree(players[i].hand.stack)
    {
      Deal();
      BankPairs();
    }

    /** DealAndBank on the empty hands Restart leaves: every player collects
        the pairs of exactly its share of the top of the deck, and only the
        user (player 0) keeps pairs from before, p0. */
    method DealFresh(ghost d: seq<Card>, ghost n: nat, ghost p0: seq<(Card, Card)>)
      requires Valid() && deck.stack == d && |players| == n
      requires forall i :: 0 <= i < |players| ==> players[i].hand.stack == []
      requires forall i :: 0 <= i < |players| ==> players[i].pairs == if i == 0 then p0 else []
      modifies deck`stack, players`pairs, HandsOf(players)`stack
      ensures Valid() && n > 0 && DealtFresh(d, n, p0)
      ensures CardTotal() == old(CardTotal())
      ensures forall i :: 0 <= i < |players| ==> PairFree(players[i].hand.stack)
    {
      DealAndBank();
      ghost var dealt := d[..DealCount(n, |d|)];
      forall i | 0 <= i < n
        ensures CollectedFrom(players[i], DealtTo(dealt, i, n), if i == 0 then p0 else [])
      {
        CollectedFromEmpty(players[i], old(players[i].hand.stack), dealt, i, n, old(players[i].pairs));
      }
    }

    /** The part of `new_game(False)` before dealing: the user's hand is
        cleared (the user's banked pairs are kept), and a new deck, new
        computer players and a new turn order replace the old ones. */
    method Restart(sample: seq<Card>, numAi: nat, draws: nat -> nat)
      requires user.isHuman && user.sortOrder == 0 && user.hand.seat == 0 && user.oppChoices == []
      requires FullDeck(sample) && 1 <= numAi <= MaxPlayers
      modifies this`deck, this`players, this`turnOrder, user.hand`stack
      ensures Valid() && multiset(turnOrder) == multiset(players) && |players| == numAi + 1
      ensures fresh(deck) && forall i :: 1 <= i < |players| ==> fresh(players[i]) && fresh(players[i].hand)
      ensures deck.stack == Rotate(sample, -26) && FullDeck(deck.stack) && |deck.stack| == 52
      ensures user.hand.stack == []
      ensures forall i :: 0 <= i < |players| ==>
                players[i].hand.stack == [] && players[i].pairs == if i == 0 then old(user.pairs) else []
      ensures CardTotal() == 52 + 2 * |user.pairs|
    {
      user.hand.ClearHand();
      var d, ps, order := Reseat(user, sample, numAi, draws);
      deck := d;
      players := ps;
      turnOrder := order;
      SumFirstOnly(Holdings(players));
    }

    /** `new_game(False)`: restart, then deal and bank. Every player is dealt
        seven cards of the new deck and collects their pairs; the user's
        earlier pairs stay banked. */
    method Redeal(sample: seq<Card>, numAi: nat, draws: nat -> nat)
      requires Valid()
      requires FullDeck(sample) && 1 <= numAi <= MaxPlayers
      modifies this`deck, this`players, this`turnOrder, user`pairs, user.hand`stack
      ensures Valid() && multiset(turnOrder) == multiset(players) && |players| == numAi + 1
      ensures fresh(deck) && forall i :: 1 <= i < |players| ==> fresh(players[i]) && fresh(players[i].hand)
      ensures DealtFresh(Rotate(sample, -26), numAi + 1, old(user.pairs))
      ensures forall i :: 0 <= i < |players| ==> PairFree(players[i].hand.stack)
      ensures CardTotal() == 52 + 2 * |old(user.pairs)|
    {
      ghost var p0 := user.pairs;
      assert user == players[0] && user.oppChoices == [];
      Restart(sample, numAi, draws);
      DealFresh(Rotate(sample, -26), numAi + 1, p0);
    }

    /** `new_game(first)`: a later game clears the user's hand and builds a new
        deck, new computer players and a new turn order; every game then deals
        and banks the pairs of the dealt hands. The user's banked pairs are not
        cleared, so they count again in the next game's total. */
    method NewGame(first: bool, sample: seq<Card>, numAi: nat, draws: nat -> nat)
      requires Valid()
      requires first ==> multiset(turnOrder) == multiset(players)
      requires !first ==> FullDeck(sample) && 1 <= numAi <= MaxPlayers
      modifies this`deck, this`players, this`turnOrder, deck`stack, players`pairs, HandsOf(players)`stack
      ensures Valid() && multiset(turnOrder) == multiset(players)
      ensures first ==> players == old(players) && turnOrder == old(turnOrder) && deck == old(deck)
      ensures !first ==> fresh(deck) && |players| == numAi + 1
      ensures !first ==> forall i :: 1 <= i < |players| ==> fresh(players[i]) && fresh(players[i].hand)
      ensures first ==>
                var m := DealCount(|players|, |old(deck.stack)|);
                && deck.stack == old(deck.stack)[m..]
                && DealtOnto(old(deck.stack)[..m], |players|)
      ensures !first ==> DealtFresh(Rotate(sample, -26), numAi + 1, old(user.pairs))
      ensures forall i :: 0 <= i < |players| ==> PairFree(players[i].hand.stack)
      ensures CardTotal() == if first then old(CardTotal()) else 52 + 2 * |old(user.pairs)|
    {
      if first {
        DealAndBank();
      } else {
        Redeal(sample, numAi, draws);
      }
    }

    /** `next_turn(turn)`: with no turn, the head of the turn order plays; otherwise
        the active player goes back to the head, the order is rotated by the
        outcome's `extra_turns()`, and the new head plays. */
    method NextTurn(turn: Turn?) returns (next: Turn)
      requires turn == null ==> Valid() && multiset(turnOrder) == multiset(players)
      requires turn != null ==> turn.game == this && turn.Ready()
      modifies this`turnOrder
      ensures fresh(next) && next.game == this && next.Ready() && next.Fresh()
      ensures CardTotal() == old(CardTotal()) && Progress() == old(Progress())
      ensures AllCards() == old(AllCards())
      ensures turn == null ==> next.active == old(turnOrder)[0] && turnOrder == old(turnOrder)[1..]
      ensures turn != null ==>
                var order := Rotate([turn.active] + old(turnOrder), ExtraTurns(turn.outcome));
                next.active == order[0] && turnOrder == order[1..]
    {
      if turn != null {
        Requeue(turn.active, turn.outcome);
      }
      next := StartTurn();
    }

    /** `turn_order.appendleft(active)`, then `turn_order.rotate(extra_turns())`:
        the turn order holds every player again. */
    method Requeue(active: Player, outcome: Outcome)
      requires Valid() && multiset(turnOrder) + multiset{active} == multiset(players)
      modifies this`turnOrder
      ensures Valid() && multiset(turnOrder) == multiset(players)
      ensures turnOrder == Rotate([active] + old(turnOrder), ExtraTurns(outcome))
      ensures CardTotal() == old(CardTotal()) && Progress() == old(Progress())
      ensures AllCards() == old(AllCards())
    {
      NextOrder(active, turnOrder, outcome);
      ghost var hs, ss, ls := Holdings(players), HandSizes(players), Lots(players);
      turnOrder := Rotate([active] + turnOrder, ExtraTurns(outcome));
      assert Holdings(players) == hs && HandSizes(players) == ss && Lots(players) == ls;
    }

    /** `Turn(self)` or `AiTurn(self)`, whichever fits the head of the turn
        order, which holds every player. */
    method StartTurn() returns (next: Turn)
      requires Valid() && multiset(turnOrder) == multiset(players)
      modifies this`turnOrder
      ensures fresh(next) && next.game == this && next.Ready() && next.Fresh()
      ensures next.active == old(turnOrder[0]) && turnOrder == old(turnOrder[1..])
      ensures CardTotal() == old(CardTotal()) && Progress() == old(Progress())
      ensures AllCards() == old(AllCards())
    {
      assert |turnOrder| == |players| by {
        assert |multiset(turnOrder)| == |multiset(players)|;
      }
      ghost var order := turnOrder;
      assert order == [order[0]] + order[1..];
      assert order[0] in multiset(players);
      ghost var seat :| 0 <= seat < |players| && players[seat] == order[0];
      ghost var hs, ss, ls := Holdings(players), HandSizes(players), Lots(players);
      next := new Turn(this, !turnOrder[0].isHuman);
      assert Holdings(players) == hs;
      assert HandSizes(players) == ss;
      assert Lots(players) == ls;
      assert multiset(turnOrder) + multiset{next.active} == multiset(order);
    }

    /** `score_game()`: players by descending pair count, ties in seating order;
        the user's win count goes up when the user is first, the loss count
        otherwise. */
    method ScoreGame() returns (ranked: seq<Player>)
      requires Valid()
      modifies this`wins, this`losses
      ensures ranked == Ranking(Scored(players))
      ensures |ranked| == |players|
      ensures forall p :: p in ranked <==> p in players
      ensures forall i, j :: 0 <= i < j < |ranked| ==> |ranked[i].pairs| >= |ranked[j].pairs|
      ensures ranked[0] == user <==> forall p :: p in players ==> |p.pairs| <= |user.pairs|
      ensures ranked[0] == user ==> wins == old(wins) + 1 && losses == old(losses)
      ensures ranked[0] != user ==> wins == old(wins) && losses == old(losses) + 1
    {
      ranked := Ranking(Scored(players));
      RankedPlayers(players);
      TopOfRanking(Scored(players));
      if ranked[0] == user {
        wins := wins + 1;
      } else {
        losses := losses + 1;
      }
    }

    /** `play()`: set up the game, then execute turns until `game_over()`,
        count the game and rank the players. `cardPicks(k)` and `oppPicks(k)`
        stand for the card and opponent chosen in turn k (a prompt answer or a
        random choice). A turn that starts with an empty hand cannot go on:
        `random.choice` raises for a computer player and the card prompt never
        accepts an answer for the user; the game then ends unfinished. */
    method Play(sample: seq<Card>, numAi: nat, draws: nat -> nat, cardPicks: nat -> nat, oppPicks: nat -> nat)
      returns (ranked: seq<Player>, finished: bool)
      requires Valid()
      requires gamesPlayed == 0 ==> multiset(turnOrder) == multiset(players)
      requires gamesPlayed != 0 ==> FullDeck(sample) && 1 <= numAi <= MaxPlayers
      modifies this`deck, this`players, this`turnOrder, this`wins, this`losses, this`gamesPlayed
      modifies deck`stack, players`pairs, players`oppChoices, HandsOf(players)`stack
      ensures Valid()
      ensures finished ==> deck.stack == [] && gamesPlayed == old(gamesPlayed) + 1
      ensures finished ==> wins + losses == old(wins + losses) + 1
      ensures finished ==> |ranked| == |players| && (ranked[0] == user <==> forall p :: p in players ==> |p.pairs| <= |user.pairs|)
      ensures finished ==> CardTotal() == if old(gamesPlayed) == 0 then old(CardTotal()) else 52 + 2 * |old(user.pairs)|
      ensures !finished ==> gamesPlayed == old(gamesPlayed) && wins == old(wins) && losses == old(losses)
    {
      ghost var counts := (gamesPlayed, wins, losses);
      ghost var total := if gamesPlayed == 0 then CardTotal() else 52 + 2 * |user.pairs|;
      NewGame(gamesPlayed == 0, sample, numAi, draws);
      assert (gamesPlayed, wins, losses) == counts && CardTotal() == total;
      ranked, finished := PlayOut(cardPicks, oppPicks);
    }

    /** `play()` after `new_game`: the turns, then, when they ran to an empty
        deck, the count of the game and its score. */
    method PlayOut(cardPicks: nat -> nat, oppPicks: nat -> nat) returns (ranked: seq<Player>, finished: bool)
      requires Valid() && multiset(turnOrder) == multiset(players)
      modifies this`turnOrder, this`wins, this`losses, this`gamesPlayed
      modifies deck`stack, players`pairs, players`oppChoices, HandsOf(players)`stack
      ensures Valid() && CardTotal() == old(CardTotal())
      ensures finished ==> deck.stack == [] && gamesPlayed == old(gamesPlayed) + 1
      ensures finished ==> wins + losses == old(wins + losses) + 1
      ensures finished ==> |ranked| == |players| && (ranked[0] == user <==> forall p :: p in players ==> |p.pairs| <= |user.pairs|)
      ensures !finished ==> gamesPlayed == old(gamesPlayed) && wins == old(wins) && losses == old(losses)
    {
      var stuck := PlayTurns(cardPicks, oppPicks);
      if stuck {
        return [], false;
      }
      ranked := EndGame();
      finished := true;
    }

    /** The last lines of `play()`: count the game, then score it. */
    method EndGame() returns (ranked: seq<Player>)
      requires Valid()
      modifies this`gamesPlayed, this`wins, this`losses
      ensures Valid() && CardTotal() == old(CardTotal()) && deck.stack == old(deck.stack)
      ensures gamesPlayed == old(gamesPlayed) + 1 && wins + losses == old(wins + losses) + 1
      ensures |ranked| == |players| && (ranked[0] == user <==> forall p :: p in players ==> |p.pairs| <= |user.pairs|)
    {
      ghost var hs := Holdings(players);
      gamesPlayed := gamesPlayed + 1;
      ranked := ScoreGame();
      assert Holdings(players) == hs;
    }

    /** The loop of `play()`: `next_turn()`, then `execute()` and
        `next_turn(turn)` until the deck is empty. Every turn keeps the
        number of cards and, the deck being non-empty, draws a card or banks
        a pair, so the loop ends. `stuck` reports an active player with an
        empty hand, for whom `execute()` cannot pick a card. */
    method PlayTurns(cardPicks: nat -> nat, oppPicks: nat -> nat) returns (stuck: bool)
      requires Valid() && multiset(turnOrder) == multiset(players)
      modifies this`turnOrder, deck`stack, players`pairs, players`oppChoices, HandsOf(players)`stack
      ensures Valid() && CardTotal() == old(CardTotal())
      ensures forall c :: AllCards()[c] == old(AllCards())[c]
      ensures !stuck ==> deck.stack == []
    {
      ghost var all0 := AllCards();
      var turn := NextTurn(null);
      var k := 0;
      while !GameOver()
        invariant fresh(turn) && turn.game == this && turn.Ready() && turn.Fresh()
        invariant Valid()
        invariant CardTotal() == old(CardTotal())
        invariant AllCards() == all0
        decreases Progress()
      {
        if turn.active.hand.stack == [] {
          return true;
        }
        turn := Round(turn, cardPicks(k), oppPicks(k), all0);
        k := k + 1;
      }
      return false;
    }

    /** One pass of the loop of `play()`: `turn.execute()`, then
        `next_turn(turn)`. From a non-empty deck the measure goes down. */
    method Round(turn: Turn, cardPick: nat, oppPick: nat, ghost all0: multiset<Card>) returns (next: Turn)
      requires turn.game == this && turn.Ready() && turn.Fresh()
      requires AllCards() == all0
      requires turn.active.hand.stack != [] && deck.stack != []
      modifies turn, this`turnOrder, deck`stack, players`pairs, players`oppChoices, HandsOf(players)`stack
      ensures fresh(next) && next.game == this && next.Ready() && next.Fresh()
      ensures Valid() && CardTotal() == old(CardTotal()) && Progress() < old(Progress())
      ensures AllCards() == all0
      ensures turn.outcome != InProgress
      ensures var order := Rotate([turn.active] + old(turnOrder), ExtraTurns(turn.outcome));
              next.active == order[0] && turnOrder == order[1..]
    {
      turn.Execute(cardPick, oppPick, all0);
      next := NextTurn(turn);
    }
  }

  /** The ranking of the players lists each of them once, by non-increasing
      number of banked pairs. */
  lemma RankedPlayers(ps: seq<Player>)
    ensures |Ranking(Scored(ps))| == |ps|
    ensures forall p :: p in Ranking(Scored(ps)) <==> p in ps
    ensures forall i, j :: 0 <= i < j < |ps| ==>
              |Ranking(Scored(ps))[i].pairs| >= |Ranking(Scored(ps))[j].pairs|
  {
    var scored := Scored(ps);
    var ranked := Ranking(scored);
    var sorted := SortBy(scored, PairsDescending);
    RankingFacts(scored);
    forall p ensures p in ranked <==> p in ps {
      if p in ranked {
        var i :| 0 <= i < |ranked| && ranked[i] == p;
        assert sorted[i] in scored;
      }
      if p in ps {
        var i :| 0 <= i < |ps| && ps[i] == p;
        assert scored[i] in sorted;
      }
    }
    forall i, j | 0 <= i < j < |ranked| ensures |ranked[i].pairs| >= |ranked[j].pairs| {
      assert sorted[i] in scored && sorted[j] in scored;
    }
  }

  /** (player, `num_pairs`) for each player, in seating order. */
  function Scored(ps: seq<Player>): (s: seq<(Player, int)>)
    reads ps
    ensures |s| == |ps| && forall i :: 0 <= i < |ps| ==> s[i] == (ps[i], |ps[i].pairs|)
  {
    seq(|ps|, i requires 0 <= i < |ps| reads ps => (ps[i], |ps[i].pairs|))
  }

  /** `hand.pop_card(i)` at a position of the hand: that card comes out and
      the others keep their order. */
  method PopAt(h: Hand, i: nat) returns (card: Card)
    requires i < |h.stack|
    modifies h`stack
    ensures card == old(h.stack)[i] && h.stack == old(h.stack)[..i] + old(h.stack)[i + 1..]
  {
    card := h.PopCard(i);
  }

  /** The active hand t after `do_go_fish()` drew g while w was wanted: a
      card of the wanted rank is added; otherwise the first card of the drawn
      rank, when the hand has one, moves to the end behind the drawn card. */
  function Fished(t: seq<Card>, w: Card, g: Option<Card>): seq<Card>
  {
    if SameRank(w, g) then t + Present([g])
    else match FirstMatch(t, g)
      case None => t + Present([g])
      case Some(i) => t[..i] + t[i + 1..] + Present([g, Some(t[i])])
  }

  /** Fishing adds the drawn card to the hand and loses none. */
  lemma FishedKeepsCards(t: seq<Card>, w: Card, g: Option<Card>)
    ensures multiset(Fished(t, w, g)) == multiset(t) + multiset(Present([g]))
  {
    if !SameRank(w, g) && FirstMatch(t, g).Some? {
      var i := FirstMatch(t, g).value;
      TakeOutAt(t, i);
      assert [g, Some(t[i])][1..] == [Some(t[i])] && [Some(t[i])][1..] == [] && [g][1..] == [];
      assert Present([g, Some(t[i])]) == Present([g]) + [t[i]];
      assert multiset(t[..i] + t[i + 1..] + Present([g, Some(t[i])]))
          == multiset(t[..i] + t[i + 1..]) + multiset{t[i]} + multiset(Present([g]));
    }
  }

  /** Cards exchanged between deck d, active hand a and opponent hand o,
      then the pairs of the active hand banked after pa: the deck, the two
      hands and the banked pairs pa and po keep their cards between them. */
  lemma ExchangeThenBank(d0: seq<Card>, a0: seq<Card>, o0: seq<Card>, d1: seq<Card>, a1: seq<Card>, o1: seq<Card>)
    requires multiset(d1) + multiset(a1) + multiset(o1) == multiset(d0) + multiset(a0) + multiset(o0)
    ensures multiset(d1) + multiset(RemainingHand(a1)) + PairCards(ExtractedPairs(a1)) + multiset(o1)
            == multiset(d0) + multiset(a0) + multiset(o0)
  {
    ExtractConserves(a1);
    var rest, taken := multiset(RemainingHand(a1)), PairCards(ExtractedPairs(a1));
    var d1s, a1s, o1s, d0s, a0s, o0s := multiset(d1), multiset(a1), multiset(o1), multiset(d0), multiset(a0), multiset(o0);
    forall x
      ensures (d1s + rest + taken + o1s)[x] == (d0s + a0s + o0s)[x]
    {
      assert (d1s + a1s + o1s)[x] == (d0s + a0s + o0s)[x];
      assert a1s[x] == (rest + taken)[x];
    }
  }

  /** A card handed over from hand s to hand t: the deck d and the two hands
      keep their cards between them. */
  lemma AskConserves(d: seq<Card>, s: seq<Card>, t: seq<Card>, i: nat)
    requires i < |s|
    ensures multiset(d) + multiset(t + [s[i]]) + multiset(s[..i] + s[i + 1..])
            == multiset(d) + multiset(t) + multiset(s)
    ensures |t + [s[i]]| + |s[..i] + s[i + 1..]| == |t| + |s|
  {
    TakeOutAt(s, i);
  }

  /** The top card of d drawn into hand t: the deck, t and any other hand s
      keep their cards between them. */
  lemma FishConserves(d: seq<Card>, s: seq<Card>, t: seq<Card>, w: Card)
    ensures var g := if d == [] then None else Some(d[0]);
            var rest := if d == [] then [] else d[1..];
            && multiset(rest) + multiset(Fished(t, w, g)) + multiset(s) == multiset(d) + multiset(t) + multiset(s)
            && |rest| + |Fished(t, w, g)| + |s| == |d| + |t| + |s|
  {
    var g := if d == [] then None else Some(d[0]);
    FishedKeepsCards(t, w, g);
    if d != [] {
      assert d == [d[0]] + d[1..];
      assert Present([g]) == [d[0]] by {
        assert [g][1..] == [];
      }
    }
    assert |multiset(Fished(t, w, g))| == |multiset(t) + multiset(Present([g]))|;
  }

  /** The conservation of a turn, regrouped by player once the banked pairs
      b are added to the pairs pa the active player had. */
  lemma BankedInPlace(d0: seq<Card>, a0: seq<Card>, o0: seq<Card>, d1: seq<Card>, a1: seq<Card>, o1: seq<Card>,
                      pa: seq<(Card, Card)>, po: seq<(Card, Card)>, b: seq<(Card, Card)>)
    requires multiset(d1) + multiset(a1) + PairCards(b) + multiset(o1) == multiset(d0) + multiset(a0) + multiset(o0)
    ensures multiset(d1) + Belongings((a1, pa + b)) + Belongings((o1, po)) == multiset(d0) + Belongings((a0, pa)) + Belongings((o0, po))
  {
    PairCardsAppend(pa, b);
    var lhs := multiset(d1) + Belongings((a1, pa + b)) + Belongings((o1, po));
    var rhs := multiset(d0) + Belongings((a0, pa)) + Belongings((o0, po));
    forall x
      ensures lhs[x] == rhs[x]
    {
      assert (multiset(d1) + multiset(a1) + PairCards(b) + multiset(o1))[x] == (multiset(d0) + multiset(a0) + multiset(o0))[x];
    }
    SameCards(lhs, rhs);
  }

  // ---------------------------------------------------------------------------

  class Turn {
    const game: GoFish
    const active: Player
    /** An `AiTurn` rather than a `Turn`. */
    const isAi: bool
    var outcome: Outcome
    var opponent: Player?
    var wantedCard: Option<Card>
    var matchingCard: Option<Card>
    var goFishCard: Option<Card>

    /** A turn of `game` whose active player is off the turn order. */
    ghost predicate Ready()
      reads game`players, game`turnOrder, game.players
    {
      && game.Valid()
      && isAi == !active.isHuman && AtSeat(active, game.players)
      && multiset(game.turnOrder) + multiset{active} == multiset(game.players)
    }

    /** As the constructor leaves it. */
    predicate Fresh()
      reads this
    {
      outcome == InProgress && opponent == null && wantedCard == None
      && matchingCard == None && goFishCard == None
    }

    /** `Turn(game)` / `AiTurn(game)`: the head of the turn order becomes the
        active player. */
    constructor (game: GoFish, isAi: bool)
      requires game.turnOrder != []
      modifies game`turnOrder
      ensures this.game == game && this.isAi == isAi && Fresh()
      ensures active == old(game.turnOrder[0]) && game.turnOrder == old(game.turnOrder[1..])
    {
      this.game := game;
      active := game.turnOrder[0];
      this.isAi := isAi;
      outcome := InProgress;
      opponent := null;
      wantedCard := None;
      matchingCard := None;
      goFishCard := None;
      new;
      game.turnOrder := game.turnOrder[1..];
    }

    /** `user_choose_card`: the prompt repeats until the answer indexes the
        hand; `pick` stands for the accepted answer. */
    method UserChooseCard(pick: nat)
      requires active.hand.stack != []
      modifies this`wantedCard
      ensures wantedCard == Some(active.hand.stack[pick % |active.hand.stack|])
    {
      wantedCard := Some(active.hand.stack[pick % |active.hand.stack|]);
    }

    /** `user_choose_opp`: one of `players[1:]`. */
    method UserChooseOpp(pick: nat)
      requires |game.players| >= 2
      modifies this`opponent
      ensures opponent == game.players[1..][pick % (|game.players| - 1)]
    {
      opponent := game.players[1..][pick % (|game.players| - 1)];
    }

    /** The `has_match` results of the remembered cards, None left out. */
    method MatchesOf(cards: set<Card>) returns (matches: set<nat>)
      ensures matches == MatchIndices(active.hand.stack, cards)
    {
      matches := {};
      var rest := cards;
      assert cards - rest == {};
      while rest != {}
        invariant rest <= cards
        invariant matches == MatchIndices(active.hand.stack, cards - rest)
        decreases |rest|
      {
        var c :| c in rest;
        var m := active.hand.HasMatch(Some(c));
        MatchIndicesAdd(active.hand.stack, cards - rest, c);
        assert cards - (rest - {c}) == (cards - rest) + {c};
        if m.Some? {
          matches := matches + {m.value};
        }
        rest := rest - {c};
      }
      assert cards - rest == cards;
    }

    /** `ai_choose_card`: go through the remembered requests by the asking
        player's sort order; at the first player one of whose requested ranks
        the hand holds, ask that player for a card of such a rank (which one
        follows set order, so any). Otherwise, unless a card is already
        wanted, pick a random card of the hand (`pick`). */
    method AiChooseCard(pick: nat)
      requires active.hand.stack != []
      modifies this`opponent, this`wantedCard
      ensures var entries := AskOrder(active.oppChoices);
              var k := FirstAnswerable(entries, active.hand.stack);
              && (k.Some? ==>
                    && opponent == entries[k.value].0
                    && exists m :: m in MatchIndices(active.hand.stack, entries[k.value].1)
                                   && wantedCard == Some(active.hand.stack[m]))
              && (k.None? ==>
                    && opponent == old(opponent)
                    && wantedCard == if old(wantedCard).None?
                                     then Some(active.hand.stack[pick % |active.hand.stack|])
                                     else old(wantedCard))
    {
      var entries := AskOrder(active.oppChoices);
      ghost var sets := EntryMatches(entries, active.hand.stack);
      var i := 0;
      while i < |entries|
        invariant 0 <= i <= |entries|
        invariant forall j :: 0 <= j < i ==> sets[j] == {}
        invariant opponent == old(opponent) && wantedCard == old(wantedCard)
      {
        var matches := MatchesOf(entries[i].1);
        assert matches == sets[i];
        if matches != {} {
          opponent := entries[i].0;
          var m :| m in matches;
          wantedCard := Some(active.hand.stack[m]);
          assert FirstNonEmpty(sets) == Some(i);
          return;
        }
        assert sets[i] == {};
        assert forall j :: 0 <= j < i + 1 ==> sets[j] == {};
        i := i + 1;
      }
      assert FirstNonEmpty(sets) == None;
      if wantedCard.None? {
        wantedCard := Some(active.hand.stack[pick % |active.hand.stack|]);
      }
    }

    /** `ai_choose_opp`: unless memory chose one, a random player of the turn order. */
    method AiChooseOpp(pick: nat)
      requires game.turnOrder != []
      modifies this`opponent
      ensures opponent == if old(opponent) == null then game.turnOrder[pick % |game.turnOrder|] else old(opponent)
    {
      if opponent == null {
        opponent := game.turnOrder[pick % |game.turnOrder|];
      }
    }

    /** `card_strat().opp_strat()` of an `AiTurn`: a computer player asks a
        player of the game other than itself, from memory or from the turn
        order, for a card it holds. */
    method AiChoose(cardPick: nat, oppPick: nat)
      requires active.hand.stack != [] && game.turnOrder != []
      requires forall p :: p in game.turnOrder ==> p in game.players && p != active
      requires KeysWithin(active.oppChoices, game.players, active)
      requires opponent == null && wantedCard == None
      modifies this`opponent, this`wantedCard
      ensures opponent != null && opponent in game.players && opponent != active
      ensures wantedCard.Some? && wantedCard.value in active.hand.stack
    {
      AiChooseCard(cardPick);
      AiChooseOpp(oppPick);
      var k := FirstAnswerable(AskOrder(active.oppChoices), active.hand.stack);
      if k.Some? {
        FirstAnswerableLowest(active.oppChoices, active.hand.stack);
      }
    }

    /** `enter()`: the outcome is reset and the card and opponent strategies run. */
    method Enter(cardPick: nat, oppPick: nat)
      requires Ready() && Fresh() && active.hand.stack != []
      modifies this`outcome, this`opponent, this`wantedCard
      ensures outcome == InProgress && game.turnOrder != []
      ensures opponent != null && opponent in game.players && opponent != active
      ensures wantedCard.Some? && wantedCard.value in active.hand.stack
    {
      outcome := InProgress;
      OrderWithoutActive(game.turnOrder, active, game.players);
      if isAi {
        assert KeysWithin(game.players[active.sortOrder].oppChoices, game.players, active);
        AiChoose(cardPick, oppPick);
      } else {
        UserChooseCard(cardPick);
        UserChooseOpp(oppPick);
        assert active == game.players[0];
        assert opponent in game.players[1..];
      }
    }

    /** `do_ask()`: when the opponent holds the wanted rank, the first such
        card moves to the end of the active player's hand. */
    method DoAsk()
      requires opponent != null && opponent.hand != active.hand
      modifies this`outcome, active.hand`stack, opponent.hand`stack
      ensures var s, t := old(opponent.hand.stack), old(active.hand.stack);
              var m := FirstMatch(s, wantedCard);
              && (m.Some? ==>
                    && outcome == AskedMatch
                    && opponent.hand.stack == s[..m.value] + s[m.value + 1..]
                    && active.hand.stack == t + [s[m.value]])
              && (m.None? ==>
                    outcome == old(outcome) && opponent.hand.stack == s && active.hand.stack == t)
      ensures |active.hand.stack| + |opponent.hand.stack| == old(|active.hand.stack| + |opponent.hand.stack|)
      ensures && wantedCard.Some? && old(wantedCard.value in active.hand.stack)
              && FirstMatch(old(opponent.hand.stack), wantedCard).Some?
              ==> !PairFree(active.hand.stack)
    {
      var found := opponent.hand.HasMatch(wantedCard);
      if found.Some? {
        outcome := AskedMatch;
        var card := PopAt(opponent.hand, found.value);
        var ok := active.hand.AddToHand([Some(card)]);
        if wantedCard.Some? && wantedCard.value in old(active.hand.stack) {
          var t := old(active.hand.stack);
          var i :| 0 <= i < |t| && t[i] == wantedCard.value;
          assert active.hand.stack[i] == t[i] && active.hand.stack[|t|] == card;
          assert card.rank == t[i].rank;
        }
      }
    }

    /** `AiTurn.do_ask()`: the outcome is reset first (the confirmation
        prompt shown to the user is left out). */
    method AiDoAsk()
      requires opponent != null && opponent.hand != active.hand
      modifies this`outcome, active.hand`stack, opponent.hand`stack
      ensures var s, t := old(opponent.hand.stack), old(active.hand.stack);
              var m := FirstMatch(s, wantedCard);
              && (m.Some? ==>
                    && outcome == AskedMatch
                    && opponent.hand.stack == s[..m.value] + s[m.value + 1..]
                    && active.hand.stack == t + [s[m.value]])
              && (m.None? ==>
                    outcome == InProgress && opponent.hand.stack == s && active.hand.stack == t)
      ensures |active.hand.stack| + |opponent.hand.stack| == old(|active.hand.stack| + |opponent.hand.stack|)
      ensures && wantedCard.Some? && old(wantedCard.value in active.hand.stack)
              && FirstMatch(old(opponent.hand.stack), wantedCard).Some?
              ==> !PairFree(active.hand.stack)
    {
      outcome := InProgress;
      DoAsk();
    }

    /** The part of `do_go_fish()` after a draw that missed the wanted rank:
        a computer opponent remembers the request, and when the hand holds
        the drawn rank its first such card is taken out (FISH_OTHER), else
        FISH_NONE. */
    method MissWanted()
      requires opponent != null && opponent != active && wantedCard.Some?
      modifies this`matchingCard, this`outcome, active.hand`stack, opponent`oppChoices
      ensures opponent.oppChoices == if opponent.isHuman then old(opponent.oppChoices)
                                     else Remembered(old(opponent.oppChoices), active, wantedCard.value)
      ensures opponent.pairs == old(opponent.pairs)
      ensures var t := old(active.hand.stack);
              var m := FirstMatch(t, goFishCard);
              && (m.Some? ==>
                    && outcome == FishOther && matchingCard == Some(t[m.value])
                    && active.hand.stack == t[..m.value] + t[m.value + 1..])
              && (m.None? ==>
                    outcome == FishNone && matchingCard == old(matchingCard) && active.hand.stack == t)
    {
      if !opponent.isHuman {
        opponent.Remember(active, wantedCard.value);
      }
      var matches := active.hand.HasMatch(goFishCard);
      if matches.Some? {
        var c := PopAt(active.hand, matches.value);
        matchingCard := Some(c);
        outcome := FishOther;
      } else {
        outcome := FishNone;
      }
    }

    /** `do_go_fish()`: draw the top card; drawing the wanted rank ends in
        FISH_MATCH, otherwise MissWanted decides. The drawn card and the
        taken card, those that exist, go to the end of the hand. */
    method DoGoFish()
      requires opponent != null && opponent != active && wantedCard.Some?
      modifies this`goFishCard, this`matchingCard, this`outcome, game.deck`stack, active.hand`stack, opponent`oppChoices
      ensures var d := old(game.deck.stack);
              && goFishCard == (if d == [] then None else Some(d[0]))
              && game.deck.stack == (if d == [] then [] else d[1..])
      ensures SameRank(wantedCard.value, goFishCard) ==>
                && outcome == FishMatch && matchingCard == old(matchingCard)
                && active.hand.stack == old(active.hand.stack) + Present([goFishCard, matchingCard])
                && opponent.oppChoices == old(opponent.oppChoices)
      ensures !SameRank(wantedCard.value, goFishCard) ==>
                opponent.oppChoices == if opponent.isHuman then old(opponent.oppChoices)
                                       else Remembered(old(opponent.oppChoices), active, wantedCard.value)
      ensures var t := old(active.hand.stack);
              var m := FirstMatch(t, goFishCard);
              !SameRank(wantedCard.value, goFishCard) && m.Some? ==>
                && outcome == FishOther && matchingCard == Some(t[m.value])
                && active.hand.stack == t[..m.value] + t[m.value + 1..] + Present([goFishCard, matchingCard])
      ensures var t := old(active.hand.stack);
              !SameRank(wantedCard.value, goFishCard) && FirstMatch(t, goFishCard).None? ==>
                && outcome == FishNone && matchingCard == old(matchingCard)
                && active.hand.stack == t + Present([goFishCard, matchingCard])
      ensures opponent.pairs == old(opponent.pairs)
      ensures outcome != InProgress
      ensures old(matchingCard) == None ==>
                active.hand.stack == Fished(old(active.hand.stack), wantedCard.value, goFishCard)
    {
      goFishCard := game.deck.TakeTop();
      if SameRank(wantedCard.value, goFishCard) {
        outcome := FishMatch;
      } else {
        MissWanted();
      }
      var extra: seq<Option<Card>> := (if goFishCard.Some? then [goFishCard] else [])
                                    + (if matchingCard.Some? then [matchingCard] else []);
      assert Present(extra) == Present([goFishCard, matchingCard]);
      var ok := active.hand.AddToHand(extra);
      if old(matchingCard) == None && SameRank(wantedCard.value, goFishCard) {
        assert [goFishCard, None][1..] == [None];
      }
    }

    /** `exit()`: the active player banks the pairs in its hand. */
    method Exit()
      modifies active`pairs, active.hand`stack
      ensures active.pairs == old(active.pairs) + ExtractedPairs(old(active.hand.stack))
      ensures active.hand.stack == RemainingHand(old(active.hand.stack))
      ensures active.oppChoices == old(active.oppChoices)
      ensures PairFree(active.hand.stack)
      ensures |active.hand.stack| + 2 * |active.pairs| == old(|active.hand.stack| + 2 * |active.pairs|)
      ensures |active.pairs| > old(|active.pairs|) <==> !PairFree(old(active.hand.stack))
    {
      active.CollectPairs();
    }

    /** `do_ask()`, or `AiTurn.do_ask()` on a computer's turn: cards only move
        between the two hands, and a successful ask leaves a pair in the
        active hand. */
    method Ask()
      requires opponent != null && opponent.hand != active.hand
      requires wantedCard.Some? && wantedCard.value in active.hand.stack
      requires outcome == InProgress
      modifies this`outcome, active.hand`stack, opponent.hand`stack
      ensures var s, t := old(opponent.hand.stack), old(active.hand.stack);
              var m := FirstMatch(s, wantedCard);
              && (m.Some? ==>
                    && outcome == AskedMatch
                    && opponent.hand.stack == s[..m.value] + s[m.value + 1..]
                    && active.hand.stack == t + [s[m.value]])
              && (m.None? ==>
                    outcome == InProgress && opponent.hand.stack == s && active.hand.stack == t)
      ensures |active.hand.stack| + |opponent.hand.stack| == old(|active.hand.stack| + |opponent.hand.stack|)
      ensures outcome == InProgress || !PairFree(active.hand.stack)
    {
      if isAi {
        AiDoAsk();
      } else {
        DoAsk();
      }
    }

    /** `do_ask()` (`AiTurn.do_ask()` on a computer's turn), then
        `do_go_fish()` when the ask failed: an opponent holding the wanted
        rank hands over its first such card and the deck is left alone;
        otherwise the top card is drawn. The deck and the two hands keep
        their cards between them, and the weighted count 2 * deck + hands
        never grows; with cards left in the deck it shrinks, unless the
        active hand now holds a pair. */
    method AskThenFish()
      requires opponent != null && opponent != active && opponent.hand != active.hand
      requires wantedCard.Some? && wantedCard.value in active.hand.stack
      requires outcome == InProgress && matchingCard == None
      modifies this`outcome, this`goFishCard, this`matchingCard, game.deck`stack, active.hand`stack, opponent`oppChoices, opponent.hand`stack
      ensures outcome != InProgress
      ensures opponent.pairs == old(opponent.pairs)
      ensures || opponent.oppChoices == old(opponent.oppChoices)
              || (!opponent.isHuman && opponent.oppChoices == Remembered(old(opponent.oppChoices), active, wantedCard.value))
      ensures var s, t := old(opponent.hand.stack), old(active.hand.stack);
              var m := FirstMatch(s, wantedCard);
              m.Some? ==>
                && outcome == AskedMatch && game.deck.stack == old(game.deck.stack)
                && opponent.hand.stack == s[..m.value] + s[m.value + 1..]
                && active.hand.stack == t + [s[m.value]]
      ensures var d := old(game.deck.stack);
              FirstMatch(old(opponent.hand.stack), wantedCard).None? ==>
                && opponent.hand.stack == old(opponent.hand.stack)
                && goFishCard == (if d == [] then None else Some(d[0]))
                && game.deck.stack == (if d == [] then [] else d[1..])
                && active.hand.stack == Fished(old(active.hand.stack), wantedCard.value, goFishCard)
      ensures multiset(game.deck.stack) + multiset(active.hand.stack) + multiset(opponent.hand.stack)
              == old(multiset(game.deck.stack) + multiset(active.hand.stack) + multiset(opponent.hand.stack))
      ensures |game.deck.stack| + |active.hand.stack| + |opponent.hand.stack|
              == old(|game.deck.stack| + |active.hand.stack| + |opponent.hand.stack|)
      ensures 2 * |game.deck.stack| + |active.hand.stack| + |opponent.hand.stack|
              <= old(2 * |game.deck.stack| + |active.hand.stack| + |opponent.hand.stack|)
      ensures old(game.deck.stack) != [] && PairFree(active.hand.stack) ==>
                2 * |game.deck.stack| + |active.hand.stack| + |opponent.hand.stack|
                < old(2 * |game.deck.stack| + |active.hand.stack| + |opponent.hand.stack|)
    {
      ghost var deck0, s, t := game.deck.stack, opponent.hand.stack, active.hand.stack;
      Ask();
      assert game.deck.stack == deck0;
      if outcome == InProgress {
        DoGoFish();
        FishConserves(deck0, s, t, wantedCard.value);
      } else {
        AskConserves(deck0, s, t, FirstMatch(s, wantedCard).value);
      }
    }

    /** The asking, fishing and `exit()` of a turn, on the two players
        involved: no card is gained or lost, the active hand is left without
        pairs, and with cards left in the deck 2 * deck + hands shrinks. */
    method Act() returns (ghost banked: seq<(Card, Card)>)
      requires opponent != null && opponent != active && opponent.hand != active.hand
      requires wantedCard.Some? && wantedCard.value in active.hand.stack
      requires outcome == InProgress && matchingCard == None
      modifies this`outcome, this`goFishCard, this`matchingCard, game.deck`stack, active`pairs, active.hand`stack, opponent`oppChoices, opponent.hand`stack
      ensures outcome != InProgress
      ensures PairFree(active.hand.stack)
      ensures opponent.pairs == old(opponent.pairs) && active.oppChoices == old(active.oppChoices)
      ensures || opponent.oppChoices == old(opponent.oppChoices)
              || (!opponent.isHuman && opponent.oppChoices == Remembered(old(opponent.oppChoices), active, wantedCard.value))
      ensures active.pairs == old(active.pairs) + banked
      ensures multiset(game.deck.stack) + multiset(active.hand.stack) + PairCards(banked) + multiset(opponent.hand.stack)
              == old(multiset(game.deck.stack) + multiset(active.hand.stack) + multiset(opponent.hand.stack))
      ensures |game.deck.stack| + Holding(active) + Holding(opponent)
              == old(|game.deck.stack| + Holding(active) + Holding(opponent))
      ensures 2 * |game.deck.stack| + |active.hand.stack| + |opponent.hand.stack|
              <= old(2 * |game.deck.stack| + |active.hand.stack| + |opponent.hand.stack|)
      ensures old(game.deck.stack) != [] ==>
                2 * |game.deck.stack| + |active.hand.stack| + |opponent.hand.stack|
                < old(2 * |game.deck.stack| + |active.hand.stack| + |opponent.hand.stack|)
    {
      ghost var d0, a0, o0 := game.deck.stack, active.hand.stack, opponent.hand.stack;
      AskThenFish();
      ghost var d1, a1, o1 := game.deck.stack, active.hand.stack, opponent.hand.stack;
      Exit();
      banked := ExtractedPairs(a1);
      ExchangeThenBank(d0, a0, o0, d1, a1, o1);
    }

    /** `Act()` seen from the seated players: `h0` and `s0` are their
        holdings and hand sizes before, `h1` and `s1` after; the players
        other than the two involved are left alone. */
    method Trade(ghost players: seq<Player>, ghost ai: nat, ghost bi: nat, ghost h0: seq<nat>, ghost s0: seq<nat>)
      returns (ghost h1: seq<nat>, ghost s1: seq<nat>, ghost banked: seq<(Card, Card)>)
      requires forall k :: 0 <= k < |players| ==> players[k].sortOrder == k && players[k].hand.seat == k
      requires ai < |players| && bi < |players| && ai != bi && players[ai] == active && players[bi] == opponent
      requires wantedCard.Some? && wantedCard.value in active.hand.stack
      requires outcome == InProgress && matchingCard == None
      requires |h0| == |s0| == |players|
      requires forall k :: 0 <= k < |players| ==> h0[k] == Holding(players[k]) && s0[k] == |players[k].hand.stack|
      requires Memories(players)
      modifies this`outcome, this`goFishCard, this`matchingCard, game.deck`stack, active`pairs, active.hand`stack, opponent`oppChoices, opponent.hand`stack
      ensures outcome != InProgress
      ensures PairFree(active.hand.stack)
      ensures opponent.pairs == old(opponent.pairs) && active.oppChoices == old(active.oppChoices)
      ensures || opponent.oppChoices == old(opponent.oppChoices)
              || (!opponent.isHuman && opponent.oppChoices == Remembered(old(opponent.oppChoices), active, wantedCard.value))
      ensures active.pairs == old(active.pairs) + banked
      ensures multiset(game.deck.stack) + multiset(active.hand.stack) + PairCards(banked) + multiset(opponent.hand.stack)
              == old(multiset(game.deck.stack) + multiset(active.hand.stack) + multiset(opponent.hand.stack))
      ensures |h1| == |s1| == |players|
      ensures forall k :: 0 <= k < |players| ==> h1[k] == Holding(players[k]) && s1[k] == |players[k].hand.stack|
      ensures Memories(players)
      ensures forall k :: 0 <= k < |players| && k != ai && k != bi ==>
                && players[k].hand.stack == old(players[k].hand.stack)
                && players[k].pairs == old(players[k].pairs)
                && players[k].oppChoices == old(players[k].oppChoices)
      ensures |game.deck.stack| + Sum(h1) == old(|game.deck.stack|) + Sum(h0)
      ensures 2 * |game.deck.stack| + Sum(s1) <= old(2 * |game.deck.stack|) + Sum(s0)
      ensures old(game.deck.stack) != [] ==> 2 * |game.deck.stack| + Sum(s1) < old(2 * |game.deck.stack|) + Sum(s0)
    {
      var a, b := active, opponent;
      banked := Act();
      h1 := h0[ai := Holding(a)][bi := Holding(b)];
      s1 := s0[ai := |a.hand.stack|][bi := |b.hand.stack|];
      forall k | 0 <= k < |players|
        ensures h1[k] == Holding(players[k]) && s1[k] == |players[k].hand.stack|
        ensures k != ai && k != bi ==>
                  && players[k].hand.stack == old(players[k].hand.stack)
                  && players[k].pairs == old(players[k].pairs)
                  && players[k].oppChoices == old(players[k].oppChoices)
        ensures players[k].isHuman ==> players[k].oppChoices == []
        ensures KeysWithin(players[k].oppChoices, players, players[k])
      {
        if k != ai && k != bi {
          assert players[k] != a && players[k] != b;
          assert players[k].hand != a.hand && players[k].hand != b.hand;
        } else if k == bi && b.oppChoices != old(b.oppChoices) {
          RememberKeysWithin(old(b.oppChoices), players, b, a, wantedCard.value);
        }
      }
      SumTwoChanged(h0, h1, ai, bi);
      SumTwoChanged(s0, s1, ai, bi);
    }

    /** `Trade()` seen as cards: the deck and the seated players keep their
        cards between them. */
    method Exchange(ghost players: seq<Player>, ghost ai: nat, ghost bi: nat, ghost h0: seq<nat>, ghost s0: seq<nat>)
      returns (ghost h1: seq<nat>, ghost s1: seq<nat>)
      requires players == game.players
      requires forall k :: 0 <= k < |players| ==> players[k].sortOrder == k && players[k].hand.seat == k
      requires ai < |players| && bi < |players| && ai != bi && players[ai] == active && players[bi] == opponent
      requires wantedCard.Some? && wantedCard.value in active.hand.stack
      requires outcome == InProgress && matchingCard == None
      requires |h0| == |s0| == |players|
      requires forall k :: 0 <= k < |players| ==> h0[k] == Holding(players[k]) && s0[k] == |players[k].hand.stack|
      requires Memories(players)
      modifies this`outcome, this`goFishCard, this`matchingCard, game.deck`stack, active`pairs, active.hand`stack, opponent`oppChoices, opponent.hand`stack
      ensures outcome != InProgress
      ensures PairFree(active.hand.stack)
      ensures opponent.pairs == old(opponent.pairs) && active.oppChoices == old(active.oppChoices)
      ensures || opponent.oppChoices == old(opponent.oppChoices)
              || (!opponent.isHuman && opponent.oppChoices == Remembered(old(opponent.oppChoices), active, wantedCard.value))
      ensures forall c :: game.AllCards()[c] == old(game.AllCards())[c]
      ensures |h1| == |s1| == |players|
      ensures forall k :: 0 <= k < |players| ==> h1[k] == Holding(players[k]) && s1[k] == |players[k].hand.stack|
      ensures Memories(players)
      ensures forall k :: 0 <= k < |players| && k != ai && k != bi ==>
                && players[k].hand.stack == old(players[k].hand.stack)
                && players[k].pairs == old(players[k].pairs)
                && players[k].oppChoices == old(players[k].oppChoices)
      ensures |game.deck.stack| + Sum(h1) == old(|game.deck.stack|) + Sum(h0)
      ensures 2 * |game.deck.stack| + Sum(s1) <= old(2 * |game.deck.stack|) + Sum(s0)
      ensures old(game.deck.stack) != [] ==> 2 * |game.deck.stack| + Sum(s1) < old(2 * |game.deck.stack|) + Sum(s0)
    {
      var a, b := active, opponent;
      ghost var l0 := Lots(players);
      ghost var d0, a0, o0, pa, po := game.deck.stack, a.hand.stack, b.hand.stack, a.pairs, b.pairs;
      ghost var banked;
      h1, s1, banked := Trade(players, ai, bi, h0, s0);
      ghost var pool0 := multiset(d0) + Pool(l0);
      assert forall c :: (multiset(game.deck.stack) + Pool(Lots(players)))[c] == pool0[c] by {
        BankedInPlace(d0, a0, o0, game.deck.stack, a.hand.stack, b.hand.stack, pa, po, banked);
        ExchangeInPool(l0, Lots(players), ai, bi, multiset(d0), multiset(game.deck.stack));
      }
    }

    /** Everything `execute()` does after `enter()`, seen from the game:
        `h0`, `s0` and `all0` are the holdings, hand sizes and cards the
        players had. */
    method Resolve(ghost h0: seq<nat>, ghost s0: seq<nat>, ghost all0: multiset<Card>)
      requires Ready() && opponent != null && AtSeat(opponent, game.players) && opponent != active
      requires wantedCard.Some? && wantedCard.value in active.hand.stack
      requires outcome == InProgress && matchingCard == None
      requires |h0| == |s0| == |game.players|
      requires forall k :: 0 <= k < |game.players| ==>
                 h0[k] == Holding(game.players[k]) && s0[k] == |game.players[k].hand.stack|
      requires forall c :: game.AllCards()[c] == all0[c]
      modifies this`outcome, this`goFishCard, this`matchingCard, game.deck`stack, game.players`pairs, game.players`oppChoices, HandsOf(game.players)`stack
      ensures Ready() && opponent == old(opponent)
      ensures game.players == old(game.players) && game.deck == old(game.deck) && game.turnOrder == old(game.turnOrder)
      ensures outcome != InProgress
      ensures PairFree(active.hand.stack)
      ensures forall k :: 0 <= k < |game.players| && k != active.sortOrder && k != opponent.sortOrder ==>
                && game.players[k].hand.stack == old(game.players[k].hand.stack)
                && game.players[k].pairs == old(game.players[k].pairs)
                && game.players[k].oppChoices == old(game.players[k].oppChoices)
      ensures forall c :: game.AllCards()[c] == all0[c]
      ensures game.CardTotal() == old(|game.deck.stack|) + Sum(h0)
      ensures game.Progress() <= old(2 * |game.deck.stack|) + Sum(s0)
      ensures old(game.deck.stack) != [] ==> game.Progress() < old(2 * |game.deck.stack|) + Sum(s0)
    {
      var players := game.players;
      var a, b := active, opponent;
      ghost var h1, s1 := Exchange(players, a.sortOrder, b.sortOrder, h0, s0);
      HoldingsAre(players, h1, s1);
      assert game.CardTotal() == |game.deck.stack| + Sum(Holdings(players));
      assert game.Progress() == 2 * |game.deck.stack| + Sum(HandSizes(players));
    }

    /** `execute()`: enter, ask, go fishing when the ask failed, exit. The
        turn ends with an outcome; no card is created or lost; and from a
        non-empty deck the turn either draws a card or banks a pair. */
    method Execute(cardPick: nat, oppPick: nat, ghost all0: multiset<Card>)
      requires Ready() && Fresh() && active.hand.stack != []
      requires game.AllCards() == all0
      modifies this, game.deck`stack, game.players`pairs, game.players`oppChoices, HandsOf(game.players)`stack
      ensures Ready()
      ensures outcome != InProgress
      ensures opponent != null && opponent in game.players && opponent != active
      ensures PairFree(active.hand.stack)
      ensures game.AllCards() == all0
      ensures game.CardTotal() == old(game.CardTotal())
      ensures old(game.deck.stack) != [] ==> game.Progress() < old(game.Progress())
    {
      ghost var h0 := Holdings(game.players);
      ghost var s0 := HandSizes(game.players);
      ghost var dk, ls := game.deck.stack, Lots(game.players);
      assert multiset(dk) + Pool(ls) == all0;
      Enter(cardPick, oppPick);
      assert game.deck.stack == dk && Lots(game.players) == ls;
      Resolve(h0, s0, all0);
      SameCards(game.AllCards(), all0);
    }
  }
}
