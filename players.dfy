// Players of player.py: a human and computer opponents, each holding a hand and
// the pairs banked so far. A computer player also remembers which cards each
// opponent asked it for without success (`opp_choices`, a defaultdict(set)).

module Players {
  import opened Cards
  import opened Pairing
  import opened Hands

  // ---------------------------------------------------------------------------
  // Decimal rendering of an int, as an f-string prints it (`f'COMPUTER_{idnum}'`)

  function DigitChar(d: nat): char
    requires d < 10
  {
    (('0' as int) + d) as char
  }

  /** The decimal digits of n, most significant first, without leading zeros. */
  function Digits(n: nat): (s: string)
    ensures |s| >= 1
    ensures forall i :: 0 <= i < |s| ==> '0' <= s[i] <= '9'
    ensures n >= 10 ==> s[0] != '0'
  {
    if n < 10 then [DigitChar(n)] else Digits(n / 10) + [DigitChar(n % 10)]
  }

  function DecimalString(i: int): string
  {
    if i < 0 then "-" + Digits(-i) else Digits(i)
  }

  /** The number a string of decimal digits denotes. */
  function DigitsValue(s: string): int
  {
    if s == [] then 0
    else 10 * DigitsValue(s[..|s| - 1]) + (s[|s| - 1] as int - '0' as int)
  }

  /** Reading the digits back gives the number: the rendering loses nothing. */
  lemma {:induction false} DigitsRoundTrip(n: nat)
    ensures DigitsValue(Digits(n)) == n
  {
    if n >= 10 {
      DigitsRoundTrip(n / 10);
      var s := Digits(n);
      assert s[..|s| - 1] == Digits(n / 10);
    }
  }

  // ---------------------------------------------------------------------------
  // `opp_choices`: a dict in insertion order, as a list of (player, cards) entries

  function Keys<K>(m: seq<(K, set<Card>)>): (ks: seq<K>)
    ensures |ks| == |m|
    ensures forall i :: 0 <= i < |m| ==> ks[i] == m[i].0
  {
    if m == [] then [] else [m[0].0] + Keys(m[1..])
  }

  /** `opp_choices[k]` read through the defaultdict: the empty set when k is absent. */
  function Lookup<K(==)>(m: seq<(K, set<Card>)>, k: K): set<Card>
  {
    if m == [] then {}
    else if m[0].0 == k then m[0].1
    else Lookup(m[1..], k)
  }

  /** The entry of k set to v; a missing key is added at the end, as a dict
      adds a new key after the existing ones. */
  function Assign<K(==)>(m: seq<(K, set<Card>)>, k: K, v: set<Card>): seq<(K, set<Card>)>
  {
    if m == [] then [(k, v)]
    else if m[0].0 == k then [(k, v)] + m[1..]
    else [m[0]] + Assign(m[1..], k, v)
  }

  /** `opp_choices[player].add(card)`. */
  function Remembered<K(==)>(m: seq<(K, set<Card>)>, k: K, c: Card): seq<(K, set<Card>)>
  {
    Assign(m, k, Lookup(m, k) + {c})
  }

  /** `opp_choices[player].discard(card)`: the defaultdict access creates an
      empty entry for an absent player before discarding. */
  function Forgotten<K(==)>(m: seq<(K, set<Card>)>, k: K, c: Card): seq<(K, set<Card>)>
  {
    Assign(m, k, Lookup(m, k) - {c})
  }

  /** After the assignment, k reads as v and every other key as before. */
  lemma {:induction false} LookupAssign<K>(m: seq<(K, set<Card>)>, k: K, v: set<Card>, j: K)
    ensures Lookup(Assign(m, k, v), j) == if j == k then v else Lookup(m, j)
  {
    if m != [] && m[0].0 != k {
      LookupAssign(m[1..], k, v, j);
    }
  }

  /** The assignment keeps the keys and their order; a new key goes last. */
  lemma {:induction false} KeysAssign<K>(m: seq<(K, set<Card>)>, k: K, v: set<Card>)
    ensures Keys(Assign(m, k, v)) == if k in Keys(m) then Keys(m) else Keys(m) + [k]
  {
    if m != [] && m[0].0 != k {
      KeysAssign(m[1..], k, v);
      assert Keys(m) == [m[0].0] + Keys(m[1..]);
    }
  }

  /** Assigning twice to one key leaves only the second value. */
  lemma {:induction false} AssignTwice<K>(m: seq<(K, set<Card>)>, k: K, v: set<Card>, w: set<Card>)
    ensures Assign(Assign(m, k, v), k, w) == Assign(m, k, w)
  {
    if m != [] && m[0].0 != k {
      AssignTwice(m[1..], k, v, w);
    }
  }

  /** Remembering adds the card to that player's set and to no other. */
  lemma RememberLookup<K>(m: seq<(K, set<Card>)>, k: K, c: Card, j: K)
    ensures Lookup(Remembered(m, k, c), j) == if j == k then Lookup(m, k) + {c} else Lookup(m, j)
    ensures c in Lookup(Remembered(m, k, c), k)
  {
    LookupAssign(m, k, Lookup(m, k) + {c}, j);
    LookupAssign(m, k, Lookup(m, k) + {c}, k);
  }

  /** Remembering the same request twice is the same as remembering it once. */
  lemma RememberIdempotent<K>(m: seq<(K, set<Card>)>, k: K, c: Card)
    ensures Remembered(Remembered(m, k, c), k, c) == Remembered(m, k, c)
  {
    var v := Lookup(m, k) + {c};
    LookupAssign(m, k, v, k);
    assert v + {c} == v;
    AssignTwice(m, k, v, v);
  }

  /** Forgetting removes the card from that player's set and touches no other. */
  lemma ForgetLookup<K>(m: seq<(K, set<Card>)>, k: K, c: Card, j: K)
    ensures Lookup(Forgotten(m, k, c), j) == if j == k then Lookup(m, k) - {c} else Lookup(m, j)
    ensures c !in Lookup(Forgotten(m, k, c), k)
  {
    LookupAssign(m, k, Lookup(m, k) - {c}, j);
    LookupAssign(m, k, Lookup(m, k) - {c}, k);
  }

  /** Forgetting a card that was not remembered before undoes remembering it. */
  lemma ForgetUndoesRemember<K>(m: seq<(K, set<Card>)>, k: K, c: Card, j: K)
    requires c !in Lookup(m, k)
    ensures Lookup(Forgotten(Remembered(m, k, c), k, c), j) == Lookup(m, j)
  {
    RememberLookup(m, k, c, k);
    RememberLookup(m, k, c, j);
    ForgetLookup(Remembered(m, k, c), k, c, j);
    assert Lookup(m, k) + {c} - {c} == Lookup(m, k);
  }

  /** Both updates keep every existing key, in order, and add k at the end
      when it is new (forget included: the defaultdict creates the entry). */
  lemma UpdateKeys<K>(m: seq<(K, set<Card>)>, k: K, c: Card)
    ensures Keys(Remembered(m, k, c)) == if k in Keys(m) then Keys(m) else Keys(m) + [k]
    ensures Keys(Forgotten(m, k, c)) == if k in Keys(m) then Keys(m) else Keys(m) + [k]
  {
    KeysAssign(m, k, Lookup(m, k) + {c});
    KeysAssign(m, k, Lookup(m, k) - {c});
  }

  // ---------------------------------------------------------------------------

  class Player {
    const name: string
    const isHuman: bool
    /** `_sort_order`: 0 for the human, the id number for a computer player. */
    const sortOrder: int
    const hand: Hand
    var pairs: seq<(Card, Card)>
    /** `opp_choices` of a computer player; the human has none and keeps it empty. */
    var oppChoices: seq<(Player, set<Card>)>

    /** `HumanPlayer(name)`. */
    constructor Human(name: string)
      ensures this.name == name && isHuman && sortOrder == 0
      ensures fresh(hand) && hand.stack == [] && hand.seat == 0 && pairs == [] && oppChoices == []
    {
      this.name := name;
      isHuman := true;
      sortOrder := 0;
      hand := new Hand([], 0);
      pairs := [];
      oppChoices := [];
    }

    /** `AiPlayer(idnum)`. */
    constructor Ai(idnum: int)
      ensures name == "COMPUTER_" + DecimalString(idnum) && !isHuman && sortOrder == idnum
      ensures fresh(hand) && hand.stack == [] && hand.seat == idnum && pairs == [] && oppChoices == []
    {
      name := "COMPUTER_" + DecimalString(idnum);
      isHuman := false;
      sortOrder := idnum;
      hand := new Hand([], idnum);
      pairs := [];
      oppChoices := [];
    }

    /** `num_cards`: the cards in the player's hand, zero exactly when the
        hand is empty. */
    function NumCards(): (r: nat)
      reads hand
      ensures r == |multiset(hand.stack)|
      ensures r == 0 <==> hand.stack == []
    {
      hand.Count()
    }

    /** `num_pairs`: each banked pair holds two cards, so the banked cards
        number twice the pairs. */
    function NumPairs(): (r: nat)
      reads this
      ensures |PairCards(pairs)| == 2 * r
    {
      PairCardsSize(pairs);
      |pairs|
    }

    /** `collect_pairs()`: the pairs extracted from the hand are appended to
        the banked ones. The hand keeps one card of each rank it had an odd
        number of, and no card is lost or duplicated. */
    method CollectPairs()
      modifies `pairs, hand`stack
      ensures pairs == old(pairs) + ExtractedPairs(old(hand.stack))
      ensures hand.stack == RemainingHand(old(hand.stack))
      ensures oppChoices == old(oppChoices)
      ensures PairFree(hand.stack)
      ensures NumCards() + 2 * NumPairs() == old(NumCards() + 2 * NumPairs())
      ensures multiset(old(hand.stack)) == multiset(hand.stack) + PairCards(pairs[|old(pairs)|..])
      ensures NumPairs() > old(NumPairs()) <==> !PairFree(old(hand.stack))
    {
      var extracted := hand.ExtractPairs();
      pairs := pairs + extracted;
      ExtractConserves(old(hand.stack));
      RemainingIsPairFree(old(hand.stack));
      assert pairs[|old(pairs)|..] == extracted;
      if PairFree(old(hand.stack)) {
        PairFreeExtractsNothing(old(hand.stack));
      } else {
        var i, j :| 0 <= i < j < |old(hand.stack)| && old(hand.stack)[i].rank == old(hand.stack)[j].rank;
        SharedRankGivesPair(old(hand.stack), i, j);
      }
    }

    /** `remember(player, card)`: player asked this computer player for card
        and it had none of that rank. */
    method Remember(player: Player, asked: Card)
      requires !isHuman
      modifies `oppChoices
      ensures oppChoices == Remembered(old(oppChoices), player, asked)
      ensures pairs == old(pairs)
    {
      oppChoices := Remembered(oppChoices, player, asked);
    }

    /** `forget(player, card)`. */
    method Forget(player: Player, asked: Card)
      requires !isHuman
      modifies `oppChoices
      ensures oppChoices == Forgotten(old(oppChoices), player, asked)
      ensures pairs == old(pairs)
    {
      oppChoices := Forgotten(oppChoices, player, asked);
    }
  }
}
