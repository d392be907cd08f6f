// The value-level rules of turn.py: the outcomes of a turn, how each one
// rotates the turn order, and how a computer player picks whom to ask and
// for which card from what it remembers.

module Turns {
  import opened Sorting
  import opened Cards
  import opened Players

  /** `TurnOutcomes`. */
  datatype Outcome = InProgress | AskedMatch | FishMatch | FishOther | FishNone

  /** `extra_turns()`: the rotation applied to the turn order once the active
      player is back at its head. */
  function ExtraTurns(o: Outcome): (r: int)
    ensures r == 0 || r == -1
    ensures r == 0 <==> o == AskedMatch || o == FishMatch
  {
    if o == AskedMatch || o == FishMatch then 0 else -1
  }

  /** After `appendleft(active)` and `rotate(extra_turns())`: the same player
      goes again after getting the asked card or fishing the asked rank, and
      otherwise moves to the back while everyone else moves up one place. */
  lemma NextOrder<T>(active: T, rest: seq<T>, o: Outcome)
    ensures o == AskedMatch || o == FishMatch ==>
              Rotate([active] + rest, ExtraTurns(o)) == [active] + rest
    ensures !(o == AskedMatch || o == FishMatch) ==>
              Rotate([active] + rest, ExtraTurns(o)) == rest + [active]
    ensures multiset(Rotate([active] + rest, ExtraTurns(o))) == multiset([active] + rest)
  {
    RotateZeroAndMinusOne([active] + rest);
    assert ([active] + rest)[1..] == rest;
    RotatePermutes([active] + rest, ExtraTurns(o));
  }

  // ---------------------------------------------------------------------------
  // ai_choose_card

  /** The sort key of an `opp_choices` entry: the asking player's `_sort_order`. */
  function AskKey(e: (Player, set<Card>)): int
  {
    e.0.sortOrder
  }

  /** `sorted(opp_choices.items(), key=...)`: the remembered requests in
      ascending sort order of the player who made them (the human, 0, first),
      entries with equal keys in insertion order. */
  function AskOrder(m: seq<(Player, set<Card>)>): seq<(Player, set<Card>)>
  {
    SortBy(m, AskKey)
  }

  /** The non-None results of `hand.has_match(c)` for the remembered cards c:
      positions in the hand of the first card of each remembered rank. */
  function MatchIndices(stack: seq<Card>, cards: set<Card>): (ix: set<nat>)
    ensures forall i :: i in ix ==> i < |stack| && exists c :: c in cards && SameRank(stack[i], Some(c))
  {
    set c | c in cards && FirstMatch(stack, Some(c)).Some? :: FirstMatch(stack, Some(c)).value
  }

  /** There is a match exactly when the hand holds a card of a remembered rank. */
  lemma MatchIndicesNonEmpty(stack: seq<Card>, cards: set<Card>)
    ensures MatchIndices(stack, cards) != {} <==>
              exists i, c :: 0 <= i < |stack| && c in cards && SameRank(stack[i], Some(c))
  {
    if exists i, c :: 0 <= i < |stack| && c in cards && SameRank(stack[i], Some(c)) {
      var i, c :| 0 <= i < |stack| && c in cards && SameRank(stack[i], Some(c));
      assert FirstMatch(stack, Some(c)).Some?;
      assert FirstMatch(stack, Some(c)).value in MatchIndices(stack, cards);
    }
  }

  /** One more remembered card adds at most its own match. */
  lemma MatchIndicesAdd(stack: seq<Card>, done: set<Card>, c: Card)
    ensures MatchIndices(stack, done + {c}) == MatchIndices(stack, done) +
              (if FirstMatch(stack, Some(c)).Some? then {FirstMatch(stack, Some(c)).value} else {})
  {
  }

  /** The position of the first non-empty set. */
  function FirstNonEmpty(sets: seq<set<nat>>): (k: Option<nat>)
    ensures k.Some? ==> k.value < |sets| && sets[k.value] != {}
    ensures k.Some? ==> forall j :: 0 <= j < k.value ==> sets[j] == {}
    ensures k.None? <==> forall j :: 0 <= j < |sets| ==> sets[j] == {}
  {
    if sets == [] then None
    else if sets[0] != {} then Some(0)
    else
      var rest := FirstNonEmpty(sets[1..]);
      assert forall j :: 1 <= j < |sets| ==> sets[j] == sets[1..][j - 1];
      if rest.None? then None else Some(rest.value + 1)
  }

  /** The matches of each entry's remembered cards, entry by entry. */
  function EntryMatches(entries: seq<(Player, set<Card>)>, stack: seq<Card>): (r: seq<set<nat>>)
    ensures |r| == |entries| && forall j {:trigger r[j]} :: 0 <= j < |entries| ==> r[j] == MatchIndices(stack, entries[j].1)
  {
    if entries == [] then [] else [MatchIndices(stack, entries[0].1)] + EntryMatches(entries[1..], stack)
  }

  /** The position of the first entry some remembered card of which matches the hand. */
  function FirstAnswerable(entries: seq<(Player, set<Card>)>, stack: seq<Card>): (k: Option<nat>)
    ensures k.Some? ==> k.value < |entries| && MatchIndices(stack, entries[k.value].1) != {}
    ensures k.Some? ==> forall j :: 0 <= j < k.value ==> MatchIndices(stack, entries[j].1) == {}
    ensures k.None? <==> forall j :: 0 <= j < |entries| ==> MatchIndices(stack, entries[j].1) == {}
  {
    var sets := EntryMatches(entries, stack);
    assert forall j :: 0 <= j < |entries| ==> sets[j] == MatchIndices(stack, entries[j].1) by {
      forall j | 0 <= j < |entries| ensures sets[j] == MatchIndices(stack, entries[j].1) { }
    }
    FirstNonEmpty(sets)
  }

  /** The player a computer asks from memory has the lowest sort order among
      the remembered players whose requests it can now answer, and it asks
      from memory exactly when one of them exists. */
  lemma FirstAnswerableLowest(m: seq<(Player, set<Card>)>, stack: seq<Card>)
    ensures FirstAnswerable(AskOrder(m), stack).None? <==>
              forall e :: e in m ==> MatchIndices(stack, e.1) == {}
    ensures FirstAnswerable(AskOrder(m), stack).Some? ==>
              var chosen := AskOrder(m)[FirstAnswerable(AskOrder(m), stack).value];
              chosen in m &&
              forall e :: e in m && MatchIndices(stack, e.1) != {} ==> chosen.0.sortOrder <= e.0.sortOrder
  {
    var answerable := (e: (Player, set<Card>)) => MatchIndices(stack, e.1) != {};
    LowestFirst(m, AskOrder(m), answerable, FirstAnswerable(AskOrder(m), stack));
  }

  /** In the memory sorted by the asking player's sort order, the first entry
      that satisfies a property has the lowest sort order among those that do. */
  lemma LowestFirst(m: seq<(Player, set<Card>)>, sorted: seq<(Player, set<Card>)>,
                    answerable: ((Player, set<Card>)) -> bool, k: Option<nat>)
    requires sorted == AskOrder(m)
    requires k.Some? ==> k.value < |sorted| && answerable(sorted[k.value])
    requires k.Some? ==> forall j :: 0 <= j < k.value ==> !answerable(sorted[j])
    requires k.None? <==> forall j :: 0 <= j < |sorted| ==> !answerable(sorted[j])
    ensures k.None? <==> forall e :: e in m ==> !answerable(e)
    ensures k.Some? ==>
              sorted[k.value] in m &&
              forall e :: e in m && answerable(e) ==> sorted[k.value].0.sortOrder <= e.0.sortOrder
  {
    SortByIsSorted(m, AskKey);
    SortByPermutes(m, AskKey);
    assert forall e :: e in m <==> e in sorted by {
      forall e ensures e in m <==> e in sorted {
        assert e in m <==> e in multiset(m);
        assert e in sorted <==> e in multiset(sorted);
      }
    }
    if k.None? {
      forall e | e in m ensures !answerable(e) {
        var j :| 0 <= j < |sorted| && sorted[j] == e;
      }
    } else {
      forall e | e in m && answerable(e)
        ensures sorted[k.value].0.sortOrder <= e.0.sortOrder
      {
        var j :| 0 <= j < |sorted| && sorted[j] == e;
        assert j >= k.value;
        if j > k.value {
          assert AskKey(sorted[k.value]) <= AskKey(sorted[j]);
        }
      }
    }
  }
}
