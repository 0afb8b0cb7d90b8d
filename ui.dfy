/** The card picker: one pill per owned card value, in card order, showing
    how many copies are picked out of how many are owned. */
module Ui {
  import opened Types

  /** The per-card tally built by a `forEach` over the cards; a card that
      does not occur has no entry. */
  method CountCards(cards: seq<Card>) returns (counts: map<Card, nat>)
    ensures forall c :: c in counts <==> c in cards
    ensures forall c :: c in counts ==> counts[c] == Count(cards, c)
  {
    counts := map[];
    var i := 0;
    while i < |cards|
      invariant 0 <= i <= |cards|
      invariant forall c :: c in counts <==> c in cards[..i]
      invariant forall c :: c in counts ==> counts[c] == Count(cards[..i], c)
    {
      var c := cards[i];
      counts := counts[c := (if c in counts then counts[c] else 0) + 1];
      assert cards[..i + 1] == cards[..i] + [c];
      i := i + 1;
    }
    assert cards[..i] == cards;
  }

  /** The card values that occur in `s`. */
  function Distinct(s: seq<Card>): set<Card> {
    set c | c in s
  }

  /** The elements of `order` that are in `keys`, in the order of `order`. */
  function Present<T(!new)>(order: seq<T>, keys: set<T>): (r: seq<T>)
    ensures forall c :: c in r <==> c in order && c in keys
  {
    if order == [] then []
    else if order[0] in keys then [order[0]] + Present(order[1..], keys)
    else Present(order[1..], keys)
  }

  /** `s` is strictly increasing under `key`. */
  ghost predicate Ascending<T>(s: seq<T>, key: T -> nat) {
    forall i, j :: 0 <= i < j < |s| ==> key(s[i]) < key(s[j])
  }

  /** Filtering keeps a strictly increasing order strictly increasing. */
  lemma {:induction false} PresentKeepsOrder<T(!new)>(order: seq<T>, keys: set<T>, key: T -> nat)
    requires Ascending(order, key)
    ensures Ascending(Present(order, keys), key)
  {
    if order != [] {
      var tail := order[1..];
      forall i, j | 0 <= i < j < |tail| ensures key(tail[i]) < key(tail[j]) {
        assert tail[i] == order[i + 1] && tail[j] == order[j + 1];
      }
      PresentKeepsOrder(tail, keys, key);
      var rest := Present(tail, keys);
      forall k | 0 <= k < |rest| ensures key(order[0]) < key(rest[k]) {
        assert rest[k] in rest;
        var m :| 0 <= m < |tail| && tail[m] == rest[k];
        assert order[m + 1] == rest[k];
      }
      if order[0] in keys {
        var r := [order[0]] + rest;
        forall i, j | 0 <= i < j < |r| ensures key(r[i]) < key(r[j]) {
          assert r[j] == rest[j - 1];
          if i > 0 { assert r[i] == rest[i - 1]; }
        }
      }
    }
  }

  lemma CardOptionsAscending()
    ensures Ascending(CardOptions, Rank)
  {
    CardOptionsAreTheCards();
    forall i, j | 0 <= i < j < |CardOptions| ensures Rank(CardOptions[i]) < Rank(CardOptions[j]) {
    }
  }

  /** `uniqueCards`: the keys of the tally sorted by their `CardOptions`
      index. The keys are distinct and the order is strict, so the sort has
      exactly one possible result: the `CardOptions` entries that are keys. */
  function SortedKeys(keys: set<Card>): seq<Card> {
    Present(CardOptions, keys)
  }

  /** One pill: the card, picked/total, and its "active" and "max" styling. */
  datatype Pill = Pill(card: Card, picked: nat, total: nat, active: bool, max: bool)

  /** What the picker shows: a row of pills, or the empty-inventory message. */
  datatype PillRow = NoCardsAvailable | Pills(pills: seq<Pill>)

  const NoCardsMessage := "No cards available."

  /** The pill of `card`, with `picked >= total` as "max" and `picked > 0` as
      "active". */
  function PillOf(card: Card, picked: nat, total: nat): Pill {
    Pill(card, picked, total, picked > 0, picked >= total)
  }

  /** The picker as the multiset counts of `selected` and `available` determine it. */
  function CardPills(selected: seq<Card>, available: seq<Card>): PillRow {
    var unique := SortedKeys(Distinct(available));
    if |unique| == 0 then NoCardsAvailable else Pills(PillsOf(unique, selected, available))
  }

  /** The pills of the cards `unique`, in that order. */
  function PillsOf(unique: seq<Card>, selected: seq<Card>, available: seq<Card>): (ps: seq<Pill>)
    ensures |ps| == |unique|
    ensures forall i :: 0 <= i < |unique| ==>
      ps[i] == PillOf(unique[i], Count(selected, unique[i]), Count(available, unique[i]))
  {
    if unique == [] then [] else
    [PillOf(unique[0], Count(selected, unique[0]), Count(available, unique[0]))] + PillsOf(unique[1..], selected, available)
  }

  /** `CardPills` as the component computes it, from the two tallies. */
  method RenderPills(selected: seq<Card>, available: seq<Card>) returns (row: PillRow)
    ensures row == CardPills(selected, available)
  {
    var counts := CountCards(available);
    var selectedCounts := CountCards(selected);
    TallyKeys(counts, available);
    var unique := SortedKeys(counts.Keys);
    if |unique| == 0 {
      return NoCardsAvailable;
    }
    var pills := BuildPills(unique, counts, selectedCounts, selected, available);
    row := Pills(pills);
  }

  /** The `map` over `uniqueCards`: each pill reads its total from `counts`
      and its picked count from `selectedCounts`, 0 when absent. */
  method BuildPills(unique: seq<Card>, counts: map<Card, nat>, selectedCounts: map<Card, nat>,
                    selected: seq<Card>, available: seq<Card>) returns (pills: seq<Pill>)
    requires forall c :: c in unique ==> c in counts && counts[c] == Count(available, c)
    requires forall c :: c in selectedCounts <==> c in selected
    requires forall c :: c in selectedCounts ==> selectedCounts[c] == Count(selected, c)
    ensures pills == PillsOf(unique, selected, available)
  {
    pills := [];
    var i := 0;
    while i < |unique|
      invariant 0 <= i <= |unique|
      invariant |pills| == i
      invariant forall k :: 0 <= k < i ==>
        pills[k] == PillOf(unique[k], Count(selected, unique[k]), Count(available, unique[k]))
    {
      var card := unique[i];
      var total := counts[card];
      var picked := if card in selectedCounts then selectedCounts[card] else 0;
      assert picked == Count(selected, card);
      pills := pills + [PillOf(card, picked, total)];
      i := i + 1;
    }
  }

  lemma TallyKeys(counts: map<Card, nat>, cards: seq<Card>)
    requires forall c :: c in counts <==> c in cards
    ensures counts.Keys == Distinct(cards)
  {
  }

  /** No pills appear exactly when the inventory is empty. */
  lemma CardPillsEmpty(selected: seq<Card>, available: seq<Card>)
    ensures CardPills(selected, available).NoCardsAvailable? <==> available == []
  {
    var unique := SortedKeys(Distinct(available));
    SortedKeysOf(available);
    if available != [] {
      assert available[0] in unique;
    }
    if unique != [] {
      assert unique[0] in available;
    }
  }

  /** The pills show exactly the owned card values. */
  lemma CardPillsCover(selected: seq<Card>, available: seq<Card>)
    requires CardPills(selected, available).Pills?
    ensures var ps := CardPills(selected, available).pills;
      forall c :: c in available <==> exists i :: 0 <= i < |ps| && ps[i].card == c
  {
    var unique := SortedKeys(Distinct(available));
    SortedKeysOf(available);
    var ps := PillsOf(unique, selected, available);
    forall i | 0 <= i < |ps| ensures ps[i].card in available {
      assert ps[i].card == unique[i];
    }
    forall c | c in available ensures exists i :: 0 <= i < |ps| && ps[i].card == c {
      var i :| 0 <= i < |unique| && unique[i] == c;
      assert ps[i].card == c;
    }
  }

  /** The pills run in strictly increasing card order, so no value repeats. */
  lemma CardPillsOrdered(selected: seq<Card>, available: seq<Card>)
    requires CardPills(selected, available).Pills?
    ensures var ps := CardPills(selected, available).pills;
      forall i, j :: 0 <= i < j < |ps| ==> Rank(ps[i].card) < Rank(ps[j].card)
  {
    var unique := SortedKeys(Distinct(available));
    SortedKeysOf(available);
    var ps := PillsOf(unique, selected, available);
    forall i, j | 0 <= i < j < |ps| ensures Rank(ps[i].card) < Rank(ps[j].card) {
      assert ps[i].card == unique[i] && ps[j].card == unique[j];
    }
  }

  /** Each pill shows the selected and owned counts of its card, with at
      least one owned, and is "max" and "active" as those counts say. */
  lemma CardPillsCounts(selected: seq<Card>, available: seq<Card>)
    requires CardPills(selected, available).Pills?
    ensures var ps := CardPills(selected, available).pills;
      forall i :: 0 <= i < |ps| ==>
        && ps[i].total == Count(available, ps[i].card) > 0
        && ps[i].picked == Count(selected, ps[i].card)
        && (ps[i].max <==> ps[i].picked >= ps[i].total)
        && (ps[i].active <==> ps[i].picked > 0)
  {
    var unique := SortedKeys(Distinct(available));
    SortedKeysOf(available);
    var ps := PillsOf(unique, selected, available);
    forall i | 0 <= i < |ps| ensures Count(available, ps[i].card) > 0 {
      assert ps[i].card == unique[i] && unique[i] in available;
    }
  }

  /** The pills are exactly the owned card values, each once, in card order;
      each shows the selected and owned counts and is "max" exactly when all
      owned copies are picked and "active" exactly when any are. No pills
      appear for an empty inventory, and a selected card that is not owned
      gets none. */
  lemma CardPillsFaithful(selected: seq<Card>, available: seq<Card>)
    ensures CardPills(selected, available).NoCardsAvailable? <==> available == []
    ensures CardPills(selected, available).Pills? ==> var ps := CardPills(selected, available).pills;
      && (forall c :: c in available <==> exists i :: 0 <= i < |ps| && ps[i].card == c)
      && (forall i, j :: 0 <= i < j < |ps| ==> Rank(ps[i].card) < Rank(ps[j].card))
      && (forall i :: 0 <= i < |ps| ==>
            && ps[i].total == Count(available, ps[i].card) > 0
            && ps[i].picked == Count(selected, ps[i].card)
            && (ps[i].max <==> ps[i].picked >= ps[i].total)
            && (ps[i].active <==> ps[i].picked > 0))
  {
    CardPillsEmpty(selected, available);
    if CardPills(selected, available).Pills? {
      CardPillsCover(selected, available);
      CardPillsOrdered(selected, available);
      CardPillsCounts(selected, available);
    }
  }

  /** The sorted keys are the owned card values, in strictly increasing rank. */
  lemma SortedKeysOf(available: seq<Card>)
    ensures forall c :: c in SortedKeys(Distinct(available)) <==> c in available
    ensures Ascending(SortedKeys(Distinct(available)), Rank)
  {
    forall c: Card ensures c in CardOptions {
      assert CardOptions[Rank(c)] == c;
    }
    CardOptionsAscending();
    PresentKeepsOrder(CardOptions, Distinct(available), Rank);
  }
}
