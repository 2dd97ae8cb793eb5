/**
 The grocery list view (src/components/GroceryList.tsx): the urgency ordering
 of the items, the per-item card it renders, and the item-count heading.

 The source sorts a copy with `Array.prototype.sort` and the comparator
 `daysLeftA - daysLeftB`; with one fixed `now` that is the stable sort of
 `StableSort` keyed by days left. Sequences are values, so the caller's list
 is never changed.
 */
module GroceryList {

  import opened Types
  import opened Text
  import Expiry
  import StableSort

  /** The sort key of an item at `now`: its days left. */
  function UrgencyKey(now: Instant): GroceryItem -> int {
    (g: GroceryItem) => Expiry.DaysLeft(now, g.expiryDate)
  }

  /**
   `sortedGroceries`: the items ordered from most expired to freshest, a
   rearrangement of the input in which days left never decrease.
   */
  function SortByUrgency(now: Instant, groceries: seq<GroceryItem>): (sorted: seq<GroceryItem>)
    ensures multiset(sorted) == multiset(groceries)
    ensures forall i, j :: 0 <= i < j < |sorted| ==>
              Expiry.DaysLeft(now, sorted[i].expiryDate) <= Expiry.DaysLeft(now, sorted[j].expiryDate)
  {
    var sorted := StableSort.Sort(UrgencyKey(now), groceries);
    assert StableSort.Sorted(UrgencyKey(now), sorted);
    sorted
  }

  /** Items with the same days left appear in the sorted list in their input order. */
  lemma SortByUrgencyStable(now: Instant, groceries: seq<GroceryItem>, days: int)
    ensures StableSort.WithKey(UrgencyKey(now), SortByUrgency(now, groceries), days)
         == StableSort.WithKey(UrgencyKey(now), groceries, days)
  {
    StableSort.SortStable(UrgencyKey(now), groceries, days);
  }

  /** A list already in urgency order is shown in its own order. */
  lemma SortByUrgencyIdempotent(now: Instant, groceries: seq<GroceryItem>)
    requires forall i, j :: 0 <= i < j < |groceries| ==>
               Expiry.DaysLeft(now, groceries[i].expiryDate) <= Expiry.DaysLeft(now, groceries[j].expiryDate)
    ensures SortByUrgency(now, groceries) == groceries
  {
    assert StableSort.Sorted(UrgencyKey(now), groceries);
    StableSort.SortIdempotent(UrgencyKey(now), groceries);
  }

  /**
   A list already in expiry order is already in urgency order, so it is shown
   as it is. (The converse fails: items whose expiries fall within the same
   day keep their input order, whatever their expiry order.)
   */
  lemma ExpiryOrderIsUrgencyOrder(now: Instant, groceries: seq<GroceryItem>)
    requires forall i, j :: 0 <= i < j < |groceries| ==> groceries[i].expiryDate <= groceries[j].expiryDate
    ensures SortByUrgency(now, groceries) == groceries
  {
    forall i, j | 0 <= i < j < |groceries|
      ensures Expiry.DaysLeft(now, groceries[i].expiryDate) <= Expiry.DaysLeft(now, groceries[j].expiryDate)
    {
      Expiry.DaysLeftMonotone(now, groceries[i].expiryDate, groceries[j].expiryDate);
    }
    SortByUrgencyIdempotent(now, groceries);
  }

  /**
   Any stable ascending arrangement by days left, however the sort is carried
   out, is the list `SortByUrgency` shows.
   */
  lemma SortByUrgencyUnique(now: Instant, groceries: seq<GroceryItem>, other: seq<GroceryItem>)
    requires forall i, j :: 0 <= i < j < |other| ==>
               Expiry.DaysLeft(now, other[i].expiryDate) <= Expiry.DaysLeft(now, other[j].expiryDate)
    requires forall days :: StableSort.WithKey(UrgencyKey(now), other, days)
                         == StableSort.WithKey(UrgencyKey(now), groceries, days)
    ensures other == SortByUrgency(now, groceries)
  {
    assert StableSort.Sorted(UrgencyKey(now), other);
    StableSort.SortIsTheStableSort(UrgencyKey(now), groceries, other);
  }

  /** Three elements with keys in the order high, low, middle are sorted to low, middle, high. */
  lemma SortOfThree<T>(key: T -> int, a: T, b: T, c: T)
    requires key(b) < key(c) < key(a)
    ensures StableSort.Sort(key, [a, b, c]) == [b, c, a]
  {
    assert [c][1..] == [];
    assert StableSort.Sort(key, [c]) == [c];
    assert [b, c][1..] == [c];
    assert StableSort.Sort(key, [b, c]) == [b, c];
    assert [a, b, c][1..] == [b, c];
    assert StableSort.Insert(key, a, [c]) == [c, a];
    assert StableSort.Insert(key, a, [b, c]) == [b, c, a];
  }

  /**
   Seen from midnight on 10 January 2024, an item five days out, one expired
   two days ago and one due now are listed expired first, then due, then the
   later one.
   */
  lemma UrgencyOrderExample()
    ensures
      var now := Expiry.Jan10;
      var a := GroceryItem("a", "A", now + 5 * Expiry.MillisPerDay, 1, None, None, None);
      var b := GroceryItem("b", "B", now - 2 * Expiry.MillisPerDay, 1, None, None, None);
      var c := GroceryItem("c", "C", now, 1, None, None, None);
      SortByUrgency(now, [a, b, c]) == [b, c, a]
  {
    var now := Expiry.Jan10;
    var a := GroceryItem("a", "A", now + 5 * Expiry.MillisPerDay, 1, None, None, None);
    var b := GroceryItem("b", "B", now - 2 * Expiry.MillisPerDay, 1, None, None, None);
    var c := GroceryItem("c", "C", now, 1, None, None, None);
    var key := UrgencyKey(now);
    Expiry.BoundaryScenarios();
    assert key(a) == 5 && key(b) == -2 && key(c) == 0;
    SortOfThree(key, a, b, c);
  }

  // ---------------------------------------------------------------- rendering

  /** `"{n} item{s}"`, the heading above the list. */
  function CountLabel(count: nat): (heading: string)
    ensures ReadNat(heading) == Some(count)
    ensures heading[|heading| - 1] == 's' <==> count != 1
  {
    var rest := " item" + PluralSuffix(count);
    ReadNatOfRendered(count, rest);
    NatToString(count) + rest
  }

  /**
   One card: the item and what is derived from its days left. The strip colour
   and the expiry label are rendered; `statusColor` is the value the source
   computes for each card (`getExpiryStatusColor`) and never puts on screen.
   */
  datatype Card = Card(
    item: GroceryItem,
    daysLeft: int,
    statusColor: string,
    stripColor: string,
    expiryLabel: Expiry.ExpiryLabel
  )

  /** The list body: the empty-state placeholder or the cards in display order. */
  datatype Body = EmptyState | Cards(cards: seq<Card>)

  datatype ListView = ListView(countLabel: string, body: Body)

  /**
   The card of one item at `now`: it carries the item's days left, and its
   visible red (the strip and the label) appears exactly when the item has
   expired.
   */
  function CardFor(now: Instant, g: GroceryItem): (c: Card)
    ensures c.item == g
    ensures c.daysLeft == Expiry.DaysLeft(now, g.expiryDate)
    ensures c.stripColor == "bg-red-500" <==> g.expiryDate < now
    ensures c.expiryLabel.color == "text-red-500" <==> g.expiryDate < now
    ensures c.statusColor == "text-red-500" <==> g.expiryDate < now
    ensures c.expiryLabel.text == "Expires today" <==> g.expiryDate == now
    ensures c.stripColor == "bg-yellow-500" <==> Expiry.Classify(c.daysLeft) == Expiry.Warning
  {
    var days := Expiry.DaysLeft(now, g.expiryDate);
    Card(g, days, Expiry.StatusColor(days), Expiry.StripColor(days), Expiry.Label(days))
  }

  function Items(cards: seq<Card>): (items: seq<GroceryItem>)
    ensures |items| == |cards|
    ensures forall i :: 0 <= i < |cards| ==> items[i] == cards[i].item
  {
    seq(|cards|, i requires 0 <= i < |cards| => cards[i].item)
  }

  /**
   What the component renders for `groceries` at `now`: the count heading, and
   either the empty-state placeholder (no items) or one card per item, most
   urgent first.
   */
  function Render(now: Instant, groceries: seq<GroceryItem>): (v: ListView)
    ensures ReadNat(v.countLabel) == Some(|groceries|)
    ensures v.body.EmptyState? <==> |groceries| == 0
    ensures v.body.Cards? ==> Items(v.body.cards) == SortByUrgency(now, groceries)
    ensures v.body.Cards? ==> multiset(Items(v.body.cards)) == multiset(groceries)
    ensures v.body.Cards? ==> forall i, j :: 0 <= i < j < |v.body.cards| ==>
              v.body.cards[i].daysLeft <= v.body.cards[j].daysLeft
    ensures v.body.Cards? ==> forall i :: 0 <= i < |v.body.cards| ==>
              v.body.cards[i] == CardFor(now, v.body.cards[i].item)
  {
    var heading := CountLabel(|groceries|);
    if |groceries| == 0 then ListView(heading, EmptyState)
    else
      var sorted := SortByUrgency(now, groceries);
      var cards := seq(|sorted|, i requires 0 <= i < |sorted| => CardFor(now, sorted[i]));
      assert Items(cards) == sorted;
      ListView(heading, Cards(cards))
  }

  /**
   Every card on screen tells the truth about its own item: its label sentence
   reads back as that item's days left at `now`, and its strip is red exactly
   when that item has expired.
   */
  lemma RenderedCardsReadBack(now: Instant, groceries: seq<GroceryItem>)
    ensures Render(now, groceries).body.Cards? ==>
              forall c :: c in Render(now, groceries).body.cards ==>
                && Expiry.ReadLabel(c.expiryLabel.text) == Some(Expiry.DaysLeft(now, c.item.expiryDate))
                && (c.stripColor == "bg-red-500" <==> c.item.expiryDate < now)
  {
    var v := Render(now, groceries);
    if v.body.Cards? {
      forall c | c in v.body.cards
        ensures Expiry.ReadLabel(c.expiryLabel.text) == Some(Expiry.DaysLeft(now, c.item.expiryDate))
        ensures c.stripColor == "bg-red-500" <==> c.item.expiryDate < now
      {
        var k :| 0 <= k < |v.body.cards| && v.body.cards[k] == c;
        Expiry.LabelRoundTrip(Expiry.DaysLeft(now, c.item.expiryDate));
      }
    }
  }
}
