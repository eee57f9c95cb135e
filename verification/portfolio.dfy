/** The portfolio grid of the page: the category filter buttons and the
    labels each card shows for its category. */
module Portfolio {

  /** A portfolio card. The description and image path are display-only. */
  datatype Item = Item(id: nat, title: string, category: string, rating: real)

  /** The filter value that shows every card. */
  const AllFilter: string := "all"

  /** `portfolioItems.filter((item) => item.category === activeFilter)`. */
  function WithCategory(items: seq<Item>, category: string): (r: seq<Item>)
    ensures |r| <= |items|
    ensures forall k :: 0 <= k < |r| ==> r[k].category == category && r[k] in items
    ensures forall k :: 0 <= k < |items| && items[k].category == category ==> items[k] in r
    decreases |items|
  {
    if items == [] then []
    else
      var rest := WithCategory(items[1..], category);
      assert forall k :: 0 <= k < |items| - 1 ==> items[1..][k] == items[k + 1];
      if items[0].category == category then [items[0]] + rest else rest
  }

  /** `filteredItems`: the "all" filter shows the list unchanged, any other
      filter exactly the cards of that category. */
  function FilteredItems(items: seq<Item>, activeFilter: string): (r: seq<Item>)
    ensures activeFilter == AllFilter ==> r == items
    ensures activeFilter != AllFilter ==> forall k :: 0 <= k < |r| ==> r[k].category == activeFilter
    ensures activeFilter != AllFilter ==>
              forall k :: 0 <= k < |items| && items[k].category == activeFilter ==> items[k] in r
    ensures activeFilter != AllFilter ==> forall k :: 0 <= k < |r| ==> r[k] in items
    ensures activeFilter != AllFilter ==>
              forall x :: multiset(r)[x] == if x.category == activeFilter then multiset(items)[x] else 0
    ensures IsSubsequence(r, items)
  {
    if activeFilter == AllFilter then
      SubsequenceOfItself(items);
      items
    else
      FilterKeepsOrder(items, activeFilter);
      FilterIsExact(items, activeFilter);
      WithCategory(items, activeFilter)
  }

  /** Every list is a subsequence of itself. */
  lemma {:induction false} SubsequenceOfItself(items: seq<Item>)
    ensures IsSubsequence(items, items)
    decreases |items|
  {
    if items != [] {
      SubsequenceOfItself(items[1..]);
    }
  }

  /** `a` can be obtained from `b` by deleting elements: order is kept. */
  predicate IsSubsequence(a: seq<Item>, b: seq<Item>)
    decreases |b|
  {
    if a == [] then true
    else if b == [] then false
    else if a[0] == b[0] then IsSubsequence(a[1..], b[1..])
    else IsSubsequence(a, b[1..])
  }

  /** The filter keeps the cards in their original order. */
  lemma {:induction false} FilterKeepsOrder(items: seq<Item>, category: string)
    ensures IsSubsequence(WithCategory(items, category), items)
    decreases |items|
  {
    if items != [] {
      var r := WithCategory(items, category);
      var rest := WithCategory(items[1..], category);
      FilterKeepsOrder(items[1..], category);
      if items[0].category == category {
        assert r[0] == items[0] && r[1..] == rest;
      } else if r != [] {
        assert r[0].category == category;
        assert r[0] != items[0];
      }
    }
  }

  /** The filter keeps every card of the category as often as it occurs, and
      nothing else. */
  lemma {:induction false} FilterIsExact(items: seq<Item>, category: string)
    ensures forall x :: multiset(WithCategory(items, category))[x] ==
                        if x.category == category then multiset(items)[x] else 0
    decreases |items|
  {
    if items != [] {
      FilterIsExact(items[1..], category);
      assert items == [items[0]] + items[1..];
      assert multiset(items) == multiset{items[0]} + multiset(items[1..]);
    }
  }

  /** The badge on a card. */
  function BadgeLabel(category: string): (text: string)
    ensures text == "YouTube" <==> category == "youtube"
    ensures text == "Photography" <==> category == "photography"
    ensures text == "Client" <==> category != "youtube" && category != "photography"
  {
    if category == "youtube" then "YouTube"
    else if category == "photography" then "Photography"
    else "Client"
  }

  /** The hover button on a card's image. */
  function ActionLabel(category: string): (text: string)
    ensures text == "View" <==> category == "photography"
    ensures text == "Watch" <==> category != "photography"
  {
    if category == "photography" then "View" else "Watch"
  }

  /** Under a category's own filter every card wears that category's badge. */
  lemma FilteredBadges(items: seq<Item>)
    ensures forall k :: 0 <= k < |FilteredItems(items, "youtube")| ==>
              BadgeLabel(FilteredItems(items, "youtube")[k].category) == "YouTube"
    ensures forall k :: 0 <= k < |FilteredItems(items, "photography")| ==>
              BadgeLabel(FilteredItems(items, "photography")[k].category) == "Photography"
    ensures forall k :: 0 <= k < |FilteredItems(items, "client")| ==>
              BadgeLabel(FilteredItems(items, "client")[k].category) == "Client"
  {
  }
}
