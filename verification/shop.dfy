/** The item filter of `renderShop` in novaCoin.js: which catalog items the
    shop shows as cards. Building the cards themselves is presentation. */
module Shop {
  import opened Catalog
  import opened Economy

  /** The shop never shows more cards than this. */
  const DisplayCap := 7

  /** An item the shop offers: not bought, and `totalMined` has reached its
      requirement. The `available` flag plays no part. */
  predicate Offered(g: Game, id: ItemId) {
    !g.items.Get(id).bought && g.gameStats.totalMined >= Requirement(id)
  }

  /** The item cards, or the single "Oops" card shown when there is none. */
  datatype ShopView = Cards(items: seq<ItemId>) | Placeholder

  /** `renderShop`: walks the catalog in order and adds a card for every
      offered item while fewer than `DisplayCap` are shown. */
  method RenderShop(g: Game) returns (view: ShopView)
    ensures view.Placeholder? <==> forall id: ItemId :: !Offered(g, id)
    ensures view.Cards? ==> 0 < |view.items| <= DisplayCap
    ensures view.Cards? ==> forall k :: 0 <= k < |view.items| ==> Offered(g, view.items[k])
    // in catalog order, hence each item at most once
    ensures view.Cards? ==> forall a, b :: 0 <= a < b < |view.items| ==> Index(view.items[a]) < Index(view.items[b])
    // below the cap, every offered item is shown
    ensures view.Cards? && |view.items| < DisplayCap ==> forall id: ItemId :: Offered(g, id) ==> id in view.items
  {
    var cards: seq<ItemId> := [];
    var i := 0;
    while i < |Order|
      invariant 0 <= i <= |Order|
      invariant |cards| <= DisplayCap
      invariant forall k :: 0 <= k < |cards| ==> Offered(g, cards[k])
      invariant forall k :: 0 <= k < |cards| ==> Index(cards[k]) < i
      invariant forall a, b :: 0 <= a < b < |cards| ==> Index(cards[a]) < Index(cards[b])
      invariant |cards| < DisplayCap ==> forall j :: 0 <= j < i && Offered(g, Order[j]) ==> Order[j] in cards
      invariant cards == [] ==> forall j :: 0 <= j < i ==> !Offered(g, Order[j])
    {
      var id := Order[i];
      assert Index(id) == i;
      if Offered(g, id) && |cards| < DisplayCap {
        cards := cards + [id];
      }
      i := i + 1;
    }
    if cards == [] {
      forall id: ItemId ensures !Offered(g, id) {
        assert Order[Index(id)] == id;
      }
      view := Placeholder;
    } else {
      assert Offered(g, cards[0]);
      forall id: ItemId | Offered(g, id) && |cards| < DisplayCap ensures id in cards {
        assert Order[Index(id)] == id;
      }
      view := Cards(cards);
    }
  }

  /** The catalog is shorter than the cap, so the cap never hides an item. */
  lemma CapNeverBinds()
    ensures |Order| < DisplayCap
  {
  }
}
