/** The header (src/components/Navbar.jsx): the cart and favourites
    badges, and the login panel toggle. */
module Navbar {
  import opened Cart
  import Favorites
  import Catalog

  /** cartItemsCount: the quantities summed from the first line. */
  function CartItemsCount(items: seq<CartLine>): int
    decreases |items|
  {
    if |items| == 0 then 0 else CartItemsCount(items[..|items| - 1]) + items[|items| - 1].quantity
  }

  /** favoritesCount: the number of entries, duplicates included. */
  function FavoritesCount(fav: Favorites.State): nat
  {
    |fav.items|
  }

  predicate ShowsCartBadge(items: seq<CartLine>)
  {
    CartItemsCount(items) > 0
  }

  predicate ShowsFavoritesBadge(fav: Favorites.State)
  {
    FavoritesCount(fav) > 0
  }

  lemma {:induction false} CartItemsCountAppend(a: seq<CartLine>, b: seq<CartLine>)
    ensures CartItemsCount(a + b) == CartItemsCount(a) + CartItemsCount(b)
    ensures CartItemsCount([]) == 0
    decreases |b|
  {
    if |b| > 0 {
      assert (a + b)[..|a + b| - 1] == a + b[..|b| - 1];
      CartItemsCountAppend(a, b[..|b| - 1]);
    } else {
      assert a + b == a;
    }
  }

  /** When every line holds at least one unit, the count is at least the
      number of lines, so the cart badge shows exactly when the cart has
      lines. */
  lemma {:induction false} CartBadgeIffLines(items: seq<CartLine>)
    requires forall i :: 0 <= i < |items| ==> items[i].quantity >= 1
    ensures CartItemsCount(items) >= |items|
    ensures ShowsCartBadge(items) <==> items != []
    decreases |items|
  {
    if |items| > 0 {
      CartBadgeIffLines(items[..|items| - 1]);
    }
  }

  /** The favourites badge shows exactly when there is an entry, and an
      added entry always counts, even a duplicate. */
  lemma FavoritesBadgeSpec(fav: Favorites.State, p: Catalog.Product)
    ensures ShowsFavoritesBadge(fav) <==> fav.items != []
    ensures FavoritesCount(Favorites.Reduce(fav, Favorites.AddToFavorites(p))) == FavoritesCount(fav) + 1
  {
  }

  /** A click on "Connexion" flips isProfileOpen; the login panel is shown
      while it is true. */
  function ClickProfile(isProfileOpen: bool): bool
  {
    !isProfileOpen
  }

  predicate ShowsLoginPanel(isProfileOpen: bool)
  {
    isProfileOpen
  }

  lemma ClickProfileSpec(isProfileOpen: bool)
    ensures ShowsLoginPanel(ClickProfile(isProfileOpen)) != ShowsLoginPanel(isProfileOpen)
    ensures ClickProfile(ClickProfile(isProfileOpen)) == isProfileOpen
  {
  }
}
