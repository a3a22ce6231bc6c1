/**
 * The favourites of the quick-phrase dialog: a set of favourite phrase ids
 * and a list giving their order, newest first, both kept in local storage.
 */
module QuickPhrasesModal {
  import opened Wrappers
  import opened JsStrings
  import opened TranslationTypes

  const SavedPrefix: Text := "已收藏: "
  const UnsavedPrefix: Text := "已取消收藏: "

  /** The favourite set after toggling `id`. */
  function ToggledFavorites(favorites: set<Text>, id: Text): set<Text>
  {
    if id in favorites then favorites - {id} else favorites + {id}
  }

  /** The order list after toggling `id`: every occurrence filtered out, or
    * the id put at the front (`unshift`). */
  function ToggledOrder(favorites: set<Text>, order: seq<Text>, id: Text): seq<Text>
  {
    if id in favorites then Remove(order, id) else [id] + order
  }

  /** The toast shown after a toggle, judged on the new set. */
  function ToastFor(newFavorites: set<Text>, phrase: Phrase): Text
  {
    (if phrase.id in newFavorites then SavedPrefix else UnsavedPrefix) + phrase.zh
  }

  /** The order list names each favourite exactly once and nothing else. */
  ghost predicate Consistent(favorites: set<Text>, order: seq<Text>)
  {
    Distinct(order) && forall x :: x in order <==> x in favorites
  }

  /** Filtering keeps a list duplicate-free and drops exactly `x`. */
  lemma {:induction false} RemoveKeepsDistinct(s: seq<Text>, x: Text)
    requires Distinct(s)
    ensures Distinct(Remove(s, x))
    ensures forall y :: y in Remove(s, x) <==> y in s && y != x
  {
    var r := Remove(s, x);
    assert forall y :: y in r <==> multiset(r)[y] > 0;
    assert forall y :: y in s <==> multiset(s)[y] > 0;
    if s != [] {
      var init := s[..|s| - 1];
      var last := s[|s| - 1];
      DistinctInit(s);
      RemoveKeepsDistinct(init, x);
      if last != x {
        DistinctAppend(Remove(init, x), last);
      }
    }
  }

  /** Filtering out an absent id changes nothing. */
  lemma {:induction false} RemoveAbsent(s: seq<Text>, x: Text)
    requires x !in s
    ensures Remove(s, x) == s
  {
    if s != [] {
      assert s[|s| - 1] != x;
      assert s[..|s| - 1] + [s[|s| - 1]] == s;
      RemoveAbsent(s[..|s| - 1], x);
    }
  }

  /** Toggling a favourite removes it from both; toggling another id adds it
    * to the set and puts it first; nothing else changes either way. */
  lemma ToggleFacts(favorites: set<Text>, order: seq<Text>, id: Text)
    ensures id in favorites ==>
      && id !in ToggledFavorites(favorites, id) && id !in ToggledOrder(favorites, order, id)
      && forall y :: y != id ==> multiset(ToggledOrder(favorites, order, id))[y] == multiset(order)[y]
    ensures id !in favorites ==>
      && id in ToggledFavorites(favorites, id)
      && ToggledOrder(favorites, order, id)[0] == id && ToggledOrder(favorites, order, id)[1..] == order
    ensures forall y :: y != id ==> (y in ToggledFavorites(favorites, id) <==> y in favorites)
  {
    if id in favorites {
      var r := Remove(order, id);
      assert id in r ==> multiset(r)[id] > 0;
    }
  }

  /** A toggle keeps the order list a duplicate-free listing of the set. */
  lemma ToggleKeepsConsistent(favorites: set<Text>, order: seq<Text>, id: Text)
    requires Consistent(favorites, order)
    ensures Consistent(ToggledFavorites(favorites, id), ToggledOrder(favorites, order, id))
  {
    if id in favorites {
      RemoveKeepsDistinct(order, id);
    } else {
      var r := [id] + order;
      forall i, j | 0 <= i < j < |r|
        ensures r[i] != r[j]
      {
        assert r[j] == order[j - 1];
        if i > 0 {
          assert r[i] == order[i - 1];
        }
      }
    }
  }

  /** Toggling a non-favourite twice restores set and order; toggling a
    * favourite twice restores the set but moves the id to the front. */
  lemma DoubleToggle(favorites: set<Text>, order: seq<Text>, id: Text)
    requires Consistent(favorites, order)
    ensures var f1 := ToggledFavorites(favorites, id);
            var o1 := ToggledOrder(favorites, order, id);
            && ToggledFavorites(f1, id) == favorites
            && (id !in favorites ==> ToggledOrder(f1, o1, id) == order)
            && (id in favorites ==> ToggledOrder(f1, o1, id) == [id] + Remove(order, id))
  {
    if id !in favorites {
      assert id !in order;
      RemoveAbsent(order, id);
      RemoveFront(id, order);
    }
  }

  /** Filtering `x` out of a list that starts with `x` drops that head too. */
  lemma {:induction false} RemoveFront(x: Text, s: seq<Text>)
    ensures Remove([x] + s, x) == Remove(s, x)
    decreases |s|
  {
    var xs := [x] + s;
    if s == [] {
      assert xs[..|xs| - 1] == [];
    } else {
      var init := s[..|s| - 1];
      assert xs[..|xs| - 1] == [x] + init;
      assert xs[|xs| - 1] == s[|s| - 1];
      RemoveFront(x, init);
    }
  }

  /** The toast reads "已收藏" exactly when the id is now a favourite. */
  lemma ToastFacts(newFavorites: set<Text>, phrase: Phrase)
    ensures |ToastFor(newFavorites, phrase)| >= 3
    ensures ToastFor(newFavorites, phrase)[..3] == "已收藏" <==> phrase.id in newFavorites
  {
    var t := ToastFor(newFavorites, phrase);
    if phrase.id !in newFavorites {
      assert t[1] == '取';
    }
  }

  class FavoritesPanel {
    var favorites: set<Text>
    var order: seq<Text>
    /** The `favorite_phrases` and `favorite_phrases_order` entries of local storage. */
    var storedIds: set<Text>
    var storedOrder: seq<Text>
    /** Toasts shown so far, and how often `onFavoriteChange` was called. */
    var toasts: seq<Text>
    var changeNotices: nat

    /** The panel loads both entries; a missing or unreadable entry, given
      * as `None`, starts empty. */
    constructor (savedIds: Option<seq<Text>>, savedOrder: Option<seq<Text>>)
      ensures favorites == (if savedIds.Some? then set x | x in savedIds.value else {})
      ensures order == (if savedOrder.Some? then savedOrder.value else [])
      ensures storedIds == favorites && storedOrder == order
      ensures toasts == [] && changeNotices == 0
    {
      favorites := if savedIds.Some? then set x | x in savedIds.value else {};
      order := if savedOrder.Some? then savedOrder.value else [];
      storedIds := favorites;
      storedOrder := order;
      toasts := [];
      changeNotices := 0;
    }

    /** `toggleFavorite`: updates set and order, saves both, shows the toast
      * and notifies the parent. */
    method ToggleFavorite(phrase: Phrase)
      modifies this
      ensures favorites == ToggledFavorites(old(favorites), phrase.id)
      ensures order == ToggledOrder(old(favorites), old(order), phrase.id)
      ensures storedIds == favorites && storedOrder == order
      ensures toasts == old(toasts) + [ToastFor(favorites, phrase)]
      ensures changeNotices == old(changeNotices) + 1
      ensures old(Consistent(favorites, order)) ==> Consistent(favorites, order)
    {
      if Consistent(favorites, order) {
        ToggleKeepsConsistent(favorites, order, phrase.id);
      }
      var newFavorites := favorites;
      var newOrder := order;
      if phrase.id in newFavorites {
        newFavorites := newFavorites - {phrase.id};
        newOrder := Remove(newOrder, phrase.id);
      } else {
        newFavorites := newFavorites + {phrase.id};
        newOrder := [phrase.id] + newOrder;
      }
      favorites := newFavorites;
      order := newOrder;
      storedIds := newFavorites;
      storedOrder := newOrder;
      var message := if phrase.id in newFavorites then SavedPrefix + phrase.zh else UnsavedPrefix + phrase.zh;
      toasts := toasts + [message];
      changeNotices := changeNotices + 1;
    }
  }
}
