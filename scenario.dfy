/**
 * A client of the card and the session together: a deck of three cats, four
 * released drags (one of them short of the threshold), and the result screen
 * they lead to. Each decision the card reports is what `handleSwipe` gets.
 */
module Scenario {
  import opened Wrappers
  import opened Cats
  import opened CatCard
  import opened App
  import opened Cataas

  method ThreeCatSession(a: ApiImage, b: ApiImage, c: ApiImage, innerWidth: nat) {
    var session := new Session();
    session.LoadCats(Fetched([a, b, c]));
    var catA, catB, catC := session.cats[0], session.cats[1], session.cats[2];
    assert Render(session.Snapshot()).deck == Some([catA]);

    // A released 250 px to the right: committed
    var cmd := OnDrag(true, catA, DragSample(false, 250.0, 1.0, 0.0), innerWidth);
    assert Emitted(cmd) == [Swipe(Right, catA)];
    session.HandleSwipe(Right, Some(catA));
    assert session.likedCats == [catA] && session.currentIndex == 1;

    // B released 150 px to the left, slowly: snaps back, nothing reported
    cmd := OnDrag(true, catB, DragSample(false, -150.0, -1.0, 0.2), innerWidth);
    assert Emitted(cmd) == [] && Settle(InitialSpring, cmd) == InitialSpring;

    // B released 220 px to the left: committed
    cmd := OnDrag(true, catB, DragSample(false, -220.0, -1.0, 0.0), innerWidth);
    assert Emitted(cmd) == [Swipe(Left, catB)];
    session.HandleSwipe(Left, Some(catB));

    // C released 120 px to the right, fast: committed
    cmd := OnDrag(true, catC, DragSample(false, 120.0, 1.0, 0.6), innerWidth);
    assert Emitted(cmd) == [Swipe(Right, catC)];
    session.HandleSwipe(Right, Some(catC));

    assert session.likedCats == [catA, catC] && session.currentIndex == 3;
    assert session.LikedFromDeck();
    var screen := Render(session.Snapshot());
    assert screen.deck == None && screen.results == Some(Summary([catA, catC], 3));
  }

  /** A repeated id costs a draw but not a slot: two draws with the same id
      and one with another still give two records. */
  method RetriedSlot(d: Draw, e: Draw)
    requires CatId(d) != CatId(e)
  {
    var draws := [d, d, e];
    assert {CatId(d), CatId(e)} <= DrawIds(draws);
    SubsetCard({CatId(d), CatId(e)}, DrawIds(draws));
    assert |DrawIds(draws)| >= 2;
    var cats := FetchCats(2, draws);
    assert |cats| == 2;
  }
}
