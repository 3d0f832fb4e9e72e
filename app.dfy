/**
 * The session of `src/App.jsx`: the deck of cats fetched for one session,
 * the cursor into it, the cats liked so far, the loading flag and the error
 * message, the handlers that change them, and the choice of what the page
 * shows for a given state.
 *
 * The HTTP request is not modelled; its outcome (the list the API returned,
 * or the message of the error it threw) is an input of `FinishLoad`.
 */
module App {
  import opened Wrappers
  import opened Cats

  /** An element of the API's response; only `id` and `url` are kept. */
  datatype ApiImage = ApiImage(id: string, url: string, width: int, height: int)

  /** How the awaited request ends: the decoded list, or a thrown error. */
  datatype FetchOutcome = Fetched(images: seq<ApiImage>) | Failed(message: string)

  /** JavaScript truthiness of the `error` state: `null` and `""` are falsy. */
  predicate Truthy(e: Option<string>) { e.Some? && e.value != "" }

  // ---------------------------------------------------------------------------
  // Rendering: a pure function of the state values

  /** The state values one render sees (the five `useState` hooks). */
  datatype State = State(cats: seq<Cat>, currentIndex: nat, likedCats: seq<Cat>,
                               isLoading: bool, error: Option<string>)

  /** `allCatsProcessed`: loaded, and the cursor has passed every card, so
      the deck would draw no card at all. */
  function AllCatsProcessed(s: State): (processed: bool)
    ensures processed <==> !s.isLoading && CardsFrom(s.cats, 0, s.currentIndex) == []
  {
    s.currentIndex >= |s.cats| && !s.isLoading
  }

  /** The cards `cats.map((cat, index) => index === currentIndex ? <CatCard/> : null)`
      draws, for the part of the deck that starts at index `offset`. */
  function CardsFrom(cats: seq<Cat>, offset: nat, currentIndex: nat): (cards: seq<Cat>)
    ensures offset <= currentIndex < offset + |cats| ==> cards == [cats[currentIndex - offset]]
    ensures !(offset <= currentIndex < offset + |cats|) ==> cards == []
    decreases |cats|
  {
    if cats == [] then []
    else (if offset == currentIndex then [cats[0]] else []) + CardsFrom(cats[1..], offset + 1, currentIndex)
  }

  /** What `ResultScreen` is given. */
  datatype Summary = Summary(likedCats: seq<Cat>, totalCats: nat)

  /** Which parts of the page render: the loading notice, the error panel with
      its message and Retry button, the "No cats found" panel with its Reload
      button, the deck with the cards it draws, and the result screen. */
  datatype Screen = Screen(loading: bool, errorPanel: Option<string>, noCats: bool,
                           deck: Option<seq<Cat>>, results: Option<Summary>)

  function Render(s: State): (screen: Screen)
    // at most one card is drawn, the one under the cursor, and only once loaded without error
    ensures screen.deck.Some? <==> !s.isLoading && !Truthy(s.error) && s.currentIndex < |s.cats|
    ensures screen.deck.Some? ==> screen.deck.value == [s.cats[s.currentIndex]]
    // the results replace the deck once the cursor has passed every card
    ensures screen.results.Some? <==> !s.isLoading && !Truthy(s.error) && s.currentIndex >= |s.cats|
    ensures screen.results.Some? ==> screen.results.value == Summary(s.likedCats, |s.cats|)
    ensures !(screen.deck.Some? && screen.results.Some?)
    // an error (a non-empty message) shows the error panel and nothing below it
    ensures screen.errorPanel.Some? <==> Truthy(s.error)
    ensures screen.errorPanel.Some? ==>
      screen.errorPanel == s.error && !screen.noCats && screen.deck.None? && screen.results.None?
    // the loading notice shows exactly while a load is in flight; then only
    // an error panel can show beside it
    ensures screen.loading <==> s.isLoading
    ensures screen.loading ==> !screen.noCats && screen.deck.None? && screen.results.None?
    // an empty deck shows both the "No cats found" panel and the results
    ensures screen.noCats <==> !s.isLoading && !Truthy(s.error) && s.cats == []
    ensures screen.noCats ==> screen.results == Some(Summary(s.likedCats, 0))
  {
    var shown := !s.isLoading && !Truthy(s.error);
    Screen(loading := s.isLoading,
           errorPanel := if Truthy(s.error) then s.error else None,
           noCats := shown && |s.cats| == 0,
           deck := if shown && !AllCatsProcessed(s) then Some(CardsFrom(s.cats, 0, s.currentIndex)) else None,
           results := if shown && AllCatsProcessed(s) then Some(Summary(s.likedCats, |s.cats|)) else None)
  }

  // ---------------------------------------------------------------------------
  // The state and its handlers

  class Session {
    var cats: seq<Cat>
    var currentIndex: nat
    var likedCats: seq<Cat>
    var isLoading: bool
    var error: Option<string>

    function Snapshot(): State
      reads this
    {
      State(cats, currentIndex, likedCats, isLoading, error)
    }

    /** What every handler keeps: nothing has been fetched while a load is in
        flight, and a failed load leaves the deck empty. */
    ghost predicate Valid()
      reads this
    {
      (isLoading ==> error == None && cats == []) &&
      (error.Some? ==> cats == [])
    }

    /** The cursor lies within the deck and every liked cat is a card the
        cursor has passed; kept as long as each swipe is the top card's. */
    ghost predicate LikedFromDeck()
      reads this
    {
      |likedCats| <= currentIndex <= |cats| &&
      forall c :: c in likedCats ==> c in cats[..currentIndex]
    }

    /** `cat` is the card the page draws for this state. */
    predicate IsTopCard(cat: Option<Cat>)
      reads this
    {
      !isLoading && currentIndex < |cats| && cat == Some(cats[currentIndex])
    }

    /** The initial `useState` values. */
    constructor ()
      ensures Valid() && LikedFromDeck()
      ensures cats == [] && currentIndex == 0 && likedCats == [] && isLoading && error == None
    {
      cats, currentIndex, likedCats := [], 0, [];
      isLoading, error := true, None;
    }

    /** `loadCats` up to its `await`: every field is reset, whatever the state. */
    method StartLoad()
      modifies this
      ensures Valid() && LikedFromDeck()
      ensures isLoading && error == None && cats == [] && currentIndex == 0 && likedCats == []
    {
      isLoading := true;
      error := None;
      cats := [];
      currentIndex := 0;
      likedCats := [];
    }

    /** `loadCats` after its `await`, for the load `StartLoad` began. */
    method FinishLoad(outcome: FetchOutcome)
      requires Valid() && isLoading
      modifies this
      ensures Valid() && !isLoading
      ensures currentIndex == old(currentIndex) && likedCats == old(likedCats)
      ensures outcome.Fetched? ==>
        error == None && |cats| == |outcome.images| &&
        forall k :: 0 <= k < |cats| ==>
          cats[k] == Cat(outcome.images[k].id, outcome.images[k].url)
      ensures outcome.Failed? ==> error == Some(outcome.message) && cats == []
      ensures old(LikedFromDeck()) ==> LikedFromDeck()
    {
      match outcome {
        case Fetched(images) =>
          cats := seq(|images|, k requires 0 <= k < |images| => Cat(images[k].id, images[k].url));
        case Failed(message) =>
          error := Some(message);
      }
      isLoading := false;
    }

    /** One uninterrupted run of `loadCats`: on mount, and for the Retry,
        Reload and restart buttons, which all call it. */
    method LoadCats(outcome: FetchOutcome)
      modifies this
      ensures Valid() && LikedFromDeck()
      ensures !isLoading && currentIndex == 0 && likedCats == []
      ensures outcome.Fetched? ==>
        error == None && |cats| == |outcome.images| &&
        forall k :: 0 <= k < |cats| ==>
          cats[k] == Cat(outcome.images[k].id, outcome.images[k].url)
      ensures outcome.Failed? ==> error == Some(outcome.message) && cats == []
    {
      StartLoad();
      FinishLoad(outcome);
    }

    /** `handleSwipe(direction, cat)`: a right swipe of a present cat likes it;
        every swipe then moves the cursor on by one. */
    method HandleSwipe(direction: Direction, cat: Option<Cat>)
      requires Valid()
      modifies this
      ensures Valid()
      ensures likedCats == if direction == Right && cat.Some? then old(likedCats) + [cat.value]
                           else old(likedCats)
      ensures currentIndex == old(currentIndex) + 1
      ensures cats == old(cats) && isLoading == old(isLoading) && error == old(error)
      ensures old(LikedFromDeck() && IsTopCard(cat)) ==> LikedFromDeck()
    {
      if direction == Right && cat.Some? {
        likedCats := likedCats + [cat.value];
      }
      currentIndex := currentIndex + 1;
    }
  }
}
