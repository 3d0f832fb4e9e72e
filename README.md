# Paws and Preferences: a Dafny model of the swipe deck

Paws and Preferences is a single-page "swipe to like or pass" app over cat
pictures. This project models the three pieces of logic beneath its views:

- **the session** (`App`, from `src/App.jsx`): the five state hooks (`cats`,
  `currentIndex`, `likedCats`, `isLoading`, `error`) as the fields of the
  class `Session`, whose methods are the handlers that change them: the two
  halves of `loadCats` on either side of its `await`, the whole `loadCats`
  (run on mount and by the Retry, Reload and restart buttons), and
  `handleSwipe`. `Render` is the render as a pure function of a `State`
  snapshot: it says which of the loading notice, the error panel, the
  "No cats found" panel, the deck and the result screen appear, and which
  card the deck draws.
- **the card's drag handler** (`CatCard`, from `src/components/CatCard.jsx`):
  `OnDrag` maps one gesture sample to a spring command. The command either
  ignores the sample, follows the pointer, snaps back to rest, or flies off
  to the side and reports a `Swipe` when that exit animation rests. `Replay`
  runs the handler over a whole drag.
- **the image source** (`Cataas`, from `src/api/cataas.js`): `FetchCats` is
  the `for` loop that builds `{id, url}` records. It keeps the ids met so far
  in a set and retries a slot (`i--`) when an id repeats. It is proved equal
  to the specification function `Collect`.

`Scenario.ThreeCatSession` puts the card and the session together. It follows
a three-cat session with four released drags, one of them short of the
threshold, through to the result screen. `Scenario.RetriedSlot` follows
`FetchCats(2, …)` over three draws, the first two with the same id: the
repeat costs a draw, not a slot, and the list still holds two records.

Numbers are Dafny `real`s and `int`s, i.e. mathematical numbers. The clock
(`Date.now()`), the random id suffix (`Math.random()`), the window width
(`window.innerWidth`) and the outcome of the HTTP request are parameters.

Where a reader might expect otherwise, the model follows the code:
- the exit direction is the sign of the release sample's `xDir`. It is not
  the dominant motion of the drag. When `xDir` is 0, the card returns to
  `x = 0` (the exit target is `(200 + innerWidth)·0`) and is still reported
  as swiped `Right`.
- a finished session is `currentIndex >= cats.length`, not equality.
- a successful empty load is not its own state. The "No cats found" panel
  and the result screen both render.
- the id retry in `fetchCats` has no bound. The model bounds it only by the
  draws it is given.

## Model

| member | source | states |
|---|---|---|
| `App.Session.constructor` | src/App.jsx:18-22 | The initial hook values: empty deck, cursor 0, nothing liked, loading, no error. |
| `App.Session.StartLoad` | src/App.jsx:24-29 | Starting a load resets all five fields (loading, no error, empty deck, cursor 0, nothing liked), whatever the previous state. |
| `App.Session.FinishLoad` | src/App.jsx:30-38 | On success the deck is the fetched list mapped to `{id, url}`, with the same length and order, and there is no error. On failure the error holds the message and the deck stays empty. Either way loading ends, the cursor and the liked list are unchanged, and the session invariants hold. |
| `App.Session.LoadCats` | src/App.jsx:24-56 | A whole load, as run on mount and by restart (also by the Retry and Reload buttons at lines 77 and 89), ends with the cursor at 0 and nothing liked. The deck or the error follows the outcome, whatever the prior state. |
| `App.Session.HandleSwipe` | src/App.jsx:45-52 | A right swipe with a cat present appends exactly that cat to the liked list, and any other swipe leaves the list unchanged. Every swipe moves the cursor on by exactly 1, and nothing else changes. Swiping the drawn card keeps every liked cat among the passed cards and the cursor within the deck. |
| `App.AllCatsProcessed` | src/App.jsx:58 | The session counts as processed iff it is loaded and the deck, mapped over, draws no card at all. |
| `App.CardsFrom` | src/App.jsx:99-112 | Mapping over the deck draws exactly one card, the one at `currentIndex`, when the cursor is inside the deck, and no card otherwise. |
| `App.Render` | src/App.jsx:58-122 | The loading notice shows iff `isLoading` (line 67). The deck renders iff the state is loaded, has no (truthy) error and the cursor is before the end, and then it draws exactly `cats[currentIndex]`. The result screen renders iff loaded, no error and the cursor is at or past the end, and it gets the liked list and the deck size. Deck and results never render together. An error panel excludes every panel below it, and loading excludes the deck, the empty panel and the results. An empty loaded deck shows both "No cats found" and the result screen. |
| `CatCard.IsSwiped` | src/components/CatCard.jsx:19 | moving more than 200 px always commits, 100 px or less never commits, and in between the drag commits iff the speed exceeds 0.5. |
| `CatCard.DirectionOf` | src/components/CatCard.jsx:20 | The direction is `Left` iff `xDir` is negative, so a zero `xDir` gives `Right`. |
| `CatCard.OnDrag` | src/components/CatCard.jsx:8-38 | A card that is not on top is ignored. A decision is scheduled iff the top card is released past the threshold, and it names this card and the direction `Left` iff `xDir < 0` (so `Right` at 0). While the pointer is down the card follows it at once (`x = mx`, `rot = mx/100`, scale 1.05), even past the threshold. A release short of the threshold returns to the values `useSpring` starts from (lines 8-11: `x = 0`, `rot = 0`, scale 1). The exit is animated at scale 1, and its `x` and `rot` have the sign of `xDir`. |
| `CatCard.DraggingReportsNothing` | src/components/CatCard.jsx:22-37 | Samples taken while the pointer is down never report a decision. |
| `CatCard.IgnoredThroughout` | src/components/CatCard.jsx:17 | A card below the top one keeps its spring and reports nothing, whatever samples it is sent. |
| `CatCard.OneDecisionPerDrag` | src/components/CatCard.jsx:8-38 | A whole drag (moves, then the release) reports at most one decision. It reports exactly one, for this card and in the release's direction, and rests at `((200 + innerWidth)·xDir, 20·xDir, 1)`, when the release passes the threshold. Otherwise it reports none and rests at the spring's starting values (0, 0, 1). |
| `Cataas.FetchCats` | src/api/cataas.js:13-43 | The loop keeps `fetchedIds` equal to the set of ids in `cats` and the length of `cats` equal to `i`. It returns `Collect(count, draws, [])`: at most `max(count, 0)` records, with pairwise distinct ids, where record `k` is the entry built from some draw for slot `k`. A list shorter than `count` holds the id of every draw, and once the draws hold `count` distinct ids the list has exactly `max(count, 0)` records. |
| `Cataas.Attempt` | src/api/cataas.js:24-31 | One pass keeps the records built so far and adds at most one. Afterwards the id set is the old one plus this pass's id. The list grows iff the id is new, and distinct ids stay distinct. |
| `Cataas.Collect` | src/api/cataas.js:17-31 | Later passes never change or remove a record already built, and never build more than `count` records. Distinct ids stay distinct, because a repeated id appends nothing. |
| `Cataas.CollectFullUnlessExhausted` | src/api/cataas.js:17-31 | The `i--` retry never gives up a slot. If the list stops short of `count`, the id of every draw is among the ids built, so the draws ran out before `count` distinct ids were met. |
| `Cataas.CollectComplete` | src/api/cataas.js:17-31 | Once the draws hold at least `count` distinct ids, repeats included, the list has exactly `max(count, 0)` records. |
| `Cataas.CollectEntries` | src/api/cataas.js:20-27 | Every record of slot `k` has the id of one draw and the url of that draw's clock plus `k`. |
| `Cataas.ImageUrlLayout` | src/api/cataas.js:3-20 | A url is the base url `https://cataas.com/cat`, then `?width=400&height=400&_=`, then decimal digits that read back as the clock plus the slot number. |
| `Cataas.CatIdLayout` | src/api/cataas.js:24 | An id is `cat-`, the decimal digits of the id clock (which read back as the clock), `-`, then the random suffix. |
| `Cataas.CatIdInjective` | src/api/cataas.js:24-26 | Two draws give the same id iff they have the same id clock and the same suffix, so the duplicate check fires exactly on such a repeat. |
| `Cataas.Decimal` | src/api/cataas.js:20 | The rendering of `Date.now() + i` in the url is a non-empty string of decimal digits without a leading zero. |
| `Cataas.DecimalRoundTrip` | src/api/cataas.js:20 | Reading back the rendered digits gives the number. |
| `Cataas.DecimalInjective` | src/api/cataas.js:24 | Different clock values render as different digit strings. |

## Left out

- The HTTP request `fetchTheCatAPI` and `response.json()` (src/App.jsx:6-15) are network I/O. `FinishLoad` takes their outcome as an input: the decoded list, or the message of the thrown error. A response that is not a list makes `data.map` throw, which is one more `Failed` outcome.
- `Cataas.FetchCats` is not called by the app, which uses its own request. It is modelled on its own.
- App.Session.HandleSwipe: the cursor increment runs 200 ms after the append (a `setTimeout`). The model does the two atomically, so a load started inside that window, which would see its reset cursor bumped to 1, is not modelled.
- App.Session.FinishLoad: requires the load it finishes to be the one in flight. Two overlapping loads are not modelled, nor is a stale result arriving after a newer reset (e.g. the mount effect run twice).
- The spring's physics, its `config` (friction, tension) and easing are not modelled. Only the target of each `api.start` call, its `immediate` flag and its `onRest` decision are. A command is taken to reach its target before the next sample arrives. An exit interrupted by a new drag, whose `onRest` would still fire, is not modelled.
- The heart and cross opacity interpolation (src/components/CatCard.jsx:77, 85) is display only.
- The gesture library's options `filterTaps` and `preventDefault`, and how it computes `movement`, `direction` and `velocity`: the samples are inputs.
- `Math.random().toString(36).substring(2, 10)` is an arbitrary suffix string. `Date.now()` is a `nat` per read, and the model keeps the two reads of one pass apart. JavaScript's exponent notation for numbers of 10^21 and above is not modelled: `Decimal` renders plain digits.
- Cataas.FetchCats: when the draws run out before `count` distinct ids have been met, it returns the shorter list, where `fetchCats` would go on looping. It is proved that this happens only then: a short list holds the id of every draw. `count` is an integer and is always passed: the default `count = 10` of `fetchCats` (src/api/cataas.js:13) is not modelled, and neither is a fractional `count`.
- The `catch` branch of `fetchCats` (src/api/cataas.js:33-36) cannot be reached, because nothing in its `try` throws. The 100 ms pause between passes and the `console.error` logging are timing and logging only.
- `src/components/ResultScreen.jsx` only displays the liked list and the total it is given (`Summary`). `tailwind.config.js` and all class names are styling.
