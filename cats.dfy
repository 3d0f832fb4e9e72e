/** The values shared by the deck, the card and the image source. */
module Cats {
  /** A card of the deck: the `{id, url}` record the app keeps for each image. */
  datatype Cat = Cat(id: string, url: string)

  /** The two swipe directions a card reports (`'left'` and `'right'`). */
  datatype Direction = Left | Right

  /** The decision a card hands to the app: `onSwipe(direction, cat)`. */
  datatype Swipe = Swipe(direction: Direction, cat: Cat)
}
