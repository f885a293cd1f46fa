/** `selectedDog`: which record, if any, the detail overlay shows. Clicking a
    card stores that record; the overlay's close button stores `null`. */
module Detail {
  import opened Breeds

  /** `setSelectedDog(breed)` from a card's click handler. */
  function Open(current: Option<Breed>, b: Breed): Option<Breed> {
    Some(b)
  }

  /** `setSelectedDog(null)` from the overlay's close button. */
  function Close(current: Option<Breed>): Option<Breed> {
    None
  }

  /** The two user actions that touch the overlay. */
  datatype Action = OpenCard(dog: Breed) | CloseButton

  function Apply(current: Option<Breed>, a: Action): Option<Breed> {
    match a
    case OpenCard(b) => Open(current, b)
    case CloseButton => Close(current)
  }

  /** The overlay after a sequence of actions, oldest first. */
  function Run(current: Option<Breed>, actions: seq<Action>): Option<Breed>
    decreases |actions|
  {
    if actions == [] then current
    else Run(Apply(current, actions[0]), actions[1..])
  }

  /** Opening shows the opened record whatever was shown before, so a
      second open replaces the first. */
  lemma OpenReplaces(current: Option<Breed>, a: Breed, b: Breed)
    ensures Open(current, b) == Some(b)
    ensures Open(Open(current, a), b) == Open(current, b)
  {
  }

  /** Closing hides the overlay; closing again changes nothing. */
  lemma CloseIdempotent(current: Option<Breed>)
    ensures Close(current) == None
    ensures Close(Close(current)) == Close(current)
  {
  }

  /** The overlay depends only on the latest action: the latest open's
      record, or nothing if the latest action was a close; an empty history
      leaves it as it was. */
  lemma {:induction false} RunIsLatestAction(current: Option<Breed>, actions: seq<Action>)
    ensures actions == [] ==> Run(current, actions) == current
    ensures actions != [] && actions[|actions| - 1].CloseButton? ==> Run(current, actions) == None
    ensures actions != [] && actions[|actions| - 1].OpenCard? ==> Run(current, actions) == Some(actions[|actions| - 1].dog)
    decreases |actions|
  {
    if actions != [] {
      RunIsLatestAction(Apply(current, actions[0]), actions[1..]);
    }
  }
}
