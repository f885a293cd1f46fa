/** The records the dog API delivers, reduced to what the catalogue view uses.
    A JavaScript attribute that may be `undefined`, `null` or a string is an
    `Option<string>`: `None` stands for both `undefined` and `null`. */
module Breeds {

  datatype Option<+T> = None | Some(value: T)

  /** One breed as delivered by the API. `breedGroup` is the JSON field
      `breed_group`, `imageId` is `reference_image_id`, `lifeSpan` is
      `life_span`. The last three are only displayed, never inspected. */
  datatype Breed = Breed(
    id: int,
    name: string,
    breedGroup: Option<string>,
    origin: Option<string>,
    imageId: Option<string>,
    lifeSpan: Option<string>,
    temperament: Option<string>)
  {
    /** The attribute a facet reads (`b.breed_group` or `b.origin`). */
    function Get(f: Facet): Option<string> {
      match f
      case BreedGroup => breedGroup
      case Origin => origin
    }
  }

  /** The two attributes the catalogue can be narrowed by. */
  datatype Facet = BreedGroup | Origin

  /** JavaScript truthiness of an optional string: `undefined`, `null` and
      the empty string are falsy, every other string is truthy. */
  predicate Truthy(v: Option<string>) {
    v.Some? && v.value != ""
  }
}
