/** The records the diary keeps: entries of hair-dye sessions and their mixing formulas. */
module Diary {

  import opened Optional

  /** A `File` the browser hands over for a photo slot; the app never looks inside it. */
  datatype Photo = Photo(handle: nat)

  /** A JavaScript number as `parseFloat` produces it: `NaN` or a finite value. */
  datatype Float = NaN | Finite(value: real)

  /** The number with the fallback 0: `NaN` and zero are falsy, so both become 0. */
  function OrZero(x: Float): real
  {
    match x
    case NaN => 0.0
    case Finite(v) => v
  }

  /** One line of a mix: a shade, its ratio in parts and its weight in grams. */
  datatype Formula = Formula(shade: string, parts: int, color: real)

  /** One diary entry. `developer` is absent (`null`) or a number, possibly `NaN`. */
  datatype Entry = Entry(
    id: string,
    date: string,
    name: string,
    formulas: seq<Formula>,
    developer: Option<Float>,
    processingTime: int,
    notes: string,
    photo: Option<Photo>,
    beforePhoto: Option<Photo>,
    afterPhoto: Option<Photo>)
}
