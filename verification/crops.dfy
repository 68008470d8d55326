/** The two crop kinds and their fixed attributes (`CropType` in main.rs). */
module Crops {

  datatype CropType = Potato | Onion

  /** Seconds a freshly planted crop needs to grow. */
  function GrowDuration(c: CropType): (d: real)
    ensures d > 0.0
    ensures c == Potato ==> d == 5.0
    ensures c == Onion ==> d == 8.0
  {
    match c
    case Potato => 5.0
    case Onion => 8.0
  }

  /** Display name of a crop. */
  function CropName(c: CropType): (r: string)
    ensures |r| > 0 && ' ' !in r
  {
    match c
    case Potato => "Potato"
    case Onion => "Onion"
  }
}
