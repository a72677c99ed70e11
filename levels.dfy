/** The four-valued scale `'low' | 'medium' | 'high' | 'critical'` that both
    the cluster severity and the intensity risk level return. */
module Levels {

  datatype Level = Low | Medium | High | Critical

  /** Position of a level on the scale, lowest first. */
  function Rank(l: Level): nat
  {
    match l
    case Low => 0
    case Medium => 1
    case High => 2
    case Critical => 3
  }
}
