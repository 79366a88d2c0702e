/** Small helpers shared by the simulation engine's modules. */
module Common {

  /** A value that may be absent: a dictionary key that is not set, a call that raised. */
  datatype Option<T> = None | Some(value: T) {
    function GetOr(default: T): T {
      match this
      case Some(v) => v
      case None => default
    }
  }

  /** Concatenation of a sequence of sequences, front to back. */
  function Concat<T>(ss: seq<seq<T>>): seq<T> {
    if ss == [] then [] else ss[0] + Concat(ss[1..])
  }
}
