// Small shared vocabulary: an optional value, as JavaScript's `undefined`
// or a missing request field.
module Common {

  datatype Option<+T> = None | Some(value: T) {
    function GetOr(default: T): T {
      match this
      case Some(v) => v
      case None => default
    }
  }
}
