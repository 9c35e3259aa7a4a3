/** An absent value, for what the sources write as undefined. */
module Options {
  datatype Option<+T> = None | Some(value: T) {
    /** This value, or the other if there is none. */
    function Else(other: Option<T>): Option<T> {
      if Some? then this else other
    }
  }
}
