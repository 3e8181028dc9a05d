/** Values shared by every screen: JavaScript's "maybe undefined", a thrown
    error carrying its message, and the alert dialog a screen shows. */
module Outcomes {

  /** A value that may be `undefined` or `null` in the source. */
  datatype Option<T> = None | Some(value: T)

  /** The result of a step that either returns a value or throws an `Error`
      whose `message` is kept. */
  datatype Result<T> = Ok(value: T) | Err(message: string)

  /** `Alert.alert(title, message)`. */
  datatype Alert = Alert(title: string, message: string)

  /** JavaScript's `a || b` on strings: the empty string is falsy. */
  function OrElse(a: string, b: string): (r: string)
    ensures a != "" ==> r == a
    ensures a == "" ==> r == b
  {
    if a != "" then a else b
  }

  /** `x || fallback` where `x` may also be undefined. */
  function OptionOrElse(x: Option<string>, fallback: string): (r: string)
    ensures x.Some? && x.value != "" ==> r == x.value
    ensures (x.None? || x.value == "") ==> r == fallback
  {
    match x
    case Some(v) => OrElse(v, fallback)
    case None => fallback
  }
}
