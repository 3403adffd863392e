// Datatypes shared by all modules of the model.
module Basics {
  datatype Option<+T> = None | Some(value: T)

  datatype Result<+T, +E> = Ok(value: T) | Err(error: E)

  /** Text is a sequence of runes: the model speaks of valid UTF-8 only. */
  type Text = string

  lemma Associate<T>(x: seq<T>, y: seq<T>, z: seq<T>)
    ensures (x + y) + z == x + (y + z)
  {
  }

  lemma TakeAndDrop<T>(s: seq<T>, k: nat)
    requires k <= |s|
    ensures s[..k] + s[k..] == s
  {
  }

  lemma NoPrefix<T>(x: seq<T>, s: seq<T>, k: nat)
    requires k < |x| && k < |s| && x[k] != s[k]
    ensures !(x <= s)
  {
  }
}
