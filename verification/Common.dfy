/** Types shared by the models. */
module Common {

  /** A C `unsigned char`. */
  type Byte = x: int | 0 <= x < 256

  datatype Option<+T> = None | Some(value: T)

  /** Overwriting an element again. */
  lemma SetAgain<T>(s: seq<T>, i: nat, a: T, b: T)
    requires i < |s|
    ensures s[i := a][i := b] == s[i := b]
    ensures s[i] == b ==> s[i := b] == s
  {
  }

}
