// Small helpers shared by the model: an optional value and the rest of a
// stream after some of it has been consumed.
module Common {

  datatype Option<+T> = None | Some(value: T)

  /** What remains of `s` after `n` reads; reading past the end consumes nothing. */
  function Drop<T>(s: seq<T>, n: nat): (rest: seq<T>)
    ensures n <= |s| ==> rest == s[n..]
    ensures n >= |s| ==> rest == []
  {
    if n <= |s| then s[n..] else []
  }

  lemma DropDrop<T>(s: seq<T>, a: nat, b: nat)
    ensures Drop(Drop(s, a), b) == Drop(s, a + b)
  {
  }
}
