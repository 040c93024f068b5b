/** Small facts about sequences that several modules need. */
module Sequences {

  function Elements<T>(s: seq<T>): set<T> {
    set x <- s
  }

  lemma Regroup<T>(a: seq<T>, b: seq<T>, c: seq<T>)
    ensures a + b + c == a + (b + c)
  {
  }
}
