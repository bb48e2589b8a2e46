/** Shapes used throughout: optional values, results and a few facts about collections. */
module Basics {

  datatype Option<+T> = None | Some(value: T)

  /** The source's exceptions: a value, or the error raised. */
  datatype Result<+T, +E> = Ok(value: T) | Err(error: E)

  lemma Regroup<T>(first: seq<T>, a: seq<T>, b: seq<T>)
    ensures first + (a + b) == (first + a) + b
  {}

  lemma TailOfConcat<T>(a: seq<T>, b: seq<T>)
    requires a != []
    ensures (a + b)[0] == a[0] && (a + b)[1..] == a[1..] + b
  {}

  lemma Overwrite<K, V>(m: map<K, V>, k: K, first: V, second: V)
    ensures m[k := first][k := second] == m[k := second]
  {}

  lemma {:induction false} SubsetSize<T>(a: set<T>, b: set<T>)
    requires a <= b
    ensures |a| <= |b|
  {
    if a != {} {
      var x :| x in a;
      SubsetSize(a - {x}, b - {x});
    }
  }
}
