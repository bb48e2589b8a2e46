/** The Python list operations the services rely on, for every integer bound. */
module PyList {

  function Min(a: int, b: int): int { if a <= b then a else b }

  function Max(a: int, b: int): int { if a <= b then b else a }

  /** `s[:k]`: a negative k counts from the end. */
  function Upto<T>(s: seq<T>, k: int): seq<T> {
    if k >= 0 then s[..Min(k, |s|)] else s[..Max(0, |s| + k)]
  }

  /** `s[-k:]`: the last k elements, except that `s[-0:]` is all of s. */
  function LastN<T>(s: seq<T>, k: int): seq<T> {
    if k > 0 then s[Max(0, |s| - k)..] else s[Min(-k, |s|)..]
  }
}
