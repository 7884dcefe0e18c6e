/** Python's `xs[-n:]` slice, the "last n entries" window every script draws. */
module Windows {

  /** `s[-n:]` for `n > 0`: the whole list when it is short, else its last `n` entries. */
  function LastN<T>(s: seq<T>, n: nat): (r: seq<T>)
    requires n > 0
    ensures |r| == if |s| < n then |s| else n
    ensures r == s[|s| - |r|..]
  {
    if |s| <= n then s else s[|s| - n..]
  }

  /**
   * Appending one element and then cutting to the last `n` keeps exactly the
   * last `n` of the whole history: the window of an append-then-truncate
   * buffer depends only on the full sequence of appended values.
   */
  lemma WindowOfWindow<T>(history: seq<T>, x: T, n: nat)
    requires n > 0
    ensures LastN(LastN(history, n) + [x], n) == LastN(history + [x], n)
  {
    var w := LastN(history, n);
    var h := history + [x];
    assert w + [x] == h[|h| - |w| - 1..];
  }

  /** Dropping the first element of a list one longer than `n` is the same as taking its last `n`. */
  lemma DropFirstIsWindow<T>(s: seq<T>, n: nat)
    requires n > 0 && |s| <= n + 1
    ensures (if |s| > n then s[1..] else s) == LastN(s, n)
  {
  }
}
