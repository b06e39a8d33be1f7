/** A value that may be absent, and the scan for the first present entry of
    a sequence. The model uses `None` where the source returns JavaScript's
    `null`. */
module Wrappers {

  datatype Option<+T> = None | Some(value: T)

  /** Where a loop that stops at the first present entry of `xs`, starting
      at `from`, stops: that entry's position, or `|xs|` when there is none. */
  function FirstSomeIndex<T>(xs: seq<Option<T>>, from: nat): (k: nat)
    requires from <= |xs|
    ensures from <= k <= |xs|
    ensures forall j :: from <= j < k ==> xs[j].None?
    ensures k < |xs| ==> xs[k].Some?
    decreases |xs| - from
  {
    if from == |xs| || xs[from].Some? then from else FirstSomeIndex(xs, from + 1)
  }

  /** The first present entry of `xs`: what a loop returns that stops
      at the first entry yielding a result. */
  function FirstSome<T>(xs: seq<Option<T>>): (r: Option<T>) {
    var k := FirstSomeIndex(xs, 0);
    if k < |xs| then xs[k] else None
  }

  /** The first present entry is the one every entry before it leaves
      absent, and there is none when all are absent. */
  lemma FirstSomeIsFirst<T>(xs: seq<Option<T>>, i: nat)
    requires i <= |xs|
    requires forall j :: 0 <= j < i ==> xs[j].None?
    requires i < |xs| ==> xs[i].Some?
    ensures FirstSomeIndex(xs, 0) == i
    ensures FirstSome(xs) == (if i < |xs| then xs[i] else None)
  {
  }

  /** When there is no first present entry, every entry is absent. */
  lemma FirstSomeNone<T>(xs: seq<Option<T>>)
    requires FirstSome(xs).None?
    ensures forall j :: 0 <= j < |xs| ==> xs[j].None?
  {
    assert FirstSomeIndex(xs, 0) == |xs|;
  }
}
