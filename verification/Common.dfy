/** Small notions that several models share. */
module Common {
  datatype Option<+T> = None | Some(value: T)

  /** Who has a lock. */
  datatype Owner = Free | By(t: nat)

  function One(b: bool): nat { if b then 1 else 0 }

  function Reversed<T>(s: seq<T>): (r: seq<T>)
    ensures |r| == |s| && forall i :: 0 <= i < |s| ==> r[i] == s[|s| - 1 - i]
  {
    seq(|s|, i requires 0 <= i < |s| => s[|s| - 1 - i])
  }

  lemma ReversedTwice<T>(s: seq<T>)
    ensures Reversed(Reversed(s)) == s
  {
  }

  lemma ReversedTail<T>(s: seq<T>, i: nat)
    requires 0 < i <= |s|
    ensures Reversed(s[i - 1..]) == Reversed(s[i..]) + [s[i - 1]]
  {
  }
}
