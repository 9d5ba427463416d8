/** Collectors.joining(sep): the items in order with `sep` between
    consecutive ones, "" for no items. Characterised independently of the
    recursion by where each item and each separator lies in the result. */
module Joining {

  function Join(items: seq<string>, sep: string): string
    decreases |items|
  {
    if |items| == 0 then ""
    else if |items| == 1 then items[0]
    else items[0] + sep + Join(items[1..], sep)
  }

  /** The index at which item `k` starts in the joined string. */
  function Offset(items: seq<string>, sep: string, k: nat): nat
    requires k <= |items|
    decreases k
  {
    if k == 0 then 0 else |items[0]| + |sep| + Offset(items[1..], sep, k - 1)
  }

  /** The joined string is exactly as long as its items and the separators
      between them. */
  lemma {:induction false} JoinLength(items: seq<string>, sep: string)
    requires |items| > 0
    ensures |Join(items, sep)| + |sep| == Offset(items, sep, |items|)
    decreases |items|
  {
    if |items| > 1 {
      JoinLength(items[1..], sep);
    }
  }

  /** A slice of `a + b` that lies beyond `a` is a slice of `b`. */
  lemma SliceBeyond(a: string, b: string, lo: nat, hi: nat)
    requires |a| <= lo <= hi <= |a| + |b|
    ensures (a + b)[lo..hi] == b[lo - |a|..hi - |a|]
  {
    assert forall t :: lo <= t < hi ==> (a + b)[t] == b[t - |a|];
  }

  /** Item `k` lies at its offset. */
  lemma {:induction false} JoinItemAt(items: seq<string>, sep: string, k: nat)
    requires k < |items|
    ensures Offset(items, sep, k) + |items[k]| <= |Join(items, sep)|
    ensures Join(items, sep)[Offset(items, sep, k)..Offset(items, sep, k) + |items[k]|] == items[k]
    decreases |items|
  {
    var j := Join(items, sep);
    if |items| == 1 {
      assert j == items[0];
    } else {
      var rest := Join(items[1..], sep);
      var head := |items[0]| + |sep|;
      assert j == (items[0] + sep) + rest;
      if k == 0 {
        assert j[..|items[0]|] == items[0];
      } else {
        JoinItemAt(items[1..], sep, k - 1);
        var o := Offset(items[1..], sep, k - 1);
        assert items[1..][k - 1] == items[k];
        SliceBeyond(items[0] + sep, rest, head + o, head + o + |items[k]|);
      }
    }
  }

  /** The separator lies right before every item but the first. */
  lemma {:induction false} JoinSeparatorBefore(items: seq<string>, sep: string, k: nat)
    requires 0 < k < |items|
    ensures |sep| <= Offset(items, sep, k) <= |Join(items, sep)|
    ensures Join(items, sep)[Offset(items, sep, k) - |sep|..Offset(items, sep, k)] == sep
    decreases |items|
  {
    var rest := Join(items[1..], sep);
    var head := |items[0]| + |sep|;
    assert Join(items, sep) == (items[0] + sep) + rest;
    if k == 1 {
      SliceBeyond(items[0], sep + rest, |items[0]|, head);
      assert (items[0] + sep) + rest == items[0] + (sep + rest);
    } else {
      JoinSeparatorBefore(items[1..], sep, k - 1);
      var o := Offset(items[1..], sep, k - 1);
      SliceBeyond(items[0] + sep, rest, head + o - |sep|, head + o);
    }
  }
}
