/**
 * The z-order bump a stone receives when it is pressed: the container's
 * `setChildIndex(child, getNumChildren() - 1)` call. The display engine
 * takes the child out of its current slot and puts it back at the last
 * index, which is drawn on top; when the child is not in the container
 * (or the container is empty) the call changes nothing.
 */
module ZOrder {

  /** Position of the first occurrence of `t` in `cs`. */
  function IndexOf<T(==)>(cs: seq<T>, t: T): (i: nat)
    requires t in cs
    ensures i < |cs| && cs[i] == t
    ensures forall j :: 0 <= j < i ==> cs[j] != t
  {
    if cs[0] == t then 0 else 1 + IndexOf(cs[1..], t)
  }

  /** `cs` with its first occurrence of `t` deleted (all of `cs` when there is none). */
  function Without<T(==)>(cs: seq<T>, t: T): (r: seq<T>)
    ensures t in cs ==> |r| == |cs| - 1
    ensures t !in cs ==> r == cs
  {
    if cs == [] then []
    else
      assert cs == [cs[0]] + cs[1..];
      if cs[0] == t then cs[1..]
      else [cs[0]] + Without(cs[1..], t)
  }

  /** No child occurs twice in a container. */
  predicate Distinct<T(==)>(cs: seq<T>)
  {
    forall i, j :: 0 <= i < j < |cs| ==> cs[i] != cs[j]
  }

  /** The children after `setChildIndex(t, |cs| - 1)`. */
  function BringToTop<T(==)>(cs: seq<T>, t: T): (r: seq<T>)
    ensures |r| == |cs|
    ensures t in cs ==> r[|r| - 1] == t
    ensures t !in cs ==> r == cs
  {
    if t in cs then
      var i := IndexOf(cs, t);
      cs[..i] + cs[i + 1..] + [t]
    else cs
  }

  /** The bump neither adds nor loses a child. */
  lemma BringToTopPermutes<T>(cs: seq<T>, t: T)
    ensures multiset(BringToTop(cs, t)) == multiset(cs)
  {
    if t in cs {
      var i := IndexOf(cs, t);
      assert cs == cs[..i] + [t] + cs[i + 1..];
    }
  }

  /** Slot k of `cs` with slot i spliced out. */
  lemma SpliceSlot<T>(cs: seq<T>, i: nat, k: nat)
    requires i < |cs| && k < |cs| - 1
    ensures (cs[..i] + cs[i + 1..])[k] == cs[if k < i then k else k + 1]
  {
  }

  /** Splicing out the first occurrence is the same as `Without`. */
  lemma {:induction false} SpliceIsWithout<T>(cs: seq<T>, t: T)
    requires t in cs
    ensures cs[..IndexOf(cs, t)] + cs[IndexOf(cs, t) + 1..] == Without(cs, t)
  {
    if cs[0] != t {
      var tail := cs[1..];
      SpliceIsWithout(tail, t);
      var i := IndexOf(tail, t);
      assert cs[..i + 1] == [cs[0]] + tail[..i];
      assert cs[i + 2..] == tail[i + 1..];
    }
  }

  /**
   * Pressing a child of the container moves it to the last index; every
   * other child keeps its relative order (the prefix is `cs` with `t`
   * deleted), and nothing is added or lost.
   */
  lemma BringToTopMovesLast<T>(cs: seq<T>, t: T)
    requires t in cs
    ensures BringToTop(cs, t) == Without(cs, t) + [t]
  {
    SpliceIsWithout(cs, t);
  }

  /** `Without` keeps the other elements in their original order: it is `cs` minus one slot. */
  lemma {:induction false} WithoutKeepsOrder<T>(cs: seq<T>, t: T, j: nat)
    requires t in cs && j < |cs| - 1
    ensures Without(cs, t)[j] == if j < IndexOf(cs, t) then cs[j] else cs[j + 1]
  {
    SpliceIsWithout(cs, t);
  }

  /** Bumping a child keeps the children distinct. */
  lemma BringToTopDistinct<T>(cs: seq<T>, t: T)
    requires Distinct(cs)
    ensures Distinct(BringToTop(cs, t))
  {
    if t in cs {
      var i := IndexOf(cs, t);
      var w := cs[..i] + cs[i + 1..];
      var r := w + [t];
      assert BringToTop(cs, t) == r;
      forall a, b | 0 <= a < b < |r|
        ensures r[a] != r[b]
      {
        var sa := if a < i then a else a + 1;
        SpliceSlot(cs, i, a);
        assert r[a] == cs[sa];
        if b == |w| {
          assert sa != i;
        } else {
          var sb := if b < i then b else b + 1;
          SpliceSlot(cs, i, b);
          assert r[b] == cs[sb] && sa < sb;
        }
      }
    }
  }

  /** A child already on top of a container without duplicates stays where it is. */
  lemma TopStaysTop<T>(r: seq<T>, t: T)
    requires Distinct(r) && |r| > 0 && r[|r| - 1] == t
    ensures BringToTop(r, t) == r
  {
    var n := |r| - 1;
    forall j | 0 <= j < n ensures r[j] != t {
      assert r[j] != r[n];
    }
    assert IndexOf(r, t) == n;
    assert r[..n] + r[n + 1..] + [t] == r;
  }

  /** A second press of the same child, with no other change in between, changes nothing. */
  lemma BringToTopIdempotent<T>(cs: seq<T>, t: T)
    requires Distinct(cs)
    ensures BringToTop(BringToTop(cs, t), t) == BringToTop(cs, t)
  {
    if t in cs {
      BringToTopDistinct(cs, t);
      TopStaysTop(BringToTop(cs, t), t);
    }
  }
}
