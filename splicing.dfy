/** The array edits the settings tab performs, on values: JavaScript's
    `splice` and the drag-and-drop move built from two of them. */
module Splicing {

  function Min(a: int, b: int): int {
    if a <= b then a else b
  }

  /** `s.splice(start, deleteCount, ...items)` for a start inside the array:
      the array afterwards and the array of removed items. `deleteCount` is
      cut down to what is left after `start`, as JavaScript does. */
  function Splice<T>(s: seq<T>, start: nat, deleteCount: nat, items: seq<T>): (r: (seq<T>, seq<T>))
    requires start <= |s|
    ensures |r.1| == Min(deleteCount, |s| - start)
    ensures |r.0| == |s| - |r.1| + |items|
    ensures multiset(r.0) + multiset(r.1) == multiset(s) + multiset(items)
  {
    var end := start + Min(deleteCount, |s| - start);
    assert s == s[..start] + s[start..end] + s[end..];
    (s[..start] + items + s[end..], s[start..end])
  }

  /** `s` with the item at `i` taken out. */
  function Without<T>(s: seq<T>, i: nat): seq<T>
    requires i < |s|
  {
    s[..i] + s[i + 1..]
  }

  /** Reference definition of a move: the item at `from` ends at `to`, the
      items between the two positions shift one place towards `from`, and the
      items outside that range stay where they are. */
  function Moved<T>(s: seq<T>, from: nat, to: nat): (r: seq<T>)
    requires from < |s| && to < |s|
    ensures |r| == |s|
  {
    seq(|s|, k requires 0 <= k < |s| =>
      if k == to then s[from]
      else if from < to && from <= k < to then s[k + 1]
      else if to < from && to < k <= from then s[k - 1]
      else s[k])
  }

  /** `splice(i, 1)` takes exactly the item at `i` out and hands it back. */
  lemma SpliceRemovesOne<T>(s: seq<T>, i: nat)
    requires i < |s|
    ensures Splice(s, i, 1, []).0 == Without(s, i)
    ensures Splice(s, i, 1, []).1 == [s[i]]
  {
  }

  /** `splice(i, 0, x)` puts `x` at position `i` and shifts the rest up. */
  lemma SpliceInsertsOne<T>(s: seq<T>, i: nat, x: T)
    requires i <= |s|
    ensures var r := Splice(s, i, 0, [x]).0;
      |r| == |s| + 1 && r[i] == x && Without(r, i) == s
  {
    var r := Splice(s, i, 0, [x]).0;
    assert r == s[..i] + [x] + s[i..];
    assert Without(r, i) == s[..i] + s[i..];
    assert s[..i] + s[i..] == s;
  }

  /** The two splices of the drop handler compute the reference move. */
  lemma MoveBySplice<T>(s: seq<T>, from: nat, to: nat)
    requires from < |s| && to < |s|
    ensures var removed := Splice(s, from, 1, []);
      Splice(removed.0, to, 0, [removed.1[0]]).0 == Moved(s, from, to)
  {
    var removed := Splice(s, from, 1, []);
    SpliceRemovesOne(s, from);
    var rest := removed.0;
    var r := Splice(rest, to, 0, [s[from]]).0;
    assert r == rest[..to] + [s[from]] + rest[to..];
    forall k | 0 <= k < |s| ensures r[k] == Moved(s, from, to)[k] {
      if k < to {
        assert r[k] == rest[k];
      } else if k > to {
        assert r[k] == rest[k - 1];
      }
    }
  }

  /** A move is a permutation; the moved item lands on `to`; with it taken
      back out, the other items are in their old order; a move onto itself
      changes nothing. */
  lemma MovedProperties<T>(s: seq<T>, from: nat, to: nat)
    requires from < |s| && to < |s|
    ensures multiset(Moved(s, from, to)) == multiset(s)
    ensures Moved(s, from, to)[to] == s[from]
    ensures Without(Moved(s, from, to), to) == Without(s, from)
    ensures from == to ==> Moved(s, from, to) == s
  {
    var removed := Splice(s, from, 1, []);
    SpliceRemovesOne(s, from);
    MoveBySplice(s, from, to);
    SpliceInsertsOne(removed.0, to, s[from]);
    assert multiset(removed.0) + multiset{s[from]} == multiset(s);
  }
}
