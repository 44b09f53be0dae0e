/**
 * The sort that puts the entries of a k-CAS descriptor in ascending order of address.
 */
module KcasSort {
  import opened KcasModel

  predicate Sorted(s: seq<Entry>) {
    forall p, q :: 0 <= p < q < |s| ==> s[p].addr <= s[q].addr
  }

  /** The last entries from `m` on are in order and no address before them is higher. */
  predicate Settled(s: seq<Entry>, m: int) {
    forall p, q :: 0 <= p < q < |s| && m <= q ==> s[p].addr <= s[q].addr
  }

  /** No address up to `j` is higher than the one at `j`. */
  predicate Highest(s: seq<Entry>, j: int) {
    0 <= j < |s| && forall p :: 0 <= p < j ==> s[p].addr <= s[j].addr
  }

  predicate InOrder(s: seq<Entry>, j: int) {
    j < |s| && forall p :: 0 <= p < j ==> s[p].addr <= s[p + 1].addr
  }

  function Swapped(s: seq<Entry>, j: nat): seq<Entry>
    requires j + 1 < |s|
  {
    s[j := s[j + 1]][j + 1 := s[j]]
  }

  lemma SwapKeeps(s: seq<Entry>, j: nat, m: int)
    requires j + 1 < m <= |s| && Settled(s, m)
    ensures Settled(Swapped(s, j), m) && multiset(Swapped(s, j)) == multiset(s)
  {}

  lemma {:induction false} InOrderSorts(s: seq<Entry>, p: nat, q: nat)
    requires InOrder(s, q) && p <= q
    ensures s[p].addr <= s[q].addr
  {
    if p < q { InOrderSorts(s, p, q - 1); }
  }

  lemma Bubble(s: seq<Entry>, j: nat, swapped: bool)
    requires j + 1 < |s| && Highest(s, j) && (!swapped ==> InOrder(s, j))
    ensures s[j].addr > s[j + 1].addr ==> Highest(Swapped(s, j), j + 1)
    ensures s[j].addr <= s[j + 1].addr ==> Highest(s, j + 1) && (!swapped ==> InOrder(s, j + 1))
  {}

  /** One pass carries the highest of the first `m` addresses to their end. */
  method Pass(entries: array<Entry>, m: nat, swapped: bool) returns (swapped1: bool)
    requires 0 < m <= entries.Length && Settled(entries[..], m)
    modifies entries
    ensures Settled(entries[..], m - 1) && multiset(entries[..]) == multiset(old(entries[..]))
    ensures (swapped ==> swapped1) && (!swapped1 ==> InOrder(entries[..], m - 1))
  {
    swapped1 := swapped;
    var j := 0;
    hide Settled;
    while j < m - 1
      invariant 0 <= j <= m - 1 && Settled(entries[..], m) && multiset(entries[..]) == multiset(old(entries[..]))
      invariant Highest(entries[..], j) && (!swapped1 ==> InOrder(entries[..], j)) && (swapped ==> swapped1)
    {
      ghost var s := entries[..];
      Bubble(s, j, swapped1);
      hide Highest, InOrder;
      if entries[j].addr > entries[j + 1].addr {
        SwapKeeps(s, j, m);
        var temp := entries[j];
        entries[j] := entries[j + 1];
        entries[j + 1] := temp;
        swapped1 := true;
        assert entries[..] == Swapped(s, j);
      }
      j := j + 1;
    }
    OneMore(entries[..], m);
  }

  lemma OneMore(s: seq<Entry>, m: nat)
    requires 0 < m <= |s| && Settled(s, m) && Highest(s, m - 1)
    ensures Settled(s, m - 1)
  {}

  /** kcasdesc_sort. The flag is never reset, so only a first pass without a swap ends the sort early. */
  method Sort(entries: array<Entry>)
    modifies entries
    ensures Sorted(entries[..]) && multiset(entries[..]) == multiset(old(entries[..]))
  {
    var n, swapped, i := entries.Length, false, 0;
    while i < n
      invariant 0 <= i <= n && Settled(entries[..], n - i) && multiset(entries[..]) == multiset(old(entries[..]))
      invariant i > 0 ==> swapped
    {
      swapped := Pass(entries, n - i, swapped);
      if !swapped {
        forall p, q | 0 <= p < q < n ensures entries[p].addr <= entries[q].addr { InOrderSorts(entries[..], p, q); }
        break;
      }
      i := i + 1;
    }
  }

  predicate Distinct(s: seq<Entry>) {
    forall p, q :: 0 <= p < q < |s| ==> s[p].addr != s[q].addr
  }

  /** The sort leaves entries strictly ascending, which is what execute relies on, exactly when they are for different addresses. */
  lemma DistinctIsStrict(s: seq<Entry>, was: seq<Entry>)
    requires Sorted(s) && multiset(s) == multiset(was)
    ensures Ascending(s) <==> Distinct(was)
  {
    if Distinct(was) {
      forall p, q | 0 <= p < q < |s| ensures s[p].addr < s[q].addr {
        if s[p].addr == s[q].addr { TwiceInOne(s, was, p, q); }
      }
    } else {
      var p, q :| 0 <= p < q < |was| && was[p].addr == was[q].addr;
      TwiceInOne(was, s, p, q);
    }
  }

  /** A descriptor with sorted entries meets what execute asks for exactly when its addresses are valid and different. */
  lemma SortedIsExecutable(g: Shared, pay: seq<int>, was: seq<Entry>)
    requires |pay| > 0 && 0 <= pay[0] && 3 * pay[0] < |pay| && Sorted(Decode(pay)) && multiset(Decode(pay)) == multiset(was)
    ensures OpOk(g, pay) <==> Distinct(was) && forall e :: e in was ==> e.addr in g.mem
  {
    var es := Decode(pay);
    hide Decode;
    DistinctIsStrict(es, was);
    assert forall e :: e in es <==> e in multiset(es);
    assert forall e :: e in was <==> e in multiset(was);
  }

  lemma TwiceInOne(s: seq<Entry>, was: seq<Entry>, p: nat, q: nat)
    requires multiset(s) == multiset(was) && p < q < |s| && s[p].addr == s[q].addr
    ensures exists i, j :: 0 <= i < j < |was| && was[i].addr == was[j].addr
  {
    assert s[p] in multiset(was) && s[q] in multiset(was);
    if s[p] != s[q] {
      var i :| 0 <= i < |was| && was[i] == s[p];
      var j :| 0 <= j < |was| && was[j] == s[q];
      assert i < j || j < i;
    } else {
      assert s == s[..q] + [s[q]] + s[q + 1..];
      assert s[p] in multiset(s[..q]);
      assert multiset(was)[s[p]] >= 2;
      var i :| 0 <= i < |was| && was[i] == s[p];
      assert was == was[..i] + [was[i]] + was[i + 1..];
      assert s[p] in multiset(was[..i]) || s[p] in multiset(was[i + 1..]);
      if s[p] in was[..i] {
        var j :| 0 <= j < i && was[j] == s[p];
      } else {
        assert s[p] in was[i + 1..];
        var j :| i < j < |was| && was[j] == s[p];
      }
    }
  }
}
