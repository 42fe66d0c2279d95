/**
 * Ordering of the orders table, latest first (src/Components/TotalOrders/Orders.js).
 *
 * The comparator removes the first " at" from each date string and parses
 * the rest as a date. Date parsing is host-library behaviour, so it is a
 * parameter `parse` from the stripped string to an integer timestamp.
 * `Array.prototype.sort` sorts in place and is stable; it is modelled by a
 * stable insertion sort over the array.
 */
module DateSort {
  import opened OrderRecord

  /** `s` holds " at" starting at index `i`. */
  predicate AtOccursAt(s: string, i: nat)
  {
    i + 3 <= |s| && s[i] == ' ' && s[i + 1] == 'a' && s[i + 2] == 't'
  }

  /** The index of the first " at" in `s`, if there is one. */
  function FirstAt(s: string): (r: Option<nat>)
    ensures r.Some? ==> AtOccursAt(s, r.value)
    ensures r.Some? ==> forall j: nat :: j < r.value ==> !AtOccursAt(s, j)
    ensures r.None? ==> forall j: nat :: !AtOccursAt(s, j)
  {
    if |s| < 3 then None
    else if s[0] == ' ' && s[1] == 'a' && s[2] == 't' then Some(0)
    else
      assert !AtOccursAt(s, 0);
      assert forall j: nat :: 1 <= j && AtOccursAt(s, j) ==> AtOccursAt(s[1..], j - 1);
      match FirstAt(s[1..])
      case None => None
      case Some(k) => Some(k + 1)
  }

  /** The date with " at" removed; a string pattern replaces its first occurrence only. */
  function StripAt(s: string): (r: string)
    ensures FirstAt(s).None? ==> r == s
    ensures FirstAt(s).Some? ==> |r| == |s| - 3
    ensures FirstAt(s).Some? ==> var i := FirstAt(s).value; r[..i] == s[..i] && r[i..] == s[i + 3..]
  {
    match FirstAt(s)
    case None => s
    case Some(i) => s[..i] + s[i + 3..]
  }

  /** An " at" with no blank before it is the first one. */
  lemma FirstAtBeforeAnyBlank(s: string, k: nat)
    requires AtOccursAt(s, k)
    requires forall j :: 0 <= j < k ==> s[j] != ' '
    ensures FirstAt(s) == Some(k)
  {
  }

  /** A date written "<day> at <time>" loses the word, the time is kept. */
  lemma StripAtExample()
    ensures StripAt("5/1 at 9:00") == "5/1 9:00"
  {
    var s := "5/1 at 9:00";
    FirstAtBeforeAnyBlank(s, 3);
    assert StripAt(s) == s[..3] + s[6..];
    assert s[..3] == "5/1" && s[6..] == " 9:00";
  }

  /** A date with no blank at all is parsed as it is. */
  lemma StripAtNoBlank(s: string)
    requires forall j :: 0 <= j < |s| ==> s[j] != ' '
    ensures StripAt(s) == s
  {
    assert forall j: nat :: !AtOccursAt(s, j);
  }

  /** Only the first occurrence goes: a second " at" stays in the key. */
  lemma StripAtOnlyFirst()
    ensures StripAt("x at y at z") == "x y at z"
  {
    var s := "x at y at z";
    assert AtOccursAt(s, 1) && !AtOccursAt(s, 0);
    assert FirstAt(s) == Some(1);
  }

  /** The timestamp an order sorts by. */
  function DateKey(o: Order, parse: string -> int): int
  {
    parse(StripAt(o.date))
  }

  /** The comparator: the difference of the two keys, positive when `b` is later, so `b` goes first. */
  function Compare(a: Order, b: Order, parse: string -> int): (c: int)
    ensures c > 0 <==> DateKey(b, parse) > DateKey(a, parse)
    ensures c == 0 <==> DateKey(b, parse) == DateKey(a, parse)
  {
    DateKey(b, parse) - DateKey(a, parse)
  }

  /** The comparator is antisymmetric, as `sort` requires of it. */
  lemma CompareAntisymmetric(a: Order, b: Order, parse: string -> int)
    ensures Compare(a, b, parse) == -Compare(b, a, parse)
  {
  }

  /** Latest first: no order is followed by one with a larger key. */
  ghost predicate SortedBy(s: seq<Order>, key: Order -> int)
  {
    forall i, j :: 0 <= i < j < |s| ==> key(s[i]) >= key(s[j])
  }

  /** Latest first by date. */
  ghost predicate SortedDesc(s: seq<Order>, parse: string -> int)
  {
    forall i, j :: 0 <= i < j < |s| ==> DateKey(s[i], parse) >= DateKey(s[j], parse)
  }

  /**
   * Latest first is exactly the order the comparator asks for: no order is
   * placed before one that the comparator says should come first.
   */
  lemma SortedDescIffComparator(s: seq<Order>, parse: string -> int)
    ensures SortedDesc(s, parse) <==> forall i, j :: 0 <= i < j < |s| ==> Compare(s[i], s[j], parse) <= 0
  {
  }

  /** Swaps positions `j - 1` and `j`, one step of an insertion. */
  method SwapDown(a: array<Order>, j: int)
    requires 0 < j < a.Length
    modifies a
    ensures a[..] == old(a[..])[j - 1 := old(a[j])][j := old(a[j - 1])]
    ensures multiset(a[..]) == multiset(old(a[..]))
  {
    a[j - 1], a[j] := a[j], a[j - 1];
  }

  /**
   * Midway through inserting the order at `i`: it now sits at `j`, above
   * every order after it up to `i`, and every other pair of the prefix is
   * in order.
   */
  ghost predicate Inserting(s: seq<Order>, i: int, j: int, key: Order -> int)
  {
    0 <= j <= i < |s|
    && (forall p, q :: 0 <= p < q <= i && p != j && q != j ==> key(s[p]) >= key(s[q]))
    && (forall q :: j < q <= i ==> key(s[j]) > key(s[q]))
  }

  /** Before any swap, the sorted prefix of length `i` makes the state an insertion at `i`. */
  lemma InsertingStart(s: seq<Order>, i: int, key: Order -> int)
    requires 0 <= i < |s|
    requires SortedBy(s[..i], key)
    ensures Inserting(s, i, i, key)
  {
    assert forall p :: 0 <= p < i ==> s[..i][p] == s[p];
  }

  /** Exchanging the moving order with a smaller predecessor moves the insertion one place down. */
  lemma InsertingStep(s: seq<Order>, t: seq<Order>, i: int, j: int, key: Order -> int)
    requires Inserting(s, i, j, key)
    requires 0 < j && key(s[j]) > key(s[j - 1])
    requires t == s[j - 1 := s[j]][j := s[j - 1]]
    ensures Inserting(t, i, j - 1, key)
  {
  }

  /** Once the predecessor is not smaller, or there is none, the prefix up to `i` is sorted. */
  lemma InsertingDone(s: seq<Order>, i: int, j: int, key: Order -> int)
    requires Inserting(s, i, j, key)
    requires j == 0 || key(s[j]) <= key(s[j - 1])
    ensures SortedBy(s[..i + 1], key)
  {
    assert forall p :: 0 <= p <= i ==> s[..i + 1][p] == s[p];
  }

  /** In a sorted prefix the last order is not above the one before it. */
  lemma SortedPrefixStays(s: seq<Order>, i: int, key: Order -> int)
    requires 0 <= i < |s|
    ensures SortedBy(s[..i + 1], key) ==> i == 0 || key(s[i]) <= key(s[i - 1])
  {
    if SortedBy(s[..i + 1], key) && i > 0 {
      assert s[..i + 1][i - 1] == s[i - 1] && s[..i + 1][i] == s[i];
    }
  }

  /**
   * Moves `a[i]` down past every earlier order with a smaller key, so that
   * the prefix of length `i + 1` is sorted; the rest is untouched. Equal
   * keys are never swapped, which keeps the sort stable.
   */
  method Insert(a: array<Order>, i: int, key: Order -> int)
    requires 0 <= i < a.Length
    requires SortedBy(a[..i], key)
    modifies a
    ensures SortedBy(a[..i + 1], key)
    ensures multiset(a[..]) == multiset(old(a[..]))
    ensures a[i + 1..] == old(a[i + 1..])
    ensures SortedBy(old(a[..i + 1]), key) ==> a[..] == old(a[..])
  {
    InsertingStart(a[..], i, key);
    ghost var start := a[..];
    ghost var stays := i == 0 || key(start[i]) <= key(start[i - 1]);
    SortedPrefixStays(start, i, key);
    var j := i;
    while j > 0 && key(a[j]) > key(a[j - 1])
      invariant Inserting(a[..], i, j, key)
      invariant multiset(a[..]) == multiset(old(a[..]))
      invariant a[i + 1..] == old(a[i + 1..])
      invariant j == i ==> a[..] == start
      invariant stays ==> j == i
    {
      ghost var before := a[..];
      SwapDown(a, j);
      InsertingStep(before, a[..], i, j, key);
      j := j - 1;
    }
    InsertingDone(a[..], i, j, key);
  }

  /**
   * The in-place sort with the date comparator: in place, the result is a
   * permutation of the input ordered latest first, and an input already in
   * that order is untouched (so sorting twice is sorting once).
   */
  method SortByDateDesc(a: array<Order>, parse: string -> int)
    modifies a
    ensures SortedDesc(a[..], parse)
    ensures forall i, j :: 0 <= i < j < a.Length ==> Compare(a[i], a[j], parse) <= 0
    ensures multiset(a[..]) == multiset(old(a[..]))
    ensures SortedDesc(old(a[..]), parse) ==> a[..] == old(a[..])
  {
    var key := o => DateKey(o, parse);
    assert SortedDesc(old(a[..]), parse) ==> SortedBy(old(a[..]), key);
    var i := 0;
    while i < a.Length
      invariant 0 <= i <= a.Length
      invariant SortedBy(a[..i], key)
      invariant multiset(a[..]) == multiset(old(a[..]))
      invariant SortedDesc(old(a[..]), parse) ==> a[..] == old(a[..])
    {
      Insert(a, i, key);
      i := i + 1;
    }
    assert a[..a.Length] == a[..];
    SortedDescIffComparator(a[..], parse);
  }
}
