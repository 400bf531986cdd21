/** The set-selection screen: a list of chosen set indices that the
    checkboxes toggle, a "select all" switch, the start gate and the word
    count shown in the footer. */
module SetSelection {

  /** Words per set, as the footer's count hard-codes it. */
  const WordsPerSet := 50

  predicate Sorted(s: seq<int>)
  {
    forall i, j :: 0 <= i < j < |s| ==> s[i] <= s[j]
  }

  /** Sorted ascending with no index twice. */
  predicate StrictlyAscending(s: seq<int>)
  {
    forall i, j :: 0 <= i < j < |s| ==> s[i] < s[j]
  }

  /** Putting an element in front of a sorted list that holds nothing
      smaller keeps it sorted. */
  lemma ConsSorted(x: int, t: seq<int>)
    requires Sorted(t) && forall y :: y in t ==> x <= y
    ensures Sorted([x] + t)
  {
    var s := [x] + t;
    forall i, j | 0 <= i < j < |s| ensures s[i] <= s[j] {
      if i == 0 { assert s[j] == t[j - 1]; assert t[j - 1] in t; }
      else { assert s[i] == t[i - 1] && s[j] == t[j - 1]; }
    }
  }

  /** The strict counterpart of ConsSorted. */
  lemma ConsStrict(x: int, t: seq<int>)
    requires StrictlyAscending(t) && forall y :: y in t ==> x < y
    ensures StrictlyAscending([x] + t)
  {
    var s := [x] + t;
    forall i, j | 0 <= i < j < |s| ensures s[i] < s[j] {
      if i == 0 { assert s[j] == t[j - 1]; assert t[j - 1] in t; }
      else { assert s[i] == t[i - 1] && s[j] == t[j - 1]; }
    }
  }

  /** `s` without any occurrence of `x`, the rest in their order
      (the array `filter` of the toggle handler). */
  function Without(s: seq<int>, x: int): (r: seq<int>)
    ensures multiset(r) == multiset(s)[x := 0]
    ensures forall y :: y in r <==> y in s && y != x
  {
    if s == [] then []
    else
      assert s == [s[0]] + s[1..];
      var rest := Without(s[1..], x);
      if s[0] == x then rest else [s[0]] + rest
  }

  /** Everything after the head of a sorted list is at least the head. */
  lemma HeadIsLeast(s: seq<int>)
    requires s != [] && Sorted(s)
    ensures Sorted(s[1..]) && forall y :: y in s[1..] ==> s[0] <= y
  {
  }

  /** The strict counterpart of HeadIsLeast. */
  lemma HeadIsStrictlyLeast(s: seq<int>)
    requires s != [] && StrictlyAscending(s)
    ensures StrictlyAscending(s[1..]) && forall y :: y in s[1..] ==> s[0] < y
  {
  }

  /** Filtering keeps a sorted list sorted. */
  lemma {:induction false} WithoutSorted(s: seq<int>, x: int)
    requires Sorted(s)
    ensures Sorted(Without(s, x))
  {
    if s != [] {
      HeadIsLeast(s);
      WithoutSorted(s[1..], x);
      if s[0] != x { ConsSorted(s[0], Without(s[1..], x)); }
    }
  }

  /** Filtering keeps a strictly ascending list strictly ascending. */
  lemma {:induction false} WithoutStrict(s: seq<int>, x: int)
    requires StrictlyAscending(s)
    ensures StrictlyAscending(Without(s, x))
  {
    if s != [] {
      HeadIsStrictlyLeast(s);
      WithoutStrict(s[1..], x);
      if s[0] != x { ConsStrict(s[0], Without(s[1..], x)); }
    }
  }

  /** Inserting `x` into a sorted list at its place. */
  function Insert(x: int, s: seq<int>): (r: seq<int>)
    requires Sorted(s)
    ensures Sorted(r)
    ensures multiset(r) == multiset(s) + multiset{x}
    ensures forall y :: y in r <==> y in s || y == x
  {
    if s == [] then [x]
    else if x <= s[0] then
      HeadIsLeast(s);
      ConsSorted(x, s);
      [x] + s
    else
      assert s == [s[0]] + s[1..];
      HeadIsLeast(s);
      var rest := Insert(x, s[1..]);
      ConsSorted(s[0], rest);
      [s[0]] + rest
  }

  /** Ascending numeric sort (the array `sort` with comparator `a - b`). */
  function Sort(s: seq<int>): (r: seq<int>)
    ensures Sorted(r)
    ensures multiset(r) == multiset(s)
    ensures forall y :: y in r <==> y in s
  {
    if s == [] then []
    else
      assert s == [s[0]] + s[1..];
      Insert(s[0], Sort(s[1..]))
  }

  /** A sorted list in which no value occurs twice is strictly ascending. */
  lemma {:induction false} SortedSingletonsStrict(s: seq<int>)
    requires Sorted(s)
    requires forall y :: multiset(s)[y] <= 1
    ensures StrictlyAscending(s)
  {
    forall i, j | 0 <= i < j < |s| ensures s[i] < s[j] {
      assert s == s[..j] + s[j..];
      assert s[i] in s[..j] && s[j] in s[j..];
      assert multiset(s)[s[j]] == multiset(s[..j])[s[j]] + multiset(s[j..])[s[j]];
    }
  }

  /** In a strictly ascending list every value occurs at most once. */
  lemma {:induction false} StrictSingletons(s: seq<int>)
    requires StrictlyAscending(s)
    ensures forall y :: multiset(s)[y] <= 1
  {
    if s != [] {
      assert s == [s[0]] + s[1..];
      StrictSingletons(s[1..]);
      assert s[0] !in s[1..];
    }
  }

  /** Two strictly ascending lists with the same elements are equal. */
  lemma {:induction false} StrictlyAscendingUnique(a: seq<int>, b: seq<int>)
    requires StrictlyAscending(a) && StrictlyAscending(b)
    requires forall y :: y in a <==> y in b
    ensures a == b
  {
    if a != [] { assert a[0] in a; }
    if b != [] { assert b[0] in b; }
    if a != [] && b != [] {
      assert a[0] in a && b[0] in b;
      assert a[0] in b && b[0] in a;
      HeadIsStrictlyLeast(a);
      HeadIsStrictlyLeast(b);
      assert a[0] == b[0];
      forall y ensures y in a[1..] <==> y in b[1..] {
        assert y in a[1..] <==> y in a && y != a[0];
        assert y in b[1..] <==> y in b && y != b[0];
      }
      StrictlyAscendingUnique(a[1..], b[1..]);
      assert a == [a[0]] + a[1..];
      assert b == [b[0]] + b[1..];
    }
  }

  /** The new selection after toggling `setIndex`: a present index is
      removed (every occurrence of it, the rest untouched), an absent one is
      added and the whole list sorted. */
  function Toggle(selected: seq<int>, setIndex: int): (r: seq<int>)
    ensures setIndex in selected ==>
      multiset(r) == multiset(selected)[setIndex := 0] &&
      (forall y :: y in r <==> y in selected && y != setIndex)
    ensures setIndex !in selected ==>
      Sorted(r) && multiset(r) == multiset(selected) + multiset{setIndex}
  {
    if setIndex in selected then Without(selected, setIndex)
    else
      assert multiset(selected + [setIndex]) == multiset(selected) + multiset{setIndex};
      Sort(selected + [setIndex])
  }

  /** Toggling keeps a sorted selection sorted. */
  lemma ToggleKeepsSorted(selected: seq<int>, setIndex: int)
    requires Sorted(selected)
    ensures Sorted(Toggle(selected, setIndex))
  {
    if setIndex in selected { WithoutSorted(selected, setIndex); }
  }

  /** Toggling keeps a sorted, duplicate-free selection so. */
  lemma ToggleKeepsAscending(selected: seq<int>, setIndex: int)
    requires StrictlyAscending(selected)
    ensures StrictlyAscending(Toggle(selected, setIndex))
  {
    if setIndex in selected { WithoutStrict(selected, setIndex); }
    else { SortAddedStrict(selected, setIndex); }
  }

  /** Sorting a strictly ascending list with one new index added keeps it
      strictly ascending. */
  lemma SortAddedStrict(selected: seq<int>, setIndex: int)
    requires StrictlyAscending(selected) && setIndex !in selected
    ensures StrictlyAscending(Sort(selected + [setIndex]))
  {
    var r := Sort(selected + [setIndex]);
    assert multiset(selected + [setIndex]) == multiset(selected) + multiset{setIndex};
    StrictSingletons(selected);
    forall y ensures multiset(r)[y] <= 1 {
      if y == setIndex { assert multiset(selected)[y] == 0; }
    }
    SortedSingletonsStrict(r);
  }

  /** Toggling the same index twice gives back the selection, for a sorted
      selection without duplicates. */
  lemma ToggleTwice(selected: seq<int>, setIndex: int)
    requires StrictlyAscending(selected)
    ensures Toggle(Toggle(selected, setIndex), setIndex) == selected
  {
    var once := Toggle(selected, setIndex);
    ToggleKeepsAscending(selected, setIndex);
    ToggleKeepsAscending(once, setIndex);
    var twice := Toggle(once, setIndex);
    if setIndex in selected {
      RemoveThenAdd(selected, once, twice, setIndex);
    } else {
      AddThenRemove(selected, once, twice, setIndex);
    }
    StrictlyAscendingUnique(twice, selected);
  }

  /** Removing a present index and toggling it back restores the elements. */
  lemma RemoveThenAdd(selected: seq<int>, once: seq<int>, twice: seq<int>, x: int)
    requires x in selected
    requires once == Toggle(selected, x) && twice == Toggle(once, x)
    ensures forall y :: y in twice <==> y in selected
  {
  }

  /** Adding an absent index and toggling it off restores the elements. */
  lemma AddThenRemove(selected: seq<int>, once: seq<int>, twice: seq<int>, x: int)
    requires x !in selected
    requires once == Toggle(selected, x) && twice == Toggle(once, x)
    ensures forall y :: y in twice <==> y in selected
  {
  }

  /** Every index `0 .. totalSets - 1`, in order (`Array.from` with the
      index as value). */
  function AllSets(totalSets: nat): (r: seq<int>)
    ensures |r| == totalSets
    ensures forall i :: 0 <= i < totalSets ==> r[i] == i
  {
    seq(totalSets, i => i)
  }

  /** The new selection after the "select all" switch: cleared when its
      length equals the number of sets, otherwise every set. */
  function SelectAll(selected: seq<int>, totalSets: nat): (r: seq<int>)
    ensures r == [] || r == AllSets(totalSets)
    ensures StrictlyAscending(r)
  {
    if |selected| == totalSets then [] else AllSets(totalSets)
  }

  /** The switch clears the selection exactly when the selection's length
      equals the number of sets (or there are no sets at all). */
  lemma SelectAllResult(selected: seq<int>, totalSets: nat)
    ensures SelectAll(selected, totalSets) == [] <==> |selected| == totalSets || totalSets == 0
  {
  }

  /** Switching "select all" twice starting from nothing selected comes back
      to nothing selected, through every set selected. */
  lemma SelectAllTwiceFromNone(totalSets: nat)
    ensures SelectAll([], totalSets) == (if totalSets == 0 then [] else AllSets(totalSets))
    ensures SelectAll(SelectAll([], totalSets), totalSets) == []
  {
  }

  /** A strictly ascending selection of indices `lo .. n - 1` has at most
      `n - lo` entries, and exactly that many only when it is all of them. */
  lemma {:induction false} AscendingInRange(s: seq<int>, lo: int, n: int)
    requires StrictlyAscending(s)
    requires forall k :: 0 <= k < |s| ==> lo <= s[k] < n
    ensures |s| <= if lo <= n then n - lo else 0
    ensures |s| == n - lo ==> forall k :: 0 <= k < |s| ==> s[k] == lo + k
  {
    if s != [] {
      AscendingInRange(s[1..], s[0] + 1, n);
      if |s| == n - lo {
        assert s[0] == lo;
        forall k | 0 <= k < |s| ensures s[k] == lo + k {
          if k > 0 { assert s[1..][k - 1] == s[k]; }
        }
      }
    }
  }

  /** With the checkboxes producing only indices below `totalSets`, the
      switch's test "length equals the number of sets" holds exactly when
      every set is selected. */
  lemma FullLengthIsAllSets(selected: seq<int>, totalSets: nat)
    requires StrictlyAscending(selected)
    requires forall k :: 0 <= k < |selected| ==> 0 <= selected[k] < totalSets
    ensures |selected| <= totalSets
    ensures |selected| == totalSets <==> selected == AllSets(totalSets)
  {
    AscendingInRange(selected, 0, totalSets);
  }

  /** The screen's state: the chosen set indices. */
  class Selection {
    const totalSets: nat
    var selectedSets: seq<int>

    /** The selection is kept sorted ascending with no index twice. */
    ghost predicate Valid()
      reads this
      ensures Valid() ==> Sorted(selectedSets)
      ensures Valid() ==>
        forall i, j :: 0 <= i < |selectedSets| && 0 <= j < |selectedSets| && i != j ==>
          selectedSets[i] != selectedSets[j]
    {
      StrictlyAscending(selectedSets)
    }

    constructor (totalSets: nat)
      ensures Valid()
      ensures this.totalSets == totalSets && selectedSets == []
    {
      this.totalSets := totalSets;
      selectedSets := [];
    }

    method HandleToggleSet(setIndex: int)
      requires Valid()
      modifies this
      ensures Valid()
      ensures selectedSets == Toggle(old(selectedSets), setIndex)
    {
      ToggleKeepsAscending(selectedSets, setIndex);
      selectedSets := Toggle(selectedSets, setIndex);
    }

    method HandleSelectAll()
      requires Valid()
      modifies this
      ensures Valid()
      ensures selectedSets == SelectAll(old(selectedSets), totalSets)
    {
      SelectAllResult(selectedSets, totalSets);
      if |selectedSets| == totalSets {
        selectedSets := [];
      } else {
        selectedSets := AllSets(totalSets);
      }
    }

    /** "Start": passes the selection on unchanged, and only when it is not
        empty. */
    method HandleStart() returns (started: bool, sets: seq<int>)
      requires Valid()
      ensures started <==> |selectedSets| > 0
      ensures started ==> sets == selectedSets
      ensures started ==> StrictlyAscending(sets)
      ensures !started ==> sets == []
    {
      started := |selectedSets| > 0;
      sets := if started then selectedSets else [];
    }

    /** The footer's running count: fifty words for every selected set. */
    function TotalWords(): (n: nat)
      reads this
      ensures n == WordsPerSet * |selectedSets|
    {
      |selectedSets| * WordsPerSet
    }
  }

  /** Selecting all of three sets gives [0, 1, 2]; switching again clears. */
  method SelectAllOfThree() returns (all: seq<int>, none: seq<int>)
    ensures all == [0, 1, 2] && none == []
  {
    var screen := new Selection(3);
    screen.HandleSelectAll();
    all := screen.selectedSets;
    screen.HandleSelectAll();
    none := screen.selectedSets;
  }
}
