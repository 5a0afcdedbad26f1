/** The browse view's derived list (pages/Home.tsx, `filteredStates`): the
    records whose name or tagline contains the search term, ignoring case,
    sorted by the chosen key with the same comparators as the source and
    stably, as `Array.prototype.sort` is. */
module Home {
  import opened Common
  import opened Types
  import opened Text

  /** The record matches the term: the lower-cased term occurs in the
      lower-cased name or in the lower-cased tagline. */
  predicate Matches(s: StateProfile, term: string): (b: bool)
    ensures term == [] ==> b
    ensures b ==> |term| <= |s.name| || |term| <= |s.tagline|
  {
    assert term == [] ==> OccursAt(Lower(s.name), Lower(term), 0);
    Includes(Lower(s.name), Lower(term)) || Includes(Lower(s.tagline), Lower(term))
  }

  /** `states.filter(...)`: exactly the matching records, each as often as in
      the input, in input order. */
  function FilterByTerm(states: seq<StateProfile>, term: string): (r: seq<StateProfile>)
    ensures forall s :: s in r <==> s in states && Matches(s, term)
    ensures forall s :: multiset(r)[s] == if Matches(s, term) then multiset(states)[s] else 0
    ensures SubsequenceOf(r, states)
  {
    if states == [] then []
    else
      var rest := FilterByTerm(states[1..], term);
      assert states == [states[0]] + states[1..];
      SubsequenceCons(states[0], rest, states[1..]);
      if Matches(states[0], term) then [states[0]] + rest else rest
  }

  /** An empty search term keeps every record, in order. */
  lemma {:induction false} EmptyTermKeepsAll(states: seq<StateProfile>)
    ensures FilterByTerm(states, "") == states
  {
    if states != [] {
      assert OccursAt(Lower(states[0].name), Lower(""), 0);
      EmptyTermKeepsAll(states[1..]);
      assert states == [states[0]] + states[1..];
    }
  }

  /** Matching ignores the case of the term: the term and its lower-cased form
      keep the same records. */
  lemma {:induction false} FilterIgnoresTermCase(states: seq<StateProfile>, term: string)
    ensures FilterByTerm(states, Lower(term)) == FilterByTerm(states, term)
  {
    if states != [] {
      LowerIdempotent(term);
      assert Matches(states[0], Lower(term)) == Matches(states[0], term);
      FilterIgnoresTermCase(states[1..], term);
    }
  }

  /** `a.name.localeCompare(b.name)`, with the locale's collation replaced by
      lexicographic order on character codes. */
  function NameCompare(a: string, b: string): (c: real)
    ensures c == 0.0 <==> a == b
    ensures c < 0.0 <==> a != b && LexLe(a, b)
    ensures c > 0.0 <==> !LexLe(a, b)
  {
    LexLeReflexive(a);
    if a == b then 0.0 else if LexLe(a, b) then -1.0 else 1.0
  }

  /** The comparator handed to `result.sort` for each key: negative when `a`
      goes first. AQI ascends; safety, culture and infrastructure descend;
      names ascend. */
  function Comparator(key: SortOption, a: StateProfile, b: StateProfile): (c: real)
    ensures c == 0.0 <==> SameKey(key, a, b)
    ensures key.AqiValue? ==> (c < 0.0 <==> a.aqi.value < b.aqi.value)
    ensures key.Safety? ==> (c < 0.0 <==> a.womenSafetyScore > b.womenSafetyScore)
    ensures key.Culture? ==> (c < 0.0 <==> a.culturalRichnessScore > b.culturalRichnessScore)
    ensures key.Infrastructure? ==> (c < 0.0 <==> a.infrastructureScore > b.infrastructureScore)
    ensures key.Name? ==> (c < 0.0 <==> a.name != b.name && LexLe(a.name, b.name))
  {
    match key
    case AqiValue => a.aqi.value - b.aqi.value
    case Safety => b.womenSafetyScore - a.womenSafetyScore
    case Culture => b.culturalRichnessScore - a.culturalRichnessScore
    case Infrastructure => b.infrastructureScore - a.infrastructureScore
    case Name => NameCompare(a.name, b.name)
  }

  /** `a` may precede `b` in a result sorted by `key`. */
  predicate InOrder(key: SortOption, a: StateProfile, b: StateProfile) {
    Comparator(key, a, b) <= 0.0
  }

  /** `a` and `b` tie under `key`: the comparator returns 0. */
  predicate SameKey(key: SortOption, a: StateProfile, b: StateProfile) {
    match key
    case AqiValue => a.aqi.value == b.aqi.value
    case Safety => a.womenSafetyScore == b.womenSafetyScore
    case Culture => a.culturalRichnessScore == b.culturalRichnessScore
    case Infrastructure => a.infrastructureScore == b.infrastructureScore
    case Name => a.name == b.name
  }

  lemma SameKeyIsZeroComparator(key: SortOption, a: StateProfile, b: StateProfile)
    ensures SameKey(key, a, b) <==> Comparator(key, a, b) == 0.0
  {
  }

  /** For names, "may precede" is exactly the lexicographic order. */
  lemma NameInOrderIsLexLe(a: StateProfile, b: StateProfile)
    ensures InOrder(Name, a, b) <==> LexLe(a.name, b.name)
  {
    if a.name == b.name {
      LexLeReflexive(a.name);
    }
  }

  /** Each comparator is consistent: every pair is ordered one way or the
      other, and "may precede" is transitive. */
  lemma InOrderTotal(key: SortOption, a: StateProfile, b: StateProfile)
    ensures InOrder(key, a, b) || InOrder(key, b, a)
  {
    if key == Name {
      LexLeTotal(a.name, b.name);
      NameInOrderIsLexLe(a, b);
      NameInOrderIsLexLe(b, a);
    }
  }

  lemma InOrderTransitive(key: SortOption, a: StateProfile, b: StateProfile, c: StateProfile)
    requires InOrder(key, a, b) && InOrder(key, b, c)
    ensures InOrder(key, a, c)
  {
    if key == Name {
      NameInOrderIsLexLe(a, b);
      NameInOrderIsLexLe(b, c);
      NameInOrderIsLexLe(a, c);
      LexLeTransitive(a.name, b.name, c.name);
    }
  }

  /** Every pair of positions is in order. */
  predicate Sorted(s: seq<StateProfile>, key: SortOption) {
    forall i, j :: 0 <= i < j < |s| ==> InOrder(key, s[i], s[j])
  }

  /** Inserts `x` in front of the first element it may precede. */
  function Insert(x: StateProfile, s: seq<StateProfile>, key: SortOption): (r: seq<StateProfile>)
    ensures |r| == |s| + 1
    ensures multiset(r) == multiset(s) + multiset{x}
  {
    if s == [] then [x]
    else if InOrder(key, x, s[0]) then [x] + s
    else
      assert s == [s[0]] + s[1..];
      [s[0]] + Insert(x, s[1..], key)
  }

  /** The stable sort the source obtains from `result.sort(comparator)`:
      insertion sort that places each element before the equal-keyed elements
      that follow it in the input. */
  function SortBy(s: seq<StateProfile>, key: SortOption): (r: seq<StateProfile>)
    ensures |r| == |s|
  {
    if s == [] then [] else Insert(s[0], SortBy(s[1..], key), key)
  }

  /** Sorting adds and loses nothing. */
  lemma {:induction false} SortByPermutation(s: seq<StateProfile>, key: SortOption)
    ensures |SortBy(s, key)| == |s|
    ensures multiset(SortBy(s, key)) == multiset(s)
  {
    if s != [] {
      SortByPermutation(s[1..], key);
      assert s == [s[0]] + s[1..];
    }
  }

  lemma {:induction false} InsertSorted(x: StateProfile, s: seq<StateProfile>, key: SortOption)
    requires Sorted(s, key)
    ensures Sorted(Insert(x, s, key), key)
  {
    if s == [] {
    } else if InOrder(key, x, s[0]) {
      PrependSorted(x, s, key);
    } else {
      InsertSorted(x, s[1..], key);
      HeadBeforeInsert(x, s, key);
    }
  }

  /** An element that may precede the head of a sorted list may precede all
      of it. */
  lemma PrependSorted(x: StateProfile, s: seq<StateProfile>, key: SortOption)
    requires Sorted(s, key) && s != [] && InOrder(key, x, s[0])
    ensures Sorted([x] + s, key)
  {
    var r := [x] + s;
    forall i, j | 0 <= i < j < |r|
      ensures InOrder(key, r[i], r[j])
    {
      if i == 0 && j > 1 {
        InOrderTransitive(key, x, s[0], s[j - 1]);
      }
    }
  }

  /** When `x` moves past the head, the head may still precede everything
      after it. */
  lemma HeadBeforeInsert(x: StateProfile, s: seq<StateProfile>, key: SortOption)
    requires Sorted(s, key) && s != [] && !InOrder(key, x, s[0])
    requires Sorted(Insert(x, s[1..], key), key)
    ensures Sorted(Insert(x, s, key), key)
  {
    assert Insert(x, s, key) == [s[0]] + Insert(x, s[1..], key);
    HeadBeforeAll(x, s, key);
    ConsSorted(s[0], Insert(x, s[1..], key), key);
  }

  lemma HeadBeforeAll(x: StateProfile, s: seq<StateProfile>, key: SortOption)
    requires Sorted(s, key) && s != [] && !InOrder(key, x, s[0])
    ensures forall y :: y in Insert(x, s[1..], key) ==> InOrder(key, s[0], y)
  {
    forall y | y in Insert(x, s[1..], key)
      ensures InOrder(key, s[0], y)
    {
      assert y in multiset(Insert(x, s[1..], key));
      if y == x {
        InOrderTotal(key, x, s[0]);
      } else {
        assert y in multiset(s[1..]);
        var k :| 0 <= k < |s[1..]| && s[1..][k] == y;
        assert s[k + 1] == y;
      }
    }
  }

  /** A head that may precede every element of a sorted list keeps it
      sorted. */
  lemma ConsSorted(h: StateProfile, tail: seq<StateProfile>, key: SortOption)
    requires Sorted(tail, key)
    requires forall y :: y in tail ==> InOrder(key, h, y)
    ensures Sorted([h] + tail, key)
  {
    var r := [h] + tail;
    forall i, j | 0 <= i < j < |r|
      ensures InOrder(key, r[i], r[j])
    {
      assert r[j] == tail[j - 1];
      if i > 0 {
        assert r[i] == tail[i - 1];
      }
    }
  }

  /** Sorting yields every pair in comparator order. */
  lemma {:induction false} SortBySorted(s: seq<StateProfile>, key: SortOption)
    ensures Sorted(SortBy(s, key), key)
  {
    if s != [] {
      SortBySorted(s[1..], key);
      InsertSorted(s[0], SortBy(s[1..], key), key);
    }
  }

  /** The records of `s` that tie with `p` under `key`, in order. */
  function TiedWith(s: seq<StateProfile>, p: StateProfile, key: SortOption): seq<StateProfile> {
    if s == [] then []
    else if SameKey(key, s[0], p) then [s[0]] + TiedWith(s[1..], p, key)
    else TiedWith(s[1..], p, key)
  }

  lemma TiedWithCons(y: StateProfile, s: seq<StateProfile>, p: StateProfile, key: SortOption)
    ensures TiedWith([y] + s, p, key) == (if SameKey(key, y, p) then [y] else []) + TiedWith(s, p, key)
  {
    assert ([y] + s)[1..] == s;
  }

  /** Two records that tie with the same record tie with each other, so the
      first may precede the second. */
  lemma TiedPairInOrder(key: SortOption, x: StateProfile, y: StateProfile, p: StateProfile)
    ensures !InOrder(key, x, y) ==> !(SameKey(key, x, p) && SameKey(key, y, p))
  {
    SameKeyIsZeroComparator(key, x, y);
  }

  lemma {:induction false} InsertTied(x: StateProfile, s: seq<StateProfile>, p: StateProfile, key: SortOption)
    ensures TiedWith(Insert(x, s, key), p, key)
         == (if SameKey(key, x, p) then [x] else []) + TiedWith(s, p, key)
  {
    if s == [] {
      TiedWithCons(x, [], p, key);
    } else if InOrder(key, x, s[0]) {
      TiedWithCons(x, s, p, key);
    } else {
      InsertTied(x, s[1..], p, key);
      InsertTiedSkip(x, s, p, key);
    }
  }

  /** The step of `InsertTied` where `x` moves past the head of `s`. */
  lemma InsertTiedSkip(x: StateProfile, s: seq<StateProfile>, p: StateProfile, key: SortOption)
    requires s != [] && !InOrder(key, x, s[0])
    requires TiedWith(Insert(x, s[1..], key), p, key)
          == (if SameKey(key, x, p) then [x] else []) + TiedWith(s[1..], p, key)
    ensures TiedWith(Insert(x, s, key), p, key)
         == (if SameKey(key, x, p) then [x] else []) + TiedWith(s, p, key)
  {
    var ins := Insert(x, s[1..], key);
    assert Insert(x, s, key) == [s[0]] + ins;
    TiedWithCons(s[0], ins, p, key);
    TiedWithCons(s[0], s[1..], p, key);
    assert s == [s[0]] + s[1..];
    TiedPairInOrder(key, x, s[0], p);
    SwapAroundEmpty(if SameKey(key, s[0], p) then [s[0]] else [],
                    if SameKey(key, x, p) then [x] else [],
                    TiedWith(s[1..], p, key));
  }

  lemma SwapAroundEmpty<T>(a: seq<T>, b: seq<T>, r: seq<T>)
    requires a == [] || b == []
    ensures a + (b + r) == b + (a + r)
  {
    if a == [] {
      assert a + (b + r) == b + r;
    } else {
      assert b + (a + r) == a + r;
    }
  }

  /** The sort is stable: the records that tie under the key appear in the
      result in the same relative order as in the input. */
  lemma {:induction false} SortByStable(s: seq<StateProfile>, p: StateProfile, key: SortOption)
    ensures TiedWith(SortBy(s, key), p, key) == TiedWith(s, p, key)
  {
    if s != [] {
      SortByStable(s[1..], p, key);
      InsertTied(s[0], SortBy(s[1..], key), p, key);
    }
  }

  /** What sorted order means for each key: AQI values non-decreasing; safety,
      culture and infrastructure scores non-increasing; names ascending. */
  lemma SortedByKeyMeans(s: seq<StateProfile>, key: SortOption, i: nat, j: nat)
    requires Sorted(s, key) && i < j < |s|
    ensures key == AqiValue ==> s[i].aqi.value <= s[j].aqi.value
    ensures key == Safety ==> s[i].womenSafetyScore >= s[j].womenSafetyScore
    ensures key == Culture ==> s[i].culturalRichnessScore >= s[j].culturalRichnessScore
    ensures key == Infrastructure ==> s[i].infrastructureScore >= s[j].infrastructureScore
    ensures key == Name ==> LexLe(s[i].name, s[j].name)
  {
    assert InOrder(key, s[i], s[j]);
    NameInOrderIsLexLe(s[i], s[j]);
  }

  /** `Insert` puts `x` at the first position `m` whose element it may
      precede. */
  lemma {:induction false} InsertAt(x: StateProfile, s: seq<StateProfile>, m: nat, key: SortOption)
    requires m <= |s|
    requires forall k :: 0 <= k < m ==> !InOrder(key, x, s[k])
    requires m == |s| || InOrder(key, x, s[m])
    ensures Insert(x, s, key) == s[..m] + [x] + s[m..]
  {
    if m == 0 {
      InsertAtFront(x, s, key);
    } else {
      var t := s[1..];
      NotBeforeTail(x, s, m, key);
      assert m - 1 == |t| || t[m - 1] == s[m];
      InsertAt(x, t, m - 1, key);
      InsertAtStep(x, s, m, key);
    }
  }

  lemma InsertAtFront(x: StateProfile, s: seq<StateProfile>, key: SortOption)
    requires s == [] || InOrder(key, x, s[0])
    ensures Insert(x, s, key) == s[..0] + [x] + s[0..]
  {
    assert s[..0] + [x] + s[0..] == [x] + s;
  }

  lemma InsertAtStep(x: StateProfile, s: seq<StateProfile>, m: nat, key: SortOption)
    requires 0 < m <= |s| && !InOrder(key, x, s[0])
    requires Insert(x, s[1..], key) == s[1..][..m - 1] + [x] + s[1..][m - 1..]
    ensures Insert(x, s, key) == s[..m] + [x] + s[m..]
  {
    assert Insert(x, s, key) == [s[0]] + Insert(x, s[1..], key);
    SplitAfterHead(s, x, m);
  }

  lemma NotBeforeTail(x: StateProfile, s: seq<StateProfile>, m: nat, key: SortOption)
    requires 0 < m <= |s|
    requires forall k :: 0 <= k < m ==> !InOrder(key, x, s[k])
    ensures !InOrder(key, x, s[0])
    ensures forall k :: 0 <= k < m - 1 ==> !InOrder(key, x, s[1..][k])
  {
    forall k | 0 <= k < m - 1
      ensures !InOrder(key, x, s[1..][k])
    {
      assert s[1..][k] == s[k + 1];
    }
  }

  /** Splitting at `m > 0` is splitting the tail at `m - 1` behind the
      head. */
  lemma SplitAfterHead(s: seq<StateProfile>, x: StateProfile, m: nat)
    requires 0 < m <= |s|
    ensures s[..m] + [x] + s[m..] == [s[0]] + (s[1..][..m - 1] + [x] + s[1..][m - 1..])
  {
    assert s[..m] == [s[0]] + s[1..][..m - 1];
    assert s[m..] == s[1..][m - 1..];
  }

  /** `result.sort(comparator)` on the array in place. Right to left, each
      element is shifted into the already sorted suffix. */
  method SortInPlace(a: array<StateProfile>, key: SortOption)
    modifies a
    ensures a[..] == SortBy(old(a[..]), key)
  {
    var i := a.Length;
    while i > 0
      invariant 0 <= i <= a.Length
      invariant a[..i] == old(a[..])[..i]
      invariant a[i..] == SortBy(old(a[..])[i..], key)
    {
      i := i - 1;
      ghost var before := a[..];
      assert before[..i + 1] == old(a[..])[..i + 1];
      InsertIntoSuffix(a, i, key);
      SortStep(old(a[..]), before, i, key);
    }
  }

  /** The sort of a suffix one longer is the insertion of its first element
      into the sort of the rest. */
  lemma SortStep(o: seq<StateProfile>, before: seq<StateProfile>, i: nat, key: SortOption)
    requires i < |o| == |before|
    requires before[..i + 1] == o[..i + 1]
    requires before[i + 1..] == SortBy(o[i + 1..], key)
    ensures Insert(before[i], before[i + 1..], key) == SortBy(o[i..], key)
    ensures before[..i] == o[..i]
  {
    assert before[i] == before[..i + 1][i];
    assert o[i..][0] == o[i] && o[i..][1..] == o[i + 1..];
    assert before[..i] == before[..i + 1][..i];
  }

  /** One step of the sort: moves `a[i]` right past the elements of
      `a[i + 1..]` that must precede it. */
  method InsertIntoSuffix(a: array<StateProfile>, i: nat, key: SortOption)
    requires i < a.Length
    modifies a
    ensures a[..i] == old(a[..i])
    ensures a[i..] == Insert(old(a[i]), old(a[i + 1..]), key)
  {
    var x := a[i];
    ghost var suffix := a[i + 1..];
    var j := ShiftLeft(a, i, key);
    a[j] := x;
    InsertionResult(x, suffix, a[i..], j - i, key);
  }

  /** Shifts one place left the elements after `i` that `a[i]` may not
      precede, and returns the slot left free for `a[i]`. */
  method ShiftLeft(a: array<StateProfile>, i: nat, key: SortOption) returns (j: nat)
    requires i < a.Length
    modifies a
    ensures i <= j < a.Length
    ensures forall k :: 0 <= k < i ==> a[k] == old(a[k])
    ensures forall k :: i <= k < j ==> a[k] == old(a[k + 1])
    ensures forall k :: j < k < a.Length ==> a[k] == old(a[k])
    ensures forall k :: i < k <= j ==> !InOrder(key, old(a[i]), old(a[k]))
    ensures j + 1 == a.Length || InOrder(key, old(a[i]), old(a[j + 1]))
  {
    var n := a.Length;
    var x := a[i];
    j := i;
    while j + 1 < n && Comparator(key, x, a[j + 1]) > 0.0
      invariant i <= j < n
      invariant forall k :: 0 <= k < i ==> a[k] == old(a[k])
      invariant forall k :: i <= k < j ==> a[k] == old(a[k + 1])
      invariant forall k :: j < k < n ==> a[k] == old(a[k])
      invariant forall k :: i < k <= j ==> !InOrder(key, x, old(a[k]))
    {
      a[j] := a[j + 1];
      j := j + 1;
    }
  }

  /** A sequence laid out as the insertion step leaves the array: the
      elements `x` may not precede, then `x`, then the rest. */
  lemma InsertionResult(x: StateProfile, suffix: seq<StateProfile>, r: seq<StateProfile>, m: nat, key: SortOption)
    requires m <= |suffix| && |r| == |suffix| + 1
    requires forall k :: 0 <= k < m ==> r[k] == suffix[k]
    requires r[m] == x
    requires forall k :: m < k < |r| ==> r[k] == suffix[k - 1]
    requires forall k :: 0 <= k < m ==> !InOrder(key, x, suffix[k])
    requires m == |suffix| || InOrder(key, x, suffix[m])
    ensures r == Insert(x, suffix, key)
  {
    InsertAt(x, suffix, m, key);
    assert r == suffix[..m] + [x] + suffix[m..];
  }

  /** `filteredStates`: filter by the term, then sort a fresh array in place. */
  method FilteredStates(states: seq<StateProfile>, term: string, key: SortOption) returns (result: seq<StateProfile>)
    ensures result == SortBy(FilterByTerm(states, term), key)
  {
    var filtered := FilterByTerm(states, term);
    var a := new StateProfile[|filtered|](i requires 0 <= i < |filtered| => filtered[i]);
    assert a[..] == filtered;
    SortInPlace(a, key);
    result := a[..];
  }

  /** Everything the browse list promises: it holds exactly the matching
      records with their multiplicities, in key order, with ties in catalog
      order. */
  lemma BrowseListCorrect(states: seq<StateProfile>, term: string, key: SortOption, p: StateProfile)
    ensures var r := SortBy(FilterByTerm(states, term), key);
      && (forall s :: multiset(r)[s] == if Matches(s, term) then multiset(states)[s] else 0)
      && Sorted(r, key)
      && TiedWith(r, p, key) == TiedWith(FilterByTerm(states, term), p, key)
  {
    SortByPermutation(FilterByTerm(states, term), key);
    SortBySorted(FilterByTerm(states, term), key);
    SortByStable(FilterByTerm(states, term), p, key);
  }

  /** The sort buttons the browse view renders: there is none for
      `infrastructure`, so that key is reachable only programmatically. */
  const SortButtons: seq<SortOption> := [Name, AqiValue, Safety, Culture]

  /** The key the browse view starts with. */
  const DefaultSort: SortOption := Name
}
