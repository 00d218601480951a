/**
 * The collection utilities the core uses (IEnumerableExtensions): the
 * one-item sequence, null-safe membership, order-insensitive sequence
 * equality, and the "only element" selectors.
 */
module Collections {
  import opened Wrappers

  /** The ArgumentNullException the source raises, with the parameter's name. */
  datatype ArgumentNull = ArgumentNull(paramName: string)

  /** The sequence that yields exactly the one item. */
  function AsEnumerable<T>(item: T): (r: seq<T>)
    ensures |r| == 1 && r[0] == item
  {
    [item]
  }

  /** Membership in a set that may be null; a null set contains nothing. */
  function SafeContains<T>(hashSet: Option<set<T>>, value: T): (r: bool)
    ensures hashSet.None? ==> !r
    ensures hashSet.Some? ==> (r <==> value in hashSet.value)
  {
    match hashSet
    case None => false
    case Some(s) => value in s
  }

  // ----- UnsortedSequencesEqual -----

  /** The count a dictionary holds for a key, 0 when the key is absent. */
  function CountOf<T>(counts: map<T, int>, key: T): int
  {
    if key in counts then counts[key] else 0
  }

  lemma PrefixMultiplicity<T>(s: seq<T>, k: nat, x: T)
    requires k <= |s|
    ensures multiset(s[..k])[x] <= multiset(s)[x]
  {
    assert s == s[..k] + s[k..];
    assert multiset(s) == multiset(s[..k]) + multiset(s[k..]);
  }

  lemma PrefixStep<T>(s: seq<T>, i: nat)
    requires i < |s|
    ensures multiset(s[..i + 1]) == multiset(s[..i]) + multiset{s[i]}
  {
    assert s[..i + 1] == s[..i] + [s[i]];
  }

  /** Taking `ys[j]` off the counts keeps them making up the multiplicities in `xs` with one more element of `ys`. */
  lemma TallyStep<T>(counts: map<T, int>, next: map<T, int>, xs: seq<T>, ys: seq<T>, j: nat)
    requires j < |ys|
    requires forall x :: CountOf(counts, x) + multiset(ys[..j])[x] == multiset(xs)[x]
    requires forall x :: CountOf(next, x) == CountOf(counts, x) - (if x == ys[j] then 1 else 0)
    ensures forall x :: CountOf(next, x) + multiset(ys[..j + 1])[x] == multiset(xs)[x]
  {
    PrefixStep(ys, j);
  }

  /** An element of `ys` with no count left shows `ys` holds more of it than `xs`. */
  lemma TallyExhausted<T>(counts: map<T, int>, xs: seq<T>, ys: seq<T>, j: nat)
    requires j < |ys| && ys[j] !in counts
    requires forall x :: CountOf(counts, x) + multiset(ys[..j])[x] == multiset(xs)[x]
    ensures multiset(xs) != multiset(ys)
  {
    PrefixStep(ys, j);
    PrefixMultiplicity(ys, j + 1, ys[j]);
  }

  /**
   * With every count positive and making up, with the multiplicity in
   * `ys`, the multiplicity in `xs`, the dictionary is empty exactly when
   * the sequences are permutations of each other.
   */
  lemma TallyEmpty<T>(counts: map<T, int>, xs: seq<T>, ys: seq<T>)
    requires forall x :: CountOf(counts, x) + multiset(ys)[x] == multiset(xs)[x]
    requires forall x :: x in counts ==> counts[x] > 0
    ensures |counts| == 0 <==> multiset(xs) == multiset(ys)
  {
    if |counts| == 0 {
      assert counts == map[];
      assert forall x :: multiset(xs)[x] == multiset(ys)[x];
    } else {
      var k :| k in counts;
      assert multiset(xs)[k] != multiset(ys)[k];
    }
  }

  /** The first loop: the occurrence count of every element of `xs`. */
  method CountElements<T>(xs: seq<T>) returns (counts: map<T, int>)
    ensures forall x :: CountOf(counts, x) == multiset(xs)[x]
    ensures forall x :: x in counts ==> counts[x] > 0
  {
    counts := map[];
    var i := 0;
    while i < |xs|
      invariant 0 <= i <= |xs|
      invariant forall x :: CountOf(counts, x) == multiset(xs[..i])[x]
      invariant forall x :: x in counts ==> counts[x] > 0
    {
      var x := xs[i];
      if x in counts {
        counts := counts[x := counts[x] + 1];
      } else {
        counts := counts[x := 1];
      }
      PrefixStep(xs, i);
      i := i + 1;
    }
    assert xs[..i] == xs;
  }

  /** One occurrence of `key` taken off its count; a count that reaches zero removes the key. */
  method TakeOne<T>(counts: map<T, int>, key: T) returns (next: map<T, int>)
    requires key in counts && forall x :: x in counts ==> counts[x] > 0
    ensures forall x :: CountOf(next, x) == CountOf(counts, x) - (if x == key then 1 else 0)
    ensures forall x :: x in next ==> next[x] > 0
  {
    if counts[key] == 1 {
      next := map k | k in counts && k != key :: counts[k];
    } else {
      next := counts[key := counts[key] - 1];
    }
  }

  /**
   * True iff the two sequences hold the same elements with the same
   * multiplicities, order ignored; a null argument raises instead (the
   * first one is checked first).
   */
  method UnsortedSequencesEqual<T(==)>(first: Option<seq<T>>, second: Option<seq<T>>) returns (r: Result<bool, ArgumentNull>)
    ensures first.None? ==> r == Failure(ArgumentNull("first"))
    ensures first.Some? && second.None? ==> r == Failure(ArgumentNull("second"))
    ensures first.Some? && second.Some? ==> r == Success(multiset(first.value) == multiset(second.value))
  {
    if first.None? {
      return Failure(ArgumentNull("first"));
    }
    if second.None? {
      return Failure(ArgumentNull("second"));
    }
    var xs, ys := first.value, second.value;
    var counts := CountElements(xs);
    var j := 0;
    while j < |ys|
      invariant 0 <= j <= |ys|
      invariant forall x :: CountOf(counts, x) + multiset(ys[..j])[x] == multiset(xs)[x]
      invariant forall x :: x in counts ==> counts[x] > 0
    {
      var y := ys[j];
      if y !in counts {
        TallyExhausted(counts, xs, ys, j);
        return Success(false);
      }
      var next := TakeOne(counts, y);
      TallyStep(counts, next, xs, ys, j);
      counts, j := next, j + 1;
    }
    assert ys[..j] == ys;
    TallyEmpty(counts, xs, ys);
    return Success(|counts| == 0);
  }

  // ----- the "only element" selectors -----

  /** The elements satisfying the pred, in source order (LINQ's Where). */
  function Where<T>(s: seq<T>, pred: T -> bool): (r: seq<T>)
    ensures |r| <= |s|
    ensures forall x :: x in r ==> x in s && pred(x)
  {
    if s == [] then []
    else Where(s[..|s| - 1], pred) + (if pred(s[|s| - 1]) then [s[|s| - 1]] else [])
  }

  lemma {:induction false} WhereOfAppend<T>(s: seq<T>, x: T, pred: T -> bool)
    ensures Where(s + [x], pred) == Where(s, pred) + (if pred(x) then [x] else [])
  {
    assert (s + [x])[..|s + [x]| - 1] == s;
  }

  /** Filtering with an always-true predicate keeps everything. */
  lemma {:induction false} WhereAll<T>(s: seq<T>)
    ensures Where(s, _ => true) == s
  {
    if s != [] {
      WhereAll(s[..|s| - 1]);
      assert s == s[..|s| - 1] + [s[|s| - 1]];
    }
  }

  /** Exactly one match: the index of a matching element that every match equals. */
  ghost predicate UniqueMatchAt<T>(s: seq<T>, pred: T -> bool, i: int)
  {
    0 <= i < |s| && pred(s[i]) && forall j :: 0 <= j < |s| && pred(s[j]) ==> j == i
  }

  /** Where has exactly one element iff exactly one position of the source matches, and then it is that element. */
  lemma {:induction false} WhereSingleton<T>(s: seq<T>, pred: T -> bool)
    ensures |Where(s, pred)| == 1 <==> exists i :: UniqueMatchAt(s, pred, i)
    ensures |Where(s, pred)| == 1 ==> forall i :: UniqueMatchAt(s, pred, i) ==> Where(s, pred)[0] == s[i]
    ensures |Where(s, pred)| == 0 <==> forall j :: 0 <= j < |s| ==> !pred(s[j])
  {
    if s != [] {
      var init, last := s[..|s| - 1], s[|s| - 1];
      WhereSingleton(init, pred);
      assert forall j :: 0 <= j < |init| ==> s[j] == init[j];
      if pred(last) {
        if |Where(init, pred)| == 0 {
          assert UniqueMatchAt(s, pred, |s| - 1);
        } else {
          LaterMatchIsNotUnique(s, pred);
        }
      } else {
        UnmatchedLastKeepsUnique(s, pred);
        assert Where(s, pred) == Where(init, pred);
        if |Where(init, pred)| == 1 {
          var i :| UniqueMatchAt(init, pred, i);
          assert UniqueMatchAt(s, pred, i);
        }
      }
    }
  }

  /** A matching last element after an earlier match: no position matches uniquely. */
  lemma LaterMatchIsNotUnique<T>(s: seq<T>, pred: T -> bool)
    requires s != [] && pred(s[|s| - 1]) && |Where(s[..|s| - 1], pred)| != 0
    ensures forall i :: !UniqueMatchAt(s, pred, i)
  {
    var init := s[..|s| - 1];
    assert Where(init, pred)[0] in Where(init, pred);
    var j :| 0 <= j < |init| && init[j] == Where(init, pred)[0];
    assert s[j] == init[j] && pred(s[j]);
  }

  /** A non-matching last element changes no position's uniqueness. */
  lemma UnmatchedLastKeepsUnique<T>(s: seq<T>, pred: T -> bool)
    requires s != [] && !pred(s[|s| - 1])
    ensures forall i :: UniqueMatchAt(s, pred, i) <==> UniqueMatchAt(s[..|s| - 1], pred, i)
  {
    var init := s[..|s| - 1];
    assert forall j :: 0 <= j < |init| ==> s[j] == init[j];
  }

  /**
   * TryGetOnly: true iff exactly one element satisfies the pred, and
   * then `result` is that element. With no match `result` keeps the
   * default; with two or more it holds the first match. A null source gives
   * false and the default.
   */
  method TryGetOnly<T>(source: Option<seq<T>>, pred: T -> bool, defaultValue: T) returns (found: bool, result: T)
    ensures source.None? ==> !found && result == defaultValue
    ensures source.Some? ==> (found <==> |Where(source.value, pred)| == 1)
    ensures source.Some? && Where(source.value, pred) == [] ==> result == defaultValue
    ensures source.Some? && Where(source.value, pred) != [] ==> result == Where(source.value, pred)[0]
  {
    result := defaultValue;
    if source.None? {
      return false, result;
    }
    var s := source.value;
    var valueFound := false;
    var i := 0;
    ghost var matched: seq<T> := [];
    while i < |s|
      invariant 0 <= i <= |s|
      invariant matched == Where(s[..i], pred)
      invariant |matched| <= 1
      invariant valueFound <==> |matched| == 1
      invariant valueFound ==> result == matched[0]
      invariant !valueFound ==> result == defaultValue
    {
      StepWhere(s, i, pred);
      if pred(s[i]) {
        if valueFound {
          SecondMatch(s, i + 1, pred);
          return false, result;
        }
        valueFound := true;
        result := s[i];
      }
      matched := Where(s[..i + 1], pred);
      i := i + 1;
    }
    assert s[..i] == s;
    return valueFound, result;
  }

  lemma StepWhere<T>(s: seq<T>, i: nat, pred: T -> bool)
    requires i < |s|
    ensures Where(s[..i + 1], pred) == Where(s[..i], pred) + (if pred(s[i]) then [s[i]] else [])
  {
    WhereOfAppend(s[..i], s[i], pred);
    assert s[..i + 1] == s[..i] + [s[i]];
  }

  /** Once a prefix has two matches, the whole has at least two, led by the same first match. */
  lemma SecondMatch<T>(s: seq<T>, k: nat, pred: T -> bool)
    requires k <= |s| && |Where(s[..k], pred)| >= 2
    ensures |Where(s, pred)| >= 2 && Where(s, pred)[0] == Where(s[..k], pred)[0]
  {
    WherePrefix(s, k, pred);
  }

  /** Filtering a prefix gives a prefix of the filtered whole. */
  lemma {:induction false} WherePrefix<T>(s: seq<T>, k: nat, pred: T -> bool)
    requires k <= |s|
    ensures |Where(s[..k], pred)| <= |Where(s, pred)|
    ensures Where(s[..k], pred) == Where(s, pred)[..|Where(s[..k], pred)|]
    decreases |s|
  {
    if k == |s| {
      assert s[..k] == s;
    } else {
      var init := s[..|s| - 1];
      WherePrefix(init, k, pred);
      assert s[..k] == init[..k];
      var a, w := Where(init[..k], pred), Where(init, pred);
      assert Where(s, pred)[..|w|] == w;
      assert Where(s, pred)[..|w|][..|a|] == Where(s, pred)[..|a|];
    }
  }

  /** TryGetOnly without a pred: every element matches. */
  method TryGetOnlyElement<T>(source: Option<seq<T>>, defaultValue: T) returns (found: bool, result: T)
    ensures source.None? ==> !found && result == defaultValue
    ensures source.Some? ==> (found <==> |source.value| == 1)
    ensures source.Some? && |source.value| == 1 ==> result == source.value[0]
  {
    if source.Some? {
      WhereAll(source.value);
    }
    found, result := TryGetOnly(source, _ => true, defaultValue);
  }

  /**
   * OnlyOrDefault: the unique match, or the default when nothing or more
   * than one element matches; a null source raises.
   */
  method OnlyOrDefault<T>(source: Option<seq<T>>, pred: T -> bool, defaultValue: T) returns (r: Result<T, ArgumentNull>)
    ensures source.None? ==> r == Failure(ArgumentNull("source"))
    ensures source.Some? ==> r.Success?
    ensures source.Some? && |Where(source.value, pred)| == 1 ==> r.value == Where(source.value, pred)[0]
    ensures source.Some? && |Where(source.value, pred)| != 1 ==> r.value == defaultValue
  {
    if source.None? {
      return Failure(ArgumentNull("source"));
    }
    var s := source.value;
    var onlyValue := defaultValue;
    var valueFound := false;
    var i := 0;
    ghost var matched: seq<T> := [];
    while i < |s|
      invariant 0 <= i <= |s|
      invariant matched == Where(s[..i], pred)
      invariant |matched| <= 1
      invariant valueFound <==> |matched| == 1
      invariant valueFound ==> onlyValue == matched[0]
      invariant !valueFound ==> onlyValue == defaultValue
    {
      StepWhere(s, i, pred);
      if pred(s[i]) {
        if valueFound {
          SecondMatch(s, i + 1, pred);
          return Success(defaultValue);
        }
        valueFound := true;
        onlyValue := s[i];
      }
      matched := Where(s[..i + 1], pred);
      i := i + 1;
    }
    assert s[..i] == s;
    return Success(onlyValue);
  }

  /** OnlyOrDefault without a predicate: the sole element of a one-element source, the default otherwise. */
  method OnlyOrDefaultElement<T>(source: Option<seq<T>>, defaultValue: T) returns (r: Result<T, ArgumentNull>)
    ensures source.None? ==> r == Failure(ArgumentNull("source"))
    ensures source.Some? && |source.value| == 1 ==> r == Success(source.value[0])
    ensures source.Some? && |source.value| != 1 ==> r == Success(defaultValue)
  {
    if source.Some? {
      WhereAll(source.value);
    }
    r := OnlyOrDefault(source, _ => true, defaultValue);
  }

  /** OnlyOrFallback: the sole element of a one-element source, the fallback otherwise; a null source raises. */
  method OnlyOrFallback<T>(source: Option<seq<T>>, fallbackValue: T) returns (r: Result<T, ArgumentNull>)
    ensures source.None? ==> r == Failure(ArgumentNull("source"))
    ensures source.Some? && |source.value| == 1 ==> r == Success(source.value[0])
    ensures source.Some? && |source.value| != 1 ==> r == Success(fallbackValue)
  {
    if source.None? {
      return Failure(ArgumentNull("source"));
    }
    var s := source.value;
    var onlyValue := fallbackValue;
    var valueFound := false;
    var i := 0;
    while i < |s|
      invariant 0 <= i <= |s|
      invariant i <= 1
      invariant valueFound <==> i == 1
      invariant valueFound ==> onlyValue == s[0]
      invariant !valueFound ==> onlyValue == fallbackValue
    {
      if valueFound {
        return Success(fallbackValue);
      }
      valueFound := true;
      onlyValue := s[i];
      i := i + 1;
    }
    return Success(onlyValue);
  }
}
