/**
 Python's `Counter(values)` followed by `zip(*counts.items())`: the distinct
 values in order of first appearance, each with its number of occurrences.
 */
module Counting {
  import opened Json

  /** No element occurs twice. */
  predicate Distinct<T(==)>(s: seq<T>)
  {
    forall i, j :: 0 <= i < j < |s| ==> s[i] != s[j]
  }

  /** The distinct values of `s`, each kept where it first appears. */
  function Dedup(s: seq<Value>): seq<Value>
  {
    if |s| == 0 then []
    else
      var d := Dedup(s[..|s| - 1]);
      var v := s[|s| - 1];
      if v in d then d else d + [v]
  }

  /** Dedup of a sequence extended by one value. */
  lemma DedupSnoc(init: seq<Value>, v: Value)
    ensures Dedup(init + [v]) == if v in Dedup(init) then Dedup(init) else Dedup(init) + [v]
  {
    var s := init + [v];
    assert s[..|s| - 1] == init;
  }

  /** Dedup keeps exactly the values of `s`, each once, so it is no longer than `s`. */
  lemma {:induction false} DedupSpec(s: seq<Value>)
    ensures Distinct(Dedup(s))
    ensures forall x :: x in Dedup(s) <==> x in s
    ensures |Dedup(s)| <= |s|
  {
    if |s| > 0 {
      var init := s[..|s| - 1];
      var v := s[|s| - 1];
      assert s == init + [v];
      DedupSpec(init);
      DedupSnoc(init, v);
    }
  }

  /** The index of the first occurrence of `x` in `s`, or `|s|` when there is none. */
  function FirstIndex(s: seq<Value>, x: Value): (i: nat)
    ensures i <= |s|
    ensures i < |s| <==> x in s
    ensures i < |s| ==> s[i] == x
    ensures forall j :: 0 <= j < i ==> s[j] != x
  {
    if |s| == 0 then 0 else if s[0] == x then 0 else 1 + FirstIndex(s[1..], x)
  }

  /** Dedup lists values in the order in which they first occur. */
  lemma {:induction false} DedupFirstSeenOrder(s: seq<Value>)
    ensures forall i, j :: 0 <= i < j < |Dedup(s)| ==>
              FirstIndex(s, Dedup(s)[i]) < FirstIndex(s, Dedup(s)[j])
  {
    if |s| > 0 {
      var init := s[..|s| - 1];
      var v := s[|s| - 1];
      assert s == init + [v];
      DedupFirstSeenOrder(init);
      DedupSpec(init);
      DedupSnoc(init, v);
      var d := Dedup(init);
      forall i | 0 <= i < |d|
        ensures FirstIndex(s, d[i]) == FirstIndex(init, d[i]) < |init|
      {
        assert d[i] in init;
        FirstIndexPrefix(init, [v], d[i]);
      }
      if v !in d {
        assert v !in init;
        assert FirstIndex(s, v) == |init|;
        var d' := d + [v];
        assert forall i :: 0 <= i < |d| ==> d'[i] == d[i];
      }
    }
  }

  /** Appending after a prefix that already contains `x` does not move its first occurrence. */
  lemma {:induction false} FirstIndexPrefix(a: seq<Value>, b: seq<Value>, x: Value)
    requires x in a
    ensures FirstIndex(a + b, x) == FirstIndex(a, x)
  {
    if a[0] != x {
      assert (a + b)[1..] == a[1..] + b;
      FirstIndexPrefix(a[1..], b, x);
    }
  }

  /** The number of distinct values is the size of the set of values. */
  lemma {:induction false} DedupCountsDistinctValues(s: seq<Value>)
    ensures |Dedup(s)| == |set x | x in s|
  {
    DedupSpec(s);
    DistinctCard(Dedup(s));
    assert (set x | x in Dedup(s)) == (set x | x in s);
  }

  /** A sequence without repetitions is as long as the set of its elements is large. */
  lemma {:induction false} DistinctCard(s: seq<Value>)
    requires Distinct(s)
    ensures |s| == |set x | x in s|
  {
    if |s| > 0 {
      var init := s[..|s| - 1];
      var v := s[|s| - 1];
      assert s == init + [v];
      DistinctCard(init);
      assert v !in init;
      assert (set x | x in s) == (set x | x in init) + {v};
    }
  }

  /** The sum of a sequence of counts. */
  function Sum(xs: seq<nat>): nat
  {
    if |xs| == 0 then 0 else Sum(xs[..|xs| - 1]) + xs[|xs| - 1]
  }

  /** For each label, how often it occurs in `s`. */
  function CountsOf(labels: seq<Value>, s: seq<Value>): seq<nat>
  {
    if |labels| == 0 then []
    else CountsOf(labels[..|labels| - 1], s) + [multiset(s)[labels[|labels| - 1]]]
  }

  /** `CountsOf` pairs every label with its number of occurrences, position by position. */
  lemma {:induction false} CountsOfSpec(labels: seq<Value>, s: seq<Value>)
    ensures |CountsOf(labels, s)| == |labels|
    ensures forall i :: 0 <= i < |labels| ==> CountsOf(labels, s)[i] == multiset(s)[labels[i]]
  {
    if |labels| > 0 {
      CountsOfSpec(labels[..|labels| - 1], s);
    }
  }

  /** One more occurrence of `v` raises the total over distinct labels by one exactly when `v` is a label. */
  lemma {:induction false} SumCountsAppend(labels: seq<Value>, s: seq<Value>, v: Value)
    requires Distinct(labels)
    ensures Sum(CountsOf(labels, s + [v])) == Sum(CountsOf(labels, s)) + (if v in labels then 1 else 0)
  {
    if |labels| > 0 {
      var init := labels[..|labels| - 1];
      var x := labels[|labels| - 1];
      assert labels == init + [x];
      SumCountsAppend(init, s, v);
      assert multiset(s + [v]) == multiset(s) + multiset{v};
    }
  }

  /** Adding a label at the end adds its count to the total. */
  lemma SumCountsSnoc(labels: seq<Value>, x: Value, s: seq<Value>)
    ensures Sum(CountsOf(labels + [x], s)) == Sum(CountsOf(labels, s)) + multiset(s)[x]
  {
    var longer := labels + [x];
    assert longer[..|longer| - 1] == labels;
    var c := CountsOf(longer, s);
    assert c[..|c| - 1] == CountsOf(labels, s);
  }

  /** The counts of the distinct values add up to the number of values. */
  lemma {:induction false} TallySumsToLength(s: seq<Value>)
    ensures Sum(CountsOf(Dedup(s), s)) == |s|
  {
    if |s| > 0 {
      var init := s[..|s| - 1];
      var v := s[|s| - 1];
      assert s == init + [v];
      TallySumsToLength(init);
      var d := Dedup(init);
      DedupSpec(init);
      DedupSnoc(init, v);
      SumCountsAppend(d, init, v);
      assert multiset(s) == multiset(init) + multiset{v};
      if v !in d {
        assert multiset(init)[v] == 0;
        SumCountsSnoc(d, v, s);
      }
    }
  }

  /** The dictionary `Counter(s)` builds: one increment per element, in order. */
  function CounterOf(s: seq<Value>): map<Value, nat>
  {
    if |s| == 0 then map[]
    else
      var before := CounterOf(s[..|s| - 1]);
      var v := s[|s| - 1];
      before[v := if v in before then before[v] + 1 else 1]
  }

  /** The counter's keys are the values of `s`, and each maps to its number of occurrences. */
  lemma {:induction false} CounterOfSpec(s: seq<Value>)
    ensures forall x :: x in CounterOf(s) <==> x in s
    ensures forall x :: x in CounterOf(s) ==> CounterOf(s)[x] == multiset(s)[x]
  {
    if |s| > 0 {
      var init := s[..|s| - 1];
      var v := s[|s| - 1];
      assert s == init + [v];
      CounterOfSpec(init);
      assert multiset(s) == multiset(init) + multiset{v};
    }
  }

  /** A value is a key of the counter exactly when Dedup keeps it. */
  lemma CounterKeys(s: seq<Value>, x: Value)
    ensures x in CounterOf(s) <==> x in Dedup(s)
  {
    CounterOfSpec(s);
    DedupSpec(s);
  }

  /**
   `Counter(values)`: a dictionary from each value to its number of
   occurrences, whose keys in insertion order are the values in first-seen order.
   */
  method Count(values: seq<Value>) returns (counter: map<Value, nat>, keys: seq<Value>)
    ensures keys == Dedup(values)
    ensures counter == CounterOf(values)
    ensures forall x :: x in counter <==> x in keys
    ensures forall x :: x in counter ==> counter[x] == multiset(values)[x]
  {
    counter := map[];
    keys := [];
    var i := 0;
    while i < |values|
      invariant 0 <= i <= |values|
      invariant keys == Dedup(values[..i])
      invariant counter == CounterOf(values[..i])
    {
      var v := values[i];
      ghost var seen := values[..i];
      assert values[..i + 1] == seen + [v];
      DedupSnoc(seen, v);
      CounterKeys(seen, v);
      if v in counter {
        counter := counter[v := counter[v] + 1];
      } else {
        counter := counter[v := 1];
        keys := keys + [v];
      }
      i := i + 1;
    }
    assert values[..i] == values;
    CounterOfSpec(values);
    DedupSpec(values);
  }

  /** The second half of `zip(*counts.items())`: the count stored for each key, in key order. */
  method CountsInOrder(counter: map<Value, nat>, keys: seq<Value>) returns (counts: seq<nat>)
    requires forall x :: x in keys ==> x in counter
    ensures |counts| == |keys|
    ensures forall i :: 0 <= i < |keys| ==> counts[i] == counter[keys[i]]
  {
    counts := [];
    var j := 0;
    while j < |keys|
      invariant 0 <= j <= |keys|
      invariant |counts| == j
      invariant forall i :: 0 <= i < j ==> counts[i] == counter[keys[i]]
    {
      counts := counts + [counter[keys[j]]];
      j := j + 1;
    }
  }

  /**
   `Counter(values)` followed by `zip(*counts.items())`: the labels in
   first-seen order and, next to each, its number of occurrences.
   */
  method Tally(values: seq<Value>) returns (labels: seq<Value>, counts: seq<nat>)
    ensures labels == Dedup(values)
    ensures counts == CountsOf(labels, values)
    ensures forall i :: 0 <= i < |counts| ==> counts[i] >= 1
    ensures Sum(counts) == |values|
  {
    var counter;
    counter, labels := Count(values);
    counts := CountsInOrder(counter, labels);
    CountsOfSpec(labels, values);
    assert counts == CountsOf(labels, values);
    TallySumsToLength(values);
    DedupSpec(values);
    assert forall i :: 0 <= i < |counts| ==> labels[i] in values;
  }
}
