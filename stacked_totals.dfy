/** The stacked extent in terms of the column totals, and why it does not
    depend on the stacking order.

    When no dataset holds two datums with the same key, the top of the
    extent is the largest total of positive values at one key (or zero),
    and the bottom is the smallest total of negative values (or zero).
    Those totals are sums over all datasets, so permuting the datasets
    may change the offsets but not the extent.
 */
module StackedTotals {
  import opened StackedSpec

  /** No dataset holds two datums with the same key. */
  predicate UniqueKeys(ds: seq<Dataset>)
  {
    forall i, j, j' :: 0 <= i < |ds| && 0 <= j < j' < |ds[i]| ==> ds[i][j].key != ds[i][j'].key
  }

  /** The offsets the plot writes, one per datum. */
  function StackOffsets(ds: seq<Dataset>): seq<seq<int>>
  {
    seq(|ds|, i requires 0 <= i < |ds| =>
      seq(|ds[i]|, j requires 0 <= j < |ds[i]| => StackOffset(ds, i, j)))
  }

  /** Offsets shaped like the datasets, each the stack offset of its datum,
      are exactly the stack offsets. */
  lemma OffsetsAreStackOffsets(ds: seq<Dataset>, offs: seq<seq<int>>)
    requires Shaped(ds, offs)
    requires forall i, j :: 0 <= i < |ds| && 0 <= j < |ds[i]| ==> offs[i][j] == StackOffset(ds, i, j)
    ensures offs == StackOffsets(ds)
  {
    var so := StackOffsets(ds);
    forall i | 0 <= i < |ds| ensures offs[i] == so[i] {
    }
  }

  /** The total at key `k` of one polarity over all datasets. */
  function Total(ds: seq<Dataset>, k: Key, positive: bool): int
  {
    PrecedingSum(ds, |ds|, k, positive)
  }

  /** A key whose last value in `d` differs from the missing value has a
      last datum in `d`, and that datum carries the value. */
  lemma {:induction false} LastDatumOf(d: Dataset, k: Key, missing: int) returns (j: nat)
    requires LastValue(d, k, missing) != missing
    ensures j < |d| && d[j].key == k && d[j].value == LastValue(d, k, missing)
    ensures forall j' :: j < j' < |d| ==> d[j'].key != k
  {
    if d[|d| - 1].key == k {
      j := |d| - 1;
    } else {
      var init := d[..|d| - 1];
      j := LastDatumOf(init, k, missing);
      assert init[j] == d[j];
      forall j' | j < j' < |d| ensures d[j'].key != k {
        if j' < |d| - 1 {
          assert init[j'] == d[j'];
        }
      }
    }
  }

  /** A non-zero total of one polarity is the height at which some datum of
      that polarity ends. */
  lemma {:induction false} TotalIsReached(ds: seq<Dataset>, n: nat, k: Key, positive: bool) returns (i: nat, j: nat)
    requires n <= |ds|
    requires PrecedingSum(ds, n, k, positive) != 0
    ensures i < n && j < |ds[i]| && ds[i][j].key == k
    ensures (ds[i][j].value > 0) == positive
    ensures ds[i][j].value + StackOffset(ds, i, j) == PrecedingSum(ds, n, k, positive)
  {
    var v := LastValue(ds[n - 1], k, MissingValue());
    if Clamp(v, positive) != 0 {
      i := n - 1;
      j := LastDatumOf(ds[i], k, MissingValue());
      SegmentEndsAtNextOffset(ds, i, j);
    } else {
      i, j := TotalIsReached(ds, n - 1, k, positive);
    }
  }

  /** Every stacked height's sign follows its datum's polarity. */
  lemma HeightSign(ds: seq<Dataset>, i: nat, j: nat)
    requires i < |ds| && j < |ds[i]|
    ensures ds[i][j].value + StackOffset(ds, i, j) > 0 ==> ds[i][j].value > 0
    ensures ds[i][j].value + StackOffset(ds, i, j) < 0 ==> ds[i][j].value <= 0
  {
    StackOffsetSign(ds, i, j);
  }

  /** Every column total lies within the extent. */
  lemma TotalsWithinExtent(ds: seq<Dataset>, k: Key)
    requires Heights(ds, StackOffsets(ds)) != []
    ensures var e := ExtentOf(Heights(ds, StackOffsets(ds)));
            e[0] <= Total(ds, k, false) && Total(ds, k, true) <= e[1]
  {
    var offs := StackOffsets(ds);
    if Total(ds, k, true) != 0 {
      var i, j := TotalIsReached(ds, |ds|, k, true);
      HeightOfDatum(ds, offs, i, j);
    }
    if Total(ds, k, false) != 0 {
      var i, j := TotalIsReached(ds, |ds|, k, false);
      HeightOfDatum(ds, offs, i, j);
    }
  }

  /** The last datum at its key in its dataset ends no further from zero
      than the column total of its polarity. */
  lemma LastDatumWithinTotal(ds: seq<Dataset>, i: nat, j: nat)
    requires i < |ds| && j < |ds[i]|
    requires forall j' :: j < j' < |ds[i]| ==> ds[i][j'].key != ds[i][j].key
    ensures var h, k := ds[i][j].value + StackOffset(ds, i, j), ds[i][j].key;
            if ds[i][j].value > 0 then h <= Total(ds, k, true) else Total(ds, k, false) <= h
  {
    SegmentEndsAtNextOffset(ds, i, j);
    PrecedingSumMonotone(ds, i + 1, |ds|, ds[i][j].key, ds[i][j].value > 0);
  }

  /** With unique keys, a non-zero end of the extent is the column total of
      that end's polarity at some key. */
  lemma EndIsATotal(ds: seq<Dataset>, top: bool)
    requires UniqueKeys(ds)
    requires Heights(ds, StackOffsets(ds)) != []
    ensures var end := ExtentOf(Heights(ds, StackOffsets(ds)))[if top then 1 else 0];
            end == 0 || exists k :: k in Domain(ds) && end == Total(ds, k, top)
  {
    var offs := StackOffsets(ds);
    var end := ExtentOf(Heights(ds, offs))[if top then 1 else 0];
    if end != 0 {
      var i, j := DatumOfHeight(ds, offs, end);
      var k := ds[i][j].key;
      HeightSign(ds, i, j);
      LastDatumWithinTotal(ds, i, j);
      TotalsWithinExtent(ds, k);
      KeyInDomain(ds, i, j);
    }
  }

  /** With unique keys, the top of the extent is the largest positive column
      total or zero, and the bottom the smallest negative column total or zero. */
  lemma ExtentIsColumnTotals(ds: seq<Dataset>)
    requires UniqueKeys(ds)
    requires Heights(ds, StackOffsets(ds)) != []
    ensures var e := ExtentOf(Heights(ds, StackOffsets(ds)));
            && (forall k :: k in Domain(ds) ==> Total(ds, k, false) >= e[0] && Total(ds, k, true) <= e[1])
            && (e[0] == 0 || exists k :: k in Domain(ds) && e[0] == Total(ds, k, false))
            && (e[1] == 0 || exists k :: k in Domain(ds) && e[1] == Total(ds, k, true))
  {
    forall k | k in Domain(ds)
      ensures var e := ExtentOf(Heights(ds, StackOffsets(ds)));
              Total(ds, k, false) >= e[0] && Total(ds, k, true) <= e[1]
    {
      TotalsWithinExtent(ds, k);
    }
    EndIsATotal(ds, false);
    EndIsATotal(ds, true);
  }

  // ---------------------------------------------------------------------
  // Order independence

  /** The preceding sum up to `n` only reads the first `n` datasets. */
  lemma {:induction false} PrecedingSumAgrees(ds: seq<Dataset>, ds': seq<Dataset>, n: nat, k: Key, positive: bool)
    requires n <= |ds| && n <= |ds'| && ds[..n] == ds'[..n]
    ensures PrecedingSum(ds, n, k, positive) == PrecedingSum(ds', n, k, positive)
  {
    if n > 0 {
      assert ds[n - 1] == ds[..n][n - 1] == ds'[..n][n - 1] == ds'[n - 1];
      assert ds[..n - 1] == ds[..n][..n - 1] == ds'[..n][..n - 1] == ds'[..n - 1];
      PrecedingSumAgrees(ds, ds', n - 1, k, positive);
    }
  }

  lemma PrecedingSumOfPrefix(ds: seq<Dataset>, n: nat, k: Key, positive: bool)
    requires n <= |ds|
    ensures PrecedingSum(ds, n, k, positive) == Total(ds[..n], k, positive)
  {
    assert ds[..n][..n] == ds[..n];
    PrecedingSumAgrees(ds, ds[..n], n, k, positive);
  }

  /** Column totals add up over concatenated dataset sequences. */
  lemma {:induction false} TotalOfConcat(a: seq<Dataset>, b: seq<Dataset>, k: Key, positive: bool)
    ensures Total(a + b, k, positive) == Total(a, k, positive) + Total(b, k, positive)
  {
    if b == [] {
      assert a + b == a;
    } else {
      var b' := b[..|b| - 1];
      TotalOfConcat(a, b', k, positive);
      assert (a + b)[..|a + b| - 1] == a + b';
      assert (a + b)[|a + b| - 1] == b[|b| - 1];
      PrecedingSumOfPrefix(a + b, |a + b| - 1, k, positive);
      PrecedingSumOfPrefix(b, |b| - 1, k, positive);
    }
  }

  /** Taking one dataset out of the sequence takes its share out of the total. */
  lemma TotalWithout(ds: seq<Dataset>, p: nat, k: Key, positive: bool)
    requires p < |ds|
    ensures Total(ds, k, positive) == Total(ds[..p] + ds[p + 1..], k, positive) + Total([ds[p]], k, positive)
  {
    assert ds == ds[..p] + [ds[p]] + ds[p + 1..];
    TotalOfConcat(ds[..p] + [ds[p]], ds[p + 1..], k, positive);
    TotalOfConcat(ds[..p], [ds[p]], k, positive);
    TotalOfConcat(ds[..p], ds[p + 1..], k, positive);
  }

  lemma MultisetWithout(ds: seq<Dataset>, p: nat)
    requires p < |ds|
    ensures multiset(ds[..p] + ds[p + 1..]) == multiset(ds) - multiset{ds[p]}
  {
    assert ds == ds[..p] + [ds[p]] + ds[p + 1..];
    assert multiset(ds) == multiset(ds[..p]) + multiset{ds[p]} + multiset(ds[p + 1..]);
  }

  /** Column totals do not depend on the order of the datasets. */
  lemma {:induction false} TotalOfPermutation(ds: seq<Dataset>, ds': seq<Dataset>, k: Key, positive: bool)
    requires multiset(ds) == multiset(ds')
    ensures Total(ds, k, positive) == Total(ds', k, positive)
    decreases |ds|
  {
    if ds == [] {
      assert ds' == [];
    } else {
      var n := |ds| - 1;
      var last := ds[n];
      assert last in multiset(ds');
      var p :| 0 <= p < |ds'| && ds'[p] == last;
      MultisetWithout(ds', p);
      MultisetWithout(ds, n);
      assert ds[..n] + ds[n + 1..] == ds[..n];
      TotalOfPermutation(ds[..n], ds'[..p] + ds'[p + 1..], k, positive);
      TotalWithout(ds, n, k, positive);
      TotalWithout(ds', p, k, positive);
    }
  }

  /** The key domain does not depend on the order of the datasets. */
  lemma DomainOfPermutation(ds: seq<Dataset>, ds': seq<Dataset>)
    requires multiset(ds) == multiset(ds')
    ensures Domain(ds) == Domain(ds')
  {
    forall k | k in Domain(ds) ensures k in Domain(ds') {
      DomainIsAllKeys(ds, k);
      var i, j :| 0 <= i < |ds| && 0 <= j < |ds[i]| && ds[i][j].key == k;
      assert ds[i] in multiset(ds');
      var i' :| 0 <= i' < |ds'| && ds'[i'] == ds[i];
      KeyInDomain(ds', i', j);
    }
    forall k | k in Domain(ds') ensures k in Domain(ds) {
      DomainIsAllKeys(ds', k);
      var i, j :| 0 <= i < |ds'| && 0 <= j < |ds'[i]| && ds'[i][j].key == k;
      assert ds'[i] in multiset(ds);
      var i' :| 0 <= i' < |ds| && ds[i'] == ds'[i];
      KeyInDomain(ds, i', j);
    }
  }

  /** Permuting the datasets keeps every dataset, so no dataset repeats a
      key afterwards either. */
  lemma UniqueKeysOfPermutation(ds: seq<Dataset>, ds': seq<Dataset>)
    requires multiset(ds) == multiset(ds') && UniqueKeys(ds)
    ensures UniqueKeys(ds')
  {
    forall i, j, j' | 0 <= i < |ds'| && 0 <= j < j' < |ds'[i]| ensures ds'[i][j].key != ds'[i][j'].key {
      assert ds'[i] in multiset(ds);
      var i' :| 0 <= i' < |ds| && ds[i'] == ds'[i];
      assert ds[i'][j] == ds'[i][j] && ds[i'][j'] == ds'[i][j'];
    }
  }

  /** Permuting the datasets keeps every datum, so some height remains. */
  lemma HeightsOfPermutation(ds: seq<Dataset>, ds': seq<Dataset>)
    requires multiset(ds) == multiset(ds')
    requires Heights(ds, StackOffsets(ds)) != []
    ensures Heights(ds', StackOffsets(ds')) != []
  {
    HeightsEmpty(ds, StackOffsets(ds));
    var i :| 0 <= i < |ds| && ds[i] != [];
    assert ds[i] in multiset(ds');
    var i' :| 0 <= i' < |ds'| && ds'[i'] == ds[i];
    HeightsEmpty(ds', StackOffsets(ds'));
  }

  /** Each end of the extent of a permutation lies within the original
      extent. */
  lemma EndOfPermutation(ds: seq<Dataset>, ds': seq<Dataset>, top: bool)
    requires multiset(ds) == multiset(ds') && UniqueKeys(ds')
    requires Heights(ds, StackOffsets(ds)) != [] && Heights(ds', StackOffsets(ds')) != []
    ensures var e, e' := ExtentOf(Heights(ds, StackOffsets(ds))), ExtentOf(Heights(ds', StackOffsets(ds')));
            if top then e'[1] <= e[1] else e[0] <= e'[0]
  {
    EndIsATotal(ds', top);
    var end := ExtentOf(Heights(ds', StackOffsets(ds')))[if top then 1 else 0];
    if end != 0 {
      var k :| k in Domain(ds') && end == Total(ds', k, top);
      TotalOfPermutation(ds', ds, k, top);
      TotalsWithinExtent(ds, k);
    }
  }

  /** Stacking the same datasets in another order gives the same extent. */
  lemma ExtentIgnoresOrder(ds: seq<Dataset>, ds': seq<Dataset>)
    requires multiset(ds) == multiset(ds')
    requires UniqueKeys(ds)
    requires Heights(ds, StackOffsets(ds)) != []
    ensures UniqueKeys(ds') && Heights(ds', StackOffsets(ds')) != []
    ensures ExtentOf(Heights(ds, StackOffsets(ds))) == ExtentOf(Heights(ds', StackOffsets(ds')))
  {
    UniqueKeysOfPermutation(ds, ds');
    HeightsOfPermutation(ds, ds');
    EndOfPermutation(ds, ds', true);
    EndOfPermutation(ds, ds', false);
    EndOfPermutation(ds', ds, true);
    EndOfPermutation(ds', ds, false);
  }
}
