/** Pure specification of the stacking computation of a stacked plot.

    A stacked plot receives datasets in stacking order. Each dataset is a
    sequence of datums, and each datum has a key (the position on the shared
    key axis) and a numeric value. Every datum gets an offset: the height at
    which its segment starts. Positive values stack upwards from zero and
    the others stack downwards from zero, each polarity on its own. The
    stacked extent is the smallest range that holds zero and every
    value + offset.

    The key and value accessors are already applied here: the orientation
    switch of the plot only decides which projector supplies the key and
    which the value.
 */
module StackedSpec {

  /** Keys are compared as strings, as the key maps of the plot do. */
  type Key = string

  /** A datum as the stacking sees it: its key and its value. */
  datatype Datum = Datum(key: Key, value: int)

  type Dataset = seq<Datum>

  /** The value a dataset contributes at a domain key it has no datum for. */
  function MissingValue(): int { 0 }

  function Max(a: int, b: int): int { if a < b then b else a }

  function Min(a: int, b: int): int { if a < b then a else b }

  // ---------------------------------------------------------------------
  // Key domain

  /** The keys of the datums of one dataset. */
  function Keys(d: Dataset): set<Key>
  {
    if d == [] then {} else Keys(d[..|d| - 1]) + {d[|d| - 1].key}
  }

  /** The key domain: the keys of all datums of all datasets. */
  function Domain(ds: seq<Dataset>): set<Key>
  {
    if ds == [] then {} else Domain(ds[..|ds| - 1]) + Keys(ds[|ds| - 1])
  }

  lemma {:induction false} KeysAreDatumKeys(d: Dataset, k: Key)
    ensures k in Keys(d) <==> exists j :: 0 <= j < |d| && d[j].key == k
  {
    if d != [] {
      var init := d[..|d| - 1];
      KeysAreDatumKeys(init, k);
      if k in Keys(init) {
        var j :| 0 <= j < |init| && init[j].key == k;
        assert d[j].key == k;
      }
      if j :| 0 <= j < |d| && d[j].key == k {
        if j < |d| - 1 {
          assert init[j].key == k;
        }
      }
    }
  }

  /** The domain holds exactly the keys that some datum of some dataset has. */
  lemma {:induction false} DomainIsAllKeys(ds: seq<Dataset>, k: Key)
    ensures k in Domain(ds) <==>
            exists i, j :: 0 <= i < |ds| && 0 <= j < |ds[i]| && ds[i][j].key == k
  {
    if ds != [] {
      var init, last := ds[..|ds| - 1], ds[|ds| - 1];
      DomainIsAllKeys(init, k);
      KeysAreDatumKeys(last, k);
      if k in Domain(init) {
        var i, j :| 0 <= i < |init| && 0 <= j < |init[i]| && init[i][j].key == k;
        assert ds[i][j].key == k;
      }
      if k in Keys(last) {
        var j :| 0 <= j < |last| && last[j].key == k;
        assert ds[|ds| - 1][j].key == k;
      }
      if i, j :| 0 <= i < |ds| && 0 <= j < |ds[i]| && ds[i][j].key == k {
        if i < |ds| - 1 {
          assert init[i][j].key == k;
        }
      }
    }
  }

  lemma KeyInDomain(ds: seq<Dataset>, i: nat, j: nat)
    requires i < |ds| && j < |ds[i]|
    ensures ds[i][j].key in Domain(ds)
  {
    DomainIsAllKeys(ds, ds[i][j].key);
  }

  // ---------------------------------------------------------------------
  // Default maps

  /** The value of the last datum of `d` with key `k`, or `missing` when
      `d` has no datum with that key. */
  function LastValue(d: Dataset, k: Key, missing: int): int
  {
    if d == [] then missing
    else if d[|d| - 1].key == k then d[|d| - 1].value
    else LastValue(d[..|d| - 1], k, missing)
  }

  /** A dataset without a datum for the key gives the missing value. */
  lemma {:induction false} LastValueOfAbsentKey(d: Dataset, k: Key, missing: int)
    requires forall j :: 0 <= j < |d| ==> d[j].key != k
    ensures LastValue(d, k, missing) == missing
  {
    if d != [] {
      var init := d[..|d| - 1];
      assert forall j :: 0 <= j < |init| ==> init[j].key != k by {
        forall j | 0 <= j < |init| ensures init[j].key != k {
          assert init[j] == d[j];
        }
      }
      LastValueOfAbsentKey(init, k, missing);
    }
  }

  /** Among several datums with the key, the one last in data order wins. */
  lemma {:induction false} LastValueOfLastDatum(d: Dataset, k: Key, missing: int, j: nat)
    requires j < |d| && d[j].key == k
    requires forall j' :: j < j' < |d| ==> d[j'].key != k
    ensures LastValue(d, k, missing) == d[j].value
  {
    if j < |d| - 1 {
      var init := d[..|d| - 1];
      assert init[j] == d[j];
      assert forall j' :: j < j' < |init| ==> init[j'].key != k by {
        forall j' | j < j' < |init| ensures init[j'].key != k {
          assert init[j'] == d[j'];
        }
      }
      LastValueOfLastDatum(init, k, missing, j);
    }
  }

  /** The map the plot builds for one dataset: every domain key, mapped to
      the dataset's value there or to the missing value. */
  function DefaultMap(d: Dataset, domain: set<Key>): map<Key, int>
  {
    map k | k in domain :: LastValue(d, k, MissingValue())
  }

  function DefaultMaps(ds: seq<Dataset>): seq<map<Key, int>>
  {
    seq(|ds|, i requires 0 <= i < |ds| => DefaultMap(ds[i], Domain(ds)))
  }

  /** A domain key a dataset has no datum for maps to the missing value,
      zero, in that dataset's default map. */
  lemma AbsentKeyMapsToZero(ds: seq<Dataset>, i: nat, k: Key)
    requires i < |ds| && k in Domain(ds)
    requires forall j :: 0 <= j < |ds[i]| ==> ds[i][j].key != k
    ensures k in DefaultMaps(ds)[i] && DefaultMaps(ds)[i][k] == 0
  {
    LastValueOfAbsentKey(ds[i], k, MissingValue());
  }

  // ---------------------------------------------------------------------
  // Sign split

  /** `v` clamped to the given polarity: max(0, v) when positive, min(v, 0) when not. */
  function Clamp(v: int, positive: bool): int
  {
    if positive then Max(0, v) else Min(v, 0)
  }

  function SignPart(m: map<Key, int>, positive: bool): map<Key, int>
  {
    map k | k in m :: Clamp(m[k], positive)
  }

  function SignParts(ms: seq<map<Key, int>>, positive: bool): seq<map<Key, int>>
  {
    seq(|ms|, i requires 0 <= i < |ms| => SignPart(ms[i], positive))
  }

  /** The two parts keep the key set, carry the right signs, add up to the
      original value, and at most one of them is non-zero. */
  lemma SignSplit(m: map<Key, int>, k: Key)
    requires k in m
    ensures SignPart(m, true).Keys == m.Keys && SignPart(m, false).Keys == m.Keys
    ensures SignPart(m, true)[k] >= 0 && SignPart(m, false)[k] <= 0
    ensures SignPart(m, true)[k] + SignPart(m, false)[k] == m[k]
    ensures SignPart(m, true)[k] == 0 || SignPart(m, false)[k] == 0
  {
  }

  // ---------------------------------------------------------------------
  // Offsets

  /** Every map of `ms` has key `k`. */
  predicate HasKey(ms: seq<map<Key, int>>, k: Key)
  {
    forall i :: 0 <= i < |ms| ==> k in ms[i]
  }

  /** All maps of `ms` have the same key set. */
  predicate SameKeys(ms: seq<map<Key, int>>)
  {
    forall i :: 0 <= i < |ms| ==> ms[i].Keys == ms[0].Keys
  }

  /** Splitting keeps a common key set. */
  lemma SignPartsKeys(ms: seq<map<Key, int>>, keys: set<Key>, positive: bool)
    requires forall i :: 0 <= i < |ms| ==> ms[i].Keys == keys
    ensures |SignParts(ms, positive)| == |ms|
    ensures forall i :: 0 <= i < |ms| ==> SignParts(ms, positive)[i].Keys == keys
    ensures SameKeys(SignParts(ms, positive))
  {
    var split := SignParts(ms, positive);
    forall i | 0 <= i < |ms| ensures split[i].Keys == keys {
      assert split[i] == SignPart(ms[i], positive);
    }
  }

  /** The sum at key `k` of the first `n` maps. */
  function ColumnSum(ms: seq<map<Key, int>>, n: nat, k: Key): int
    requires n <= |ms| && HasKey(ms, k)
  {
    if n == 0 then 0 else ColumnSum(ms, n - 1, k) + ms[n - 1][k]
  }

  /** The offset of dataset `n` at key `k` for one polarity, stated on the
      datasets themselves: the sum of the clamped values at `k` of the
      datasets that precede it. */
  function PrecedingSum(ds: seq<Dataset>, n: nat, k: Key, positive: bool): int
    requires n <= |ds|
  {
    if n == 0 then 0
    else PrecedingSum(ds, n - 1, k, positive) + Clamp(LastValue(ds[n - 1], k, MissingValue()), positive)
  }

  /** The offset the plot writes onto datum `j` of dataset `i`: the positive
      offset at its key when its value is strictly positive, the negative one
      otherwise (a zero value included). */
  function StackOffset(ds: seq<Dataset>, i: nat, j: nat): int
    requires i < |ds| && j < |ds[i]|
  {
    PrecedingSum(ds, i, ds[i][j].key, ds[i][j].value > 0)
  }

  /** The split default map of dataset `i` holds the clamped last value of
      every domain key. */
  lemma SplitEntry(ds: seq<Dataset>, i: nat, k: Key, positive: bool)
    requires i < |ds| && k in Domain(ds)
    ensures k in SignParts(DefaultMaps(ds), positive)[i]
    ensures SignParts(DefaultMaps(ds), positive)[i][k] == Clamp(LastValue(ds[i], k, MissingValue()), positive)
  {
    assert SignParts(DefaultMaps(ds), positive)[i] == SignPart(DefaultMap(ds[i], Domain(ds)), positive);
  }

  /** Column `k` of `ms` holds, map by map, the clamped last value at `k` of
      the dataset in the same position. */
  ghost predicate ClampedColumn(ms: seq<map<Key, int>>, ds: seq<Dataset>, k: Key, positive: bool)
  {
    && |ms| == |ds|
    && forall i :: 0 <= i < |ds| ==> k in ms[i] && ms[i][k] == Clamp(LastValue(ds[i], k, MissingValue()), positive)
  }

  /** The split default maps hold the clamped last values at every domain key. */
  lemma SplitDefaultMapsColumn(ds: seq<Dataset>, k: Key, positive: bool)
    requires k in Domain(ds)
    ensures ClampedColumn(SignParts(DefaultMaps(ds), positive), ds, k, positive)
  {
    forall i | 0 <= i < |ds|
      ensures k in SignParts(DefaultMaps(ds), positive)[i]
      ensures SignParts(DefaultMaps(ds), positive)[i][k] == Clamp(LastValue(ds[i], k, MissingValue()), positive)
    {
      SplitEntry(ds, i, k, positive);
    }
  }

  /** Running sums over a clamped column are the preceding sums. */
  lemma {:induction false} SplitColumnSum(ms: seq<map<Key, int>>, ds: seq<Dataset>, n: nat, k: Key, positive: bool)
    requires n <= |ds| && ClampedColumn(ms, ds, k, positive)
    ensures HasKey(ms, k)
    ensures ColumnSum(ms, n, k) == PrecedingSum(ds, n, k, positive)
  {
    if n > 0 {
      SplitColumnSum(ms, ds, n - 1, k, positive);
    }
  }

  /** Positive offsets never go below zero and negative ones never above. */
  lemma {:induction false} PrecedingSumSign(ds: seq<Dataset>, n: nat, k: Key, positive: bool)
    requires n <= |ds|
    ensures positive ==> PrecedingSum(ds, n, k, positive) >= 0
    ensures !positive ==> PrecedingSum(ds, n, k, positive) <= 0
  {
    if n > 0 {
      PrecedingSumSign(ds, n - 1, k, positive);
    }
  }

  /** Positive offsets grow and negative offsets shrink along the stacking order. */
  lemma {:induction false} PrecedingSumMonotone(ds: seq<Dataset>, n: nat, m: nat, k: Key, positive: bool)
    requires n <= m <= |ds|
    ensures positive ==> PrecedingSum(ds, n, k, positive) <= PrecedingSum(ds, m, k, positive)
    ensures !positive ==> PrecedingSum(ds, m, k, positive) <= PrecedingSum(ds, n, k, positive)
  {
    if n < m {
      PrecedingSumMonotone(ds, n, m - 1, k, positive);
    }
  }

  /** The first dataset sits on the baseline; the sign of every offset
      follows the polarity that the datum's value selects. */
  lemma StackOffsetSign(ds: seq<Dataset>, i: nat, j: nat)
    requires i < |ds| && j < |ds[i]|
    ensures i == 0 ==> StackOffset(ds, i, j) == 0
    ensures ds[i][j].value > 0 ==> StackOffset(ds, i, j) >= 0
    ensures ds[i][j].value <= 0 ==> StackOffset(ds, i, j) <= 0
  {
    PrecedingSumSign(ds, i, ds[i][j].key, ds[i][j].value > 0);
  }

  /** A datum that is the last with its key in its dataset ends exactly where
      the next dataset's segment of the same polarity starts. */
  lemma SegmentEndsAtNextOffset(ds: seq<Dataset>, i: nat, j: nat)
    requires i < |ds| && j < |ds[i]|
    requires forall j' :: j < j' < |ds[i]| ==> ds[i][j'].key != ds[i][j].key
    ensures ds[i][j].value + StackOffset(ds, i, j) ==
            PrecedingSum(ds, i + 1, ds[i][j].key, ds[i][j].value > 0)
  {
    LastValueOfLastDatum(ds[i], ds[i][j].key, MissingValue(), j);
  }

  /** The last datum with its key in a dataset (the one whose value the key
      maps carry) ends at or before where every later dataset's segment of
      its polarity starts, and its segment lies on its own side of zero. */
  lemma NoOverlap(ds: seq<Dataset>, i: nat, j: nat, later: nat)
    requires i < later <= |ds| && j < |ds[i]|
    requires forall j' :: j < j' < |ds[i]| ==> ds[i][j'].key != ds[i][j].key
    ensures var k, v := ds[i][j].key, ds[i][j].value;
            v > 0 ==> StackOffset(ds, i, j) <= v + StackOffset(ds, i, j) <= PrecedingSum(ds, later, k, true)
    ensures var k, v := ds[i][j].key, ds[i][j].value;
            v <= 0 ==> PrecedingSum(ds, later, k, false) <= v + StackOffset(ds, i, j) <= StackOffset(ds, i, j)
  {
    SegmentEndsAtNextOffset(ds, i, j);
    PrecedingSumMonotone(ds, i + 1, later, ds[i][j].key, ds[i][j].value > 0);
  }

  // ---------------------------------------------------------------------
  // Extent

  /** `offs[i][j]` is there for every datum `ds[i][j]`. */
  predicate Shaped(ds: seq<Dataset>, offs: seq<seq<int>>)
  {
    |offs| == |ds| && forall i :: 0 <= i < |ds| ==> |offs[i]| == |ds[i]|
  }

  function RowHeights(d: Dataset, o: seq<int>): seq<int>
    requires |o| == |d|
  {
    seq(|d|, j requires 0 <= j < |d| => d[j].value + o[j])
  }

  /** value + offset of every datum, datasets in order and data in order. */
  function Heights(ds: seq<Dataset>, offs: seq<seq<int>>): seq<int>
    requires Shaped(ds, offs)
  {
    if ds == [] then []
    else Heights(ds[..|ds| - 1], offs[..|ds| - 1]) + RowHeights(ds[|ds| - 1], offs[|ds| - 1])
  }

  /** Every datum's value + offset is a height. */
  lemma {:induction false} HeightOfDatum(ds: seq<Dataset>, offs: seq<seq<int>>, i: nat, j: nat)
    requires Shaped(ds, offs) && i < |ds| && j < |ds[i]|
    ensures ds[i][j].value + offs[i][j] in Heights(ds, offs)
  {
    var n := |ds| - 1;
    var row := RowHeights(ds[n], offs[n]);
    assert Heights(ds, offs) == Heights(ds[..n], offs[..n]) + row;
    if i < n {
      assert ds[..n][i] == ds[i] && offs[..n][i] == offs[i];
      HeightOfDatum(ds[..n], offs[..n], i, j);
    } else {
      assert row[j] == ds[i][j].value + offs[i][j];
    }
  }

  /** Every height is some datum's value + offset. */
  lemma {:induction false} DatumOfHeight(ds: seq<Dataset>, offs: seq<seq<int>>, h: int) returns (i: nat, j: nat)
    requires Shaped(ds, offs) && h in Heights(ds, offs)
    ensures i < |ds| && j < |ds[i]| && h == ds[i][j].value + offs[i][j]
  {
    assert ds != [];
    var n := |ds| - 1;
    var row := RowHeights(ds[n], offs[n]);
    assert Heights(ds, offs) == Heights(ds[..n], offs[..n]) + row;
    if h in row {
      j :| 0 <= j < |row| && row[j] == h;
      i := n;
    } else {
      i, j := DatumOfHeight(ds[..n], offs[..n], h);
      assert ds[..n][i] == ds[i] && offs[..n][i] == offs[i];
    }
  }

  lemma HeightsAreDatumHeights(ds: seq<Dataset>, offs: seq<seq<int>>, h: int)
    requires Shaped(ds, offs)
    ensures h in Heights(ds, offs) <==>
            exists i, j :: 0 <= i < |ds| && 0 <= j < |ds[i]| && h == ds[i][j].value + offs[i][j]
  {
    if h in Heights(ds, offs) {
      var i, j := DatumOfHeight(ds, offs, h);
    }
    if i, j :| 0 <= i < |ds| && 0 <= j < |ds[i]| && h == ds[i][j].value + offs[i][j] {
      HeightOfDatum(ds, offs, i, j);
    }
  }

  /** There is a height exactly when some dataset has a datum. */
  lemma HeightsEmpty(ds: seq<Dataset>, offs: seq<seq<int>>)
    requires Shaped(ds, offs)
    ensures Heights(ds, offs) == [] <==> forall i :: 0 <= i < |ds| ==> ds[i] == []
  {
    if Heights(ds, offs) != [] {
      var i, j := DatumOfHeight(ds, offs, Heights(ds, offs)[0]);
    }
    if i :| 0 <= i < |ds| && ds[i] != [] {
      HeightOfDatum(ds, offs, i, 0);
    }
  }

  function MaxOf(xs: seq<int>): (r: int)
    requires xs != []
    ensures r in xs && forall x :: x in xs ==> x <= r
  {
    if |xs| == 1 then xs[0]
    else
      var rest := MaxOf(xs[1..]);
      assert xs == [xs[0]] + xs[1..];
      Max(xs[0], rest)
  }

  function MinOf(xs: seq<int>): (r: int)
    requires xs != []
    ensures r in xs && forall x :: x in xs ==> r <= x
  {
    if |xs| == 1 then xs[0]
    else
      var rest := MinOf(xs[1..]);
      assert xs == [xs[0]] + xs[1..];
      Min(xs[0], rest)
  }

  /** [min(0, min of hs), max(0, max of hs)]: the smallest range that holds
      zero and every height, each end either zero or a height. */
  function ExtentOf(hs: seq<int>): (e: seq<int>)
    requires hs != []
    ensures |e| == 2 && e[0] <= 0 <= e[1]
    ensures forall h :: h in hs ==> e[0] <= h <= e[1]
    ensures e[0] == 0 || e[0] in hs
    ensures e[1] == 0 || e[1] in hs
  {
    [Min(MinOf(hs), 0), Max(0, MaxOf(hs))]
  }

  /** Every datum's value + offset lies inside the extent of the heights. */
  lemma ExtentFramesEveryDatum(ds: seq<Dataset>, offs: seq<seq<int>>)
    requires Shaped(ds, offs) && Heights(ds, offs) != []
    ensures forall i, j :: 0 <= i < |ds| && 0 <= j < |ds[i]| ==>
              ExtentOf(Heights(ds, offs))[0] <= ds[i][j].value + offs[i][j] <= ExtentOf(Heights(ds, offs))[1]
  {
    var e := ExtentOf(Heights(ds, offs));
    forall i, j | 0 <= i < |ds| && 0 <= j < |ds[i]|
      ensures e[0] <= ds[i][j].value + offs[i][j] <= e[1]
    {
      HeightOfDatum(ds, offs, i, j);
    }
  }
}
