/** Worked stackings: the offsets and the extent of small, concrete inputs. */
module StackedScenarios {
  import opened StackedSpec
  import opened StackedTotals

  /** Two datasets over keys "a" and "b": {a: 3, b: -2} then {a: 1, b: 4}.
      The second dataset's 1 at "a" sits on the first one's 3; its 4 at "b"
      sits on zero, because the only earlier value at "b" is negative. */
  lemma MixedSigns()
    ensures var ds := [[Datum("a", 3), Datum("b", -2)], [Datum("a", 1), Datum("b", 4)]];
            && StackOffsets(ds) == [[0, 0], [3, 0]]
            && ExtentOf(Heights(ds, StackOffsets(ds))) == [-2, 4]
  {
    var ds := [[Datum("a", 3), Datum("b", -2)], [Datum("a", 1), Datum("b", 4)]];
    assert ds[0][..1] == [Datum("a", 3)];
    assert LastValue(ds[0], "b", 0) == -2;
    assert LastValue(ds[0], "a", 0) == 3;
    assert PrecedingSum(ds, 1, "b", true) == 0;
    assert PrecedingSum(ds, 1, "a", true) == 3;
    var offs := [[0, 0], [3, 0]];
    OffsetsAreStackOffsets(ds, offs);
    assert ds[..1] == [ds[0]] && offs[..1] == [offs[0]];
    assert Heights(ds[..1], offs[..1]) == [3, -2] by {
      assert ds[..1][..0] == [];
    }
    assert Heights(ds, offs) == [3, -2, 4, 4];
    var hs := [3, -2, 4, 4];
    assert hs[1..] == [-2, 4, 4] && hs[1..][1..] == [4, 4] && hs[1..][1..][1..] == [4];
    assert MaxOf(hs) == 4 && MinOf(hs) == -2;
  }

  /** A dataset that lacks a key counts as zero there: the third dataset's
      values at "a" and "b" sit on 2 and on 3, each from the one earlier
      dataset that has the key. */
  lemma MissingKeyCountsAsZero()
    ensures var ds := [[Datum("a", 2)], [Datum("b", 3)], [Datum("a", 1), Datum("b", 1)]];
            && StackOffset(ds, 2, 0) == 2
            && StackOffset(ds, 2, 1) == 3
            && StackOffset(ds, 1, 0) == 0
  {
    var ds := [[Datum("a", 2)], [Datum("b", 3)], [Datum("a", 1), Datum("b", 1)]];
    assert ds[0][..0] == [] && ds[1][..0] == [];
    assert LastValue(ds[0], "b", 0) == 0;
    assert LastValue(ds[1], "a", 0) == 0;
    assert PrecedingSum(ds, 2, "a", true) == 2;
    assert PrecedingSum(ds, 2, "b", true) == 3;
  }

  /** Zero values everywhere: every offset is zero and so is the extent. */
  lemma AllZero()
    ensures var ds := [[Datum("a", 0)], [Datum("a", 0)]];
            && StackOffsets(ds) == [[0], [0]]
            && ExtentOf(Heights(ds, StackOffsets(ds))) == [0, 0]
  {
    var ds := [[Datum("a", 0)], [Datum("a", 0)]];
    assert PrecedingSum(ds, 1, "a", false) == 0;
    var offs := [[0], [0]];
    OffsetsAreStackOffsets(ds, offs);
    assert ds[..1] == [ds[0]] && offs[..1] == [offs[0]];
    assert Heights(ds[..1], offs[..1]) == [0] by {
      assert ds[..1][..0] == [];
    }
    var hs := [0, 0];
    assert Heights(ds, offs) == hs;
    assert hs[1..] == [0];
  }

  /** One dataset with the single value 5: offset 0, extent [0, 5]. */
  lemma SingleValue()
    ensures var ds := [[Datum("a", 5)]];
            && StackOffsets(ds) == [[0]]
            && ExtentOf(Heights(ds, StackOffsets(ds))) == [0, 5]
  {
    var ds := [[Datum("a", 5)]];
    var offs := [[0]];
    OffsetsAreStackOffsets(ds, offs);
    assert ds[..0] == [];
    assert Heights(ds, offs) == [5];
  }

  /** A key repeated inside the first dataset: heights 5, -1 and 3 (the
      second dataset sits on the last duplicate, -1, so it starts at 0). */
  lemma RepeatedKeyFirst()
    ensures var ds := [[Datum("a", 5), Datum("a", -1)], [Datum("a", 3)]];
            ExtentOf(Heights(ds, StackOffsets(ds))) == [-1, 5]
  {
    var ds := [[Datum("a", 5), Datum("a", -1)], [Datum("a", 3)]];
    assert ds[0][..1] == [Datum("a", 5)];
    assert LastValue(ds[0], "a", 0) == -1;
    assert PrecedingSum(ds, 1, "a", true) == 0;
    var offs := [[0, 0], [0]];
    OffsetsAreStackOffsets(ds, offs);
    assert ds[..1] == [ds[0]] && offs[..1] == [offs[0]];
    assert Heights(ds[..1], offs[..1]) == [5, -1] by {
      assert ds[..1][..0] == [];
    }
    var hs := [5, -1, 3];
    assert Heights(ds, offs) == hs;
    assert hs[1..] == [-1, 3] && hs[1..][1..] == [3];
  }

  /** The same datasets in the other order: heights 3, 8 and -1. */
  lemma RepeatedKeyLast()
    ensures var ds := [[Datum("a", 3)], [Datum("a", 5), Datum("a", -1)]];
            ExtentOf(Heights(ds, StackOffsets(ds))) == [-1, 8]
  {
    var ds := [[Datum("a", 3)], [Datum("a", 5), Datum("a", -1)]];
    assert ds[0][..0] == [];
    assert LastValue(ds[0], "a", 0) == 3;
    assert PrecedingSum(ds, 1, "a", true) == 3;
    assert PrecedingSum(ds, 1, "a", false) == 0;
    var offs := [[0], [3, 0]];
    OffsetsAreStackOffsets(ds, offs);
    assert ds[..1] == [ds[0]] && offs[..1] == [offs[0]];
    assert Heights(ds[..1], offs[..1]) == [3] by {
      assert ds[..1][..0] == [];
    }
    var hs := [3, 8, -1];
    assert Heights(ds, offs) == hs;
    assert hs[1..] == [8, -1] && hs[1..][1..] == [-1];
  }

  /** With a key repeated inside a dataset, the order of the datasets can
      change the extent: the earlier duplicate still has a height of its
      own, while stacking reads only the last one. This is why
      ExtentIgnoresOrder asks for unique keys. */
  lemma RepeatedKeyDependsOnOrder()
    ensures var ds := [[Datum("a", 5), Datum("a", -1)], [Datum("a", 3)]];
            var ds' := [[Datum("a", 3)], [Datum("a", 5), Datum("a", -1)]];
            && multiset(ds) == multiset(ds')
            && !UniqueKeys(ds)
            && ExtentOf(Heights(ds, StackOffsets(ds))) != ExtentOf(Heights(ds', StackOffsets(ds')))
  {
    var ds: seq<Dataset> := [[Datum("a", 5), Datum("a", -1)], [Datum("a", 3)]];
    var ds': seq<Dataset> := [[Datum("a", 3)], [Datum("a", 5), Datum("a", -1)]];
    assert ds == [ds'[1]] + [ds'[0]] && ds' == [ds'[0]] + [ds'[1]];
    assert ds[0][0].key == ds[0][1].key;
    RepeatedKeyFirst();
    RepeatedKeyLast();
  }

  /** An earlier duplicate of a key can overlap a later dataset's segment:
      {a: 5, a: 1} then {a: 3} puts the second dataset's 3 on the last
      duplicate, at 1, inside the first datum's segment [0, 5]. */
  lemma EarlierDuplicateOverlaps()
    ensures var ds := [[Datum("a", 5), Datum("a", 1)], [Datum("a", 3)]];
            && StackOffset(ds, 0, 0) == 0
            && StackOffset(ds, 1, 0) == 1
            && StackOffset(ds, 1, 0) < ds[0][0].value + StackOffset(ds, 0, 0)
  {
    var ds := [[Datum("a", 5), Datum("a", 1)], [Datum("a", 3)]];
    assert LastValue(ds[0], "a", 0) == 1;
    assert PrecedingSum(ds, 1, "a", true) == 1;
  }
}
