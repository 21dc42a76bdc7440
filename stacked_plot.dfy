/** The stacked plot: the loops that build the key maps and the running
    sums, the write-back of one offset per datum, the stacked extent it
    keeps, and its registration with the primary scale.

    The plot framework around it (dataset registration, projectors,
    anchoring, the plot's id) is given to these methods as arguments.
 */
module StackedPlot {
  import opened StackedSpec
  import opened StackedTotals

  /** The attribute under which a stacked plot registers its extent. */
  const StackExtentAttr: string := "_PLOTTABLE_PROTECTED_FIELD_STACK_EXTENT"

  /** The scale collaborator, reduced to the extents registered with it,
      by (plot id, attribute). */
  class Scale {
    var extents: map<(string, string), seq<int>>

    constructor ()
      ensures extents == map[]
    {
      extents := map[];
    }

    method UpdateExtent(id: string, attr: string, extent: seq<int>)
      modifies this
      ensures extents == old(extents)[(id, attr) := extent]
    {
      extents := extents[(id, attr) := extent];
    }

    method RemoveExtent(id: string, attr: string)
      modifies this
      ensures extents == old(extents) - {(id, attr)}
    {
      extents := extents - {(id, attr)};
    }
  }

  /** One map per dataset whose key set is the key domain, each key mapped
      to the value of the dataset's last datum with that key, or to the
      missing value when the dataset has none. */
  ghost predicate IsDefaultMapArray(ds: seq<Dataset>, maps: seq<map<Key, int>>)
  {
    && |maps| == |ds|
    && (forall i :: 0 <= i < |ds| ==> maps[i].Keys == Domain(ds))
    && (forall i, k :: 0 <= i < |ds| && k in maps[i] ==> maps[i][k] == LastValue(ds[i], k, MissingValue()))
  }

  /** Gathers the key of every datum of every dataset into one set. */
  method CollectDomainKeys(ds: seq<Dataset>) returns (domainKeys: set<Key>)
    ensures domainKeys == Domain(ds)
  {
    domainKeys := {};
    for i := 0 to |ds|
      invariant domainKeys == Domain(ds[..i])
    {
      assert ds[..i + 1][..i] == ds[..i];
      for j := 0 to |ds[i]|
        invariant domainKeys == Domain(ds[..i]) + Keys(ds[i][..j])
      {
        assert ds[i][..j + 1][..j] == ds[i][..j];
        domainKeys := domainKeys + {ds[i][j].key};
      }
      assert ds[i][..|ds[i]|] == ds[i];
    }
    assert ds[..|ds|] == ds;
  }

  /** Collects the domain, fills one map per dataset with the missing value,
      then overwrites the entry of each datum's key with its value, in data
      order. */
  method GenerateDefaultMapArray(ds: seq<Dataset>) returns (maps: seq<map<Key, int>>)
    ensures IsDefaultMapArray(ds, maps)
  {
    var domainKeys := CollectDomainKeys(ds);
    var missing := map k | k in domainKeys :: MissingValue();
    var dataMapArray := seq(|ds|, _ => missing);
    for i := 0 to |ds|
      invariant |dataMapArray| == |ds|
      invariant forall i' :: 0 <= i' < |ds| ==> dataMapArray[i'].Keys == domainKeys
      invariant forall i', k :: 0 <= i' < i && k in dataMapArray[i'] ==>
                  dataMapArray[i'][k] == LastValue(ds[i'], k, MissingValue())
      invariant forall i' :: i <= i' < |ds| ==> dataMapArray[i'] == missing
    {
      var dataMap := dataMapArray[i];
      for j := 0 to |ds[i]|
        invariant dataMap.Keys == domainKeys
        invariant forall k :: k in dataMap ==> dataMap[k] == LastValue(ds[i][..j], k, MissingValue())
      {
        KeyInDomain(ds, i, j);
        assert ds[i][..j + 1][..j] == ds[i][..j];
        var key := ds[i][j].key;
        var value := ds[i][j].value;
        dataMap := dataMap[key := value];
      }
      assert ds[i][..|ds[i]|] == ds[i];
      dataMapArray := dataMapArray[i := dataMap];
    }
    maps := dataMapArray;
  }

  /** `row` holds, at each of its keys, the sum of the first `n` maps there. */
  ghost predicate RunningSums(ms: seq<map<Key, int>>, n: nat, row: map<Key, int>)
    requires n <= |ms|
  {
    forall k :: k in row ==> HasKey(ms, k) && row[k] == ColumnSum(ms, n, k)
  }
  /** One offset map per input map, with the same keys, holding at each key
      the sum of the preceding maps' values there. */
  ghost predicate IsLayout(maps: seq<map<Key, int>>, offsets: seq<map<Key, int>>)
  {
    && |offsets| == |maps|
    && (forall i :: 0 <= i < |maps| ==> offsets[i].Keys == maps[i].Keys)
    && (forall i, k :: 0 <= i < |maps| && k in offsets[i] ==>
          HasKey(maps, k) && offsets[i][k] == ColumnSum(maps, i, k))
  }

  /** The stack layout with the zero baseline: datasets in order, each key
      keeps a running sum; a dataset's offset at a key is the running sum
      before its own value is added. */
  method StackLayout(maps: seq<map<Key, int>>) returns (offsets: seq<map<Key, int>>)
    requires SameKeys(maps)
    ensures IsLayout(maps, offsets)
  {
    var keys := if |maps| == 0 then {} else maps[0].Keys;
    var running := map k | k in keys :: 0;
    offsets := [];
    for i := 0 to |maps|
      invariant |offsets| == i
      invariant running.Keys == keys
      invariant forall k :: k in keys ==> HasKey(maps, k)
      invariant RunningSums(maps, i, running)
      invariant forall i' :: 0 <= i' < i ==> offsets[i'].Keys == keys && RunningSums(maps, i', offsets[i'])
    {
      assert maps[i].Keys == keys;
      var before := running;
      offsets := offsets + [before];
      running := map k | k in before :: before[k] + maps[i][k];
      forall k | k in running ensures running[k] == ColumnSum(maps, i + 1, k) {
        assert running[k] == before[k] + maps[i][k];
      }
    }
    forall i | 0 <= i < |maps| ensures offsets[i].Keys == maps[i].Keys {
    }
    forall i, k | 0 <= i < |maps| && k in offsets[i]
      ensures HasKey(maps, k) && offsets[i][k] == ColumnSum(maps, i, k)
    {
      assert RunningSums(maps, i, offsets[i]);
    }
  }

  /** The maps GenerateDefaultMapArray promises are the default maps. */
  lemma DefaultMapsDetermined(ds: seq<Dataset>, maps: seq<map<Key, int>>)
    requires IsDefaultMapArray(ds, maps)
    ensures maps == DefaultMaps(ds)
  {
    forall i | 0 <= i < |ds| ensures maps[i] == DefaultMaps(ds)[i] {
    }
  }

  /** Running sums, as StackLayout promises them, over the split maps that
      GenerateDefaultMapArray promises, give every datum's key the preceding
      sum of its polarity. */
  lemma LayoutGivesPrecedingSums(ds: seq<Dataset>, maps: seq<map<Key, int>>, split: seq<map<Key, int>>,
                                 offs: seq<map<Key, int>>, positive: bool)
    requires IsDefaultMapArray(ds, maps)
    requires split == SignParts(maps, positive)
    requires IsLayout(split, offs)
    ensures |offs| == |ds|
    ensures forall i, j :: 0 <= i < |ds| && 0 <= j < |ds[i]| ==>
              ds[i][j].key in offs[i] && offs[i][ds[i][j].key] == PrecedingSum(ds, i, ds[i][j].key, positive)
  {
    DefaultMapsDetermined(ds, maps);
    forall i, j | 0 <= i < |ds| && 0 <= j < |ds[i]|
      ensures ds[i][j].key in offs[i] && offs[i][ds[i][j].key] == PrecedingSum(ds, i, ds[i][j].key, positive)
    {
      KeyInDomain(ds, i, j);
      SplitDefaultMapsColumn(ds, ds[i][j].key, positive);
      SplitColumnSum(split, ds, i, ds[i][j].key, positive);
    }
  }

  class Stacked {
    /** [min, max] spanned by the stacked data; it holds zero. */
    var stackedExtent: seq<int>
    /** The stack offset written onto each datum of the last stacked
        datasets: offsets[i][j] belongs to datum j of dataset i. */
    var offsets: seq<seq<int>>

    ghost predicate Valid()
      reads this
    {
      |stackedExtent| == 2 && stackedExtent[0] <= 0 <= stackedExtent[1]
    }

    /** The state `Stack(ds)` leaves: every datum carries the offset of its
        polarity and the extent frames every value + offset. */
    ghost predicate StackedFor(ds: seq<Dataset>)
      reads this
    {
      && Valid()
      && Shaped(ds, offsets)
      && (forall i, j :: 0 <= i < |ds| && 0 <= j < |ds[i]| ==> offsets[i][j] == StackOffset(ds, i, j))
      && (forall i, j :: 0 <= i < |ds| && 0 <= j < |ds[i]| ==>
            stackedExtent[0] <= ds[i][j].value + offsets[i][j] <= stackedExtent[1])
      && (Heights(ds, offsets) != [] ==> stackedExtent == ExtentOf(Heights(ds, offsets)))
    }

    constructor ()
      ensures Valid() && stackedExtent == [0, 0] && offsets == []
    {
      stackedExtent := [0, 0];
      offsets := [];
    }

    /** Restacks on a dataset change, but only once the dataset order and
        both the "x" and the "y" projector exist. */
    method OnDatasetUpdate(ds: seq<Dataset>, hasDatasetOrder: bool, hasX: bool, hasY: bool)
      requires Valid()
      modifies this
      ensures Valid()
      ensures hasDatasetOrder && hasX && hasY ==> StackedFor(ds)
      ensures !(hasDatasetOrder && hasX && hasY) ==>
                stackedExtent == old(stackedExtent) && offsets == old(offsets)
    {
      if hasDatasetOrder && hasX && hasY {
        Stack(ds);
      }
    }

    /** Recomputes every datum's offset and the stacked extent from the
        datasets alone. */
    method Stack(ds: seq<Dataset>)
      requires Valid()
      modifies this
      ensures StackedFor(ds)
    {
      var dataMapArray := GenerateDefaultMapArray(ds);
      var positiveDataMapArray := SignParts(dataMapArray, true);
      var negativeDataMapArray := SignParts(dataMapArray, false);
      SignPartsKeys(dataMapArray, Domain(ds), true);
      SignPartsKeys(dataMapArray, Domain(ds), false);
      var positiveOffsets := StackLayout(positiveDataMapArray);
      var negativeOffsets := StackLayout(negativeDataMapArray);
      LayoutGivesPrecedingSums(ds, dataMapArray, positiveDataMapArray, positiveOffsets, true);
      LayoutGivesPrecedingSums(ds, dataMapArray, negativeDataMapArray, negativeOffsets, false);
      SetDatasetStackOffsets(ds, positiveOffsets, negativeOffsets);

      forall i, j | 0 <= i < |ds| && 0 <= j < |ds[i]|
        ensures offsets[i][j] == StackOffset(ds, i, j)
      {
      }

      var heights := Heights(ds, offsets);
      if heights != [] {
        stackedExtent := ExtentOf(heights);
        ExtentFramesEveryDatum(ds, offsets);
      } else {
        // No datum at all: the source's max and min come from a utility that
        // is not part of this model; the extent is set to [0, 0].
        stackedExtent := [0, 0];
        HeightsEmpty(ds, offsets);
      }
    }

    /** Writes one offset onto every datum: the positive offset at its key
        when its value is strictly positive, the negative one otherwise. */
    method SetDatasetStackOffsets(ds: seq<Dataset>, positive: seq<map<Key, int>>, negative: seq<map<Key, int>>)
      requires |positive| == |ds| && |negative| == |ds|
      requires forall i, j :: 0 <= i < |ds| && 0 <= j < |ds[i]| ==>
                 ds[i][j].key in positive[i] && ds[i][j].key in negative[i]
      modifies this`offsets
      ensures Shaped(ds, offsets)
      ensures forall i, j :: 0 <= i < |ds| && 0 <= j < |ds[i]| ==>
                offsets[i][j] == (if ds[i][j].value > 0 then positive[i][ds[i][j].key]
                                  else negative[i][ds[i][j].key])
    {
      var written: seq<seq<int>> := [];
      for i := 0 to |ds|
        invariant |written| == i
        invariant forall i' :: 0 <= i' < i ==> |written[i']| == |ds[i']|
        invariant forall i', j :: 0 <= i' < i && 0 <= j < |ds[i']| ==>
                    written[i'][j] == (if ds[i'][j].value > 0 then positive[i'][ds[i'][j].key]
                                       else negative[i'][ds[i'][j].key])
      {
        var row: seq<int> := [];
        for j := 0 to |ds[i]|
          invariant |row| == j
          invariant forall j' :: 0 <= j' < j ==>
                      row[j'] == (if ds[i][j'].value > 0 then positive[i][ds[i][j'].key]
                                  else negative[i][ds[i][j'].key])
        {
          var positiveOffset := positive[i][ds[i][j].key];
          var negativeOffset := negative[i][ds[i][j].key];
          row := row + [if ds[i][j].value > 0 then positiveOffset else negativeOffset];
        }
        written := written + [row];
      }
      offsets := written;
    }

    /** Publishes the extent to the primary scale (the y scale when vertical,
        the x scale otherwise): registered under the plot's id while the plot
        is anchored and the extent is non-empty, withdrawn in every other
        case; without a primary scale nothing happens. */
    method UpdateScaleExtents(isVertical: bool, xScale: Scale?, yScale: Scale?, anchored: bool, plotId: string)
      requires Valid()
      modifies if isVertical then yScale else xScale
      ensures var primary := if isVertical then yScale else xScale;
              primary != null ==>
                primary.extents ==
                  if anchored && |stackedExtent| > 0
                  then old(primary.extents)[(plotId, StackExtentAttr) := stackedExtent]
                  else old(primary.extents) - {(plotId, StackExtentAttr)}
    {
      var primaryScale := if isVertical then yScale else xScale;
      if primaryScale == null {
        return;
      }
      if anchored && |stackedExtent| > 0 {
        primaryScale.UpdateExtent(plotId, StackExtentAttr, stackedExtent);
      } else {
        primaryScale.RemoveExtent(plotId, StackExtentAttr);
      }
    }
  }

  /** Stacking twice on unchanged datasets gives the same offsets and extent:
      the second run reads only keys and values, never the offsets the first
      one wrote. */
  method StackTwice(plot: Stacked, ds: seq<Dataset>) returns (firstOffsets: seq<seq<int>>, firstExtent: seq<int>)
    requires plot.Valid()
    modifies plot
    ensures plot.StackedFor(ds)
    ensures plot.offsets == firstOffsets
    ensures Heights(ds, firstOffsets) != [] ==> plot.stackedExtent == firstExtent
  {
    plot.Stack(ds);
    firstOffsets, firstExtent := plot.offsets, plot.stackedExtent;
    plot.Stack(ds);
    assert Shaped(ds, firstOffsets) && Shaped(ds, plot.offsets);
    assert plot.offsets == firstOffsets by {
      forall i | 0 <= i < |ds| ensures plot.offsets[i] == firstOffsets[i] {
      }
    }
  }

  /** Stacking a permutation of the same datasets (no dataset repeating a
      key) leaves the plot with the same extent, though the offsets may change. */
  method StackReordered(plot: Stacked, ds: seq<Dataset>, ds': seq<Dataset>) returns (extent: seq<int>, extent': seq<int>)
    requires plot.Valid()
    requires multiset(ds) == multiset(ds') && UniqueKeys(ds)
    requires exists i :: 0 <= i < |ds| && ds[i] != []
    modifies plot
    ensures plot.StackedFor(ds') && plot.stackedExtent == extent'
    ensures extent == extent'
  {
    plot.Stack(ds);
    OffsetsAreStackOffsets(ds, plot.offsets);
    HeightsEmpty(ds, plot.offsets);
    extent := plot.stackedExtent;
    plot.Stack(ds');
    OffsetsAreStackOffsets(ds', plot.offsets);
    extent' := plot.stackedExtent;
    ExtentIgnoresOrder(ds, ds');
  }
}
