/**
 * Positional slicing of a decoded packed image. The image is abstracted as the
 * sequence of its planes (the last axis of the decoded array: `img[:, :, i]` is
 * `img[i]` here); pixel values are a type parameter and never inspected. A slicing
 * table maps each channel id and each mask id to the index of the plane it takes.
 */
module Slicing {
  import opened Wrappers
  import opened Text

  /** The ids `str(n)` for `first <= n < end`, the way the feature schemas build them. */
  function IdRange(first: int, end: int): set<string> {
    set n: nat | first <= n < end :: Str(n)
  }

  /**
   * Channel ids and mask ids of the poldiv and romania feature schemas:
   * `{str(i + 1) for i in range(6)}` and then '9'.
   */
  const PackedIds: set<string> := IdRange(1, 7) + {"9"}

  /** Spelled out, the packed schema's ids are "1" to "6" and "9". */
  lemma PackedIdsSpelled()
    ensures PackedIds == {"1", "2", "3", "4", "5", "6", "9"}
  {
    assert Str(1) == "1" && Str(2) == "2" && Str(3) == "3" && Str(4) == "4" && Str(5) == "5" && Str(6) == "6";
    forall k | k in IdRange(1, 7) ensures k in {"1", "2", "3", "4", "5", "6"} {
      var n: nat :| 1 <= n < 7 && k == Str(n);
    }
  }

  /** Every plane index of the id map is below the plane count. */
  predicate IndicesBelow(ids: map<string, nat>, planes: nat) {
    forall k :: k in ids ==> ids[k] < planes
  }

  /**
   * The dict comprehension `{str(i + shift): img[:, :, i] for i in range(lo, hi)}`,
   * as the plane index each id selects; written by id, `str(n)` selecting plane
   * `n - shift`, which is the same map because `str` is injective.
   */
  function RangeIds(lo: nat, hi: nat, shift: int): (m: map<string, nat>)
    requires lo + shift >= 0
    ensures m.Keys == IdRange(lo + shift, hi + shift)
    ensures forall k :: k in m ==> lo <= m[k] < hi
    ensures forall n: nat :: lo + shift <= n < hi + shift ==> m[Str(n)] == n - shift
  {
    StrInjectiveAll();
    map n: nat | lo + shift <= n < hi + shift :: Str(n) := n - shift
  }

  /** `{str(i + 1): img[:, :, i] for i in range(0, 6)}`, then `channels['9'] = img[:, :, nine]`. */
  function ChannelTable(nine: nat): (m: map<string, nat>)
    ensures m.Keys == PackedIds
    ensures forall n: nat :: 1 <= n <= 6 ==> m[Str(n)] == n - 1
    ensures m["9"] == nine
    ensures forall k :: k in m ==> m[k] < 6 || m[k] == nine
  {
    StrInjectiveAll();
    assert Str(9) == "9";
    RangeIds(0, 6, 1)["9" := nine]
  }

  /**
   * `{str(i - (first - 1)): img[:, :, i] for i in range(first, first + 6)}`,
   * then `masks['9'] = img[:, :, nine]`.
   */
  function MaskTable(first: nat, nine: nat): (m: map<string, nat>)
    ensures m.Keys == PackedIds
    ensures forall n: nat :: 1 <= n <= 6 ==> m[Str(n)] == first + n - 1
    ensures m["9"] == nine
    ensures forall k :: k in m ==> first <= m[k] < first + 6 || m[k] == nine
  {
    StrInjectiveAll();
    assert Str(9) == "9";
    RangeIds(first, first + 6, 1 - first)["9" := nine]
  }

  /** Channel id to plane index, and mask id to plane index. */
  datatype Table = Table(channels: map<string, nat>, masks: map<string, nat>)

  /**
   * The table for the number of planes of a packed image. The count is halved by
   * true division, so an odd count selects no table; 14 and 18 planes (7 or 9
   * channels) share one table, 24 planes (12 channels) have another, and every
   * other count has none.
   */
  function PackedTable(planes: nat): (t: Option<Table>)
    ensures t.Some? <==> planes == 14 || planes == 18 || planes == 24
    ensures t.Some? ==> t.value.channels.Keys == PackedIds && t.value.masks.Keys == PackedIds
    ensures t.Some? ==> IndicesBelow(t.value.channels, planes) && IndicesBelow(t.value.masks, planes)
    ensures t.Some? ==> forall n: nat :: 1 <= n <= 6 ==> t.value.channels[Str(n)] == n - 1
    ensures planes == 14 || planes == 18 ==>
      && t.value.channels["9"] == 6 && t.value.masks["9"] == 13
      && forall n: nat :: 1 <= n <= 6 ==> t.value.masks[Str(n)] == n + 6
    ensures planes == 24 ==>
      && t.value.channels["9"] == 8 && t.value.masks["9"] == 20
      && forall n: nat :: 1 <= n <= 6 ==> t.value.masks[Str(n)] == n + 11
  {
    var numChannels := HalfPlanes(planes);
    if numChannels == 7.0 || numChannels == 9.0 then
      Some(Table(ChannelTable(6), MaskTable(7, 13)))
    else if numChannels == 12.0 then
      Some(Table(ChannelTable(8), MaskTable(12, 20)))
    else
      None
  }

  /** The value the source calls the number of channels, `img.shape[-1] / 2`, a float. */
  function HalfPlanes(planes: nat): (h: real)
    ensures h * 2.0 == planes as real
  {
    planes as real / 2.0
  }

  /** The planes an id map selects: `img[:, :, ids[k]]` for every id `k`. */
  function Slice<P>(img: seq<P>, ids: map<string, nat>): (m: map<string, P>)
    requires IndicesBelow(ids, |img|)
    ensures m.Keys == ids.Keys
    ensures forall k :: k in ids ==> m[k] == img[ids[k]]
  {
    map k | k in ids :: img[ids[k]]
  }

  /** The channel planes and the mask planes cut out of one packed image. */
  datatype Planes<P> = Planes(channels: map<string, P>, masks: map<string, P>)

  /** Slices a packed image by the table for its plane count, if there is one. */
  function SlicePacked<P>(img: seq<P>): (r: Option<Planes<P>>)
    ensures r.Some? <==> |img| == 14 || |img| == 18 || |img| == 24
    ensures r.Some? ==> r.value.channels.Keys == PackedIds && r.value.masks.Keys == PackedIds
  {
    match PackedTable(|img|)
    case None => None
    case Some(t) => Some(Planes(Slice(img, t.channels), Slice(img, t.masks)))
  }

  /**
   * Which plane each id of a sliced packed image holds: channel n (1..6) is plane
   * n-1; for 7 or 9 channels channel 9 is plane 6, mask n is plane n+6 and mask 9
   * plane 13; for 12 channels channel 9 is plane 8, mask n is plane n+11 and mask 9
   * plane 20.
   */
  lemma SlicePackedPlanes<P>(img: seq<P>, n: nat)
    requires |img| == 14 || |img| == 18 || |img| == 24
    requires 1 <= n <= 6
    ensures var r := SlicePacked(img).value;
      && r.channels[Str(n)] == img[n - 1]
      && (|img| < 24 ==> r.channels["9"] == img[6] && r.masks[Str(n)] == img[n + 6] && r.masks["9"] == img[13])
      && (|img| == 24 ==> r.channels["9"] == img[8] && r.masks[Str(n)] == img[n + 11] && r.masks["9"] == img[20])
  {
    var t := PackedTable(|img|).value;
    assert SlicePacked(img).value == Planes(Slice(img, t.channels), Slice(img, t.masks));
    assert t.channels[Str(n)] == n - 1;
    if |img| == 24 {
      assert t.channels["9"] == 8 && t.masks["9"] == 20 && t.masks[Str(n)] == n + 11;
    } else {
      assert t.channels["9"] == 6 && t.masks["9"] == 13 && t.masks[Str(n)] == n + 6;
    }
  }

  /**
   * An example of a packed-image dataset: its channels, its masks, the entry's file
   * name and its class label (`label` in poldiv, `species` in romania).
   */
  datatype PackedExample<P> = PackedExample(channels: map<string, P>, masks: map<string, P>, filename: string, classLabel: string)
}
