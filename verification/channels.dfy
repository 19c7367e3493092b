/**
 * A group's channel cache and the lookups over it (src/socket/handler.rs,
 * `Group::find_channel` and `Group::contains_channel`) together with the
 * three edits the dispatcher makes to it.
 */
module Channels {
  import opened Protocol

  /** `usize::MAX`, the "not found" sentinel of `find_channel`. */
  const UsizeMax: nat := 0xFFFF_FFFF_FFFF_FFFF

  /** The cache is sorted by strictly increasing channel id. */
  ghost predicate SortedById(cs: seq<Channel>) {
    forall i, j :: 0 <= i < j < |cs| ==> cs[i].channelId < cs[j].channelId
  }

  /** Some cached entry carries `id`. */
  ghost predicate HasChannel(cs: seq<Channel>, id: ChannelID) {
    exists i :: 0 <= i < |cs| && cs[i].channelId == id
  }

  /** Outcome of `slice::binary_search_by`. */
  datatype SearchResult = Found(index: nat) | NotFound(insertAt: nat)

  /**
   * `binary_search_by(|ch| ch.channel_id.cmp(&id))` on `cs[lo..hi]`. A hit is
   * always a real match; a miss is conclusive only on a sorted cache.
   */
  function SearchById(cs: seq<Channel>, id: ChannelID, lo: nat, hi: nat): (r: SearchResult)
    requires lo <= hi <= |cs|
    decreases hi - lo
    ensures r.Found? ==> lo <= r.index < hi && cs[r.index].channelId == id
    ensures r.NotFound? && SortedById(cs) ==>
      forall i :: lo <= i < hi ==> cs[i].channelId != id
  {
    if lo == hi then NotFound(lo)
    else
      var mid := lo + (hi - lo) / 2;
      if cs[mid].channelId < id then SearchById(cs, id, mid + 1, hi)
      else if cs[mid].channelId > id then SearchById(cs, id, lo, mid)
      else Found(mid)
  }

  /**
   * `find_channel`: the index of the entry with `id`, or `UsizeMax`. A `Vec`
   * never holds `usize::MAX` elements, so no index equals the sentinel.
   */
  function FindChannel(cs: seq<Channel>, id: ChannelID): (r: nat)
    requires |cs| < UsizeMax
    ensures r != UsizeMax ==> r < |cs| && cs[r].channelId == id
    ensures SortedById(cs) ==> (r == UsizeMax <==> !HasChannel(cs, id))
  {
    match SearchById(cs, id, 0, |cs|)
    case Found(i) => i
    case NotFound(_) => UsizeMax
  }

  /** `contains_channel`: sound on any cache, complete on a sorted one. */
  function ContainsChannel(cs: seq<Channel>, id: ChannelID): (b: bool)
    requires |cs| < UsizeMax
    ensures b ==> HasChannel(cs, id)
    ensures SortedById(cs) ==> (b <==> HasChannel(cs, id))
  {
    FindChannel(cs, id) != UsizeMax
  }

  /** On a sorted cache an id occurs at one index only. */
  lemma SortedIdsUnique(cs: seq<Channel>, i: nat, j: nat)
    requires SortedById(cs)
    requires i < |cs| && j < |cs| && cs[i].channelId == cs[j].channelId
    ensures i == j
  {
  }

  /** `channels.push`: the new entry goes last, the others keep their places. */
  function AppendChannel(cs: seq<Channel>, ch: Channel): (r: seq<Channel>)
    ensures |r| == |cs| + 1 && r[|cs|] == ch
    ensures r[..|cs|] == cs
  {
    cs + [ch]
  }

  /** Appending an id above every cached id keeps the cache sorted. */
  lemma AppendKeepsSorted(cs: seq<Channel>, ch: Channel)
    requires SortedById(cs)
    requires forall i :: 0 <= i < |cs| ==> cs[i].channelId < ch.channelId
    ensures SortedById(AppendChannel(cs, ch))
  {
  }

  /** `channels[index].name = name`: only that name changes. */
  function RenameAt(cs: seq<Channel>, index: nat, name: string): (r: seq<Channel>)
    requires index < |cs|
    ensures |r| == |cs|
    ensures r[index] == Channel(cs[index].channelId, name)
    ensures forall i :: 0 <= i < |cs| ==> r[i].channelId == cs[i].channelId
    ensures forall i :: 0 <= i < |cs| && i != index ==> r[i] == cs[i]
  {
    cs[index := Channel(cs[index].channelId, name)]
  }

  /** `channels.remove(index)`: drops that entry and keeps the rest in order. */
  function RemoveAt(cs: seq<Channel>, index: nat): (r: seq<Channel>)
    requires index < |cs|
    ensures |r| == |cs| - 1
    ensures forall i :: 0 <= i < index ==> r[i] == cs[i]
    ensures forall i :: index <= i < |r| ==> r[i] == cs[i + 1]
  {
    cs[..index] + cs[index + 1..]
  }

  /** Renaming keeps a sorted cache sorted. */
  lemma RenameKeepsSorted(cs: seq<Channel>, index: nat, name: string)
    requires index < |cs| && SortedById(cs)
    ensures SortedById(RenameAt(cs, index, name))
  {
  }

  /**
   * Removing an entry keeps a sorted cache sorted, and on a sorted cache
   * the removed id is no longer present while every other id still is.
   */
  lemma RemoveKeepsSorted(cs: seq<Channel>, index: nat)
    requires index < |cs| && SortedById(cs)
    ensures SortedById(RemoveAt(cs, index))
    ensures !HasChannel(RemoveAt(cs, index), cs[index].channelId)
    ensures forall id :: id != cs[index].channelId ==>
      (HasChannel(RemoveAt(cs, index), id) <==> HasChannel(cs, id))
  {
    var r := RemoveAt(cs, index);
    forall i, j | 0 <= i < j < |r|
      ensures r[i].channelId < r[j].channelId
    {
      var i' := if i < index then i else i + 1;
      var j' := if j < index then j else j + 1;
      assert r[i] == cs[i'] && r[j] == cs[j'];
    }
    forall id | id != cs[index].channelId && HasChannel(cs, id)
      ensures HasChannel(r, id)
    {
      var k :| 0 <= k < |cs| && cs[k].channelId == id;
      if k < index {
        assert r[k] == cs[k];
      } else {
        assert r[k - 1] == cs[k];
      }
    }
  }
}
