/**
 * Per-location conflict tracker (`StorageLocationHelper`), modelled on the
 * fields the partitioner uses: the anchor shard, the candidate writers and
 * readers registered before any round runs, and the ordered sets of promoted
 * slots (writers only, and every touch). The table of trackers, indexed by
 * dense location id, is the shared state the rounds update in place.
 */
module Locations {
  import opened FatIds

  datatype LocationHelper = LocationHelper(
    anchorShardId: nat,
    writerSet: set<nat>,
    readerSet: set<nat>,
    promotedWriterIds: seq<TxnFatId>,
    promotedTxnIds: seq<TxnFatId>)
  {
    /** Both promoted sets are ordered sets; every promoted writer is a promoted touch of a candidate writer. */
    ghost predicate Valid()
    {
      SortedIds(promotedWriterIds) && SortedIds(promotedTxnIds) &&
      (forall f :: f in promotedWriterIds ==> f in promotedTxnIds && f.oldTxnIdx in writerSet)
    }
  }

  function Elems(s: seq<TxnFatId>): set<TxnFatId>
  {
    set f | f in s
  }

  /** A fresh tracker for a location with the given anchor shard. */
  function NewHelper(anchorShardId: nat): (h: LocationHelper)
    ensures h.Valid() && h.anchorShardId == anchorShardId
    ensures h.writerSet == {} && h.readerSet == {} && h.promotedWriterIds == [] && h.promotedTxnIds == []
  {
    LocationHelper(anchorShardId, {}, {}, [], [])
  }

  /** `add_candidate`: a write registers its txn as a candidate writer, a read as a candidate reader. */
  function AddCandidate(h: LocationHelper, txnId: nat, isWrite: bool): (r: LocationHelper)
    requires h.Valid()
    ensures r.Valid() && r.anchorShardId == h.anchorShardId
    ensures r.writerSet == if isWrite then h.writerSet + {txnId} else h.writerSet
    ensures r.readerSet == if isWrite then h.readerSet else h.readerSet + {txnId}
    ensures r.promotedWriterIds == h.promotedWriterIds && r.promotedTxnIds == h.promotedTxnIds
  {
    if isWrite then h.(writerSet := h.writerSet + {txnId})
    else h.(readerSet := h.readerSet + {txnId})
  }

  /**
   * `promote_txn_id`: slot (round, shard, txn) becomes a promoted touch of
   * this location, and a promoted writer when the txn is a candidate writer.
   */
  function PromoteTxn(h: LocationHelper, txnId: nat, round: nat, shard: nat): (r: LocationHelper)
    requires h.Valid()
    ensures r.Valid()
    ensures PromotedWith(r, h, {TxnFatId(round, shard, txnId)})
  {
    var f := TxnFatId(round, shard, txnId);
    var writers := if txnId in h.writerSet then Insert(h.promotedWriterIds, f) else h.promotedWriterIds;
    var r := h.(promotedWriterIds := writers, promotedTxnIds := Insert(h.promotedTxnIds, f));
    assert Elems(r.promotedTxnIds) == Elems(h.promotedTxnIds) + {f};
    assert Elems(r.promotedWriterIds) == Elems(h.promotedWriterIds) + WritersAmong(h, {f});
    r
  }

  /** The slots of `added` whose txn is a candidate writer of h's location. */
  ghost function WritersAmong(h: LocationHelper, added: set<TxnFatId>): set<TxnFatId>
  {
    set f | f in added && f.oldTxnIdx in h.writerSet
  }

  /**
   * r is h after promoting exactly the slots in `added`: the candidates and the
   * anchor are untouched, and each promoted set grew by its share of `added`.
   */
  ghost predicate PromotedWith(r: LocationHelper, h: LocationHelper, added: set<TxnFatId>)
  {
    r.anchorShardId == h.anchorShardId && r.writerSet == h.writerSet && r.readerSet == h.readerSet &&
    Elems(r.promotedTxnIds) == Elems(h.promotedTxnIds) + added &&
    Elems(r.promotedWriterIds) == Elems(h.promotedWriterIds) + WritersAmong(h, added)
  }

  lemma PromotedWithEmpty(h: LocationHelper)
    ensures PromotedWith(h, h, {})
  {
    assert WritersAmong(h, {}) == {};
  }

  lemma PromotedWithTrans(a: LocationHelper, b: LocationHelper, c: LocationHelper, x: set<TxnFatId>, y: set<TxnFatId>)
    requires PromotedWith(b, a, x) && PromotedWith(c, b, y)
    ensures PromotedWith(c, a, x + y)
  {
    assert WritersAmong(a, x + y) == WritersAmong(a, x) + WritersAmong(b, y);
  }

  ghost predicate AllValid(helpers: seq<LocationHelper>)
  {
    forall i :: 0 <= i < |helpers| ==> helpers[i].Valid()
  }

  /** The trackers of one partitioning session, indexed by dense location id. */
  class LocationTable {
    var helpers: seq<LocationHelper>

    constructor (initial: seq<LocationHelper>)
      ensures helpers == initial
    {
      helpers := initial;
    }

    /** Promote slot (round, shard, txn) in the tracker of location locId. */
    method Promote(locId: nat, txnId: nat, round: nat, shard: nat)
      requires locId < |helpers| && AllValid(helpers)
      modifies this
      ensures AllValid(helpers) && |helpers| == old(|helpers|)
      ensures helpers == old(helpers)[locId := PromoteTxn(old(helpers)[locId], txnId, round, shard)]
    {
      helpers := helpers[locId := PromoteTxn(helpers[locId], txnId, round, shard)];
    }

    /**
     * Promote slot (round, shard, txn) at every location in locs (a txn's
     * write and read hints): afterwards each tracker has gained that slot
     * exactly when its location is in locs, and nothing else changed.
     */
    method PromoteAt(locs: seq<nat>, txnId: nat, round: nat, shard: nat)
      requires AllValid(helpers)
      requires forall j :: 0 <= j < |locs| ==> locs[j] < |helpers|
      modifies this
      ensures AllValid(helpers) && |helpers| == old(|helpers|)
      ensures forall l :: 0 <= l < |helpers| ==>
        PromotedWith(helpers[l], old(helpers[l]), if l in locs then {TxnFatId(round, shard, txnId)} else {})
    {
      ghost var f := TxnFatId(round, shard, txnId);
      for j := 0 to |locs|
        invariant AllValid(helpers) && |helpers| == old(|helpers|)
        invariant forall l :: 0 <= l < |helpers| ==>
          PromotedWith(helpers[l], old(helpers[l]), if l in locs[..j] then {f} else {})
      {
        ghost var before := helpers;
        Promote(locs[j], txnId, round, shard);
        forall l | 0 <= l < |helpers|
          ensures PromotedWith(helpers[l], old(helpers[l]), if l in locs[..j + 1] then {f} else {})
        {
          assert locs[..j + 1] == locs[..j] + [locs[j]];
          if l == locs[j] {
            PromotedWithTrans(old(helpers[l]), before[l], helpers[l], if l in locs[..j] then {f} else {}, {f});
          }
        }
      }
      assert locs[..|locs|] == locs;
    }
  }
}
