/**
 * The rounds of `partition`. A discarding round runs two passes over every
 * shard's candidates: pass 1 discards a candidate when one of its locations
 * has a candidate writer between that location's anchor shard and the
 * candidate's own shard, and records per sender the least discarded txn id;
 * pass 2 accepts a remaining candidate only when its id is below that least
 * id, promoting it in the trackers of every location it touches. The
 * catch-all round then puts everything still discarded into the last shard
 * of round 1.
 */
module Rounds {
  import opened Seqs
  import opened FatIds
  import opened Locations
  import opened Registry
  import opened Sorting

  /** `usize::MAX`, the initial value of a sender's least discarded id. */
  const UsizeMax: nat := 0xFFFF_FFFF_FFFF_FFFF

  /**
   * `has_write_in_range(start, end)` of a tracker, whose module is not part
   * of this model: a predicate on the tracker's candidate writers and the range.
   */
  type WriteInRange = (set<nat>, nat, nat) -> bool

  /** The least discarded id recorded for a sender, `usize::MAX` when none is. */
  function MinOr(m: map<nat, nat>, sender: nat): nat
  {
    if sender in m then m[sender] else UsizeMax
  }

  function Min(a: nat, b: nat): nat
  {
    if a <= b then a else b
  }


  /** Every tracker's anchor shard is a shard, as `get_anchor_shard_id` guarantees. */
  ghost predicate AnchorsBelow(helpers: seq<LocationHelper>, numShards: nat)
  {
    forall l :: 0 <= l < |helpers| ==> helpers[l].anchorShardId < numShards
  }

  /** Every listed candidate is a txn of the session. */
  ghost predicate IdsBelow(rows: seq<seq<nat>>, n: nat)
  {
    forall s, j :: 0 <= s < |rows| && 0 <= j < |rows[s]| ==> rows[s][j] < n
  }

  /** The conflict test of one location for a candidate in shard myShard. */
  predicate ConflictAt(h: LocationHelper, start: seq<nat>, myShard: nat, hw: WriteInRange)
    requires h.anchorShardId < |start| && myShard < |start|
  {
    hw(h.writerSet, start[h.anchorShardId], start[myShard])
  }

  /** `locs.iter().any(..)`: some location of locs conflicts, tried left to right. */
  function AnyConflict(locs: seq<nat>, helpers: seq<LocationHelper>, start: seq<nat>, myShard: nat, hw: WriteInRange): (r: bool)
    requires forall j :: 0 <= j < |locs| ==> locs[j] < |helpers|
    requires AnchorsBelow(helpers, |start|) && myShard < |start|
    ensures r <==> exists j :: 0 <= j < |locs| && ConflictAt(helpers[locs[j]], start, myShard, hw)
  {
    if locs == [] then false
    else if ConflictAt(helpers[locs[0]], start, myShard, hw) then true
    else
      var rest := AnyConflict(locs[1..], helpers, start, myShard, hw);
      assert forall j :: 1 <= j < |locs| ==> locs[j] == locs[1..][j - 1];
      rest
  }

  /** Candidate x of shard myShard is discarded in pass 1. */
  predicate Conflicting(session: seq<SessionTxn>, helpers: seq<LocationHelper>, start: seq<nat>, hw: WriteInRange,
                        myShard: nat, x: nat)
    requires SessionFits(session, |helpers|) && AnchorsBelow(helpers, |start|) && myShard < |start| && x < |session|
  {
    AnyConflict(Locs(session[x]), helpers, start, myShard, hw)
  }

  /**
   * The state of pass 1 over one shard after the candidates `seen`: they are
   * split between discarded (conflicting) and pending (not conflicting), every
   * discarded id is at least its sender's least discarded id, and that least
   * id only went down from m0, to an id just discarded.
   */
  ghost predicate PassState(session: seq<SessionTxn>, helpers: seq<LocationHelper>, start: seq<nat>, hw: WriteInRange,
                            myShard: nat, m0: map<nat, nat>, seen: seq<nat>,
                            m: map<nat, nat>, discarded: seq<nat>, pending: seq<nat>)
    requires SessionFits(session, |helpers|) && AnchorsBelow(helpers, |start|) && myShard < |start|
  {
    multiset(discarded) + multiset(pending) == multiset(seen) &&
    DiscardedOk(session, helpers, start, hw, myShard, m, discarded) &&
    PendingOk(session, helpers, start, hw, myShard, pending) &&
    (forall snd :: MinOr(m, snd) <= MinOr(m0, snd)) &&
    (forall snd :: (MinOr(m, snd) == MinOr(m0, snd) ||
                    exists x :: x in discarded && session[x].senderId == snd && MinOr(m, snd) == x))
  }

  /** Every id of row, discarded in pass 1 from shard myShard, conflicts and is at least its sender's least discarded id. */
  ghost predicate DiscardedOk(session: seq<SessionTxn>, helpers: seq<LocationHelper>, start: seq<nat>, hw: WriteInRange,
                              myShard: nat, m: map<nat, nat>, row: seq<nat>)
    requires SessionFits(session, |helpers|) && AnchorsBelow(helpers, |start|) && myShard < |start|
  {
    forall x :: x in row ==>
      x < |session| && Conflicting(session, helpers, start, hw, myShard, x) && MinOr(m, session[x].senderId) <= x
  }

  /** No id of row, pending after pass 1 in shard myShard, conflicts. */
  ghost predicate PendingOk(session: seq<SessionTxn>, helpers: seq<LocationHelper>, start: seq<nat>, hw: WriteInRange,
                            myShard: nat, row: seq<nat>)
    requires SessionFits(session, |helpers|) && AnchorsBelow(helpers, |start|) && myShard < |start|
  {
    forall x :: x in row ==> x < |session| && !Conflicting(session, helpers, start, hw, myShard, x)
  }

  /** Lowering least discarded ids keeps the discarded rows of earlier shards above them. */
  lemma DiscardedOkLowered(session: seq<SessionTxn>, helpers: seq<LocationHelper>, start: seq<nat>, hw: WriteInRange,
                           myShard: nat, m0: map<nat, nat>, m: map<nat, nat>, row: seq<nat>)
    requires SessionFits(session, |helpers|) && AnchorsBelow(helpers, |start|) && myShard < |start|
    requires DiscardedOk(session, helpers, start, hw, myShard, m0, row)
    requires forall snd :: MinOr(m, snd) <= MinOr(m0, snd)
    ensures DiscardedOk(session, helpers, start, hw, myShard, m, row)
  {
  }

  /** A conflicting candidate joins the discarded ones and lowers its sender's least discarded id. */
  lemma DiscardKeepsPassState(session: seq<SessionTxn>, helpers: seq<LocationHelper>, start: seq<nat>, hw: WriteInRange,
                              myShard: nat, m0: map<nat, nat>, seen: seq<nat>, txnId: nat,
                              m1: map<nat, nat>, discarded1: seq<nat>, pending1: seq<nat>)
    requires SessionFits(session, |helpers|) && AnchorsBelow(helpers, |start|) && myShard < |start|
    requires txnId < |session| && Conflicting(session, helpers, start, hw, myShard, txnId)
    requires PassState(session, helpers, start, hw, myShard, m0, seen, m1, discarded1, pending1)
    ensures PassState(session, helpers, start, hw, myShard, m0, seen + [txnId],
                      m1[session[txnId].senderId := Min(MinOr(m1, session[txnId].senderId), txnId)],
                      discarded1 + [txnId], pending1)
  {
    var senderId := session[txnId].senderId;
    var m := m1[senderId := Min(MinOr(m1, senderId), txnId)];
    var discarded := discarded1 + [txnId];
    assert multiset(discarded) + multiset(pending1) == multiset(seen + [txnId]);
    assert forall snd :: snd != senderId ==> MinOr(m, snd) == MinOr(m1, snd);
    assert forall x :: x in discarded ==> x == txnId || x in discarded1;
    assert forall snd :: MinOr(m, snd) <= MinOr(m1, snd);
    assert DiscardedOk(session, helpers, start, hw, myShard, m, discarded);
    forall snd ensures MinOr(m, snd) == MinOr(m0, snd) ||
                       exists x :: x in discarded && session[x].senderId == snd && MinOr(m, snd) == x
    {
      if snd == senderId && MinOr(m, snd) == txnId {
        assert txnId in discarded;
      } else if MinOr(m1, snd) != MinOr(m0, snd) {
        var x :| x in discarded1 && session[x].senderId == snd && MinOr(m1, snd) == x;
        assert x in discarded;
      }
    }
  }

  /** Pass 1 on one candidate. */
  method ConflictStep(session: seq<SessionTxn>, helpers: seq<LocationHelper>, start: seq<nat>, hw: WriteInRange,
                      myShard: nat, ghost m0: map<nat, nat>, ghost seen: seq<nat>, txnId: nat,
                      m1: map<nat, nat>, discarded1: seq<nat>, pending1: seq<nat>)
    returns (m: map<nat, nat>, discarded: seq<nat>, pending: seq<nat>)
    requires SessionFits(session, |helpers|) && AnchorsBelow(helpers, |start|) && myShard < |start|
    requires txnId < |session|
    requires PassState(session, helpers, start, hw, myShard, m0, seen, m1, discarded1, pending1)
    ensures PassState(session, helpers, start, hw, myShard, m0, seen + [txnId], m, discarded, pending)
  {
    m, discarded, pending := m1, discarded1, pending1;
    var txn := session[txnId];
    if AnyConflict(Locs(txn), helpers, start, myShard, hw) {
      var senderId := txn.senderId;
      DiscardKeepsPassState(session, helpers, start, hw, myShard, m0, seen, txnId, m1, discarded1, pending1);
      m := m[senderId := Min(MinOr(m, senderId), txnId)];
      discarded := discarded + [txnId];
    } else {
      pending := pending + [txnId];
      assert multiset(discarded) + multiset(pending) == multiset(seen + [txnId]);
    }
  }

  /**
   * Pass 1 over the candidates of shard myShard: a conflicting candidate is
   * discarded and lowers its sender's least discarded id to at most its own
   * id (`fetch_min` on an entry created at `usize::MAX`); the others stay pending.
   */
  method ConflictPass(session: seq<SessionTxn>, helpers: seq<LocationHelper>, start: seq<nat>, hw: WriteInRange,
                      myShard: nat, ids: seq<nat>, m0: map<nat, nat>)
    returns (m: map<nat, nat>, discarded: seq<nat>, pending: seq<nat>)
    requires SessionFits(session, |helpers|) && AnchorsBelow(helpers, |start|) && myShard < |start|
    requires forall j :: 0 <= j < |ids| ==> ids[j] < |session|
    ensures PassState(session, helpers, start, hw, myShard, m0, ids, m, discarded, pending)
  {
    m, discarded, pending := m0, [], [];
    for i := 0 to |ids|
      invariant PassState(session, helpers, start, hw, myShard, m0, ids[..i], m, discarded, pending)
    {
      assert ids[..i + 1] == ids[..i] + [ids[i]];
      m, discarded, pending := ConflictStep(session, helpers, start, hw, myShard, m0, ids[..i], ids[i], m, discarded, pending);
    }
    assert ids[..|ids|] == ids;
  }

  /** The state of pass 1 after shards 0..s-1: PassState for each of them, chained through the least-id map. */
  ghost predicate PhaseState(session: seq<SessionTxn>, helpers: seq<LocationHelper>, start: seq<nat>, hw: WriteInRange,
                             input: seq<seq<nat>>, s: nat, m: map<nat, nat>, discarded: seq<seq<nat>>, pending: seq<seq<nat>>)
    requires SessionFits(session, |helpers|) && AnchorsBelow(helpers, |start|) && |input| == |start| && s <= |input|
  {
    |discarded| == s && |pending| == s &&
    (forall t :: 0 <= t < s ==> multiset(discarded[t]) + multiset(pending[t]) == multiset(input[t])) &&
    (forall t :: 0 <= t < s ==> DiscardedOk(session, helpers, start, hw, t, m, discarded[t])) &&
    (forall t :: 0 <= t < s ==> PendingOk(session, helpers, start, hw, t, pending[t])) &&
    (forall snd :: MinOr(m, snd) <= UsizeMax) &&
    (forall snd :: (MinOr(m, snd) == UsizeMax ||
                    exists t, x :: 0 <= t < s && x in discarded[t] && x < |session| && session[x].senderId == snd &&
                                   MinOr(m, snd) == x))
  }

  lemma PhaseStep(session: seq<SessionTxn>, helpers: seq<LocationHelper>, start: seq<nat>, hw: WriteInRange,
                  input: seq<seq<nat>>, s: nat, m0: map<nat, nat>, discarded0: seq<seq<nat>>, pending0: seq<seq<nat>>,
                  m: map<nat, nat>, discarded: seq<nat>, pending: seq<nat>)
    requires SessionFits(session, |helpers|) && AnchorsBelow(helpers, |start|) && |input| == |start| && s < |input|
    requires PhaseState(session, helpers, start, hw, input, s, m0, discarded0, pending0)
    requires PassState(session, helpers, start, hw, s, m0, input[s], m, discarded, pending)
    ensures PhaseState(session, helpers, start, hw, input, s + 1, m, discarded0 + [discarded], pending0 + [pending])
  {
    var ds, ps := discarded0 + [discarded], pending0 + [pending];
    assert forall t :: 0 <= t < s ==> ds[t] == discarded0[t] && ps[t] == pending0[t];
    assert ds[s] == discarded && ps[s] == pending;
    forall t | 0 <= t < s ensures DiscardedOk(session, helpers, start, hw, t, m, ds[t]) {
      DiscardedOkLowered(session, helpers, start, hw, t, m0, m, ds[t]);
    }
    forall snd ensures MinOr(m, snd) <= UsizeMax && (MinOr(m, snd) == UsizeMax ||
                       exists t, x :: 0 <= t < s + 1 && x in ds[t] && x < |session| && session[x].senderId == snd &&
                                      MinOr(m, snd) == x)
    {
      assert MinOr(m, snd) <= MinOr(m0, snd);
      if MinOr(m, snd) != MinOr(m0, snd) {
        var x :| x in discarded && session[x].senderId == snd && MinOr(m, snd) == x;
        assert x in ds[s];
      } else if MinOr(m0, snd) != UsizeMax {
        var t, x :| 0 <= t < s && x in discarded0[t] && x < |session| && session[x].senderId == snd && MinOr(m0, snd) == x;
        assert x in ds[t];
      }
    }
  }

  /** Pass 1 of a round, shard by shard; the least-id map starts empty. */
  method ConflictPhase(session: seq<SessionTxn>, helpers: seq<LocationHelper>, start: seq<nat>, hw: WriteInRange,
                       input: seq<seq<nat>>)
    returns (m: map<nat, nat>, discarded: seq<seq<nat>>, pending: seq<seq<nat>>)
    requires SessionFits(session, |helpers|) && AnchorsBelow(helpers, |start|) && |input| == |start|
    requires IdsBelow(input, |session|)
    ensures PhaseState(session, helpers, start, hw, input, |input|, m, discarded, pending)
  {
    m, discarded, pending := map[], [], [];
    for s := 0 to |input|
      invariant PhaseState(session, helpers, start, hw, input, s, m, discarded, pending)
    {
      var m', d, p := ConflictPass(session, helpers, start, hw, s, input[s], m);
      PhaseStep(session, helpers, start, hw, input, s, m, discarded, pending, m', d, p);
      m, discarded, pending := m', discarded + [d], pending + [p];
    }
  }

  /** The slots (round, shard, x) that promoting the txns `ids` of one cell adds to location l's tracker. */
  ghost function CellSlots(session: seq<SessionTxn>, round: nat, shard: nat, ids: seq<nat>, l: nat): set<TxnFatId>
  {
    set x | x in ids && x < |session| && l in Locs(session[x]) :: TxnFatId(round, shard, x)
  }

  /** The slots that promoting a whole row of cells adds to location l's tracker. */
  ghost function RoundSlots(session: seq<SessionTxn>, round: nat, rows: seq<seq<nat>>, l: nat): set<TxnFatId>
  {
    set s, x | 0 <= s < |rows| && x in rows[s] && x < |session| && l in Locs(session[x]) :: TxnFatId(round, s, x)
  }

  lemma CellSlotsAppend(session: seq<SessionTxn>, round: nat, shard: nat, ids: seq<nat>, x: nat, l: nat)
    requires x < |session|
    ensures CellSlots(session, round, shard, ids + [x], l)
         == CellSlots(session, round, shard, ids, l) + if l in Locs(session[x]) then {TxnFatId(round, shard, x)} else {}
  {
  }

  lemma RoundSlotsAppend(session: seq<SessionTxn>, round: nat, rows: seq<seq<nat>>, row: seq<nat>, l: nat)
    ensures RoundSlots(session, round, rows + [row], l)
         == RoundSlots(session, round, rows, l) + CellSlots(session, round, |rows|, row, l)
  {
    var rs := rows + [row];
    assert forall s :: 0 <= s < |rows| ==> rs[s] == rows[s];
  }

  lemma RoundSlotsSameMembers(session: seq<SessionTxn>, round: nat, a: seq<seq<nat>>, b: seq<seq<nat>>, l: nat)
    requires |a| == |b| && forall s :: 0 <= s < |a| ==> multiset(a[s]) == multiset(b[s])
    ensures RoundSlots(session, round, a, l) == RoundSlots(session, round, b, l)
  {
    assert forall s, x :: 0 <= s < |a| ==> (x in a[s] <==> x in multiset(a[s])) && (x in b[s] <==> x in multiset(b[s]));
  }

  /** Every id of row passes the sender gate of pass 2: it is below its sender's least discarded id. */
  ghost predicate AcceptedOk(session: seq<SessionTxn>, m: map<nat, nat>, row: seq<nat>)
  {
    forall x :: x in row ==> x < |session| && x < MinOr(m, session[x].senderId)
  }

  /** Every id of row fails the sender gate of pass 2. */
  ghost predicate RejectedOk(session: seq<SessionTxn>, m: map<nat, nat>, row: seq<nat>)
  {
    forall x :: x in row ==> x < |session| && MinOr(m, session[x].senderId) <= x
  }

  /**
   * Pass 2 over shard's pending candidates: a candidate whose id is below its
   * sender's least discarded id is accepted and promoted, at (round, shard),
   * in the tracker of every location it writes or reads; the others are discarded.
   */
  method AcceptPass(table: LocationTable, session: seq<SessionTxn>, round: nat, shard: nat,
                    pending: seq<nat>, m: map<nat, nat>)
    returns (accepted: seq<nat>, rejected: seq<nat>)
    requires AllValid(table.helpers) && SessionFits(session, |table.helpers|)
    requires forall j :: 0 <= j < |pending| ==> pending[j] < |session|
    modifies table
    ensures multiset(accepted) + multiset(rejected) == multiset(pending)
    ensures AcceptedOk(session, m, accepted) && RejectedOk(session, m, rejected)
    ensures AllValid(table.helpers) && |table.helpers| == old(|table.helpers|)
    ensures forall l :: 0 <= l < |table.helpers| ==>
      PromotedWith(table.helpers[l], old(table.helpers[l]), CellSlots(session, round, shard, accepted, l))
  {
    accepted, rejected := [], [];
    forall l | 0 <= l < |table.helpers| ensures PromotedWith(table.helpers[l], table.helpers[l], CellSlots(session, round, shard, [], l)) {
      PromotedWithEmpty(table.helpers[l]);
    }
    for i := 0 to |pending|
      invariant multiset(accepted) + multiset(rejected) == multiset(pending[..i])
      invariant AcceptedOk(session, m, accepted) && RejectedOk(session, m, rejected)
      invariant AllValid(table.helpers) && |table.helpers| == old(|table.helpers|)
      invariant forall l :: 0 <= l < |table.helpers| ==>
        PromotedWith(table.helpers[l], old(table.helpers[l]), CellSlots(session, round, shard, accepted, l))
    {
      var txnId := pending[i];
      var txn := session[txnId];
      assert pending[..i + 1] == pending[..i] + [txnId];
      if txnId < MinOr(m, txn.senderId) {
        ghost var before := table.helpers;
        table.PromoteAt(Locs(txn), txnId, round, shard);
        forall l | 0 <= l < |table.helpers|
          ensures PromotedWith(table.helpers[l], old(table.helpers[l]), CellSlots(session, round, shard, accepted + [txnId], l))
        {
          PromotedWithTrans(old(table.helpers[l]), before[l], table.helpers[l], CellSlots(session, round, shard, accepted, l),
                            if l in Locs(txn) then {TxnFatId(round, shard, txnId)} else {});
          CellSlotsAppend(session, round, shard, accepted, txnId, l);
        }
        accepted := accepted + [txnId];
      } else {
        rejected := rejected + [txnId];
      }
    }
    assert pending[..|pending|] == pending;
  }

  /** Pass 2 of a round, shard by shard, against the least-id map pass 1 left. */
  method AcceptPhase(table: LocationTable, session: seq<SessionTxn>, round: nat, pending: seq<seq<nat>>, m: map<nat, nat>)
    returns (accepted: seq<seq<nat>>, rejected: seq<seq<nat>>)
    requires AllValid(table.helpers) && SessionFits(session, |table.helpers|) && IdsBelow(pending, |session|)
    modifies table
    ensures |accepted| == |pending| && |rejected| == |pending|
    ensures forall s :: 0 <= s < |pending| ==> multiset(accepted[s]) + multiset(rejected[s]) == multiset(pending[s])
    ensures forall s :: 0 <= s < |pending| ==> AcceptedOk(session, m, accepted[s]) && RejectedOk(session, m, rejected[s])
    ensures AllValid(table.helpers) && |table.helpers| == old(|table.helpers|)
    ensures forall l :: 0 <= l < |table.helpers| ==>
      PromotedWith(table.helpers[l], old(table.helpers[l]), RoundSlots(session, round, accepted, l))
  {
    accepted, rejected := [], [];
    forall l | 0 <= l < |table.helpers| ensures PromotedWith(table.helpers[l], table.helpers[l], RoundSlots(session, round, [], l)) {
      PromotedWithEmpty(table.helpers[l]);
    }
    for s := 0 to |pending|
      invariant |accepted| == s && |rejected| == s
      invariant forall t :: 0 <= t < s ==> multiset(accepted[t]) + multiset(rejected[t]) == multiset(pending[t])
      invariant forall t :: 0 <= t < s ==> AcceptedOk(session, m, accepted[t]) && RejectedOk(session, m, rejected[t])
      invariant AllValid(table.helpers) && |table.helpers| == old(|table.helpers|)
      invariant forall l :: 0 <= l < |table.helpers| ==>
        PromotedWith(table.helpers[l], old(table.helpers[l]), RoundSlots(session, round, accepted, l))
    {
      ghost var before := table.helpers;
      var a, r := AcceptPass(table, session, round, s, pending[s], m);
      forall l | 0 <= l < |table.helpers|
        ensures PromotedWith(table.helpers[l], old(table.helpers[l]), RoundSlots(session, round, accepted + [a], l))
      {
        PromotedWithTrans(old(table.helpers[l]), before[l], table.helpers[l], RoundSlots(session, round, accepted, l),
                          CellSlots(session, round, s, a, l));
        RoundSlotsAppend(session, round, accepted, a, l);
      }
      ghost var acc0, rej0 := accepted, rejected;
      accepted, rejected := accepted + [a], rejected + [r];
      assert forall t :: 0 <= t < s ==> accepted[t] == acc0[t] && rejected[t] == rej0[t];
      assert accepted[s] == a && rejected[s] == r;
    }
  }

  /**
   * What a discarding round leaves, given the candidates `input` per shard and
   * the trackers as registered: per shard, the accepted and the discarded ids
   * split the candidates and are sorted; an accepted id does not conflict and is
   * below its sender's least discarded id; a discarded id is at or above it;
   * and that least id is `usize::MAX` or the id of a conflicting discarded
   * txn of the sender.
   */
  ghost predicate RoundOutcome(session: seq<SessionTxn>, helpers: seq<LocationHelper>, start: seq<nat>, hw: WriteInRange,
                               input: seq<seq<nat>>, accepted: seq<seq<nat>>, discarded: seq<seq<nat>>, m: map<nat, nat>)
    requires SessionFits(session, |helpers|) && AnchorsBelow(helpers, |start|) && |input| == |start|
  {
    |accepted| == |input| && |discarded| == |input| &&
    (forall s :: 0 <= s < |input| ==>
       Sorted(accepted[s]) && Sorted(discarded[s]) &&
       multiset(accepted[s]) + multiset(discarded[s]) == multiset(input[s])) &&
    (forall s :: 0 <= s < |input| ==>
       AcceptedOk(session, m, accepted[s]) && PendingOk(session, helpers, start, hw, s, accepted[s])) &&
    (forall s :: 0 <= s < |input| ==> RejectedOk(session, m, discarded[s])) &&
    (forall snd :: MinOr(m, snd) <= UsizeMax) &&
    (forall snd :: (MinOr(m, snd) == UsizeMax ||
                    exists s, x :: 0 <= s < |input| && x in discarded[s] && x < |session| &&
                                   Conflicting(session, helpers, start, hw, s, x) &&
                                   session[x].senderId == snd && MinOr(m, snd) == x))
  }

  /** One shard of a round's outcome, from the two passes and the sorting. */
  lemma OutcomeRow(session: seq<SessionTxn>, helpers: seq<LocationHelper>, start: seq<nat>, hw: WriteInRange,
                   s: nat, m: map<nat, nat>, input: seq<nat>, disc1: seq<nat>, pending: seq<nat>,
                   acc: seq<nat>, rej: seq<nat>, sortedAcc: seq<nat>, sortedDisc: seq<nat>)
    requires SessionFits(session, |helpers|) && AnchorsBelow(helpers, |start|) && s < |start|
    requires multiset(disc1) + multiset(pending) == multiset(input)
    requires DiscardedOk(session, helpers, start, hw, s, m, disc1) && PendingOk(session, helpers, start, hw, s, pending)
    requires multiset(acc) + multiset(rej) == multiset(pending)
    requires AcceptedOk(session, m, acc) && RejectedOk(session, m, rej)
    requires multiset(sortedAcc) == multiset(acc) && multiset(sortedDisc) == multiset(disc1 + rej)
    ensures multiset(sortedAcc) + multiset(sortedDisc) == multiset(input)
    ensures AcceptedOk(session, m, sortedAcc) && PendingOk(session, helpers, start, hw, s, sortedAcc)
    ensures RejectedOk(session, m, sortedDisc)
    ensures forall x :: x in disc1 ==> x in sortedDisc
  {
    assert multiset(disc1 + rej) == multiset(disc1) + multiset(rej);
    forall x | x in sortedAcc ensures x in acc && x in pending {
      assert x in multiset(sortedAcc);
      assert x in multiset(pending);
    }
    forall x | x in sortedDisc ensures x in disc1 || x in rej {
      assert x in multiset(sortedDisc);
    }
    forall x | x in disc1 ensures x in sortedDisc {
      assert x in multiset(sortedDisc);
    }
  }

  lemma OutcomeOfPhases(session: seq<SessionTxn>, helpers: seq<LocationHelper>, start: seq<nat>, hw: WriteInRange,
                        input: seq<seq<nat>>, m: map<nat, nat>, disc1: seq<seq<nat>>, pending: seq<seq<nat>>,
                        acc: seq<seq<nat>>, rej: seq<seq<nat>>, accepted: seq<seq<nat>>, discarded: seq<seq<nat>>)
    requires SessionFits(session, |helpers|) && AnchorsBelow(helpers, |start|) && |input| == |start|
    requires PhaseState(session, helpers, start, hw, input, |input|, m, disc1, pending)
    requires |acc| == |input| && |rej| == |input| && |accepted| == |input| && |discarded| == |input|
    requires forall s :: 0 <= s < |input| ==> multiset(acc[s]) + multiset(rej[s]) == multiset(pending[s])
    requires forall s :: 0 <= s < |input| ==> AcceptedOk(session, m, acc[s]) && RejectedOk(session, m, rej[s])
    requires forall s :: 0 <= s < |input| ==> Sorted(accepted[s]) && multiset(accepted[s]) == multiset(acc[s])
    requires forall s :: 0 <= s < |input| ==> Sorted(discarded[s]) && multiset(discarded[s]) == multiset(disc1[s] + rej[s])
    ensures RoundOutcome(session, helpers, start, hw, input, accepted, discarded, m)
  {
    forall s | 0 <= s < |input|
      ensures multiset(accepted[s]) + multiset(discarded[s]) == multiset(input[s])
      ensures AcceptedOk(session, m, accepted[s]) && PendingOk(session, helpers, start, hw, s, accepted[s])
      ensures RejectedOk(session, m, discarded[s])
      ensures forall x :: x in disc1[s] ==> x in discarded[s]
    {
      OutcomeRow(session, helpers, start, hw, s, m, input[s], disc1[s], pending[s], acc[s], rej[s], accepted[s], discarded[s]);
    }
    forall snd ensures MinOr(m, snd) == UsizeMax ||
                       exists s, x :: 0 <= s < |input| && x in discarded[s] && x < |session| &&
                                      Conflicting(session, helpers, start, hw, s, x) &&
                                      session[x].senderId == snd && MinOr(m, snd) == x
    {
      if MinOr(m, snd) != UsizeMax {
        var s, x :| 0 <= s < |input| && x in disc1[s] && x < |session| && session[x].senderId == snd && MinOr(m, snd) == x;
        assert DiscardedOk(session, helpers, start, hw, s, m, disc1[s]);
        assert x in discarded[s];
      }
    }
  }

  /**
   * `discarding_round`: pass 1 over every shard against the registered
   * trackers, then pass 2 against the least discarded ids pass 1 recorded,
   * then both lists sorted per shard. The trackers gain, at (round, shard),
   * exactly the accepted txns, at every location each of them touches.
   */
  method DiscardingRound(table: LocationTable, round: nat, session: seq<SessionTxn>, txnIdVecs: seq<seq<nat>>,
                         start: seq<nat>, hw: WriteInRange)
    returns (accepted: seq<seq<nat>>, discarded: seq<seq<nat>>, ghost minDiscarded: map<nat, nat>)
    requires AllValid(table.helpers) && SessionFits(session, |table.helpers|) && AnchorsBelow(table.helpers, |start|)
    requires |txnIdVecs| == |start| && IdsBelow(txnIdVecs, |session|)
    modifies table
    ensures RoundOutcome(session, old(table.helpers), start, hw, txnIdVecs, accepted, discarded, minDiscarded)
    ensures AllValid(table.helpers) && |table.helpers| == old(|table.helpers|)
    ensures forall l :: 0 <= l < |table.helpers| ==>
      PromotedWith(table.helpers[l], old(table.helpers[l]), RoundSlots(session, round, accepted, l))
  {
    var m, disc1, pending := ConflictPhase(session, table.helpers, start, hw, txnIdVecs);
    forall s, j | 0 <= s < |pending| && 0 <= j < |pending[s]| ensures pending[s][j] < |session| {
      assert PendingOk(session, table.helpers, start, hw, s, pending[s]);
      assert pending[s][j] in pending[s];
    }
    var acc, rej := AcceptPhase(table, session, round, pending, m);
    var disc := [];
    for s := 0 to |txnIdVecs|
      invariant |disc| == s
      invariant forall t :: 0 <= t < s ==> disc[t] == disc1[t] + rej[t]
    {
      disc := disc + [disc1[s] + rej[s]];
    }
    accepted := ExtractAndSort(acc);
    discarded := ExtractAndSort(disc);
    minDiscarded := m;
    OutcomeOfPhases(session, old(table.helpers), start, hw, txnIdVecs, m, disc1, pending, acc, rej, accepted, discarded);
    forall l | 0 <= l < |table.helpers| ensures RoundSlots(session, round, accepted, l) == RoundSlots(session, round, acc, l) {
      RoundSlotsSameMembers(session, round, accepted, acc, l);
    }
  }

  /**
   * Multiplicities of a split: when every element of a satisfies p and no
   * element of d does, and together they are input, then a holds exactly
   * input's elements satisfying p and d the rest.
   */
  lemma SplitByPredicate(input: seq<nat>, a: seq<nat>, d: seq<nat>, p: nat -> bool)
    requires multiset(a) + multiset(d) == multiset(input)
    requires forall x :: x in a ==> p(x)
    requires forall x :: x in d ==> !p(x)
    ensures forall x :: multiset(a)[x] == if p(x) then multiset(input)[x] else 0
    ensures forall x :: multiset(d)[x] == if p(x) then 0 else multiset(input)[x]
  {
    forall x ensures multiset(a)[x] == if p(x) then multiset(input)[x] else 0
    {
      if p(x) { assert x !in multiset(d); } else { assert x !in multiset(a); }
    }
    forall x ensures multiset(d)[x] == if p(x) then 0 else multiset(input)[x]
    {
      if p(x) { assert x !in multiset(d); } else { assert x !in multiset(a); }
    }
  }

  /**
   * A candidate's fate in a round: it is accepted exactly when it does not
   * conflict and its id is below its sender's least discarded id, and
   * discarded otherwise; nothing else appears in either list.
   */
  lemma RoundMembership(session: seq<SessionTxn>, helpers: seq<LocationHelper>, start: seq<nat>, hw: WriteInRange,
                        input: seq<seq<nat>>, accepted: seq<seq<nat>>, discarded: seq<seq<nat>>, m: map<nat, nat>,
                        s: nat, x: nat)
    requires SessionFits(session, |helpers|) && AnchorsBelow(helpers, |start|) && |input| == |start|
    requires IdsBelow(input, |session|) && s < |input|
    requires RoundOutcome(session, helpers, start, hw, input, accepted, discarded, m)
    ensures x in accepted[s] <==>
      x in input[s] && !Conflicting(session, helpers, start, hw, s, x) && x < MinOr(m, session[x].senderId)
    ensures x in discarded[s] <==>
      x in input[s] && (Conflicting(session, helpers, start, hw, s, x) || MinOr(m, session[x].senderId) <= x)
  {
    var p := (y: nat) => y < |session| && !Conflicting(session, helpers, start, hw, s, y) && y < MinOr(m, session[y].senderId);
    assert AcceptedOk(session, m, accepted[s]) && PendingOk(session, helpers, start, hw, s, accepted[s]);
    assert RejectedOk(session, m, discarded[s]);
    SplitByPredicate(input[s], accepted[s], discarded[s], p);
    assert x in input[s] ==> x < |session|;
    assert x in accepted[s] <==> multiset(accepted[s])[x] > 0;
    assert x in discarded[s] <==> multiset(discarded[s])[x] > 0;
    assert x in input[s] <==> multiset(input[s])[x] > 0;
  }

  /** The least discarded id of every sender is the same in any two outcomes of a round. */
  lemma {:induction false} LeastDiscardedUnique(session: seq<SessionTxn>, helpers: seq<LocationHelper>, start: seq<nat>,
                                                hw: WriteInRange, input: seq<seq<nat>>,
                                                a1: seq<seq<nat>>, d1: seq<seq<nat>>, m1: map<nat, nat>,
                                                a2: seq<seq<nat>>, d2: seq<seq<nat>>, m2: map<nat, nat>, snd: nat)
    requires SessionFits(session, |helpers|) && AnchorsBelow(helpers, |start|) && |input| == |start|
    requires IdsBelow(input, |session|)
    requires RoundOutcome(session, helpers, start, hw, input, a1, d1, m1)
    requires RoundOutcome(session, helpers, start, hw, input, a2, d2, m2)
    ensures MinOr(m2, snd) <= MinOr(m1, snd)
  {
    if MinOr(m1, snd) != UsizeMax {
      var s, y :| 0 <= s < |input| && y in d1[s] && y < |session| &&
                  Conflicting(session, helpers, start, hw, s, y) && session[y].senderId == snd && MinOr(m1, snd) == y;
      RoundMembership(session, helpers, start, hw, input, a1, d1, m1, s, y);
      RoundMembership(session, helpers, start, hw, input, a2, d2, m2, s, y);
      assert RejectedOk(session, m2, d2[s]);
    }
  }

  /**
   * A round's outcome does not depend on the order in which the parallel
   * passes visit the candidates: any two outcomes for the same candidates and
   * trackers have the same accepted and discarded lists and least discarded ids.
   */
  lemma RoundOutcomeUnique(session: seq<SessionTxn>, helpers: seq<LocationHelper>, start: seq<nat>, hw: WriteInRange,
                           input: seq<seq<nat>>,
                           a1: seq<seq<nat>>, d1: seq<seq<nat>>, m1: map<nat, nat>,
                           a2: seq<seq<nat>>, d2: seq<seq<nat>>, m2: map<nat, nat>)
    requires SessionFits(session, |helpers|) && AnchorsBelow(helpers, |start|) && |input| == |start|
    requires IdsBelow(input, |session|)
    requires RoundOutcome(session, helpers, start, hw, input, a1, d1, m1)
    requires RoundOutcome(session, helpers, start, hw, input, a2, d2, m2)
    ensures forall snd :: MinOr(m1, snd) == MinOr(m2, snd)
    ensures a1 == a2 && d1 == d2
  {
    forall snd ensures MinOr(m1, snd) == MinOr(m2, snd) {
      LeastDiscardedUnique(session, helpers, start, hw, input, a1, d1, m1, a2, d2, m2, snd);
      LeastDiscardedUnique(session, helpers, start, hw, input, a2, d2, m2, a1, d1, m1, snd);
    }
    forall s | 0 <= s < |input| ensures a1[s] == a2[s] && d1[s] == d2[s] {
      forall x ensures (x in a1[s] <==> x in a2[s]) && (x in d1[s] <==> x in d2[s]) {
        RoundMembership(session, helpers, start, hw, input, a1, d1, m1, s, x);
        RoundMembership(session, helpers, start, hw, input, a2, d2, m2, s, x);
      }
      var p := (y: nat) => y in a1[s];
      SplitByPredicate(input[s], a1[s], d1[s], p);
      SplitByPredicate(input[s], a2[s], d2[s], p);
      assert multiset(a1[s]) == multiset(a2[s]);
      assert multiset(d1[s]) == multiset(d2[s]);
      SortedPermutationsEqual(a1[s], a2[s]);
      SortedPermutationsEqual(d1[s], d2[s]);
    }
  }

  /**
   * Within a round a sender's accepted txns all come before its discarded
   * ones: an accepted id is below the least discarded id of its sender, and
   * every discarded id is at or above it.
   */
  lemma AcceptedBeforeDiscarded(session: seq<SessionTxn>, helpers: seq<LocationHelper>, start: seq<nat>, hw: WriteInRange,
                                input: seq<seq<nat>>, accepted: seq<seq<nat>>, discarded: seq<seq<nat>>, m: map<nat, nat>,
                                s: nat, t: nat, x: nat, y: nat)
    requires SessionFits(session, |helpers|) && AnchorsBelow(helpers, |start|) && |input| == |start|
    requires RoundOutcome(session, helpers, start, hw, input, accepted, discarded, m)
    requires s < |input| && t < |input| && x in accepted[s] && y in discarded[t]
    requires x < |session| && y < |session| && session[x].senderId == session[y].senderId
    ensures x < y
  {
    assert AcceptedOk(session, m, accepted[s]) && RejectedOk(session, m, discarded[t]);
  }

  /** The number of rounds, the catch-all included (`num_rounds`). */
  const NumRounds: nat := 2

  /**
   * The catch-all round: all still-discarded txns, shard by shard in order,
   * become round NumRounds - 1 of the last shard and are promoted there at
   * every location they read or write; the other shards of that round are empty.
   */
  method CatchAll(table: LocationTable, session: seq<SessionTxn>, remaining: seq<seq<nat>>, numShards: nat)
    returns (row: seq<seq<nat>>)
    requires numShards >= 1
    requires AllValid(table.helpers) && SessionFits(session, |table.helpers|) && IdsBelow(remaining, |session|)
    modifies table
    ensures |row| == numShards && row[numShards - 1] == Concat(remaining)
    ensures forall s :: 0 <= s < numShards - 1 ==> row[s] == []
    ensures AllValid(table.helpers) && |table.helpers| == old(|table.helpers|)
    ensures forall l :: 0 <= l < |table.helpers| ==>
      PromotedWith(table.helpers[l], old(table.helpers[l]), CellSlots(session, NumRounds - 1, numShards - 1, Concat(remaining), l))
  {
    var lastRoundTxns := Concat(remaining);
    ConcatBelow(remaining, |session|);
    forall l | 0 <= l < |table.helpers|
      ensures PromotedWith(table.helpers[l], table.helpers[l], CellSlots(session, NumRounds - 1, numShards - 1, [], l))
    {
      PromotedWithEmpty(table.helpers[l]);
    }
    for i := 0 to |lastRoundTxns|
      invariant AllValid(table.helpers) && |table.helpers| == old(|table.helpers|)
      invariant forall l :: 0 <= l < |table.helpers| ==>
        PromotedWith(table.helpers[l], old(table.helpers[l]), CellSlots(session, NumRounds - 1, numShards - 1, lastRoundTxns[..i], l))
    {
      var txnId := lastRoundTxns[i];
      var txn := session[txnId];
      ghost var before := table.helpers;
      var locs := txn.readIds + txn.writeIds;
      assert forall l :: l in locs <==> l in Locs(txn);
      forall j | 0 <= j < |locs| ensures locs[j] < |table.helpers| {
        if j < |txn.readIds| {
          assert locs[j] == Locs(txn)[|txn.writeIds| + j];
        } else {
          assert locs[j] == Locs(txn)[j - |txn.readIds|];
        }
      }
      table.PromoteAt(locs, txnId, NumRounds - 1, numShards - 1);
      assert lastRoundTxns[..i + 1] == lastRoundTxns[..i] + [txnId];
      forall l | 0 <= l < |table.helpers|
        ensures PromotedWith(table.helpers[l], old(table.helpers[l]),
                             CellSlots(session, NumRounds - 1, numShards - 1, lastRoundTxns[..i + 1], l))
      {
        PromotedWithTrans(old(table.helpers[l]), before[l], table.helpers[l],
                          CellSlots(session, NumRounds - 1, numShards - 1, lastRoundTxns[..i], l),
                          if l in locs then {TxnFatId(NumRounds - 1, numShards - 1, txnId)} else {});
        CellSlotsAppend(session, NumRounds - 1, numShards - 1, lastRoundTxns[..i], txnId, l);
      }
    }
    assert lastRoundTxns[..|lastRoundTxns|] == lastRoundTxns;
    row := seq(numShards, _ => []);
    row := row[numShards - 1 := lastRoundTxns];
  }
}
