/**
 * Key and sender registration, the preprocessing step of `partition`: every
 * distinct sender and every distinct storage key of the block gets a dense
 * id in first-seen order, each transaction is annotated with its sender id
 * and the ids of its write and read locations, and each key gets a tracker
 * holding its anchor shard and its candidate writers and readers.
 */
module Registry {
  import opened Locations

  type AccountAddress = nat

  /** `Option<AccountAddress>`: a transaction may have no sender. */
  datatype Sender = NoSender | Account(address: AccountAddress)

  /** A state key, abstracted to a number: the partitioner only compares keys for equality. */
  type StateKey = nat

  /** The input transaction: its sender and the keys of its write and read hints. */
  datatype AnalyzedTxn = AnalyzedTxn(sender: Sender, writeHints: seq<StateKey>, readHints: seq<StateKey>)

  /** A transaction as the rest of the session sees it: its ids within the partitioning session. */
  datatype SessionTxn = SessionTxn(txnId: nat, senderId: nat, writeIds: seq<nat>, readIds: seq<nat>)

  /** The locations a transaction touches, writes first (`write_hints.iter().chain(read_hints.iter())`). */
  function Locs(t: SessionTxn): seq<nat>
  {
    t.writeIds + t.readIds
  }

  /** Every location id of every txn of the session is a valid tracker index. */
  ghost predicate SessionFits(session: seq<SessionTxn>, numLocs: nat)
  {
    forall x, j :: 0 <= x < |session| && 0 <= j < |Locs(session[x])| ==> Locs(session[x])[j] < numLocs
  }

  /** Some txn before t writes or reads key k. */
  ghost predicate TouchedBefore(txns: seq<AnalyzedTxn>, t: nat, k: StateKey)
  {
    exists u :: 0 <= u < t && u < |txns| && (k in txns[u].writeHints || k in txns[u].readHints)
  }

  /** Some txn before t has sender x. */
  ghost predicate SentBefore(txns: seq<AnalyzedTxn>, t: nat, x: Sender)
  {
    exists u :: 0 <= u < t && u < |txns| && txns[u].sender == x
  }

  ghost function WritersOf(txns: seq<AnalyzedTxn>, k: StateKey): set<nat>
  {
    set u | 0 <= u < |txns| && k in txns[u].writeHints
  }

  ghost function ReadersOf(txns: seq<AnalyzedTxn>, k: StateKey): set<nat>
  {
    set u | 0 <= u < |txns| && k in txns[u].readHints
  }

  /** The tracker registration leaves for key k once all of txns are seen. */
  ghost function Registered(txns: seq<AnalyzedTxn>, anchor: StateKey -> nat, k: StateKey): LocationHelper
  {
    LocationHelper(anchor(k), WritersOf(txns, k), ReadersOf(txns, k), [], [])
  }

  /** m numbers its keys 0..n-1 one to one: distinct keys get distinct ids and every id below n is used. */
  ghost predicate DenseIds<K>(m: map<K, nat>, n: nat)
  {
    (forall a, b :: a in m && b in m && m[a] == m[b] ==> a == b) &&
    (forall a :: a in m ==> m[a] < n) &&
    (forall id :: 0 <= id < n ==> id in m.Values)
  }

  /** inv is the inverse of m, and m is a bijection onto 0..n-1: a certificate for DenseIds. */
  ghost predicate Numbered<K>(m: map<K, nat>, inv: map<nat, K>, n: nat)
  {
    (forall a :: a in m ==> m[a] < n && m[a] in inv && inv[m[a]] == a) &&
    (forall id :: 0 <= id < n ==> id in inv && inv[id] in m && m[inv[id]] == id)
  }

  lemma NumberedDense<K>(m: map<K, nat>, inv: map<nat, K>, n: nat)
    requires Numbered(m, inv, n)
    ensures DenseIds(m, n)
  {
    forall id | 0 <= id < n ensures id in m.Values {
      assert id in inv;
      var a := inv[id];
      assert a in m && m[a] == id;
    }
  }

  /** Numbering a new key with the next id keeps the numbering a bijection. */
  lemma NumberedAdd<K>(m: map<K, nat>, inv: map<nat, K>, n: nat, a: K)
    requires Numbered(m, inv, n) && a !in m
    ensures Numbered(m[a := n], inv[n := a], n + 1)
  {
  }

  /** Registration has not promoted anything yet. */
  ghost predicate Unpromoted(helpers: seq<LocationHelper>)
  {
    forall id :: 0 <= id < |helpers| ==> helpers[id].promotedWriterIds == [] && helpers[id].promotedTxnIds == []
  }

  lemma UnpromotedAllValid(helpers: seq<LocationHelper>)
    requires Unpromoted(helpers)
    ensures AllValid(helpers)
  {
  }

  /** Some position j with lo <= j < hi of hs holds k. */
  ghost predicate Occurs(hs: seq<StateKey>, lo: nat, hi: nat, k: StateKey)
    requires hi <= |hs|
  {
    lo < hi && (Occurs(hs, lo, hi - 1, k) || hs[hi - 1] == k)
  }

  lemma {:induction false} OccursMeaning(hs: seq<StateKey>, lo: nat, hi: nat, k: StateKey)
    requires hi <= |hs|
    ensures Occurs(hs, lo, hi, k) <==> exists j :: lo <= j < hi && hs[j] == k
  {
    if lo < hi {
      OccursMeaning(hs, lo, hi - 1, k);
      if Occurs(hs, lo, hi, k) && hs[hi - 1] != k {
        var j :| lo <= j < hi - 1 && hs[j] == k;
      }
    }
  }

  lemma OccursWithin(hs: seq<StateKey>, lo: nat, hi: nat, lo2: nat, hi2: nat, k: StateKey)
    requires lo2 <= lo && hi <= hi2 <= |hs|
    ensures Occurs(hs, lo, hi, k) ==> Occurs(hs, lo2, hi2, k)
  {
    OccursMeaning(hs, lo, hi, k);
    OccursMeaning(hs, lo2, hi2, k);
  }

  /** Taking in hint i: it extends the write part when i < numWrites and the read part otherwise. */
  lemma OccursStep(hs: seq<StateKey>, i: nat, numWrites: nat, k: StateKey)
    requires i < |hs| && numWrites <= |hs|
    ensures Occurs(hs, 0, WriteEnd(i + 1, numWrites), k) == (Occurs(hs, 0, WriteEnd(i, numWrites), k) || (i < numWrites && hs[i] == k))
    ensures Occurs(hs, numWrites, i + 1, k) == (Occurs(hs, numWrites, i, k) || (numWrites <= i && hs[i] == k))
    ensures Occurs(hs, 0, i + 1, k) == (Occurs(hs, 0, i, k) || hs[i] == k)
  {
  }

  /** A txn's hint list holds its write hints at positions below numWrites and its read hints after them. */
  lemma HintsOccur(txn: AnalyzedTxn, k: StateKey)
    ensures var hints, n := txn.writeHints + txn.readHints, |txn.writeHints|;
      (Occurs(hints, 0, n, k) <==> k in txn.writeHints) &&
      (Occurs(hints, n, |hints|, k) <==> k in txn.readHints) &&
      (Occurs(hints, 0, |hints|, k) <==> k in txn.writeHints || k in txn.readHints)
  {
    var hints, n := txn.writeHints + txn.readHints, |txn.writeHints|;
    OccursMeaning(hints, 0, n, k);
    OccursMeaning(hints, n, |hints|, k);
    OccursMeaning(hints, 0, |hints|, k);
    if k in txn.writeHints {
      var p :| 0 <= p < n && txn.writeHints[p] == k;
      assert hints[p] == k;
    }
    if k in txn.readHints {
      var p :| 0 <= p < |txn.readHints| && txn.readHints[p] == k;
      assert hints[n + p] == k;
    }
    if Occurs(hints, n, |hints|, k) {
      var j :| n <= j < |hints| && hints[j] == k;
      assert txn.readHints[j - n] == k;
    }
    if Occurs(hints, 0, |hints|, k) && !(k in txn.writeHints) {
      var j :| 0 <= j < |hints| && hints[j] == k;
      assert txn.readHints[j - n] == k;
    }
  }

  /**
   * h's candidates for key k are the writers and readers of k among txns
   * before t, plus txn t itself as a writer when wNow and as a reader when rNow.
   */
  ghost predicate CandidatesOf(h: LocationHelper, txns: seq<AnalyzedTxn>, t: nat, k: StateKey, wNow: bool, rNow: bool)
    requires t <= |txns|
  {
    (forall u: nat :: u in h.writerSet <==> (u < t && k in txns[u].writeHints) || (u == t && wNow)) &&
    (forall u: nat :: u in h.readerSet <==> (u < t && k in txns[u].readHints) || (u == t && rNow))
  }

  lemma CandidatesNew(anchorShardId: nat, txns: seq<AnalyzedTxn>, t: nat, k: StateKey)
    requires t <= |txns| && !TouchedBefore(txns, t, k)
    ensures CandidatesOf(NewHelper(anchorShardId), txns, t, k, false, false)
  {
  }

  lemma CandidatesAdd(h: LocationHelper, txns: seq<AnalyzedTxn>, t: nat, k: StateKey, wNow: bool, rNow: bool, isWrite: bool)
    requires t <= |txns| && h.Valid() && CandidatesOf(h, txns, t, k, wNow, rNow)
    ensures CandidatesOf(AddCandidate(h, t, isWrite), txns, t, k, wNow || isWrite, rNow || !isWrite)
  {
  }

  /** Once all of txn t's hints are in, its candidates are those of the txns before t + 1. */
  lemma CandidatesNext(h: LocationHelper, txns: seq<AnalyzedTxn>, t: nat, k: StateKey, hints: seq<StateKey>, n: nat)
    requires t < |txns| && hints == txns[t].writeHints + txns[t].readHints && n == |txns[t].writeHints|
    requires CandidatesOf(h, txns, t, k, Occurs(hints, 0, WriteEnd(|hints|, n), k), Occurs(hints, n, |hints|, k))
    ensures CandidatesOf(h, txns, t + 1, k, false, false)
  {
    HintsOccur(txns[t], k);
  }

  /** After the whole block, a tracker with no promotions and k's candidates is the registered tracker of k. */
  lemma CandidatesRegistered(h: LocationHelper, txns: seq<AnalyzedTxn>, anchor: StateKey -> nat, k: StateKey)
    requires CandidatesOf(h, txns, |txns|, k, false, false)
    requires h.anchorShardId == anchor(k) && h.promotedWriterIds == [] && h.promotedTxnIds == []
    ensures h == Registered(txns, anchor, k)
  {
    assert h.writerSet == WritersOf(txns, k);
    assert h.readerSet == ReadersOf(txns, k);
  }

  /** Session view of txn t: its location ids are the key ids of its hints, position by position. */
  ghost predicate Annotated(txn: AnalyzedTxn, t: nat, senderIds: map<Sender, nat>, keyIds: map<StateKey, nat>, st: SessionTxn)
  {
    txn.sender in senderIds && st.txnId == t && st.senderId == senderIds[txn.sender] &&
    |st.writeIds| == |txn.writeHints| && |st.readIds| == |txn.readHints| &&
    (forall p :: 0 <= p < |txn.writeHints| ==> txn.writeHints[p] in keyIds && st.writeIds[p] == keyIds[txn.writeHints[p]]) &&
    (forall p :: 0 <= p < |txn.readHints| ==> txn.readHints[p] in keyIds && st.readIds[p] == keyIds[txn.readHints[p]])
  }

  lemma AnnotatedExtend(txn: AnalyzedTxn, u: nat, s1: map<Sender, nat>, k1: map<StateKey, nat>,
                        s2: map<Sender, nat>, k2: map<StateKey, nat>, st: SessionTxn)
    requires Annotated(txn, u, s1, k1, st)
    requires forall x :: x in s1 ==> x in s2 && s2[x] == s1[x]
    requires forall k :: k in k1 ==> k in k2 && k2[k] == k1[k]
    ensures Annotated(txn, u, s2, k2, st)
  {
  }

  /** The end of the write part of the first i hints. */
  function WriteEnd(i: nat, numWrites: nat): nat
  {
    if i < numWrites then i else numWrites
  }

  /**
   * The key numbering after the first i hints (writes first): the keys seen
   * so far are numbered on top of keyIds0 and ids holds those hints' location ids.
   */
  ghost predicate KeysState(hints: seq<StateKey>, keyIds0: map<StateKey, nat>, i: nat,
                            keyIds: map<StateKey, nat>, inv: map<nat, StateKey>, numKeys: nat, ids: seq<nat>)
    requires i <= |hints|
  {
    Numbered(keyIds, inv, numKeys) &&
    (forall k :: k in keyIds0 ==> k in keyIds && keyIds[k] == keyIds0[k]) &&
    (forall k :: k in keyIds <==> k in keyIds0 || Occurs(hints, 0, i, k)) &&
    |ids| == i && (forall j :: 0 <= j < i ==> hints[j] in keyIds && ids[j] == keyIds[hints[j]])
  }

  /**
   * The trackers after the first i hints of txn t: one per numbered key, at
   * its anchor, with t a candidate writer or reader exactly where one of those hints says so.
   */
  ghost predicate HelpersState(txns: seq<AnalyzedTxn>, t: nat, hints: seq<StateKey>, numWrites: nat, anchor: StateKey -> nat,
                               i: nat, keyIds: map<StateKey, nat>, helpers: seq<LocationHelper>, numKeys: nat)
    requires t <= |txns| && i <= |hints| && numWrites <= |hints|
  {
    numKeys == |helpers| && Unpromoted(helpers) &&
    (forall k :: k in keyIds ==> keyIds[k] < numKeys && helpers[keyIds[k]].anchorShardId == anchor(k)) &&
    (forall k :: k in keyIds ==>
      CandidatesOf(helpers[keyIds[k]], txns, t, k, Occurs(hints, 0, WriteEnd(i, numWrites), k), Occurs(hints, numWrites, i, k)))
  }

  ghost predicate HintsState(txns: seq<AnalyzedTxn>, t: nat, hints: seq<StateKey>, numWrites: nat, anchor: StateKey -> nat,
                             keyIds0: map<StateKey, nat>, i: nat, keyIds: map<StateKey, nat>, inv: map<nat, StateKey>,
                             helpers: seq<LocationHelper>, numKeys: nat, ids: seq<nat>)
    requires t <= |txns| && i <= |hints| && numWrites <= |hints|
  {
    KeysState(hints, keyIds0, i, keyIds, inv, numKeys, ids) &&
    HelpersState(txns, t, hints, numWrites, anchor, i, keyIds, helpers, numKeys)
  }

  /** Numbering hint i (on first sight) and recording its id keeps KeysState. */
  lemma KeysStep(hints: seq<StateKey>, keyIds0: map<StateKey, nat>, i: nat,
                 keyIds: map<StateKey, nat>, inv: map<nat, StateKey>, numKeys: nat, ids: seq<nat>)
    requires i < |hints| && KeysState(hints, keyIds0, i, keyIds, inv, numKeys, ids)
    ensures var key := hints[i];
      var keyIds' := if key in keyIds then keyIds else keyIds[key := numKeys];
      var inv' := if key in keyIds then inv else inv[numKeys := key];
      var numKeys' := if key in keyIds then numKeys else numKeys + 1;
      KeysState(hints, keyIds0, i + 1, keyIds', inv', numKeys', ids + [keyIds'[key]])
  {
    var key := hints[i];
    if key !in keyIds {
      NumberedAdd(keyIds, inv, numKeys, key);
    }
    forall k ensures Occurs(hints, 0, i + 1, k) == (Occurs(hints, 0, i, k) || hints[i] == k) {
    }
  }

  /** Making txn t a candidate of hint i's key, with a fresh tracker on first sight, keeps HelpersState. */
  lemma HelpersStep(txns: seq<AnalyzedTxn>, t: nat, hints: seq<StateKey>, numWrites: nat, anchor: StateKey -> nat,
                    i: nat, keyIds: map<StateKey, nat>, helpers: seq<LocationHelper>, numKeys: nat)
    requires t <= |txns| && i < |hints| && numWrites <= |hints|
    requires HelpersState(txns, t, hints, numWrites, anchor, i, keyIds, helpers, numKeys)
    requires hints[i] !in keyIds ==> !TouchedBefore(txns, t, hints[i]) && !Occurs(hints, 0, i, hints[i])
    requires hints[i] in keyIds ==> forall k :: k in keyIds && k != hints[i] ==> keyIds[k] != keyIds[hints[i]]
    ensures var key := hints[i];
      var keyIds' := if key in keyIds then keyIds else keyIds[key := numKeys];
      var base := if key in keyIds then helpers else helpers + [NewHelper(anchor(key))];
      var helpers' := base[keyIds'[key] := AddCandidate(base[keyIds'[key]], t, i < numWrites)];
      var numKeys' := if key in keyIds then numKeys else numKeys + 1;
      HelpersState(txns, t, hints, numWrites, anchor, i + 1, keyIds', helpers', numKeys')
  {
    var key := hints[i];
    var isWrite := i < numWrites;
    var keyIds' := if key in keyIds then keyIds else keyIds[key := numKeys];
    var base := if key in keyIds then helpers else helpers + [NewHelper(anchor(key))];
    var keyId := keyIds'[key];
    var helpers' := base[keyId := AddCandidate(base[keyId], t, isWrite)];
    var numKeys' := if key in keyIds then numKeys else numKeys + 1;
    var w, r := Occurs(hints, 0, WriteEnd(i, numWrites), key), Occurs(hints, numWrites, i, key);
    if key !in keyIds {
      OccursWithin(hints, 0, WriteEnd(i, numWrites), 0, i, key);
      OccursWithin(hints, numWrites, i, 0, i, key);
      CandidatesNew(anchor(key), txns, t, key);
    }
    assert CandidatesOf(base[keyId], txns, t, key, w, r);
    CandidatesAdd(base[keyId], txns, t, key, w, r, isWrite);
    forall k | k in keyIds'
      ensures keyIds'[k] < numKeys' && helpers'[keyIds'[k]].anchorShardId == anchor(k)
      ensures CandidatesOf(helpers'[keyIds'[k]], txns, t, k, Occurs(hints, 0, WriteEnd(i + 1, numWrites), k), Occurs(hints, numWrites, i + 1, k))
    {
      OccursStep(hints, i, numWrites, k);
      if k != key {
        assert keyIds'[k] == keyIds[k] != keyId;
        assert helpers'[keyIds'[k]] == helpers[keyIds[k]];
      }
    }
  }

  /** Registration of hint i of txn t, a write when i < numWrites: one step of the hint loop. */
  method RegisterHint(ghost txns: seq<AnalyzedTxn>, t: nat, hints: seq<StateKey>, numWrites: nat, anchor: StateKey -> nat,
                      ghost keyIds0: map<StateKey, nat>, i: nat, keyIds0i: map<StateKey, nat>, ghost inv0i: map<nat, StateKey>,
                      helpers0i: seq<LocationHelper>, numKeys0i: nat, ids0i: seq<nat>)
    returns (keyIds: map<StateKey, nat>, ghost inv: map<nat, StateKey>, helpers: seq<LocationHelper>, numKeys: nat, ids: seq<nat>)
    requires t <= |txns| && i < |hints| && numWrites <= |hints|
    requires forall k :: k in keyIds0 <==> TouchedBefore(txns, t, k)
    requires HintsState(txns, t, hints, numWrites, anchor, keyIds0, i, keyIds0i, inv0i, helpers0i, numKeys0i, ids0i)
    ensures HintsState(txns, t, hints, numWrites, anchor, keyIds0, i + 1, keyIds, inv, helpers, numKeys, ids)
  {
    KeysStep(hints, keyIds0, i, keyIds0i, inv0i, numKeys0i, ids0i);
    HelpersStep(txns, t, hints, numWrites, anchor, i, keyIds0i, helpers0i, numKeys0i);
    var key := hints[i];
    var isWrite := i < numWrites;
    keyIds, inv, helpers, numKeys := keyIds0i, inv0i, helpers0i, numKeys0i;
    if key !in keyIds {
      keyIds := keyIds[key := numKeys];
      inv := inv[numKeys := key];
      helpers := helpers + [NewHelper(anchor(key))];
      numKeys := numKeys + 1;
    }
    var keyId := keyIds[key];
    helpers := helpers[keyId := AddCandidate(helpers[keyId], t, isWrite)];
    ids := ids0i + [keyId];
  }

  /**
   * Registration of one transaction's hints: numbers the keys not seen before,
   * records txn t as a candidate writer (first numWrites hints) or reader (the
   * rest) of each, and returns the location id of every hint.
   */
  method RegisterHints(ghost txns: seq<AnalyzedTxn>, t: nat, hints: seq<StateKey>, numWrites: nat, anchor: StateKey -> nat,
                       keyIds0: map<StateKey, nat>, ghost inv0: map<nat, StateKey>, helpers0: seq<LocationHelper>, numKeys0: nat)
    returns (keyIds: map<StateKey, nat>, ghost inv: map<nat, StateKey>, helpers: seq<LocationHelper>, numKeys: nat, ids: seq<nat>)
    requires t < |txns| && hints == txns[t].writeHints + txns[t].readHints && numWrites == |txns[t].writeHints|
    requires TableState(txns, anchor, t, keyIds0, inv0, numKeys0, helpers0)
    ensures TableState(txns, anchor, t + 1, keyIds, inv, numKeys, helpers)
    ensures forall k :: k in keyIds0 ==> k in keyIds && keyIds[k] == keyIds0[k]
    ensures |ids| == |hints| && forall j :: 0 <= j < |hints| ==> hints[j] in keyIds && ids[j] == keyIds[hints[j]]
  {
    keyIds, inv, helpers, numKeys, ids := keyIds0, inv0, helpers0, numKeys0, [];
    for i := 0 to |hints|
      invariant HintsState(txns, t, hints, numWrites, anchor, keyIds0, i, keyIds, inv, helpers, numKeys, ids)
    {
      keyIds, inv, helpers, numKeys, ids :=
        RegisterHint(txns, t, hints, numWrites, anchor, keyIds0, i, keyIds, inv, helpers, numKeys, ids);
    }
    TableStep(txns, anchor, t, keyIds0, keyIds, inv, helpers, numKeys, ids);
  }

  lemma TouchedStep(txns: seq<AnalyzedTxn>, t: nat, k: StateKey)
    requires t < |txns|
    ensures TouchedBefore(txns, t + 1, k) <==> TouchedBefore(txns, t, k) || k in txns[t].writeHints || k in txns[t].readHints
  {
  }

  lemma SentStep(txns: seq<AnalyzedTxn>, t: nat, x: Sender)
    requires t < |txns|
    ensures SentBefore(txns, t + 1, x) <==> SentBefore(txns, t, x) || txns[t].sender == x
  {
  }

  /** The trackers once txns before t are registered: one per key touched, at its anchor, with exactly its candidates. */
  ghost predicate TableState(txns: seq<AnalyzedTxn>, anchor: StateKey -> nat, t: nat,
                             keyIds: map<StateKey, nat>, keyInv: map<nat, StateKey>, numKeys: nat, helpers: seq<LocationHelper>)
    requires t <= |txns|
  {
    Numbered(keyIds, keyInv, numKeys) && numKeys == |helpers| && Unpromoted(helpers) &&
    (forall k :: k in keyIds <==> TouchedBefore(txns, t, k)) &&
    (forall k :: k in keyIds ==> helpers[keyIds[k]].anchorShardId == anchor(k)) &&
    (forall k :: k in keyIds ==> CandidatesOf(helpers[keyIds[k]], txns, t, k, false, false))
  }

  /**
   * The registration state once txns before t are registered: senders and
   * keys seen so far are numbered densely, the trackers are as TableState
   * says, and each of those txns is annotated.
   */
  ghost predicate RegState(txns: seq<AnalyzedTxn>, anchor: StateKey -> nat, t: nat, session: seq<SessionTxn>,
                           senderIds: map<Sender, nat>, senderInv: map<nat, Sender>, numSenders: nat,
                           keyIds: map<StateKey, nat>, keyInv: map<nat, StateKey>, numKeys: nat, helpers: seq<LocationHelper>)
    requires t <= |txns|
  {
    |session| == t &&
    Numbered(senderIds, senderInv, numSenders) &&
    (forall x :: x in senderIds <==> SentBefore(txns, t, x)) &&
    TableState(txns, anchor, t, keyIds, keyInv, numKeys, helpers) &&
    (forall u :: 0 <= u < t ==> Annotated(txns[u], u, senderIds, keyIds, session[u]))
  }

  /** Once txn t's hints are all registered, the trackers are those of the txns before t + 1. */
  lemma TableStep(txns: seq<AnalyzedTxn>, anchor: StateKey -> nat, t: nat, keyIds0: map<StateKey, nat>,
                  keyIds: map<StateKey, nat>, keyInv: map<nat, StateKey>, helpers: seq<LocationHelper>, numKeys: nat, ids: seq<nat>)
    requires t < |txns|
    requires forall k :: k in keyIds0 <==> TouchedBefore(txns, t, k)
    requires var hints := txns[t].writeHints + txns[t].readHints;
      HintsState(txns, t, hints, |txns[t].writeHints|, anchor, keyIds0, |hints|, keyIds, keyInv, helpers, numKeys, ids)
    ensures TableState(txns, anchor, t + 1, keyIds, keyInv, numKeys, helpers)
  {
    var txn := txns[t];
    var hints := txn.writeHints + txn.readHints;
    forall k ensures k in keyIds <==> TouchedBefore(txns, t + 1, k) {
      HintsOccur(txn, k);
      TouchedStep(txns, t, k);
    }
    forall k | k in keyIds ensures CandidatesOf(helpers[keyIds[k]], txns, t + 1, k, false, false) {
      CandidatesNext(helpers[keyIds[k]], txns, t, k, hints, |txn.writeHints|);
    }
  }

  /** The session view built from the ids of txn t's hints annotates txn t. */
  lemma AnnotatedFromIds(txn: AnalyzedTxn, t: nat, senderIds: map<Sender, nat>, keyIds: map<StateKey, nat>, ids: seq<nat>)
    requires txn.sender in senderIds
    requires var hints := txn.writeHints + txn.readHints;
      |ids| == |hints| && forall j :: 0 <= j < |hints| ==> hints[j] in keyIds && ids[j] == keyIds[hints[j]]
    ensures var n := |txn.writeHints|;
      Annotated(txn, t, senderIds, keyIds, SessionTxn(t, senderIds[txn.sender], ids[..n], ids[n..]))
  {
    var hints, n := txn.writeHints + txn.readHints, |txn.writeHints|;
    forall p | 0 <= p < |txn.readHints| ensures txn.readHints[p] in keyIds && ids[n..][p] == keyIds[txn.readHints[p]] {
      assert hints[n + p] == txn.readHints[p];
    }
    forall p | 0 <= p < n ensures txn.writeHints[p] in keyIds && ids[..n][p] == keyIds[txn.writeHints[p]] {
      assert hints[p] == txn.writeHints[p];
    }
  }

  /** Registration of txn t: its sender, then its hints, then its session view. */
  method RegisterTxn(txns: seq<AnalyzedTxn>, anchor: StateKey -> nat, t: nat, session0: seq<SessionTxn>,
                     senderIds0: map<Sender, nat>, ghost senderInv0: map<nat, Sender>, numSenders0: nat,
                     keyIds0: map<StateKey, nat>, ghost keyInv0: map<nat, StateKey>, numKeys0: nat, helpers0: seq<LocationHelper>)
    returns (session: seq<SessionTxn>, senderIds: map<Sender, nat>, ghost senderInv: map<nat, Sender>, numSenders: nat,
             keyIds: map<StateKey, nat>, ghost keyInv: map<nat, StateKey>, numKeys: nat, helpers: seq<LocationHelper>)
    requires t < |txns|
    requires RegState(txns, anchor, t, session0, senderIds0, senderInv0, numSenders0, keyIds0, keyInv0, numKeys0, helpers0)
    ensures RegState(txns, anchor, t + 1, session, senderIds, senderInv, numSenders, keyIds, keyInv, numKeys, helpers)
  {
    var txn := txns[t];
    senderIds, senderInv, numSenders := senderIds0, senderInv0, numSenders0;
    if txn.sender !in senderIds {
      NumberedAdd(senderIds, senderInv, numSenders, txn.sender);
      senderIds := senderIds[txn.sender := numSenders];
      senderInv := senderInv[numSenders := txn.sender];
      numSenders := numSenders + 1;
    }
    var senderId := senderIds[txn.sender];
    var hints := txn.writeHints + txn.readHints;
    var numWrites := |txn.writeHints|;
    var ids;
    keyIds, keyInv, helpers, numKeys, ids := RegisterHints(txns, t, hints, numWrites, anchor, keyIds0, keyInv0, helpers0, numKeys0);
    forall x ensures x in senderIds <==> SentBefore(txns, t + 1, x) {
      SentStep(txns, t, x);
    }
    AnnotatedFromIds(txn, t, senderIds, keyIds, ids);
    session := session0 + [SessionTxn(t, senderId, ids[..numWrites], ids[numWrites..])];
    forall u | 0 <= u < t + 1 ensures Annotated(txns[u], u, senderIds, keyIds, session[u]) {
      if u < t {
        assert session[u] == session0[u];
        AnnotatedExtend(txns[u], u, senderIds0, keyIds0, senderIds, keyIds, session0[u]);
      }
    }
    assert Numbered(senderIds, senderInv, numSenders);
  }

  /**
   * The registration loop of `partition`, run sequentially: senders and keys
   * are numbered in the order they are first seen, every transaction is
   * annotated with its sender id and location ids, and every key's tracker
   * holds its anchor shard and exactly its candidate writers and readers.
   */
  method Register(txns: seq<AnalyzedTxn>, anchor: StateKey -> nat)
    returns (session: seq<SessionTxn>, senderIds: map<Sender, nat>, numSenders: nat,
             keyIds: map<StateKey, nat>, helpers: seq<LocationHelper>)
    ensures |session| == |txns|
    ensures forall t :: 0 <= t < |txns| ==> Annotated(txns[t], t, senderIds, keyIds, session[t])
    ensures forall x :: x in senderIds <==> SentBefore(txns, |txns|, x)
    ensures DenseIds(senderIds, numSenders)
    ensures forall k :: k in keyIds <==> TouchedBefore(txns, |txns|, k)
    ensures DenseIds(keyIds, |helpers|)
    ensures AllValid(helpers)
    ensures forall k :: k in keyIds ==> helpers[keyIds[k]] == Registered(txns, anchor, k)
    ensures Unpromoted(helpers) && SessionFits(session, |helpers|)
  {
    var numKeys := 0;
    numSenders := 0;
    senderIds, keyIds, helpers, session := map[], map[], [], [];
    ghost var senderInv: map<nat, Sender> := map[];
    ghost var keyInv: map<nat, StateKey> := map[];
    for t := 0 to |txns|
      invariant RegState(txns, anchor, t, session, senderIds, senderInv, numSenders, keyIds, keyInv, numKeys, helpers)
    {
      session, senderIds, senderInv, numSenders, keyIds, keyInv, numKeys, helpers :=
        RegisterTxn(txns, anchor, t, session, senderIds, senderInv, numSenders, keyIds, keyInv, numKeys, helpers);
    }
    NumberedDense(senderIds, senderInv, numSenders);
    NumberedDense(keyIds, keyInv, numKeys);
    UnpromotedAllValid(helpers);
    forall k | k in keyIds ensures helpers[keyIds[k]] == Registered(txns, anchor, k) {
      CandidatesRegistered(helpers[keyIds[k]], txns, anchor, k);
    }
    AnnotatedFits(txns, senderIds, keyIds, |helpers|, session);
  }

  /** Annotated txns only name location ids of the numbering. */
  lemma AnnotatedFits(txns: seq<AnalyzedTxn>, senderIds: map<Sender, nat>, keyIds: map<StateKey, nat>, n: nat,
                      session: seq<SessionTxn>)
    requires |session| == |txns| && DenseIds(keyIds, n)
    requires forall t :: 0 <= t < |txns| ==> Annotated(txns[t], t, senderIds, keyIds, session[t])
    ensures SessionFits(session, n)
  {
    forall x, j | 0 <= x < |session| && 0 <= j < |Locs(session[x])| ensures Locs(session[x])[j] < n {
      var st := session[x];
      assert Annotated(txns[x], x, senderIds, keyIds, st);
      if j < |st.writeIds| {
        assert Locs(st)[j] == st.writeIds[j];
      } else {
        assert Locs(st)[j] == st.readIds[j - |st.writeIds|];
      }
    }
  }
}
