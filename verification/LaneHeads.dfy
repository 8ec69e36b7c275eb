/** The lane heads kept on chain: each lane's head moves only along verified artifacts. */
module LaneHeads {
  import opened Frame
  import opened Wrappers

  const BATCH_TX_COUNT: u32 := 20000
  const UINT256: nat := 0x1_0000_0000_0000_0000_0000_0000_0000_0000_0000_0000_0000_0000_0000_0000_0000_0000

  /** Storage starts as (0, 0), which also stands for "not set". */
  datatype Point = Point(x: nat, y: nat)

  const UNSET := Point(0, 0)

  datatype Artifact = Artifact(laneID: u16, batchID: nat, txCount: u32, prev: Point, next: Point, proof: Bytes)

  /** The batch verifier contract under one verifying key; a call that reverts counts as a refusal. */
  type Verifier = Artifact -> bool

  type Heads = map<u16, Point>

  /** Both contracts' storage. The verifying key is set at most once. */
  datatype Storage = Storage(heads: Heads, total: nat, key: Option<Bytes>)

  /** Who may set the key, and what each key accepts. */
  datatype Deployment = Deployment(admin: Bytes, check: Bytes -> Verifier)

  function Refuse(a: Artifact): bool { false }

  /** Before its key is set the batch verifier reverts every call. */
  function Current(d: Deployment, key: Option<Bytes>): Verifier {
    if key.Some? then d.check(key.value) else Refuse
  }

  function SetKey(d: Deployment, s: Storage, sender: Bytes, key: Bytes): Option<Storage> {
    if sender == d.admin && s.key.None? then Some(s.(key := Some(key))) else None
  }

  function Head(heads: Heads, lane: u16): Point {
    if lane in heads then heads[lane] else UNSET
  }

  predicate IsSet(p: Point) {
    p.x != 0 || p.y != 0
  }

  // The transactions as functions: nothing means the transaction reverts

  function Initialize(heads: Heads, lane: u16, p: Point): Option<Heads> {
    if IsSet(Head(heads, lane)) then None else Some(heads[lane := p])
  }

  function InitializeAll(heads: Heads, lanes: seq<u16>, ps: seq<Point>): Option<Heads>
    requires |lanes| == |ps|
  {
    if lanes == [] then Some(heads)
    else
      match InitializeAll(heads, lanes[..|lanes| - 1], ps[..|ps| - 1])
      case None => None
      case Some(h) => Initialize(h, lanes[|lanes| - 1], ps[|ps| - 1])
  }

  predicate Acceptable(v: Verifier, heads: Heads, a: Artifact) {
    a.txCount == BATCH_TX_COUNT && IsSet(Head(heads, a.laneID)) && Head(heads, a.laneID) == a.prev && v(a)
  }

  function Advance(v: Verifier, heads: Heads, artifacts: seq<Artifact>): Option<Heads> {
    if artifacts == [] then Some(heads)
    else
      var a := artifacts[|artifacts| - 1];
      match Advance(v, heads, artifacts[..|artifacts| - 1])
      case None => None
      case Some(h) => if Acceptable(v, h, a) then Some(h[a.laneID := a.next]) else None
  }

  function VerifyBatches(d: Deployment, s: Storage, artifacts: seq<Artifact>): Option<Storage> {
    if artifacts == [] then None
    else
      match Advance(Current(d, s.key), s.heads, artifacts)
      case None => None
      case Some(h) =>
        var total := s.total + BATCH_TX_COUNT * |artifacts|;
        if total < UINT256 then Some(s.(heads := h, total := total)) else None
  }

  /** The batch verifier's key, set once by its administrator. */
  class BatchVerifier {
    const deployment: Deployment
    var key: Option<Bytes>

    constructor (deployment: Deployment)
      ensures this.deployment == deployment && key == None
    {
      this.deployment, key := deployment, None;
    }

    method InitializeVerifyingKey(sender: Bytes, vk: Bytes) returns (ok: bool)
      modifies this
      ensures ok == (sender == deployment.admin && old(key).None?)
      ensures key == if ok then Some(vk) else old(key)
    {
      if sender != deployment.admin || key.Some? {
        return false;
      }
      key := Some(vk);
      return true;
    }

    function VerifyBatchTransition(a: Artifact): bool
      reads this
    {
      Current(deployment, key)(a)
    }
  }

  /** The contract. A revert restores the storage. */
  class SumPreservingBatchVerifier {
    const verifier: BatchVerifier
    var laneHead: Heads
    var totalVerifiedTx: nat

    constructor (verifier: BatchVerifier)
      ensures this.verifier == verifier && laneHead == map[] && totalVerifiedTx == 0
    {
      this.verifier, laneHead, totalVerifiedTx := verifier, map[], 0;
    }

    ghost function Value(): Storage
      reads this, verifier
    {
      Storage(laneHead, totalVerifiedTx, verifier.key)
    }

    method InitializeLaneHead(lane: u16, p: Point) returns (ok: bool)
      modifies this
      ensures ok <==> Initialize(old(laneHead), lane, p).Some?
      ensures ok <==> old(Head(laneHead, lane)) == UNSET
      ensures forall id: u16 :: Head(laneHead, id) == if ok && id == lane then p else old(Head(laneHead, id))
      ensures Value() == if ok then old(Value()).(heads := Initialize(old(laneHead), lane, p).value) else old(Value())
    {
      if IsSet(Head(laneHead, lane)) {
        return false;
      }
      laneHead := laneHead[lane := p];
      return true;
    }

    method InitializeLaneHeads(lanes: seq<u16>, ps: seq<Point>) returns (ok: bool)
      modifies this
      ensures ok <==> |lanes| == |ps| && InitializeAll(old(laneHead), lanes, ps).Some?
      ensures Value() == if ok then old(Value()).(heads := InitializeAll(old(laneHead), lanes, ps).value)
              else old(Value())
    {
      if |lanes| != |ps| {
        return false;
      }
      var saved := laneHead;
      for i := 0 to |lanes|
        invariant InitializeAll(saved, lanes[..i], ps[..i]) == Some(laneHead)
        invariant totalVerifiedTx == old(totalVerifiedTx)
      {
        assert lanes[..i + 1][..i] == lanes[..i] && ps[..i + 1][..i] == ps[..i];
        if IsSet(Head(laneHead, lanes[i])) {
          InitializeFails(saved, lanes, ps, i);
          laneHead := saved;
          return false;
        }
        laneHead := laneHead[lanes[i] := ps[i]];
      }
      assert lanes[..|lanes|] == lanes && ps[..|ps|] == ps;
      return true;
    }

    method SubmitBatches(artifacts: seq<Artifact>) returns (ok: bool)
      modifies this
      ensures ok <==> VerifyBatches(verifier.deployment, old(Value()), artifacts).Some?
      ensures Value() == if ok then VerifyBatches(verifier.deployment, old(Value()), artifacts).value else old(Value())
    {
      if |artifacts| == 0 {
        return false;
      }
      var saved, verifiedTx := laneHead, 0;
      ghost var v := Current(verifier.deployment, verifier.key);
      for i := 0 to |artifacts|
        invariant Advance(v, saved, artifacts[..i]) == Some(laneHead)
        invariant totalVerifiedTx == old(totalVerifiedTx) && verifiedTx == BATCH_TX_COUNT * i < UINT256
      {
        var artifact := artifacts[i];
        assert artifacts[..i + 1][..i] == artifacts[..i];
        var head := Head(laneHead, artifact.laneID);
        if artifact.txCount != BATCH_TX_COUNT || !IsSet(head) || head != artifact.prev
           || !verifier.VerifyBatchTransition(artifact) {
          AdvanceFails(v, saved, artifacts, i);
          laneHead := saved;
          return false;
        }
        laneHead := laneHead[artifact.laneID := artifact.next];
        if verifiedTx + artifact.txCount >= UINT256 {
          laneHead := saved;
          return false;
        }
        verifiedTx := verifiedTx + artifact.txCount;
      }
      assert artifacts[..|artifacts|] == artifacts;
      if totalVerifiedTx + verifiedTx >= UINT256 {
        laneHead := saved;
        return false;
      }
      totalVerifiedTx := totalVerifiedTx + verifiedTx;
      return true;
    }
  }

  lemma {:induction false} InitializeFails(heads: Heads, lanes: seq<u16>, ps: seq<Point>, i: nat)
    requires |lanes| == |ps| && i < |lanes| && InitializeAll(heads, lanes[..i + 1], ps[..i + 1]).None?
    ensures InitializeAll(heads, lanes, ps).None?
  {
    var n := |lanes| - 1;
    if i < n {
      assert lanes[..n][..i + 1] == lanes[..i + 1] && ps[..n][..i + 1] == ps[..i + 1];
      InitializeFails(heads, lanes[..n], ps[..n], i);
    } else {
      assert lanes[..i + 1] == lanes && ps[..i + 1] == ps;
    }
  }

  lemma {:induction false} AdvanceFails(v: Verifier, heads: Heads, artifacts: seq<Artifact>, i: nat)
    requires i < |artifacts| && Advance(v, heads, artifacts[..i + 1]).None?
    ensures Advance(v, heads, artifacts).None?
  {
    var n := |artifacts| - 1;
    if i < n {
      assert artifacts[..n][..i + 1] == artifacts[..i + 1];
      AdvanceFails(v, heads, artifacts[..n], i);
    } else {
      assert artifacts[..i + 1] == artifacts;
    }
  }

  // When initializations succeed

  /** The head a lane has before entry `i` of a list: the last earlier entry's point, or the stored head. */
  function Named(heads: Heads, lanes: seq<u16>, ps: seq<Point>, i: nat, lane: u16): Point
    requires i <= |lanes| == |ps|
  {
    if i == 0 then Head(heads, lane)
    else if lanes[i - 1] == lane then ps[i - 1]
    else Named(heads, lanes, ps, i - 1, lane)
  }

  lemma {:induction false} NamedPrefix(heads: Heads, lanes: seq<u16>, ps: seq<Point>, n: nat, i: nat, lane: u16)
    requires i <= n <= |lanes| == |ps|
    ensures Named(heads, lanes[..n], ps[..n], i, lane) == Named(heads, lanes, ps, i, lane)
  {
    if i > 0 { NamedPrefix(heads, lanes, ps, n, i - 1, lane); }
  }

  predicate UnsetAt(heads: Heads, lanes: seq<u16>, ps: seq<Point>, i: nat)
    requires i < |lanes| == |ps|
  {
    Named(heads, lanes, ps, i, lanes[i]) == Point(0, 0)
  }

  /** A list of initializations succeeds if and only if each listed lane is unset at its turn; then each
      lane has the last point listed for it, or its old head. */
  lemma {:induction false} InitializesExactlyWhen(heads: Heads, lanes: seq<u16>, ps: seq<Point>)
    requires |lanes| == |ps|
    ensures InitializeAll(heads, lanes, ps).Some? <==> forall i :: 0 <= i < |lanes| ==> UnsetAt(heads, lanes, ps, i)
    ensures InitializeAll(heads, lanes, ps).Some? ==>
              forall lane: u16 :: Head(InitializeAll(heads, lanes, ps).value, lane)
                               == Named(heads, lanes, ps, |lanes|, lane)
  {
    if lanes != [] {
      var n := |lanes| - 1;
      InitializesExactlyWhen(heads, lanes[..n], ps[..n]);
      forall i | 0 <= i < n ensures UnsetAt(heads, lanes[..n], ps[..n], i) <==> UnsetAt(heads, lanes, ps, i) {
        NamedPrefix(heads, lanes, ps, n, i, lanes[i]);
      }
      forall lane: u16 ensures Named(heads, lanes[..n], ps[..n], n, lane) == Named(heads, lanes, ps, n, lane) {
        NamedPrefix(heads, lanes, ps, n, n, lane);
      }
      if InitializeAll(heads, lanes[..n], ps[..n]).None? {
        var i :| 0 <= i < n && !UnsetAt(heads, lanes[..n], ps[..n], i);
        assert !UnsetAt(heads, lanes, ps, i);
      } else {
        assert UnsetAt(heads, lanes, ps, n) <==> InitializeAll(heads, lanes, ps).Some?;
      }
    }
  }

  // When a submission succeeds

  /** The head a lane has before artifact `i`: the end of the last artifact for it, or the stored head. */
  function HeadBefore(heads: Heads, artifacts: seq<Artifact>, i: nat, lane: u16): Point
    requires i <= |artifacts|
  {
    if i == 0 then Head(heads, lane)
    else if artifacts[i - 1].laneID == lane then artifacts[i - 1].next
    else HeadBefore(heads, artifacts, i - 1, lane)
  }

  predicate Continues(v: Verifier, heads: Heads, artifacts: seq<Artifact>, i: nat)
    requires i < |artifacts|
  {
    var a := artifacts[i];
    && a.txCount == BATCH_TX_COUNT && v(a)
    && IsSet(a.prev) && a.prev == HeadBefore(heads, artifacts, i, a.laneID)
  }

  lemma {:induction false} HeadBeforePrefix(heads: Heads, artifacts: seq<Artifact>, n: nat, i: nat, lane: u16)
    requires i <= n <= |artifacts|
    ensures HeadBefore(heads, artifacts[..n], i, lane) == HeadBefore(heads, artifacts, i, lane)
  {
    if i > 0 { HeadBeforePrefix(heads, artifacts, n, i - 1, lane); }
  }

  /** A list is accepted if and only if every artifact is a verified full batch that continues its
      lane; then each lane's head is where its last artifact ended. */
  lemma {:induction false} AcceptedExactlyWhen(v: Verifier, heads: Heads, artifacts: seq<Artifact>)
    ensures Advance(v, heads, artifacts).Some?
            <==> forall i :: 0 <= i < |artifacts| ==> Continues(v, heads, artifacts, i)
    ensures Advance(v, heads, artifacts).Some? ==>
              forall lane: u16 :: Head(Advance(v, heads, artifacts).value, lane)
                               == HeadBefore(heads, artifacts, |artifacts|, lane)
  {
    if artifacts != [] {
      var n := |artifacts| - 1;
      AcceptedExactlyWhen(v, heads, artifacts[..n]);
      forall i | 0 <= i < n ensures Continues(v, heads, artifacts[..n], i) <==> Continues(v, heads, artifacts, i) {
        HeadBeforePrefix(heads, artifacts, n, i, artifacts[i].laneID);
      }
      forall lane: u16 ensures HeadBefore(heads, artifacts[..n], n, lane) == HeadBefore(heads, artifacts, n, lane) {
        HeadBeforePrefix(heads, artifacts, n, n, lane);
      }
      if Advance(v, heads, artifacts[..n]).Some? {
        assert Acceptable(v, Advance(v, heads, artifacts[..n]).value, artifacts[n])
               <==> Continues(v, heads, artifacts, n);
      } else {
        var i :| 0 <= i < n && !Continues(v, heads, artifacts[..n], i);
        assert !Continues(v, heads, artifacts, i);
      }
    }
  }

  /** Artifact `i` is a full batch, starts at its lane's set head, and is accepted under the key. */
  predicate Verified(accepts: Verifier, heads: Heads, artifacts: seq<Artifact>, i: nat)
    requires i < |artifacts|
  {
    var a := artifacts[i];
    a.txCount == 20000 && a.prev != Point(0, 0) && a.prev == HeadBefore(heads, artifacts, i, a.laneID) && accepts(a)
  }

  /** The whole transaction: it succeeds if and only if the list is not empty, a key is set, each artifact is
      verified under it, and the total fits 256 bits; then only the heads and the total change. */
  lemma SubmittedExactlyWhen(d: Deployment, s: Storage, artifacts: seq<Artifact>)
    ensures VerifyBatches(d, s, artifacts).Some? <==>
            && artifacts != [] && s.key.Some?
            && (forall i :: 0 <= i < |artifacts| ==> Verified(d.check(s.key.value), s.heads, artifacts, i))
            && s.total + 20000 * |artifacts|
               < 0x1_0000_0000_0000_0000 * 0x1_0000_0000_0000_0000 * 0x1_0000_0000_0000_0000 * 0x1_0000_0000_0000_0000
    ensures VerifyBatches(d, s, artifacts).Some? ==>
              var s' := VerifyBatches(d, s, artifacts).value;
              && s'.key == s.key && s'.total == s.total + 20000 * |artifacts|
              && forall lane: u16 :: Head(s'.heads, lane) == HeadBefore(s.heads, artifacts, |artifacts|, lane)
  {
    hide Advance, Head, HeadBefore, Continues;
    var v := Current(d, s.key);
    AcceptedExactlyWhen(v, s.heads, artifacts);
    forall i | 0 <= i < |artifacts|
      ensures Continues(v, s.heads, artifacts, i) <==>
              s.key.Some? && Verified(d.check(s.key.value), s.heads, artifacts, i)
    {
      ContinuesSpelled(d, s, artifacts, i);
    }
    if artifacts != [] && s.key.None? { assert !Continues(v, s.heads, artifacts, 0); }
  }

  lemma ContinuesSpelled(d: Deployment, s: Storage, artifacts: seq<Artifact>, i: nat)
    requires i < |artifacts|
    ensures Continues(Current(d, s.key), s.heads, artifacts, i) <==>
            s.key.Some? && Verified(d.check(s.key.value), s.heads, artifacts, i)
  {
    hide HeadBefore;
  }

  // Splitting a submission

  lemma {:induction false} AdvanceAppend(v: Verifier, heads: Heads, xs: seq<Artifact>, ys: seq<Artifact>)
    ensures Advance(v, heads, xs + ys)
         == match Advance(v, heads, xs) case None => None case Some(h) => Advance(v, h, ys)
    decreases |ys|
  {
    if ys == [] {
      assert xs + ys == xs;
    } else {
      var n := |ys| - 1;
      assert (xs + ys)[..|xs + ys| - 1] == xs + ys[..n];
      AdvanceAppend(v, heads, xs, ys[..n]);
    }
  }

  /** Submitting two lists together succeeds exactly when submitting one after the other does, and
      leaves the same heads and the same total. */
  lemma SubmissionsCompose(d: Deployment, s: Storage, xs: seq<Artifact>, ys: seq<Artifact>)
    requires xs != [] && ys != []
    ensures VerifyBatches(d, s, xs + ys)
         == match VerifyBatches(d, s, xs) case None => None case Some(mid) => VerifyBatches(d, mid, ys)
  {
    AdvanceAppend(Current(d, s.key), s.heads, xs, ys);
  }

  // Runs

  datatype Call =
    | SetVerifyingKey(sender: Bytes, key: Bytes)
    | Init(lane: u16, p: Point)
    | InitMany(lanes: seq<u16>, ps: seq<Point>)
    | Submit(artifacts: seq<Artifact>)

  /** Where a lane was last initialized, and the artifacts accepted for it since. */
  datatype Lane = Lane(start: Point, chain: seq<Artifact>)

  datatype Run = Run(storage: Storage, lanes: map<u16, Lane>, accepted: nat)

  const EMPTY_RUN := Run(Storage(map[], 0, None), map[], 0)

  function Started(lanes: map<u16, Lane>, ids: seq<u16>, ps: seq<Point>): map<u16, Lane>
    requires |ids| == |ps|
  {
    if ids == [] then lanes
    else Started(lanes, ids[..|ids| - 1], ps[..|ps| - 1])[ids[|ids| - 1] := Lane(ps[|ps| - 1], [])]
  }

  function Extended(lanes: map<u16, Lane>, artifacts: seq<Artifact>): map<u16, Lane> {
    if artifacts == [] then lanes
    else
      var a := artifacts[|artifacts| - 1];
      var before := Extended(lanes, artifacts[..|artifacts| - 1]);
      if a.laneID in before then before[a.laneID := Lane(before[a.laneID].start, before[a.laneID].chain + [a])]
        else before
  }

  /** One call; a reverting one changes nothing. */
  function Step(d: Deployment, r: Run, call: Call): Run {
    match call
    case SetVerifyingKey(sender, key) =>
      (match SetKey(d, r.storage, sender, key)
       case None => r
       case Some(s) => r.(storage := s))
    case Init(lane, p) =>
      (match Initialize(r.storage.heads, lane, p)
       case None => r
       case Some(h) => r.(storage := r.storage.(heads := h), lanes := Started(r.lanes, [lane], [p])))
    case InitMany(lanes, ps) =>
      if |lanes| != |ps| then r
      else
        (match InitializeAll(r.storage.heads, lanes, ps)
         case None => r
         case Some(h) => r.(storage := r.storage.(heads := h), lanes := Started(r.lanes, lanes, ps)))
    case Submit(artifacts) =>
      (match VerifyBatches(d, r.storage, artifacts)
       case None => r
       case Some(s) => Run(s, Extended(r.lanes, artifacts), r.accepted + |artifacts|))
  }

  function Exec(d: Deployment, calls: seq<Call>): Run {
    if calls == [] then EMPTY_RUN else Step(d, Exec(d, calls[..|calls| - 1]), calls[|calls| - 1])
  }

  predicate LinkAt(v: Verifier, lane: u16, start: Point, chain: seq<Artifact>, i: nat)
    requires i < |chain|
  {
    && chain[i].laneID == lane && chain[i].txCount == BATCH_TX_COUNT && v(chain[i])
    && chain[i].prev == if i == 0 then start else chain[i - 1].next
  }

  /** Every artifact of the chain is for this lane, verified, and starts where the last one ended. */
  predicate Linked(v: Verifier, lane: u16, start: Point, chain: seq<Artifact>) {
    forall i :: 0 <= i < |chain| ==> LinkAt(v, lane, start, chain, i)
  }

  function End(lane: Lane): Point {
    if lane.chain == [] then lane.start else lane.chain[|lane.chain| - 1].next
  }

  predicate LaneOk(v: Verifier, heads: Heads, lanes: map<u16, Lane>, id: u16) {
    if id in lanes then Linked(v, id, lanes[id].start, lanes[id].chain) && Head(heads, id) == End(lanes[id])
    else Head(heads, id) == UNSET
  }

  predicate LanesOk(v: Verifier, heads: Heads, lanes: map<u16, Lane>) {
    forall id: u16 :: LaneOk(v, heads, lanes, id)
  }

  lemma StartKeeps(v: Verifier, heads: Heads, lanes: map<u16, Lane>, lane: u16, p: Point)
    requires LanesOk(v, heads, lanes)
    ensures LanesOk(v, heads[lane := p], lanes[lane := Lane(p, [])])
  {
    var heads', lanes' := heads[lane := p], lanes[lane := Lane(p, [])];
    forall id: u16 ensures LaneOk(v, heads', lanes', id) {
      assert LaneOk(v, heads, lanes, id);
    }
  }

  lemma {:induction false} StartsKeep(v: Verifier, heads: Heads, lanes: map<u16, Lane>, ids: seq<u16>, ps: seq<Point>)
    requires LanesOk(v, heads, lanes) && |ids| == |ps| && InitializeAll(heads, ids, ps).Some?
    ensures LanesOk(v, InitializeAll(heads, ids, ps).value, Started(lanes, ids, ps))
  {
    if ids != [] {
      var n := |ids| - 1;
      StartsKeep(v, heads, lanes, ids[..n], ps[..n]);
      StartKeeps(v, InitializeAll(heads, ids[..n], ps[..n]).value, Started(lanes, ids[..n], ps[..n]), ids[n], ps[n]);
    }
  }

  lemma ExtendKeeps(v: Verifier, heads: Heads, lanes: map<u16, Lane>, a: Artifact)
    requires LanesOk(v, heads, lanes) && Acceptable(v, heads, a)
    ensures a.laneID in lanes
    ensures LanesOk(v, heads[a.laneID := a.next],
                    lanes[a.laneID := Lane(lanes[a.laneID].start, lanes[a.laneID].chain + [a])])
  {
    assert LaneOk(v, heads, lanes, a.laneID);
    var heads' := heads[a.laneID := a.next];
    var start, chain := lanes[a.laneID].start, lanes[a.laneID].chain;
    var lanes' := lanes[a.laneID := Lane(start, chain + [a])];
    forall i | 0 <= i < |chain + [a]| ensures LinkAt(v, a.laneID, start, chain + [a], i) {
      if i < |chain| { assert LinkAt(v, a.laneID, start, chain, i); }
    }
    forall id: u16 ensures LaneOk(v, heads', lanes', id) {
      assert LaneOk(v, heads, lanes, id);
    }
  }

  lemma {:induction false} ExtendsKeep(v: Verifier, heads: Heads, lanes: map<u16, Lane>, artifacts: seq<Artifact>)
    requires LanesOk(v, heads, lanes) && Advance(v, heads, artifacts).Some?
    ensures LanesOk(v, Advance(v, heads, artifacts).value, Extended(lanes, artifacts))
  {
    if artifacts != [] {
      var n := |artifacts| - 1;
      ExtendsKeep(v, heads, lanes, artifacts[..n]);
      ExtendKeeps(v, Advance(v, heads, artifacts[..n]).value, Extended(lanes, artifacts[..n]), artifacts[n]);
    }
  }

  lemma RefusedChain(lane: u16, start: Point, chain: seq<Artifact>)
    ensures chain != [] ==> !Linked(Refuse, lane, start, chain)
  {
    if chain != [] { assert !LinkAt(Refuse, lane, start, chain, 0); }
  }

  /** While no key is set nothing is verified, so every chain is verified by whatever key comes. */
  lemma NothingVerifiedYet(v: Verifier, heads: Heads, lanes: map<u16, Lane>)
    requires LanesOk(Refuse, heads, lanes)
    ensures LanesOk(v, heads, lanes)
  {
    forall id: u16 ensures LaneOk(v, heads, lanes, id) {
      assert LaneOk(Refuse, heads, lanes, id);
      if id in lanes { RefusedChain(id, lanes[id].start, lanes[id].chain); }
    }
  }

  predicate RunOk(d: Deployment, r: Run) {
    LanesOk(Current(d, r.storage.key), r.storage.heads, r.lanes)
      && r.storage.total == BATCH_TX_COUNT * r.accepted < UINT256
  }

  /** On every run of calls, whenever the verifying key was set, each lane's head is the end of a
      linked chain of artifacts from its last initialization, all verified under the present key, and
      the total counts 20000 for each accepted artifact. */
  lemma {:induction false} HeadsFollowVerifiedChains(d: Deployment, calls: seq<Call>)
    ensures RunOk(d, Exec(d, calls))
  {
    if calls == [] {
      forall id: u16 ensures LaneOk(Refuse, map[], map[], id) { }
    } else {
      HeadsFollowVerifiedChains(d, calls[..|calls| - 1]);
      StepKeeps(d, Exec(d, calls[..|calls| - 1]), calls[|calls| - 1]);
    }
  }

  lemma StepKeeps(d: Deployment, r: Run, call: Call)
    requires RunOk(d, r)
    ensures RunOk(d, Step(d, r, call))
  {
    var v := Current(d, r.storage.key);
    match call
    case SetVerifyingKey(sender, key) =>
      if SetKey(d, r.storage, sender, key).Some? {
        NothingVerifiedYet(d.check(key), r.storage.heads, r.lanes);
      }
    case Init(lane, p) =>
      if Initialize(r.storage.heads, lane, p).Some? {
        StartKeeps(v, r.storage.heads, r.lanes, lane, p);
        assert Started(r.lanes, [lane][..0], [p][..0]) == r.lanes;
      }
    case InitMany(lanes, ps) =>
      if |lanes| == |ps| && InitializeAll(r.storage.heads, lanes, ps).Some? {
        StartsKeep(v, r.storage.heads, r.lanes, lanes, ps);
      }
    case Submit(artifacts) =>
      if VerifyBatches(d, r.storage, artifacts).Some? {
        ExtendsKeep(v, r.storage.heads, r.lanes, artifacts);
      }
  }

  /** The first artifact for the lane, if there is one, starts at the lane's stored head. */
  lemma FirstStartsAtHead(v: Verifier, heads: Heads, artifacts: seq<Artifact>, lane: u16)
    returns (i: nat)
    requires forall j :: 0 <= j < |artifacts| ==> Continues(v, heads, artifacts, j)
    requires HeadBefore(heads, artifacts, |artifacts|, lane) != Head(heads, lane)
    ensures i < |artifacts| && artifacts[i].laneID == lane && artifacts[i].prev == Head(heads, lane)
    ensures v(artifacts[i]) && artifacts[i].txCount == 20000 && artifacts[i].prev != Point(0, 0)
  {
    i := FirstFor(heads, artifacts, |artifacts|, lane);
    assert Continues(v, heads, artifacts, i);
  }

  lemma {:induction false} FirstFor(heads: Heads, artifacts: seq<Artifact>, n: nat, lane: u16) returns (i: nat)
    requires n <= |artifacts| && HeadBefore(heads, artifacts, n, lane) != Head(heads, lane)
    ensures i < n && artifacts[i].laneID == lane && HeadBefore(heads, artifacts, i, lane) == Head(heads, lane)
  {
    if HeadBefore(heads, artifacts, n - 1, lane) != Head(heads, lane) {
      i := FirstFor(heads, artifacts, n - 1, lane);
    } else {
      i := n - 1;
    }
  }

  /** A lane whose head a list changes is unset at its first turn in it, and ends at a listed point. */
  lemma {:induction false} FirstNamed(heads: Heads, lanes: seq<u16>, ps: seq<Point>, n: nat, lane: u16) returns (i: nat)
    requires n <= |lanes| == |ps| && Named(heads, lanes, ps, n, lane) != Head(heads, lane)
    ensures i < n && lanes[i] == lane && Named(heads, lanes, ps, i, lane) == Head(heads, lane)
    ensures Named(heads, lanes, ps, n, lane) in ps
  {
    if Named(heads, lanes, ps, n - 1, lane) != Head(heads, lane) {
      i := FirstNamed(heads, lanes, ps, n - 1, lane);
    } else {
      i := n - 1;
    }
  }

  /** Over every run: a set head moves only by an accepted submission, which holds a verified full batch for
      the lane that starts at the old head; an unset one only by an initialization of its lane. */
  lemma HeadsMoveOnlyByArtifacts(d: Deployment, calls: seq<Call>, call: Call, lane: u16)
    ensures var r, r' := Exec(d, calls), Exec(d, calls + [call]);
            var head := Head(r.storage.heads, lane);
            Head(r'.storage.heads, lane) != head ==>
              if head == Point(0, 0) then
                || (call.Init? && call.lane == lane && Head(r'.storage.heads, lane) == call.p)
                || (call.InitMany? && lane in call.lanes && Head(r'.storage.heads, lane) in call.ps)
              else
                && call.Submit? && r'.accepted == r.accepted + |call.artifacts|
                && exists i :: 0 <= i < |call.artifacts| && call.artifacts[i].laneID == lane
                               && call.artifacts[i].prev == head && call.artifacts[i].txCount == 20000
                               && Current(d, r.storage.key)(call.artifacts[i])
  {
    assert (calls + [call])[..|calls|] == calls;
    hide Exec;
    if Head(Step(d, Exec(d, calls), call).storage.heads, lane) != Head(Exec(d, calls).storage.heads, lane) {
      HeadMove(d, Exec(d, calls), call, lane);
    }
  }

  lemma HeadMove(d: Deployment, r: Run, call: Call, lane: u16)
    requires Head(Step(d, r, call).storage.heads, lane) != Head(r.storage.heads, lane)
    ensures var r', head := Step(d, r, call), Head(r.storage.heads, lane);
            if head == Point(0, 0) then
              || (call.Init? && call.lane == lane && Head(r'.storage.heads, lane) == call.p)
              || (call.InitMany? && lane in call.lanes && Head(r'.storage.heads, lane) in call.ps)
            else
              && call.Submit? && r'.accepted == r.accepted + |call.artifacts|
              && exists i :: 0 <= i < |call.artifacts| && call.artifacts[i].laneID == lane
                             && call.artifacts[i].prev == head && call.artifacts[i].txCount == 20000
                             && Current(d, r.storage.key)(call.artifacts[i])
  {
    var heads, v := r.storage.heads, Current(d, r.storage.key);
    match call
    case SetVerifyingKey(_, _) =>
    case Init(_, _) =>
    case InitMany(lanes, ps) =>
      InitializesExactlyWhen(heads, lanes, ps);
      var i := FirstNamed(heads, lanes, ps, |lanes|, lane);
      assert UnsetAt(heads, lanes, ps, i);
    case Submit(artifacts) =>
      AcceptedExactlyWhen(v, heads, artifacts);
      var i := FirstStartsAtHead(v, heads, artifacts, lane);
  }

  lemma ExecNext(d: Deployment, calls: seq<Call>, call: Call)
    ensures Exec(d, calls + [call]) == Step(d, Exec(d, calls), call)
  {
    assert (calls + [call])[..|calls|] == calls;
  }

  /** An accepted artifact that ends at (0, 0) leaves its lane unset: the next initialization succeeds. */
  lemma LaneFreed(d: Deployment, calls: seq<Call>, a: Artifact, p: Point)
    requires VerifyBatches(d, Exec(d, calls).storage, [a]).Some? && a.next == Point(0, 0)
    ensures Head(Exec(d, calls + [Submit([a])]).storage.heads, a.laneID) == Point(0, 0)
    ensures Head(Exec(d, calls + [Submit([a])] + [Init(a.laneID, p)]).storage.heads, a.laneID) == p
  {
    hide Exec;
    SubmittedExactlyWhen(d, Exec(d, calls).storage, [a]);
    ExecNext(d, calls, Submit([a]));
    ExecNext(d, calls + [Submit([a])], Init(a.laneID, p));
  }

  /** On every run the key is set by the administrator's first call and never again. */
  lemma {:induction false} KeyIsTheFirstOne(d: Deployment, calls: seq<Call>)
    ensures var key := Exec(d, calls).storage.key;
            && (key.None? <==> forall i :: 0 <= i < |calls| ==> !SetsKey(d, calls[i]))
            && (key.Some? ==> exists i :: 0 <= i < |calls| && SetsKey(d, calls[i]) && calls[i].key == key.value
                                          && forall j :: 0 <= j < i ==> !SetsKey(d, calls[j]))
  {
    if calls != [] {
      hide Exec, Step;
      var n := |calls| - 1;
      KeyIsTheFirstOne(d, calls[..n]);
      KeyAfter(d, calls);
      var key := Exec(d, calls[..n]).storage.key;
      if key.Some? {
        var i :| 0 <= i < n && SetsKey(d, calls[..n][i]) && calls[..n][i].key == key.value
                 && forall j :: 0 <= j < i ==> !SetsKey(d, calls[..n][j]);
        assert SetsKey(d, calls[i]) && forall j :: 0 <= j < i ==> calls[..n][j] == calls[j];
      } else {
        assert forall j :: 0 <= j < n ==> calls[..n][j] == calls[j];
      }
    }
  }

  predicate SetsKey(d: Deployment, call: Call) {
    call.SetVerifyingKey? && call.sender == d.admin
  }

  lemma KeyAfter(d: Deployment, calls: seq<Call>)
    requires calls != []
    ensures var n := |calls| - 1;
            var key := Exec(d, calls[..n]).storage.key;
            Exec(d, calls).storage.key == if key.None? && SetsKey(d, calls[n]) then Some(calls[n].key) else key
  {
    hide Advance, InitializeAll, Initialize, Started, Extended;
  }

  /** With a key that only accepts transitions between points of equal opened sum, a lane's opened sum
      is what it was when the lane was last initialized. */
  lemma OpenedSumIsConstant(d: Deployment, openedSum: Point -> int, calls: seq<Call>, lane: u16)
    requires lane in Exec(d, calls).lanes
    requires forall a :: Current(d, Exec(d, calls).storage.key)(a) ==> openedSum(a.prev) == openedSum(a.next)
    ensures var r := Exec(d, calls); openedSum(Head(r.storage.heads, lane)) == openedSum(r.lanes[lane].start)
  {
    HeadsFollowVerifiedChains(d, calls);
    var r := Exec(d, calls);
    var v := Current(d, r.storage.key);
    assert LaneOk(v, r.storage.heads, r.lanes, lane);
    ChainKeepsTheSum(v, openedSum, lane, r.lanes[lane].start, r.lanes[lane].chain);
  }

  lemma {:induction false} ChainKeepsTheSum(v: Verifier, openedSum: Point -> int, lane: u16, start: Point,
                                            chain: seq<Artifact>)
    requires forall a :: v(a) ==> openedSum(a.prev) == openedSum(a.next)
    requires Linked(v, lane, start, chain)
    ensures openedSum(End(Lane(start, chain))) == openedSum(start)
  {
    if chain != [] {
      var n := |chain| - 1;
      forall i | 0 <= i < n ensures LinkAt(v, lane, start, chain[..n], i) {
        assert LinkAt(v, lane, start, chain, i);
      }
      ChainKeepsTheSum(v, openedSum, lane, start, chain[..n]);
      assert LinkAt(v, lane, start, chain, n);
    }
  }
}
