/** The offer synchronisation of a DEX node (`CDexSync`): a node asks its
    peers for the (hash, editing version) pairs of their offers, collects the
    hashes it lacks or holds in an older version, downloads those offers, and
    declares itself synchronised once some peer reports that its offers are
    already current and no peer is still delivering.

    The synchroniser is an immutable `SyncState`; every operation returns the
    new state together with the effects the C++ code performs on the outside
    world (messages pushed to peers, timers armed, misbehaviour scores,
    notifications), in the order it performs them. Peers, the network type and
    the node's own masternode flag are an `Env` the caller supplies. */
module DexSync {
  import opened Common
  import opened OfferStore

  const MinNumberDexNode: nat := 4
  const MinNumberDexNodeTestnet: nat := 2
  /** Hash/version pairs per `DEXSYNCPARTHASH` message. */
  const PartSize: nat := 100

  datatype Status = NoStarted | Started | Initial | SyncStepOne | SyncStepSecond | Finished

  /** What a peer has told us: still delivering (`Good`, `Process`), already
      current (`Actual`), or nothing useful (`Bad`). */
  datatype NodeStatus = Good | Process | Actual | Bad

  /** A peer's network address. */
  type Addr = nat

  /** The fields of a connected `CNode` the synchroniser reads. `listed`
      says whether the masternode list knows the peer (`mnodeman.isExist`). */
  datatype Peer = Peer(addr: Addr, inbound: bool, masternode: bool, version: int, listed: bool)

  /** The connected peers, the network, whether this node is a masternode,
      and `MIN_DEX_VERSION`. */
  datatype Env = Env(peers: seq<Peer>, testnet: bool, localMasternode: bool, minDexVersion: int)

  /** `DexSyncInfo`: a summary of the offer tables exchanged to decide
      whether a peer is already current. */
  datatype SyncInfo = SyncInfo(checkSum: int, count: int, lastTimeMod: int)

  /** `StatusOffers` in a `DEXSYNCNOOFFERS` reply. */
  datatype OffersReply = ReplyActual | ReplyEmpty

  /** A (hash, editing version) pair. */
  type HashVersion = (Hash, int)

  datatype Effect =
    | GetAllHash(to: Addr, info: SyncInfo)
    | PartHash(to: Addr, hvs: seq<HashVersion>, part: int, maxPart: int)
    | NoOffers(to: Addr, reply: OffersReply)
    | NeedSync(to: Addr)
    | RequestOffers
    | Misbehaving(peer: Addr, score: int)
    | KeepUnconfirmed(hash: Hash)
    | TimerArmed
    | AnswerTimerArmed
    | SyncFinished

  /** `CDexSync`'s fields; `timerRunning` is `isRunTimer`. */
  datatype SyncState = SyncState(
    status: Status,
    statusNodes: map<Addr, NodeStatus>,
    waitAnswer: set<Addr>,
    offersNeedDownload: set<Hash>,
    maxOffersNeedDownload: nat,
    prevMax: nat,
    prevSize: nat,
    timerRunning: bool)

  datatype Step = Step(state: SyncState, effects: seq<Effect>)

  /** The state a freshly constructed synchroniser is in. */
  const Initial0: SyncState := SyncState(NoStarted, map[], {}, {}, 0, 0, 0, false)

  /** A peer never has both an answer on record and an answer outstanding,
      and `Started` is never observable between two operations. */
  predicate Inv(s: SyncState)
  {
    s.waitAnswer !! s.statusNodes.Keys && s.status != Started
  }

  predicate IsSynced(s: SyncState)
  {
    s.status == Finished
  }

  // ---------------------------------------------------------------------
  // Starting

  function MinNumDexNode(testnet: bool): nat
  {
    if testnet then MinNumberDexNodeTestnet else MinNumberDexNode
  }

  /** A peer `canStart` counts: outbound, not a masternode, recent enough and
      in the masternode list. */
  predicate CountsForStart(minVersion: int, p: Peer)
  {
    !p.inbound && !p.masternode && p.version >= minVersion && p.listed
  }

  function CountsForStartIn(minVersion: int): Peer -> bool
  {
    p => CountsForStart(minVersion, p)
  }

  /** `canStart`: enough peers that can serve offers. */
  predicate CanStart(env: Env)
  {
    CountWhere(env.peers, CountsForStartIn(env.minDexVersion)) >= MinNumDexNode(env.testnet)
  }

  /** The counting loop of `canStart`. */
  method CountDexNodes(env: Env) returns (n: nat)
    ensures n == CountWhere(env.peers, CountsForStartIn(env.minDexVersion))
    ensures n >= MinNumDexNode(env.testnet) <==> CanStart(env)
  {
    var p := CountsForStartIn(env.minDexVersion);
    n := 0;
    var i := 0;
    while i < |env.peers|
      invariant 0 <= i <= |env.peers|
      invariant n == CountWhere(env.peers[..i], p)
    {
      var node := env.peers[i];
      assert env.peers[..i + 1] == env.peers[..i] + [node];
      CountWhereAppend(env.peers[..i], node, p);
      if !node.inbound && !node.masternode {
        if node.version >= env.minDexVersion && node.listed {
          n := n + 1;
        }
      }
      i := i + 1;
    }
    assert env.peers[..i] == env.peers;
  }

  /** A peer `startSyncDex` asks for its offer list: recent enough, in the
      masternode list, not a masternode, and not inbound when this node is a
      masternode. */
  predicate AskedAtStart(env: Env, p: Peer)
  {
    p.version >= env.minDexVersion && p.listed && !(p.masternode || (env.localMasternode && p.inbound))
  }

  /** The `DEXSYNCGETALLHASH` requests, in peer order. */
  function Requests(env: Env, peers: seq<Peer>, info: SyncInfo): (r: seq<Effect>)
    ensures forall e :: e in r ==> e.GetAllHash? && e.info == info
    ensures forall e :: e in r ==> exists p :: p in peers && AskedAtStart(env, p) && e.to == p.addr
    ensures forall p :: p in peers && AskedAtStart(env, p) ==> GetAllHash(p.addr, info) in r
  {
    if |peers| == 0 then []
    else
      var rest := Requests(env, peers[1..], info);
      assert forall p :: p in peers[1..] ==> p in peers;
      if AskedAtStart(env, peers[0]) then [GetAllHash(peers[0].addr, info)] + rest else rest
  }

  /** `startTimer`: arms the 30-second `FinishSyncDex` timer unless it runs. */
  function StartTimer(s: SyncState): (r: Step)
    ensures r.state.timerRunning
    ensures r.state.(timerRunning := s.timerRunning) == s
    ensures r.effects == (if s.timerRunning then [] else [TimerArmed])
  {
    if s.timerRunning then Step(s, []) else Step(s.(timerRunning := true), [TimerArmed])
  }

  /** `startSyncDex`. Only a synchroniser that has not started and sees
      enough peers starts; it forgets every peer answer, waits for an answer
      from every connected peer, asks the eligible ones for their offer lists
      and ends in `Initial`. */
  function StartSyncDex(env: Env, db: Db, s: SyncState): (r: Step)
    ensures !(s.status == NoStarted && CanStart(env)) ==> r == Step(s, [])
    ensures s.status == NoStarted && CanStart(env) ==>
      && r.state.status == Initial
      && r.state.statusNodes == map[]
      && (forall a :: a in r.state.waitAnswer <==> exists p :: p in env.peers && p.addr == a)
      && r.state.offersNeedDownload == s.offersNeedDownload
      && r.state.maxOffersNeedDownload == 0 && r.state.prevMax == 0 && r.state.prevSize == 0
      && r.state.timerRunning
      && (forall p :: p in env.peers && AskedAtStart(env, p) ==> GetAllHash(p.addr, SyncInfoOf(db)) in r.effects)
      && (forall a, i :: GetAllHash(a, i) in r.effects ==> exists p :: p in env.peers && AskedAtStart(env, p) && p.addr == a)
      && AnswerTimerArmed in r.effects
    ensures Inv(s) ==> Inv(r.state)
  {
    if !CanStart(env) || s.status != NoStarted then Step(s, [])
    else
      var info := SyncInfoOf(db);
      var s1 := s.(status := Initial, prevMax := 0, prevSize := 0, maxOffersNeedDownload := 0,
                   statusNodes := map[], waitAnswer := set p | p in env.peers :: p.addr);
      var t := StartTimer(s1);
      var req := Requests(env, env.peers, info);
      var r := Step(t.state, req + t.effects + [AnswerTimerArmed]);
      assert forall e :: e in req ==> e in r.effects;
      assert forall e :: e in r.effects && e.GetAllHash? ==> e in req;
      r
  }

  /** `reset`: refused while offers are being collected or downloaded;
      otherwise the synchroniser goes back to `NoStarted` and starts again. */
  function Reset(env: Env, db: Db, s: SyncState): (r: (bool, Step))
    ensures r.0 <==> s.status != SyncStepOne && s.status != SyncStepSecond
    ensures !r.0 ==> r.1 == Step(s, [])
    ensures r.0 && CanStart(env) ==> r.1.state.status == Initial
    ensures r.0 && !CanStart(env) ==> r.1 == Step(s.(status := NoStarted), [])
    ensures Inv(s) ==> Inv(r.1.state)
  {
    if s.status == SyncStepOne || s.status == SyncStepSecond then (false, Step(s, []))
    else (true, StartSyncDex(env, db, s.(status := NoStarted)))
  }

  // ---------------------------------------------------------------------
  // Peer answers

  /** `actualSync`: some peer reports current offers and none is still
      delivering; `Bad` peers do not count either way. */
  predicate ActualSync(m: map<Addr, NodeStatus>)
  {
    (exists a :: a in m && m[a] == Actual) && (forall a :: a in m ==> m[a] != Good && m[a] != Process)
  }

  /** The counting loop of `actualSync`, visiting the peers in any order. */
  method CountActual(m: map<Addr, NodeStatus>) returns (b: bool)
    ensures b <==> ActualSync(m)
  {
    var numActual, numProcess := 0, 0;
    var todo := m.Keys;
    while todo != {}
      invariant todo <= m.Keys
      invariant numActual > 0 <==> exists a :: a in m.Keys - todo && m[a] == Actual
      invariant numProcess == 0 <==> forall a :: a in m.Keys - todo ==> m[a] != Good && m[a] != Process
      decreases |todo|
    {
      var a :| a in todo;
      if m[a] == Actual {
        numActual := numActual + 1;
      } else if m[a] == Good || m[a] == Process {
        numProcess := numProcess + 1;
      }
      todo := todo - {a};
    }
    b := numActual > 0 && numProcess == 0;
  }

  /** `addAddrToStatusNode`: records a peer's answer and stops waiting for it. */
  function AddAddrToStatusNode(s: SyncState, addr: Addr, ns: NodeStatus): (r: SyncState)
    ensures addr in r.statusNodes && r.statusNodes[addr] == ns
    ensures addr !in r.waitAnswer
    ensures forall a :: a != addr ==> (a in r.statusNodes <==> a in s.statusNodes)
    ensures forall a :: a != addr && a in s.statusNodes ==> r.statusNodes[a] == s.statusNodes[a]
    ensures forall a :: a != addr ==> (a in r.waitAnswer <==> a in s.waitAnswer)
    ensures r.(statusNodes := s.statusNodes, waitAnswer := s.waitAnswer) == s
    ensures Inv(s) ==> Inv(r)
  {
    s.(waitAnswer := s.waitAnswer - {addr}, statusNodes := s.statusNodes[addr := ns])
  }

  /** `noOffersList`: a peer with current offers is `Actual`, any other reply `Bad`. */
  function NoOffersList(s: SyncState, from: Addr, reply: OffersReply): (r: SyncState)
    ensures from in r.statusNodes
    ensures r.statusNodes[from] == Actual <==> reply == ReplyActual
    ensures r.statusNodes[from] == Bad <==> reply != ReplyActual
    ensures Inv(s) ==> Inv(r)
  {
    AddAddrToStatusNode(s, from, if reply == ReplyActual then Actual else Bad)
  }

  /** `finishSyncDex`: synchronised if `actualSync`, otherwise start over. */
  function FinishSyncDex(env: Env, db: Db, s: SyncState): (r: Step)
    ensures ActualSync(s.statusNodes) ==>
      && r.state.status == Finished
      && r.state.statusNodes == map[] && r.state.waitAnswer == {}
      && r.state.offersNeedDownload == s.offersNeedDownload
      && r.state.maxOffersNeedDownload == 0 && r.state.prevMax == 0 && r.state.prevSize == 0
      && r.effects == [SyncFinished]
    ensures !ActualSync(s.statusNodes) ==> r == Reset(env, db, s.(status := NoStarted)).1
    ensures !ActualSync(s.statusNodes) ==> r.state.status == NoStarted || r.state.status == Initial
    ensures Inv(s) ==> Inv(r.state)
  {
    if ActualSync(s.statusNodes) then
      Step(s.(prevMax := 0, prevSize := 0, maxOffersNeedDownload := 0, statusNodes := map[],
              waitAnswer := {}, status := Finished), [SyncFinished])
    else
      Reset(env, db, s.(status := NoStarted)).1
  }

  /** `checkNodes`, run when the answer timer fires: without `actualSync`
      every peer that has not answered is marked `Bad`; afterwards no answer
      is outstanding. */
  function CheckNodes(env: Env, db: Db, s: SyncState): (r: Step)
    ensures r.state.waitAnswer == {}
    ensures ActualSync(s.statusNodes) ==> r.state.status == Finished && r.state.statusNodes == map[]
    ensures !ActualSync(s.statusNodes) ==>
      && r.effects == []
      && r.state.status == s.status
      && r.state.offersNeedDownload == s.offersNeedDownload
      && (forall a :: a in s.waitAnswer ==> a in r.state.statusNodes && r.state.statusNodes[a] == Bad)
      && (forall a :: a !in s.waitAnswer ==> (a in r.state.statusNodes <==> a in s.statusNodes))
      && (forall a :: a !in s.waitAnswer && a in s.statusNodes ==> r.state.statusNodes[a] == s.statusNodes[a])
    ensures Inv(s) ==> Inv(r.state)
  {
    if ActualSync(s.statusNodes) then
      var f := FinishSyncDex(env, db, s);
      Step(f.state.(statusNodes := map[], waitAnswer := {}), f.effects)
    else
      Step(s.(statusNodes := s.statusNodes + map a | a in s.waitAnswer :: Bad, waitAnswer := {}), [])
  }

  /** Peers that time out cannot make the node synchronised: marking them
      `Bad` never turns a not-yet-synchronised answer set into a synchronised
      one, because (by `Inv`) none of them had an answer on record. */
  lemma CheckNodesNeverSynchronises(env: Env, db: Db, s: SyncState)
    requires Inv(s)
    requires !ActualSync(s.statusNodes)
    ensures !ActualSync(CheckNodes(env, db, s).state.statusNodes)
  {
    var m := CheckNodes(env, db, s).state.statusNodes;
    if exists a :: a in s.statusNodes && (s.statusNodes[a] == Good || s.statusNodes[a] == Process) {
      var a :| a in s.statusNodes && (s.statusNodes[a] == Good || s.statusNodes[a] == Process);
      assert a !in s.waitAnswer;
      assert m[a] == s.statusNodes[a];
    } else {
      forall a | a in m
        ensures m[a] != Actual
      {
        if a !in s.waitAnswer {
          assert a in s.statusNodes;
          assert s.statusNodes[a] != Actual;
        }
      }
    }
  }

  // ---------------------------------------------------------------------
  // Collecting hashes

  function HashIsFirst(h: Hash): HashVersion -> bool
  {
    (x: HashVersion) => x.0 == h
  }

  /** A received pair is wanted when the first local pair with its hash is
      older, or there is none. */
  function NeedsDownload(local: seq<HashVersion>, h: HashVersion): (b: bool)
    ensures b <==>
      (forall k :: 0 <= k < |local| ==> local[k].0 != h.0)
      || (exists k :: 0 <= k < |local| && local[k].0 == h.0 && h.1 > local[k].1
                      && forall j :: 0 <= j < k ==> local[j].0 != h.0)
  {
    var found := IndexWhere(local, HashIsFirst(h.0));
    assert found.Some? ==> HashIsFirst(h.0)(local[found.value]);
    assert found.Some? ==> forall j :: 0 <= j < found.value ==> !HashIsFirst(h.0)(local[j]);
    match found
    case None => true
    case Some(k) => h.1 > local[k].1
  }

  /** Some pair of the part is wanted. */
  predicate AnyWanted(local: seq<HashVersion>, hvs: seq<HashVersion>)
  {
    exists i :: 0 <= i < |hvs| && NeedsDownload(local, hvs[i])
  }

  /** The part offers `h` in a wanted version. */
  predicate IsWanted(local: seq<HashVersion>, hvs: seq<HashVersion>, h: Hash)
  {
    exists i :: 0 <= i < |hvs| && hvs[i].0 == h && NeedsDownload(local, hvs[i])
  }

  /** The hashes of a received part that `getHashs` adds to the download set. */
  function Wanted(local: seq<HashVersion>, hvs: seq<HashVersion>): (w: set<Hash>)
    ensures forall h :: h in w <==> IsWanted(local, hvs, h)
  {
    if |hvs| == 0 then {}
    else
      var rest := Wanted(local, hvs[1..]);
      assert forall i :: 1 <= i < |hvs| ==> hvs[i] == hvs[1..][i - 1];
      (if NeedsDownload(local, hvs[0]) then {hvs[0].0} else {}) + rest
  }

  /** The loop of `getHashs`: the wanted hashes join the download set and
      the sender is marked `Process` if it offered any, `Good` otherwise. */
  function ReceiveHashes(s: SyncState, from: Addr, hvs: seq<HashVersion>, local: seq<HashVersion>): (r: SyncState)
    ensures forall h :: h in r.offersNeedDownload <==>
      h in s.offersNeedDownload || IsWanted(local, hvs, h)
    ensures from in r.statusNodes && from !in r.waitAnswer
    ensures r.statusNodes[from] == Process <==> AnyWanted(local, hvs)
    ensures r.statusNodes[from] == Good <==> !AnyWanted(local, hvs)
    ensures r.status == s.status && r.timerRunning == s.timerRunning
    ensures Inv(s) ==> Inv(r)
  {
    var w := Wanted(local, hvs);
    assert w == {} <==> !AnyWanted(local, hvs) by {
      if AnyWanted(local, hvs) {
        var i :| 0 <= i < |hvs| && NeedsDownload(local, hvs[i]);
        assert IsWanted(local, hvs, hvs[i].0);
      }
    }
    var s1 := AddAddrToStatusNode(s, from, Good);
    if w == {} then s1
    else AddAddrToStatusNode(s1.(offersNeedDownload := s1.offersNeedDownload + w), from, Process)
  }

  /** `getHashs`: one `DEXSYNCPARTHASH` part from `from`, part number `cPart`
      of `maxPart`, compared against the node's own pairs `local`. */
  function GetHashs(s: SyncState, from: Addr, hvs: seq<HashVersion>, cPart: int, maxPart: int,
                    local: seq<HashVersion>): (r: Step)
    ensures forall h :: h in r.state.offersNeedDownload <==>
      h in s.offersNeedDownload || IsWanted(local, hvs, h)
    ensures from in r.state.statusNodes && from !in r.state.waitAnswer
    ensures r.state.statusNodes[from] == Process <==> AnyWanted(local, hvs)
    ensures r.state.statusNodes[from] == Good <==> !AnyWanted(local, hvs)
    ensures cPart != maxPart ==> r.effects == []
    ensures cPart != maxPart ==> r.state.status == (if s.status == Initial then SyncStepOne else s.status)
    ensures cPart == maxPart ==>
      && r.state.status == SyncStepSecond
      && r.state.maxOffersNeedDownload == |r.state.offersNeedDownload|
      && RequestOffers in r.effects
      && (NeedSync(from) in r.effects <==> r.state.statusNodes[from] == Good)
    ensures Inv(s) ==> Inv(r.state)
  {
    var s1 := if s.status == Initial then s.(status := SyncStepOne) else s;
    var s2 := ReceiveHashes(s1, from, hvs, local);
    if cPart == maxPart then LastPart(s2, from) else Step(s2, [])
  }

  /** After the last part: the download begins and, if the sender had
      nothing new, it is asked to synchronise with this node. */
  function LastPart(s: SyncState, from: Addr): (r: Step)
    requires from in s.statusNodes
    ensures r.state.offersNeedDownload == s.offersNeedDownload
    ensures r.state.statusNodes == s.statusNodes && r.state.waitAnswer == s.waitAnswer
    ensures r.state.status == SyncStepSecond
    ensures r.state.maxOffersNeedDownload == |r.state.offersNeedDownload|
    ensures RequestOffers in r.effects
    ensures NeedSync(from) in r.effects <==> s.statusNodes[from] == Good
  {
    var good := s.statusNodes[from] == Good;
    var t := StartTimer(s.(maxOffersNeedDownload := |s.offersNeedDownload|, status := SyncStepSecond));
    var es := (if good then [NeedSync(from)] else []) + [RequestOffers] + t.effects;
    assert RequestOffers in es;
    assert NeedSync(from) in es <==> good;
    Step(t.state, es)
  }

  // ---------------------------------------------------------------------
  // Downloading offers

  /** `eraseItemFromOffersNeedDownload`: the last wanted offer finishes the
      synchronisation. */
  function EraseItem(env: Env, db: Db, s: SyncState, h: Hash): (r: Step)
    ensures s.offersNeedDownload - {h} != {} ==> r == Step(s.(offersNeedDownload := s.offersNeedDownload - {h}), [])
    ensures s.offersNeedDownload - {h} == {} ==> r.state.offersNeedDownload == {}
    ensures s.offersNeedDownload - {h} == {} ==> r == FinishSyncDex(env, db, s.(offersNeedDownload := {}))
    ensures h !in r.state.offersNeedDownload
    ensures Inv(s) ==> Inv(r.state)
  {
    var s1 := s.(offersNeedDownload := s.offersNeedDownload - {h});
    if |s1.offersNeedDownload| == 0 then FinishSyncDex(env, db, s1) else Step(s1, [])
  }

  /** Stores a downloaded offer: an unknown hash is added, a known one is
      replaced only by a strictly newer editing version. */
  function SaveOffer(db: Db, kind: OfferKind, o: OfferInfo): (r: Db)
    ensures r.my == db.my
    ensures kind == Buy ==> r.sell == db.sell
    ensures kind == Sell ==> r.buy == db.buy
    ensures !HasHash(Offers(db, kind), PlainView, o.hash) && !HasId(Offers(db, kind), PlainView, o.idTransaction)
      ==> Offers(r, kind) == Offers(db, kind) + [o]
    ensures HasHash(Offers(db, kind), PlainView, o.hash)
      ==> (r != db ==> o.editingVersion > GetByHash(Offers(db, kind), PlainView, o.hash).value.editingVersion)
    ensures HasHash(Offers(db, kind), PlainView, o.hash)
      && o.editingVersion > GetByHash(Offers(db, kind), PlainView, o.hash).value.editingVersion
      ==> r == EditOffer(db, kind, o).db
  {
    match GetByHash(Offers(db, kind), PlainView, o.hash)
    case None => AddOffer(db, kind, o).db
    case Some(e) => if o.editingVersion > e.editingVersion then EditOffer(db, kind, o).db else db
  }

  /** What one received offer leaves behind: the database and the step. */
  datatype Saved = Saved(db: Db, step: Step)

  /** `getOfferAndSaveInDb`. `checkOk` is `offer.Check`, `fine` the score it
      sets, `txOk` is `CheckOfferTx`, `rescan` is `DexDB::bOffersRescan` and
      `ownKey` whether the wallet holds the offer's key. */
  function GetOfferAndSaveInDb(env: Env, db: Db, s: SyncState, from: Addr, o: OfferInfo, kind: OfferKind,
                               checkOk: bool, fine: int, txOk: bool, rescan: bool, ownKey: bool): (r: Saved)
    ensures !checkOk ==> r.db == db
    ensures !checkOk ==> Misbehaving(from, fine) in r.step.effects
    ensures checkOk && !txOk ==> r.db == db && KeepUnconfirmed(o.hash) in r.step.effects
    ensures checkOk && txOk ==>
      Offers(r.db, kind) == Offers(SaveOffer(db, kind, o), kind)
    ensures !(checkOk && txOk && rescan && ownKey) ==> r.db.my == db.my
    ensures checkOk && txOk && rescan && ownKey && !HasHash(db.my, MyView, o.hash)
      ==> r.db.my == db.my + [MyOfferInfo(o, kind, Active)]
    ensures o.hash !in r.step.state.offersNeedDownload
    ensures Inv(s) ==> Inv(r.step.state)
  {
    var s1 := AddAddrToStatusNode(s, from, Good);
    if !checkOk then
      var e := EraseItem(env, db, s1, o.hash);
      Saved(db, Step(e.state, [Misbehaving(from, fine)] + e.effects))
    else
      var db1 := if txOk then SaveOffer(db, kind, o) else db;
      var pre := if txOk then [] else [KeepUnconfirmed(o.hash)];
      var db2 := if rescan && !ExistsByHash(db1.my, MyView, o.hash) && ownKey && txOk
                 then AddMyOffer(db1, MyOfferInfo(o, kind, Active)).db else db1;
      var e := EraseItem(env, db2, s1, o.hash);
      Saved(db2, Step(e.state, pre + e.effects))
  }

  // ---------------------------------------------------------------------
  // Answering a peer

  /** `dexSyncInfo`: the number of buy and sell offers and the latest
      modification time of either table. */
  function SyncInfoOf(db: Db): (r: SyncInfo)
    ensures r.checkSum == 0 && r.count == |db.buy| + |db.sell|
    ensures forall o :: o in db.buy + db.sell ==> o.timeModification <= r.lastTimeMod
    ensures |db.buy| + |db.sell| > 0 ==> exists o :: o in db.buy + db.sell && o.timeModification == r.lastTimeMod
    ensures |db.buy| + |db.sell| == 0 ==> r.lastTimeMod == 0
  {
    var buy := LastModification(db.buy, PlainView);
    var sell := LastModification(db.sell, PlainView);
    assert forall o :: o in db.buy + db.sell ==> o in db.buy || o in db.sell;
    var r := SyncInfo(0, TotalOffers(db), if buy > sell then buy else sell);
    if |db.buy| > 0 && buy > sell then
      var i :| 0 <= i < |db.buy| && db.buy[i].timeModification == buy;
      assert db.buy[i] in db.buy + db.sell;
      r
    else if |db.sell| > 0 then
      var i :| 0 <= i < |db.sell| && db.sell[i].timeModification == sell;
      assert db.sell[i] in db.buy + db.sell;
      r
    else if |db.buy| > 0 then
      var i :| 0 <= i < |db.buy| && db.buy[i].timeModification == buy;
      assert db.buy[i] in db.buy + db.sell;
      r
    else r
  }

  predicate IsNullInfo(i: SyncInfo)
  {
    i.checkSum == 0 && i.count == 0 && i.lastTimeMod == 0
  }

  /** Integer form of `std::ceil(n / 100.0)`. */
  function CeilDiv(n: nat, d: nat): (q: nat)
    requires d > 0
    ensures q * d >= n
    ensures q > 0 ==> (q - 1) * d < n
  {
    (n + d - 1) / d
  }

  /** The `DEXSYNCPARTHASH` messages for `hvs`, numbered from `c`. */
  function Parts(to: Addr, hvs: seq<HashVersion>, c: int, maxPart: int): (r: seq<Effect>)
    requires |hvs| > 0
    ensures |r| == CeilDiv(|hvs|, PartSize)
    ensures forall i :: 0 <= i < |r| ==>
      r[i].PartHash? && r[i].to == to && r[i].part == c + i && r[i].maxPart == maxPart
      && 0 < |r[i].hvs| <= PartSize
    decreases |hvs|
  {
    if |hvs| <= PartSize then [PartHash(to, hvs, c, maxPart)]
    else [PartHash(to, hvs[..PartSize], c, maxPart)] + Parts(to, hvs[PartSize..], c + 1, maxPart)
  }

  /** The pairs carried by a sequence of messages, in order. */
  function Joined(es: seq<Effect>): seq<HashVersion>
  {
    if |es| == 0 then []
    else (if es[0].PartHash? then es[0].hvs else []) + Joined(es[1..])
  }

  lemma {:induction false} PartsJoin(to: Addr, hvs: seq<HashVersion>, c: int, maxPart: int)
    requires |hvs| > 0
    ensures Joined(Parts(to, hvs, c, maxPart)) == hvs
    decreases |hvs|
  {
    var r := Parts(to, hvs, c, maxPart);
    if |hvs| <= PartSize {
      assert Joined(r[1..]) == [];
    } else {
      PartsJoin(to, hvs[PartSize..], c + 1, maxPart);
      assert r[1..] == Parts(to, hvs[PartSize..], c + 1, maxPart);
      assert hvs[..PartSize] + hvs[PartSize..] == hvs;
    }
  }

  /** `sendHashOffers`, answering `DEXSYNCGETALLHASH` carrying `other`.
      `all` is every offer's pair, `young` those modified at or after
      `other.lastTimeMod`. */
  function SendHashOffers(db: Db, from: Addr, other: SyncInfo, all: seq<HashVersion>, young: seq<HashVersion>): (r: seq<Effect>)
  {
    var info := SyncInfoOf(db);
    if other == info && !IsNullInfo(info) then [NoOffers(from, ReplyActual)]
    else
      var chosen := if IsNullInfo(other) then all else young;
      var hvs := if |chosen| == 0 then all else chosen;
      if |hvs| == 0 then [NoOffers(from, ReplyEmpty)]
      else Parts(from, hvs, 1, CeilDiv(|hvs|, PartSize))
  }

  /** A peer whose summary equals ours (and is not empty) is told it is
      current; otherwise the pairs go out in parts of at most 100, numbered
      1..maxPart with maxPart the ceiling of n / 100, that join back to the
      pairs sent; with nothing to send the peer is told so. */
  lemma SendHashOffersReplies(db: Db, from: Addr, other: SyncInfo, all: seq<HashVersion>, young: seq<HashVersion>)
    ensures var r := SendHashOffers(db, from, other, all, young);
      && (other == SyncInfoOf(db) && !IsNullInfo(other) ==> r == [NoOffers(from, ReplyActual)])
      && (!(other == SyncInfoOf(db) && !IsNullInfo(other)) ==>
            var chosen := if IsNullInfo(other) then all else young;
            var hvs := if |chosen| == 0 then all else chosen;
            && (|hvs| == 0 <==> r == [NoOffers(from, ReplyEmpty)])
            && (|hvs| > 0 ==>
                  && Joined(r) == hvs
                  && |r| == CeilDiv(|hvs|, PartSize)
                  && (forall i :: 0 <= i < |r| ==>
                        r[i] == PartHash(from, r[i].hvs, i + 1, |r|) && 0 < |r[i].hvs| <= PartSize)))
  {
    var info := SyncInfoOf(db);
    if !(other == info && !IsNullInfo(info)) {
      var chosen := if IsNullInfo(other) then all else young;
      var hvs := if |chosen| == 0 then all else chosen;
      if |hvs| > 0 {
        PartsJoin(from, hvs, 1, CeilDiv(|hvs|, PartSize));
      }
    }
  }

  // ---------------------------------------------------------------------
  // The progress timer

  /** `updatePrevData`: remembers the download progress. */
  function UpdatePrevData(s: SyncState): (r: SyncState)
    ensures !CheckSyncData(r)
    ensures r.(prevSize := s.prevSize, prevMax := s.prevMax) == s
  {
    s.(prevSize := |s.offersNeedDownload|, prevMax := s.maxOffersNeedDownload)
  }

  /** `checkSyncData`: whether the download has moved since `updatePrevData`. */
  predicate CheckSyncData(s: SyncState)
  {
    !(s.prevSize == |s.offersNeedDownload| && s.prevMax == s.maxOffersNeedDownload)
  }

  /** `FinishSyncDex`, run when the 30-second timer fires. */
  function FinishSyncDexTimer(env: Env, db: Db, s: SyncState): (r: Step)
    ensures Inv(s) ==> Inv(r.state)
  {
    var s0 := s.(timerRunning := false);
    if s0.status == Initial && |s0.offersNeedDownload| == 0 then Reset(env, db, s0).1
    else if ActualSync(s0.statusNodes) then FinishSyncDex(env, db, s0)
    else if s0.status == SyncStepOne then StartTimer(s0)
    else if !CheckSyncData(s0) then
      var t := StartTimer(s0);
      Step(t.state, [RequestOffers] + t.effects)
    else if !IsSynced(s0) then StartTimer(UpdatePrevData(s0))
    else Step(s0, [])
  }

  /** The timer's decisions: a node with no offers to fetch after the first
      round starts over; a node with a current peer and nobody delivering is
      synchronised; a node still collecting hashes waits another round; a
      stalled download is requested again; a moving one is re-checked in the
      next round with its progress remembered. */
  lemma TimerDecisions(env: Env, db: Db, s: SyncState)
    ensures var r := FinishSyncDexTimer(env, db, s);
      && (s.status == Initial && s.offersNeedDownload == {} ==>
            r.state.status == Initial || r.state.status == NoStarted)
      && (!(s.status == Initial && s.offersNeedDownload == {}) && ActualSync(s.statusNodes) ==> IsSynced(r.state))
      && (!(s.status == Initial && s.offersNeedDownload == {}) && !ActualSync(s.statusNodes) ==>
            && (s.status != Finished || !CheckSyncData(s) ==> r.state.timerRunning)
            && r.state.status == s.status
            && r.state.statusNodes == s.statusNodes
            && r.state.offersNeedDownload == s.offersNeedDownload
            && (s.status != SyncStepOne && !CheckSyncData(s) ==> RequestOffers in r.effects)
            && (s.status != SyncStepOne && s.status != Finished ==> !CheckSyncData(r.state))
            && (s.status == SyncStepOne ==> r.effects == [TimerArmed]))
  {
  }

  /** `isSynced` after `finishSyncDex` holds exactly when `actualSync` did. */
  lemma FinishSyncDexSynced(env: Env, db: Db, s: SyncState)
    ensures IsSynced(FinishSyncDex(env, db, s).state) <==> ActualSync(s.statusNodes)
  {
  }

  /** The last wanted offer arriving while a current peer is on record and
      nobody is delivering leaves the node synchronised. */
  lemma LastOfferSynchronises(env: Env, db: Db, s: SyncState, h: Hash)
    requires s.offersNeedDownload <= {h}
    requires ActualSync(s.statusNodes)
    ensures IsSynced(EraseItem(env, db, s, h).state)
  {
  }
}
