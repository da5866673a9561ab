/** The payment-transaction checks of a DEX offer (`CDex`): paying for an
    offer, checking that a transaction pays the offer fee and commits to the
    offer hash, counting confirmations, and signing.

    The chain, the wallet and the key material are not modelled: a
    transaction is the record of the values and scripts the checks read,
    previous outputs are a map from transaction hash to output values, and
    signing and verification are inputs. The constants defined outside the
    DEX code (`PAYOFFER_RETURN_FEE`, `PAYOFFER_TX_FEE`,
    `PAYOFFER_MIN_TX_HEIGHT`, `MAX_TRANSACTION_SIZE`) are a `Params` record.

    Every check follows the `CHECK(A, B, C)` convention: when `A` fails,
    the message `B; TransactionID=C` is appended to the caller's error string
    and the function reports failure. */
module DexTx {
  import opened Common
  import opened OfferStore

  const SecondsPerDay: int := 86400

  datatype Params = Params(returnFee: int, txFee: int, minTxHeight: int, maxTxSize: int)

  /** A script operation as `GetOp` decodes it: `OP_RETURN`, a push of data
      whose hexadecimal reading is `data`, any other opcode, or a byte
      sequence `GetOp` cannot decode. */
  datatype ScriptOp = OpReturn | Push(data: Hash) | OtherOp | Malformed

  datatype TxOut = TxOut(value: int, script: seq<ScriptOp>)

  datatype OutPoint = OutPoint(hash: Hash, n: nat)

  /** `text` is what `CTransaction::ToString` prints. */
  datatype Tx = Tx(hash: Hash, vin: seq<OutPoint>, vout: seq<TxOut>, size: nat, text: string)

  /** Output values of the transactions `GetTransaction` can find. */
  type PrevOuts = map<Hash, seq<int>>

  /** Outcome of a check and the error string afterwards. */
  datatype Checked = Checked(ok: bool, err: string)

  /** `CDexOffer::IsNull`. */
  predicate IsNullOffer(o: OfferInfo)
  {
    o.hash == NullHash
  }

  /** `uint256::ToString`: 64 hexadecimal digits. */
  function IdText(id: Hash): string
  {
    ToHex(id, 64)
  }

  /** The message a failing `CHECK(A, B, C)` appends. */
  function Msg(b: string, c: string): (m: string)
    ensures |m| > |b| && m[..|b|] == b
  {
    b + "; TransactionID=" + c
  }

  /** `err` with a failure message for offer `o` appended. */
  function Fail(err: string, b: string, o: OfferInfo): (r: Checked)
    ensures !r.ok && |r.err| > |err| && r.err[..|err|] == err
  {
    Checked(false, err + Msg(b, IdText(o.idTransaction)))
  }

  /** What every check promises about the error string: a failure appends a
      non-empty message, a success leaves it alone. */
  predicate Reports(err: string, r: Checked)
  {
    (r.ok ==> r.err == err) && (!r.ok ==> |r.err| > |err| && r.err[..|err|] == err)
  }

  // ---------------------------------------------------------------------
  // The fee rule

  /** Shelf life in whole days, rounded up, as `CheckTx` and `editdexoffer`
      compute it with C++ integer division. */
  function Days(timeCreate: int, timeExpiration: int): int
  {
    TDiv(timeExpiration - timeCreate - 1, SecondsPerDay) + 1
  }

  /** Fee multiplier: one fee per started ten days. */
  function Coef(timeCreate: int, timeExpiration: int): int
  {
    TDiv(Days(timeCreate, timeExpiration) - 1, 10) + 1
  }

  /** A longer shelf life never costs a smaller multiplier. */
  lemma CoefMonotone(c: int, e: int, c': int, e': int)
    requires e - c <= e' - c'
    ensures Coef(c, e) <= Coef(c', e')
  {
    TDivMonotone(e - c - 1, e' - c' - 1, SecondsPerDay);
    TDivMonotone(Days(c, e) - 1, Days(c', e') - 1, 10);
  }

  /** One to ten days cost one fee, eleven to twenty days two. */
  lemma CoefByDuration(c: int, e: int)
    requires 0 < e - c
    ensures e - c <= 10 * SecondsPerDay ==> Coef(c, e) == 1
    ensures 10 * SecondsPerDay < e - c <= 20 * SecondsPerDay ==> Coef(c, e) == 2
    ensures 1 <= Days(c, e)
    ensures (Days(c, e) - 1) * SecondsPerDay < e - c <= Days(c, e) * SecondsPerDay
  {
  }

  // ---------------------------------------------------------------------
  // Reading the fee output's script

  /** `IsUnspendable`: the script starts with `OP_RETURN`. */
  predicate Unspendable(script: seq<ScriptOp>)
  {
    |script| > 0 && script[0] == OpReturn
  }

  /** The loop over `vout[0]`'s script: every push replaces the hash read so
      far (`cur`); it stops at the first operation `GetOp` cannot decode and
      reports that it stopped there. */
  function Scan(ops: seq<ScriptOp>, cur: Hash): (r: (Hash, bool))
    ensures r.1 <==> exists i :: 0 <= i < |ops| && ops[i].Malformed?
  {
    if |ops| == 0 then (cur, false)
    else
      var rest := Scan(ops[1..], if ops[0].Push? then ops[0].data else cur);
      assert forall i :: 1 <= i < |ops| ==> ops[i] == ops[1..][i - 1];
      match ops[0]
      case Malformed => (cur, true)
      case _ => rest
  }

  /** The data of the last push in `ops`, `cur` if there is none. */
  function LastPush(ops: seq<ScriptOp>, cur: Hash): Hash
  {
    if |ops| == 0 then cur
    else if ops[|ops| - 1].Push? then ops[|ops| - 1].data
    else LastPush(ops[..|ops| - 1], cur)
  }

  lemma {:induction false} LastPushCons(ops: seq<ScriptOp>, cur: Hash)
    requires |ops| > 0
    ensures LastPush(ops, cur) == LastPush(ops[1..], if ops[0].Push? then ops[0].data else cur)
  {
    if |ops| > 1 {
      assert ops[1..][..|ops| - 2] == ops[..|ops| - 1][1..];
      LastPushCons(ops[..|ops| - 1], cur);
    }
  }

  /** On a script `GetOp` decodes entirely, the loop reads the last push. */
  lemma {:induction false} ScanReadsLastPush(ops: seq<ScriptOp>, cur: Hash)
    requires forall i :: 0 <= i < |ops| ==> !ops[i].Malformed?
    ensures Scan(ops, cur).0 == LastPush(ops, cur)
  {
    if |ops| > 0 {
      assert forall i :: 0 <= i < |ops| - 1 ==> ops[1..][i] == ops[i + 1];
      ScanReadsLastPush(ops[1..], if ops[0].Push? then ops[0].data else cur);
      LastPushCons(ops, cur);
    }
  }

  /** Position of the first operation `GetOp` cannot decode; the length of
      the script if there is none. */
  function FirstMalformed(ops: seq<ScriptOp>): (n: nat)
    ensures n <= |ops|
    ensures forall i :: 0 <= i < n ==> !ops[i].Malformed?
    ensures n < |ops| ==> ops[n].Malformed?
  {
    if |ops| == 0 || ops[0].Malformed? then 0
    else
      var n := FirstMalformed(ops[1..]);
      assert forall i :: 1 <= i < n + 1 ==> ops[i] == ops[1..][i - 1];
      n + 1
  }

  /** Whatever the script, the loop reads the last push before the first
      operation `GetOp` cannot decode. */
  lemma {:induction false} ScanReadsPrefix(ops: seq<ScriptOp>, cur: Hash)
    ensures Scan(ops, cur).0 == LastPush(ops[..FirstMalformed(ops)], cur)
  {
    if |ops| > 0 && !ops[0].Malformed? {
      var n := FirstMalformed(ops[1..]);
      var next := if ops[0].Push? then ops[0].data else cur;
      ScanReadsPrefix(ops[1..], next);
      assert ops[..n + 1][1..] == ops[1..][..n];
      LastPushCons(ops[..n + 1], cur);
    }
  }

  // ---------------------------------------------------------------------
  // Values

  function SumValues(vout: seq<TxOut>): int
  {
    if |vout| == 0 then 0 else vout[0].value + SumValues(vout[1..])
  }

  /** `GetTransaction` finds the previous transaction and it has the output. */
  predicate Resolves(i: OutPoint, prev: PrevOuts)
  {
    i.hash in prev && i.n < |prev[i.hash]|
  }

  /** Sum of the values the inputs spend. */
  function Debit(vin: seq<OutPoint>, prev: PrevOuts): int
    requires forall k :: 0 <= k < |vin| ==> Resolves(vin[k], prev)
  {
    if |vin| == 0 then 0
    else
      assert Resolves(vin[0], prev);
      assert forall k :: 0 <= k < |vin| - 1 ==> vin[1..][k] == vin[k + 1];
      prev[vin[0].hash][vin[0].n] + Debit(vin[1..], prev)
  }

  /** Number of leading inputs that resolve. */
  function ResolvedPrefix(vin: seq<OutPoint>, prev: PrevOuts): (n: nat)
    ensures n <= |vin|
    ensures forall k :: 0 <= k < n ==> Resolves(vin[k], prev)
    ensures n < |vin| ==> !Resolves(vin[n], prev)
  {
    if |vin| == 0 || !Resolves(vin[0], prev) then 0
    else
      var n := ResolvedPrefix(vin[1..], prev);
      assert forall k :: 1 <= k < n + 1 ==> vin[k] == vin[1..][k - 1];
      n + 1
  }

  /** The loop over the inputs: the sum so far, and the message of the
      check that stopped it, if one did. */
  function DebitScan(vin: seq<OutPoint>, prev: PrevOuts): (r: (int, Option<string>))
    ensures r.1.None? <==> forall k :: 0 <= k < |vin| ==> Resolves(vin[k], prev)
    ensures r.1.None? ==> r.0 == Debit(vin, prev)
    ensures r.1.Some? ==> |r.1.value| > 0
  {
    if |vin| == 0 then (0, None)
    else if vin[0].hash !in prev then (0, Some("vin tx not found"))
    else if vin[0].n >= |prev[vin[0].hash]| then (0, Some("prev tx out error"))
    else
      var (d, stop) := DebitScan(vin[1..], prev);
      assert forall k :: 0 <= k < |vin| - 1 ==> vin[1..][k] == vin[k + 1];
      assert stop.Some? ==> exists k :: 1 <= k < |vin| && !Resolves(vin[k], prev);
      (prev[vin[0].hash][vin[0].n] + d, stop)
  }

  /** Whatever the inputs, the loop sums the values of the inputs before
      the first one that does not resolve. */
  lemma {:induction false} DebitScanSumsPrefix(vin: seq<OutPoint>, prev: PrevOuts)
    ensures DebitScan(vin, prev).0 == Debit(vin[..ResolvedPrefix(vin, prev)], prev)
  {
    if |vin| > 0 && Resolves(vin[0], prev) {
      var n := ResolvedPrefix(vin[1..], prev);
      DebitScanSumsPrefix(vin[1..], prev);
      assert vin[..n + 1][1..] == vin[1..][..n];
      assert vin[..n + 1][0] == vin[0];
    }
  }

  // ---------------------------------------------------------------------
  // CheckTx

  /** Everything `CheckTx` is meant to demand of the payment transaction:
      inputs and outputs exist, output 0 carries exactly the return fee in
      an `OP_RETURN` script that `GetOp` decodes and whose last push is the
      offer hash, every input resolves, and the inputs exceed the outputs by
      the fee for the offer's shelf life. */
  predicate Acceptable(p: Params, o: OfferInfo, tx: Tx, prev: PrevOuts)
  {
    && |tx.vin| > 0 && |tx.vout| > 0
    && tx.vout[0].value == p.returnFee
    && Unspendable(tx.vout[0].script)
    && (forall i :: 0 <= i < |tx.vout[0].script| ==> !tx.vout[0].script[i].Malformed?)
    && o.hash == LastPush(tx.vout[0].script, NullHash)
    && (forall k :: 0 <= k < |tx.vin| ==> Resolves(tx.vin[k], prev))
    && Debit(tx.vin, prev) - SumValues(tx.vout) >= p.txFee * Coef(o.timeCreate, o.timeToExpiration)
  }

  /** What `CheckTx` as written accepts: inputs and outputs exist, output 0
      carries exactly the return fee in an `OP_RETURN` script, the last push
      before the first operation `GetOp` cannot decode is the offer hash,
      and the inputs before the first one that does not resolve exceed the
      outputs by the fee for the offer's shelf life. */
  predicate AcceptableAsWritten(p: Params, o: OfferInfo, tx: Tx, prev: PrevOuts)
  {
    && |tx.vin| > 0 && |tx.vout| > 0
    && tx.vout[0].value == p.returnFee
    && Unspendable(tx.vout[0].script)
    && o.hash == LastPush(tx.vout[0].script[..FirstMalformed(tx.vout[0].script)], NullHash)
    && Debit(tx.vin[..ResolvedPrefix(tx.vin, prev)], prev) - SumValues(tx.vout) >= p.txFee * Coef(o.timeCreate, o.timeToExpiration)
  }

  /** What a check as written promises about the error string: it only
      grows, and a failure appends a message. */
  predicate Extends(err: string, r: Checked)
  {
    |r.err| >= |err| && r.err[..|err|] == err && (!r.ok ==> |r.err| > |err|)
  }

  /** `CheckTx` as it is written. A failing `CHECK` inside the script loop or
      the input loop only leaves that loop: its message is appended, but the
      remaining checks still run and may accept the transaction, which then
      comes back with a non-empty error text. */
  function CheckTxAsWritten(p: Params, o: OfferInfo, tx: Tx, prev: PrevOuts, err: string): (r: Checked)
    ensures Extends(err, r)
    ensures r.ok <==> AcceptableAsWritten(p, o, tx, prev)
  {
    if |tx.vin| == 0 then Fail(err, "vin empty", o)
    else if |tx.vout| == 0 then Fail(err, "vout empty", o)
    else if tx.vout[0].value != p.returnFee then Fail(err, "bad op_return fee", o)
    else if !Unspendable(tx.vout[0].script) then Fail(err, "not op_return", o)
    else
      var (h, stopped) := Scan(tx.vout[0].script, NullHash);
      ScanReadsPrefix(tx.vout[0].script, NullHash);
      var e1 := if stopped then err + Msg("fail to getop from script", IdText(o.idTransaction)) else err;
      assert |e1| >= |err| && e1[..|err|] == err;
      if o.hash != h then Fail(e1, "offer hash not equal", o)
      else
        var (debit, stop) := DebitScan(tx.vin, prev);
        DebitScanSumsPrefix(tx.vin, prev);
        var e2 := if stop.Some? then e1 + Msg(stop.value, IdText(o.idTransaction)) else e1;
        assert |e2| >= |e1| && e2[..|e1|] == e1;
        assert e2[..|err|] == err;
        if debit - SumValues(tx.vout) < p.txFee * Coef(o.timeCreate, o.timeToExpiration)
        then Fail(e2, "payoffer tx fee error", o)
        else Checked(true, e2)
  }

  /** A transaction `CheckTx` as written accepts comes back with a longer
      error text exactly when one of its loops stopped early. */
  lemma AcceptedWithMessages(p: Params, o: OfferInfo, tx: Tx, prev: PrevOuts, err: string)
    requires CheckTxAsWritten(p, o, tx, prev, err).ok
    ensures CheckTxAsWritten(p, o, tx, prev, err).err == err <==>
      FirstMalformed(tx.vout[0].script) == |tx.vout[0].script| && ResolvedPrefix(tx.vin, prev) == |tx.vin|
  {
    var script := tx.vout[0].script;
    var (h, stopped) := Scan(script, NullHash);
    var (d, stop) := DebitScan(tx.vin, prev);
    assert stopped <==> FirstMalformed(script) < |script|;
    assert stop.Some? <==> ResolvedPrefix(tx.vin, prev) < |tx.vin|;
  }

  /** `CheckTx` with every failing check ending the function, as the
      `CHECK` convention intends. */
  function CheckTx(p: Params, o: OfferInfo, tx: Tx, prev: PrevOuts, err: string): (r: Checked)
    ensures Reports(err, r)
  {
    if |tx.vin| == 0 then Fail(err, "vin empty", o)
    else if |tx.vout| == 0 then Fail(err, "vout empty", o)
    else if tx.vout[0].value != p.returnFee then Fail(err, "bad op_return fee", o)
    else if !Unspendable(tx.vout[0].script) then Fail(err, "not op_return", o)
    else
      var (h, stopped) := Scan(tx.vout[0].script, NullHash);
      if stopped then Fail(err, "fail to getop from script", o)
      else if o.hash != h then Fail(err, "offer hash not equal", o)
      else
        var (debit, stop) := DebitScan(tx.vin, prev);
        if stop.Some? then Fail(err, stop.value, o)
        else if debit - SumValues(tx.vout) < p.txFee * Coef(o.timeCreate, o.timeToExpiration)
        then Fail(err, "payoffer tx fee error", o)
        else Checked(true, err)
  }

  /** `CheckTx` accepts exactly the acceptable transactions. */
  lemma CheckTxAcceptsAcceptable(p: Params, o: OfferInfo, tx: Tx, prev: PrevOuts, err: string)
    ensures CheckTx(p, o, tx, prev, err).ok <==> Acceptable(p, o, tx, prev)
  {
    if |tx.vin| > 0 && |tx.vout| > 0 && (forall i :: 0 <= i < |tx.vout[0].script| ==> !tx.vout[0].script[i].Malformed?) {
      ScanReadsLastPush(tx.vout[0].script, NullHash);
    }
  }

  /** On a decodable script with resolvable inputs the two readings agree. */
  lemma AsWrittenAgreesWhenWellFormed(p: Params, o: OfferInfo, tx: Tx, prev: PrevOuts, err: string)
    requires |tx.vout| > 0 ==> forall i :: 0 <= i < |tx.vout[0].script| ==> !tx.vout[0].script[i].Malformed?
    requires forall k :: 0 <= k < |tx.vin| ==> Resolves(tx.vin[k], prev)
    ensures CheckTxAsWritten(p, o, tx, prev, err) == CheckTx(p, o, tx, prev, err)
  {
  }

  /** An offer paid for one day, with hash 5. */
  const SampleOffer: OfferInfo := OfferInfo("", 5, 9, 0, 0, "", "", "", "", 0, 0, SecondsPerDay, 0, 0)

  const SampleParams: Params := Params(1, 1, 1, 1000)

  /** The fee output pushes the offer hash and then holds bytes `GetOp`
      cannot decode: the as-written check accepts, the intended one refuses. */
  lemma MalformedScriptAcceptedAsWritten()
    ensures var tx := Tx(1, [OutPoint(7, 0)], [TxOut(1, [OpReturn, Push(5), Malformed])], 100, "");
      && CheckTxAsWritten(SampleParams, SampleOffer, tx, map[7 := [10]], "").ok
      && !CheckTx(SampleParams, SampleOffer, tx, map[7 := [10]], "").ok
  {
    var tx := Tx(1, [OutPoint(7, 0)], [TxOut(1, [OpReturn, Push(5), Malformed])], 100, "");
    assert Scan(tx.vout[0].script, NullHash) == (5, true) by {
      assert tx.vout[0].script[1..] == [Push(5), Malformed];
      assert tx.vout[0].script[1..][1..] == [Malformed];
    }
    assert DebitScan(tx.vin, map[7 := [10]]) == (10, None) by {
      assert tx.vin[1..] == [];
    }
    assert SumValues(tx.vout) == 1 by {
      assert tx.vout[1..] == [];
    }
  }

  /** The second input spends a transaction that cannot be found, but the
      first already covers the fee: the as-written check accepts, the
      intended one refuses. */
  lemma MissingInputAcceptedAsWritten()
    ensures var tx := Tx(1, [OutPoint(7, 0), OutPoint(8, 0)], [TxOut(1, [OpReturn, Push(5)])], 100, "");
      && CheckTxAsWritten(SampleParams, SampleOffer, tx, map[7 := [10]], "").ok
      && !CheckTx(SampleParams, SampleOffer, tx, map[7 := [10]], "").ok
      && CheckOfferTx(SampleParams, SampleOffer, true, Some((tx, Chain(1, Some(0), 100))), map[7 := [10]], "").ok
      && !CheckOfferTxIntended(SampleParams, SampleOffer, true, Some((tx, Chain(1, Some(0), 100))), map[7 := [10]], "").ok
  {
    var tx := Tx(1, [OutPoint(7, 0), OutPoint(8, 0)], [TxOut(1, [OpReturn, Push(5)])], 100, "");
    assert Scan(tx.vout[0].script, NullHash) == (5, false) by {
      assert tx.vout[0].script[1..] == [Push(5)];
      assert tx.vout[0].script[1..][1..] == [];
    }
    assert DebitScan(tx.vin, map[7 := [10]]) == (10, Some("vin tx not found")) by {
      assert tx.vin[1..] == [OutPoint(8, 0)];
    }
    assert SumValues(tx.vout) == 1 by {
      assert tx.vout[1..] == [];
    }
  }

  // ---------------------------------------------------------------------
  // The offer's own transaction

  /** Where the chain has the transaction: the block hash, and the block's
      height if it is in the active chain, with the tip's height. */
  datatype Chain = Chain(blockHash: Hash, blockHeight: Option<int>, tipHeight: int)

  /** Confirmations of a transaction, -1 outside the active chain. */
  function Confirmations(c: Chain): (n: int)
    ensures c.blockHeight.None? ==> n == -1
    ensures c.blockHeight.Some? ==> n + c.blockHeight.value == c.tipHeight + 1
  {
    match c.blockHeight
    case None => -1
    case Some(h) => 1 + c.tipHeight - h
  }

  /** `CheckOfferTx`. `checkOk` is `offer.Check(true)`; `found` is what
      `GetTransaction` returns for the offer's transaction id. The payment
      transaction goes through `CheckTx` as written, so messages a loop
      appended stay in the error text even when the offer is accepted. */
  function CheckOfferTx(p: Params, o: OfferInfo, checkOk: bool, found: Option<(Tx, Chain)>, prev: PrevOuts, err: string): (r: Checked)
    ensures Extends(err, r)
    ensures r.ok <==>
      && !IsNullOffer(o) && checkOk && found.Some?
      && AcceptableAsWritten(p, o, found.value.0, prev)
      && found.value.1.blockHash != NullHash
      && Confirmations(found.value.1) >= p.minTxHeight
    ensures found.Some? && r.ok ==> r.err == CheckTxAsWritten(p, o, found.value.0, prev, err).err
  {
    if IsNullOffer(o) then Fail(err, "offer is NULL", o)
    else if !checkOk then Fail(err, "offer check fail", o)
    else if found.None? then Fail(err, "Transaction not found", o)
    else
      var (tx, chain) := found.value;
      var c := CheckTxAsWritten(p, o, tx, prev, err);
      if !c.ok then c
      else if chain.blockHash == NullHash then FailAfter(err, c.err, "transaction in mempool, not in block", o)
      else if Confirmations(chain) < p.minTxHeight then FailAfter(err, c.err, "not enough transaction confirmations", o)
      else Checked(true, c.err)
  }

  /** A failure appended to `e`, which already extends `err`. */
  function FailAfter(err: string, e: string, b: string, o: OfferInfo): (r: Checked)
    requires |e| >= |err| && e[..|err|] == err
    ensures Extends(err, r) && r == Fail(e, b, o)
  {
    var r := Fail(e, b, o);
    assert r.err[..|e|] == e;
    assert r.err[..|err|] == e[..|err|];
    r
  }

  /** `CheckOfferTx` with the intended `CheckTx`. */
  function CheckOfferTxIntended(p: Params, o: OfferInfo, checkOk: bool, found: Option<(Tx, Chain)>, prev: PrevOuts, err: string): (r: Checked)
    ensures Reports(err, r)
    ensures r.ok <==>
      && !IsNullOffer(o) && checkOk && found.Some?
      && Acceptable(p, o, found.value.0, prev)
      && found.value.1.blockHash != NullHash
      && Confirmations(found.value.1) >= p.minTxHeight
  {
    if IsNullOffer(o) then Fail(err, "offer is NULL", o)
    else if !checkOk then Fail(err, "offer check fail", o)
    else if found.None? then Fail(err, "Transaction not found", o)
    else
      var (tx, chain) := found.value;
      var c := CheckTx(p, o, tx, prev, err);
      CheckTxAcceptsAcceptable(p, o, tx, prev, err);
      if !c.ok then c
      else if chain.blockHash == NullHash then Fail(err, "transaction in mempool, not in block", o)
      else if Confirmations(chain) < p.minTxHeight then Fail(err, "not enough transaction confirmations", o)
      else Checked(true, err)
  }

  /** A transaction outside the active chain counts -1 confirmations, so it
      passes only if the required height is -1 or less; one in the chain
      needs the tip to be `minTxHeight - 1` blocks past it. */
  lemma ConfirmationThreshold(p: Params, o: OfferInfo, tx: Tx, c: Chain, prev: PrevOuts, err: string)
    requires CheckOfferTx(p, o, true, Some((tx, c)), prev, err).ok
    ensures c.blockHash != NullHash
    ensures c.blockHeight.None? ==> p.minTxHeight <= -1
    ensures c.blockHeight.Some? ==> c.tipHeight - c.blockHeight.value + 1 >= p.minTxHeight
  {
  }

  /** `CheckBRCSTOfferTx`: a broadcast transaction must be the offer's own,
      no larger than `MAX_TRANSACTION_SIZE`, and pass `CheckTx` as written. */
  function CheckBRCSTOfferTx(p: Params, o: OfferInfo, tx: Tx, prev: PrevOuts, err: string): (r: Checked)
    ensures Extends(err, r)
    ensures r.ok <==> o.idTransaction == tx.hash && tx.size <= p.maxTxSize && AcceptableAsWritten(p, o, tx, prev)
    ensures tx.size > p.maxTxSize && o.idTransaction == tx.hash
      ==> r.err == err + Msg("transaction too large", tx.text)
  {
    if o.idTransaction != tx.hash then Fail(err, "transactions not equal", o)
    else if tx.size > p.maxTxSize then Checked(false, err + Msg("transaction too large", tx.text))
    else CheckTxAsWritten(p, o, tx, prev, err)
  }

  /** `CheckBRCSTOfferTx` with the intended `CheckTx`. */
  function CheckBRCSTOfferTxIntended(p: Params, o: OfferInfo, tx: Tx, prev: PrevOuts, err: string): (r: Checked)
    ensures Reports(err, r)
    ensures r.ok <==> o.idTransaction == tx.hash && tx.size <= p.maxTxSize && Acceptable(p, o, tx, prev)
  {
    CheckTxAcceptsAcceptable(p, o, tx, prev, err);
    if o.idTransaction != tx.hash then Fail(err, "transactions not equal", o)
    else if tx.size > p.maxTxSize then Checked(false, err + Msg("transaction too large", tx.text))
    else CheckTx(p, o, tx, prev, err)
  }

  /** Everything the intended check accepts, the check as written accepts
      too, with the same error text; the converse fails (see the two
      counterexamples above). */
  lemma IntendedAcceptedAsWritten(p: Params, o: OfferInfo, checkOk: bool, found: Option<(Tx, Chain)>, prev: PrevOuts, err: string)
    ensures CheckOfferTxIntended(p, o, checkOk, found, prev, err).ok ==>
      CheckOfferTx(p, o, checkOk, found, prev, err) == CheckOfferTxIntended(p, o, checkOk, found, prev, err)
  {
    if found.Some? && Acceptable(p, o, found.value.0, prev) {
      AsWrittenAgreesWhenWellFormed(p, o, found.value.0, prev, err);
    }
  }

  // ---------------------------------------------------------------------
  // Paying and signing

  datatype Paid = Paid(ok: bool, txid: Hash, offer: OfferInfo, payTx: Option<Tx>, err: string)

  /** `PayForOffer`. `created` is `CreatePayOfferTransaction`'s outcome: the
      transaction, or the message that function appends itself. */
  function PayForOffer(o: OfferInfo, txid: Hash, created: Result<Tx, string>, err: string): (r: Paid)
    ensures r.ok <==> !IsNullOffer(o) && o.idTransaction == NullHash && created.Ok?
    ensures r.ok ==> r.txid == r.offer.idTransaction == created.value.hash && r.payTx == Some(created.value)
    ensures r.ok ==> r.offer == o.(idTransaction := created.value.hash) && r.err == err
    ensures !r.ok ==> r.txid == txid && r.offer == o && |r.err| > |err| && r.err[..|err|] == err
  {
    if IsNullOffer(o) then Paid(false, txid, o, None, Fail(err, "Offer is empty", o).err)
    else if o.idTransaction != NullHash then Paid(false, txid, o, None, Fail(err, "The offer has already been paid", o).err)
    else match created
      case Err(m) =>
        var e := Fail(err + m, "", o).err;
        assert e[..|err|] == (err + m)[..|err|];
        Paid(false, txid, o, None, e)
      case Ok(tx) => Paid(true, tx.hash, o.(idTransaction := tx.hash), Some(tx), err)
  }

  datatype Signed = Signed(ok: bool, sig: seq<bv8>, err: string)

  /** `SignOffer`. The signature is cleared first, so every failure leaves
      it empty. `sign` is what `CKey::Sign` produces for the offer hash. */
  function SignOffer(walletEnabled: bool, o: OfferInfo, sign: Option<seq<bv8>>, err: string): (r: Signed)
    ensures !r.ok ==> r.sig == []
    ensures r.ok <==> walletEnabled && !IsNullOffer(o) && sign.Some?
    ensures r.ok ==> r.sig == sign.value && r.err == err
    ensures !walletEnabled ==> r.err == "wallet not enabled"
    ensures walletEnabled && !r.ok ==> |r.err| > |err| && r.err[..|err|] == err
  {
    if !walletEnabled then Signed(false, [], "wallet not enabled")
    else if IsNullOffer(o) then Signed(false, [], Fail(err, "Offer is empty", o).err)
    else match sign
      case None => Signed(false, [], Fail(err, "Sign operation error", o).err)
      case Some(sg) => Signed(true, sg, err)
  }

  /** `CheckOfferSign`: a non-empty signature under a fully valid key that
      verifies against the offer hash. */
  function CheckOfferSign(o: OfferInfo, sig: seq<bv8>, keyValid: bool, verifies: bool, err: string): (r: Checked)
    ensures Reports(err, r)
    ensures r.ok <==> !IsNullOffer(o) && |sig| > 0 && keyValid && verifies
  {
    if IsNullOffer(o) then Fail(err, "Offer is empty", o)
    else if |sig| == 0 then Fail(err, "Offer sign is empty", o)
    else if !keyValid then Fail(err, "Invalid public key", o)
    else if !verifies then Fail(err, "Invalid offer sign", o)
    else Checked(true, err)
  }
}
