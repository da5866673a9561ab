/** The `mnbudget` and `mnfinalbudget` remote-procedure calls: the command
    whitelists, the parameter checks of `prepare` and `submit` against the
    budget payment cycle, vote parsing, the vote-many tally, the `show`
    filter and the `projection` running total.

    The chain tip height, the payment cycle length and everything the
    wallet, the masternode list and the budget manager decide are inputs.
    A command either throws (`Thrown`), answers with a plain text
    (`Returned`), or gets past its checks (`Proceed`). */
module BudgetRpc {
  import opened Common

  datatype Reply<+T> = Thrown(msg: string) | Returned(text: string) | Proceed(value: T)

  const BudgetCommands: set<string> :=
    {"vote-many", "prepare", "submit", "vote", "getvotes", "getinfo", "show", "projection", "check"}

  const FinalBudgetCommands: set<string> := {"suggest", "vote-many", "vote", "show"}

  /** Stands for the message json_spirit throws when a parameter has the
      wrong type (`get_str` on a number, `get_int` on a string); its wording
      is not modelled. */
  const TypeMismatch: string := "json_spirit type mismatch"

  /** Stand for the help texts thrown on an unknown command. */
  const BudgetHelp: string := "mnbudget \"command\"..."
  const FinalBudgetHelp: string := "mnfinalbudget \"command\"..."

  /** The command word: the first parameter, or "" when there is none. */
  function CommandWord(params: seq<Json>): (r: Result<string, string>)
    ensures |params| == 0 ==> r == Ok("")
    ensures |params| >= 1 ==> (r.Ok? <==> params[0].JStr?)
    ensures r.Ok? && |params| >= 1 ==> r.value == params[0].str
  {
    if |params| == 0 then Ok("")
    else if params[0].JStr? then Ok(params[0].str)
    else Err(TypeMismatch)
  }

  /** The `mnbudget` whitelist: a command runs only if it is one of nine
      words; in particular "vote-alias", though listed in the help text, is
      refused. */
  function BudgetCommand(params: seq<Json>): (r: Result<string, string>)
    ensures r.Ok? <==> |params| >= 1 && params[0].JStr? && params[0].str in BudgetCommands
    ensures r.Ok? ==> r.value == params[0].str
    ensures |params| >= 1 && params[0] == JStr("vote-alias") ==> r == Err(BudgetHelp)
  {
    match CommandWord(params)
    case Err(e) => Err(e)
    case Ok(c) => if c in BudgetCommands then Ok(c) else Err(BudgetHelp)
  }

  /** The `mnfinalbudget` whitelist. */
  function FinalBudgetCommand(params: seq<Json>): (r: Result<string, string>)
    ensures r.Ok? <==> |params| >= 1 && params[0].JStr? && params[0].str in FinalBudgetCommands
    ensures r.Ok? ==> r.value == params[0].str
  {
    match CommandWord(params)
    case Err(e) => Err(e)
    case Ok(c) => if c in FinalBudgetCommands then Ok(c) else Err(FinalBudgetHelp)
  }

  // ---------------------------------------------------------------------
  // prepare and submit

  /** What `prepare` and `submit` read from their parameters. */
  datatype Proposal = Proposal(name: string, url: string, paymentCount: int, blockStart: int, blockEnd: int)

  const PrepareUsage: string :=
    "Correct usage is 'mnbudget prepare proposal-name url payment_count block_start dash_address monthly_payment_dash [use_ix(true|false)]'"
  const SubmitUsage: string :=
    "Correct usage is 'mnbudget submit proposal-name url payment_count block_start dash_address monthly_payment_dash fee_tx'"
  const NameTooLong: string := "Invalid proposal name, limit of 20 characters."
  const UrlTooLong: string := "Invalid url, limit of 64 characters."
  const BadPaymentCount: string := "Invalid payment count, must be more than zero."
  const StartTooLow: string := "Invalid block start, must be more than current height."
  /** `submit` reports a too-low start with the payment-count wording. */
  const SubmitStartTooLow: string := "Invalid payment count, must be more than current height."
  const EndTooLow: string := "Invalid ending block, starting block + (payment_cycle*payments) must be more than current height."

  /** The first budget cycle block after height `h`. */
  function NextCycleBlock(h: nat, cycle: int): (n: int)
    requires cycle > 0
    ensures n % cycle == 0
    ensures h < n <= h + cycle
  {
    DivModUnique(h - h % cycle + cycle, cycle, h / cycle + 1, 0);
    h - h % cycle + cycle
  }

  /** The suggestion is the least cycle block above `h`. */
  lemma NextCycleBlockLeast(h: nat, cycle: int, m: int)
    requires cycle > 0 && m % cycle == 0 && m > h
    ensures NextCycleBlock(h, cycle) <= m
  {
    var k, q := m / cycle, h / cycle;
    assert m == k * cycle;
    if k <= q {
      MulLe(k, q, cycle);
    }
    MulLe(q + 1, k, cycle);
  }

  lemma MulGe(x: int, c: int)
    requires x >= 1 && c > 0
    ensures x * c >= c
  {
  }

  lemma MulLe(a: int, b: int, c: int)
    requires a <= b && c > 0
    ensures a * c <= b * c
  {
  }

  /** Quotient and remainder are the only ones with `0 <= r < c`. */
  lemma DivModUnique(a: int, c: int, q: int, r: int)
    requires c > 0 && 0 <= r < c && a == q * c + r
    ensures a / c == q && a % c == r
  {
    var q', r' := a / c, a % c;
    assert (q - q') * c == r' - r;
    if q > q' {
      MulGe(q - q', c);
    } else if q < q' {
      MulGe(q' - q, c);
    }
  }

  function CycleMessage(h: nat, cycle: int): string
    requires cycle > 0
  {
    "Invalid block start - must be a budget cycle block. Next valid block: " + NatToDecimal(NextCycleBlock(h, cycle))
  }

  /** The earliest start block `prepare` and `submit` allow. */
  function BlockMin(h: nat, cycle: int, count: int): int
  {
    h - cycle * (count + 1)
  }

  /** The checks shared by `prepare` (7 or 8 parameters) and `submit`
      (exactly 8), at tip height `h` with payment cycle `cycle`. */
  function CheckProposal(submit: bool, params: seq<Json>, h: nat, cycle: int): (r: Reply<Proposal>)
    requires cycle > 0
  {
    if (if submit then |params| != 8 else |params| != 7 && |params| != 8) then
      Thrown(if submit then SubmitUsage else PrepareUsage)
    else if !params[1].JStr? then Thrown(TypeMismatch)
    else if Utf8Length(params[1].str) > 20 then Returned(NameTooLong)
    else if !params[2].JStr? then Thrown(TypeMismatch)
    else if Utf8Length(params[2].str) > 64 then Returned(UrlTooLong)
    else if !params[3].JInt? then Thrown(TypeMismatch)
    else
      var count := params[3].num;
      if count < 1 then Returned(BadPaymentCount)
      else if !params[4].JInt? then Thrown(TypeMismatch)
      else
        var start := params[4].num;
        if start % cycle != 0 then Returned(CycleMessage(h, cycle))
        else
          var end := start + cycle * count;
          if start < BlockMin(h, cycle, count) then Returned(if submit then SubmitStartTooLow else StartTooLow)
          else if end < h then Returned(EndTooLow)
          else Proceed(Proposal(params[1].str, params[2].str, count, start, end))
  }

  /** The parameters are well typed where a proposal is read from them. */
  predicate WellTyped(params: seq<Json>)
  {
    |params| >= 5 && params[1].JStr? && params[2].JStr? && params[3].JInt? && params[4].JInt?
  }

  /** A proposal gets past the checks exactly when its name takes at most
      20 bytes in UTF-8, its URL at most 64, it pays at least once, it starts on a
      cycle block no earlier than `count + 1` cycles before the tip, and its
      last payment block is not below the tip. */
  lemma CheckProposalAccepts(submit: bool, params: seq<Json>, h: nat, cycle: int)
    requires cycle > 0
    requires if submit then |params| == 8 else |params| == 7 || |params| == 8
    requires WellTyped(params)
    ensures var name, url, count, start := params[1].str, params[2].str, params[3].num, params[4].num;
      CheckProposal(submit, params, h, cycle).Proceed? <==>
        && Utf8Length(name) <= 20 && Utf8Length(url) <= 64 && count >= 1
        && start % cycle == 0
        && start >= h - cycle * (count + 1)
        && start + cycle * count >= h
    ensures CheckProposal(submit, params, h, cycle).Proceed? ==>
      var p := CheckProposal(submit, params, h, cycle).value;
      && p.name == params[1].str && p.url == params[2].str && p.paymentCount == params[3].num
      && p.blockStart == params[4].num && p.blockEnd == p.blockStart + cycle * p.paymentCount
  {
  }

  /** A name of eleven Cyrillic letters is eleven characters but 22 bytes,
      so `prepare` refuses it as longer than 20. */
  lemma ElevenCyrillicLettersTooLong(h: nat, cycle: int)
    requires cycle > 0
    ensures var name := "\U{43f}\U{440}\U{43e}\U{435}\U{43a}\U{442}\U{431}\U{44e}\U{434}\U{436}\U{435}";
      && |name| == 11
      && CheckProposal(false, [JStr("prepare"), JStr(name), JStr(""), JInt(1), JInt(0), JStr(""), JStr("")], h, cycle) == Returned(NameTooLong)
  {
    var name := "\U{43f}\U{440}\U{43e}\U{435}\U{43a}\U{442}\U{431}\U{44e}\U{434}\U{436}\U{435}";
    assert forall i :: 0 <= i < |name| ==> Utf8Width(name[i]) == 2;
    Utf8AllTwoBytes(name);
  }

  /** A text of two-byte characters takes twice its length in bytes. */
  lemma {:induction false} Utf8AllTwoBytes(s: string)
    requires forall i :: 0 <= i < |s| ==> Utf8Width(s[i]) == 2
    ensures Utf8Length(s) == 2 * |s|
  {
    if |s| > 0 {
      assert forall i :: 0 <= i < |s| - 1 ==> s[1..][i] == s[i + 1];
      Utf8AllTwoBytes(s[1..]);
    }
  }

  /** An accepted proposal's payment window starts and ends on cycle
      blocks, is not empty, reaches the tip, and starts at most
      `count + 1` cycles before it. */
  lemma AcceptedWindow(submit: bool, params: seq<Json>, h: nat, cycle: int)
    requires cycle > 0
    requires CheckProposal(submit, params, h, cycle).Proceed?
    ensures var p := CheckProposal(submit, params, h, cycle).value;
      && p.paymentCount >= 1
      && p.blockStart % cycle == 0 && p.blockEnd % cycle == 0
      && p.blockStart < p.blockEnd
      && h <= p.blockEnd
      && h - cycle * (p.paymentCount + 1) <= p.blockStart
  {
    var p := CheckProposal(submit, params, h, cycle).value;
    MulGe(p.paymentCount, cycle);
    assert p.blockEnd == p.blockStart + cycle * p.paymentCount;
    assert (p.blockStart + cycle * p.paymentCount) % cycle == p.blockStart % cycle by {
      ModAddMultiple(p.blockStart, p.paymentCount, cycle);
    }
  }

  lemma ModAddMultiple(a: int, k: int, c: int)
    requires c > 0
    ensures (a + c * k) % c == a % c
  {
    assert a + c * k == (a / c + k) * c + a % c;
    DivModUnique(a + c * k, c, a / c + k, a % c);
  }

  /** `prepare` and `submit` judge the same eight parameters alike, except
      that `submit` words a too-low start block differently. */
  lemma PrepareSubmitAgree(params: seq<Json>, h: nat, cycle: int)
    requires cycle > 0 && |params| == 8
    ensures CheckProposal(false, params, h, cycle).Proceed? <==> CheckProposal(true, params, h, cycle).Proceed?
    ensures CheckProposal(true, params, h, cycle).Proceed? ==>
      CheckProposal(false, params, h, cycle) == CheckProposal(true, params, h, cycle)
    ensures CheckProposal(false, params, h, cycle) != CheckProposal(true, params, h, cycle) ==>
      CheckProposal(false, params, h, cycle) == Returned(StartTooLow) && CheckProposal(true, params, h, cycle) == Returned(SubmitStartTooLow)
  {
  }

  /** The optional eighth `prepare` parameter: the literal "true" or
      "false"; without it, InstantSend is used. */
  function UseIx(params: seq<Json>): (r: Reply<bool>)
    ensures |params| <= 7 ==> r == Proceed(true)
    ensures |params| > 7 && params[7].JStr? ==>
      (r.Proceed? <==> params[7].str in {"true", "false"}) && (r.Proceed? ==> (r.value <==> params[7].str == "true"))
    ensures |params| > 7 && !params[7].JStr? ==> r.Thrown?
  {
    if |params| <= 7 then Proceed(true)
    else if !params[7].JStr? then Thrown(TypeMismatch)
    else if params[7].str != "false" && params[7].str != "true" then Returned("Invalid use_ix, must be true or false")
    else Proceed(params[7].str == "true")
  }

  /** What the wallet and the budget manager say about a proposal. */
  datatype Outside = Outside(addressValid: bool, amountValid: bool, proposalHash: Hash, validError: Option<string>, collateralError: Option<string>)

  /** `mnbudget prepare`: the parameter checks, then the address, amount
      and proposal validity, then `use_ix`. Proceeding means the collateral
      transaction is created with the returned InstantSend choice. */
  function Prepare(params: seq<Json>, h: nat, cycle: int, o: Outside): (r: Reply<(Proposal, bool)>)
    requires cycle > 0
    ensures r.Proceed? ==> CheckProposal(false, params, h, cycle) == Proceed(r.value.0) && UseIx(params) == Proceed(r.value.1)
    ensures r.Proceed? <==>
      CheckProposal(false, params, h, cycle).Proceed? && o.addressValid && o.amountValid && o.validError.None? && UseIx(params).Proceed?
    ensures CheckProposal(false, params, h, cycle).Thrown? ==> r == Thrown(CheckProposal(false, params, h, cycle).msg)
    ensures CheckProposal(false, params, h, cycle).Returned? ==> r == Returned(CheckProposal(false, params, h, cycle).text)
    ensures CheckProposal(false, params, h, cycle).Proceed? && !o.addressValid ==> r == Thrown("Invalid Dash address")
    ensures CheckProposal(false, params, h, cycle).Proceed? && o.addressValid && !o.amountValid ==> r == Thrown("Invalid amount")
    ensures CheckProposal(false, params, h, cycle).Proceed? && o.addressValid && o.amountValid && o.validError.Some? ==>
      r.Returned? && |r.text| > |o.validError.value|
  {
    match CheckProposal(false, params, h, cycle)
    case Thrown(m) => Thrown(m)
    case Returned(t) => Returned(t)
    case Proceed(p) =>
      if !o.addressValid then Thrown("Invalid Dash address")
      else if !o.amountValid then Thrown("Invalid amount")
      else if o.validError.Some? then Returned("Proposal is not valid - " + ToHex(o.proposalHash, 64) + " - " + o.validError.value)
      else match UseIx(params)
        case Thrown(m) => Thrown(m)
        case Returned(t) => Returned(t)
        case Proceed(ix) => Proceed((p, ix))
  }

  /** `IsHex`: a non-empty, even-length run of hexadecimal digits. */
  predicate IsHexString(s: string)
  {
    |s| > 0 && |s| % 2 == 0 && forall i :: 0 <= i < |s| ==> IsHexDigit(s[i])
  }

  /** `ParseHashV`: refuses what is not a hexadecimal string. */
  function ParseHashV(v: Json, name: string): (r: Result<Hash, string>)
    ensures r.Ok? <==> v.JStr? && IsHexString(v.str)
    ensures r.Ok? ==> r.value == ParseHash(v.str)
  {
    if !v.JStr? then Err(TypeMismatch)
    else if !IsHexString(v.str) then Err(name + " must be hexadecimal string (not '" + v.str + "')")
    else Ok(ParseHash(v.str))
  }

  /** `mnbudget submit`: the parameter checks, the address and amount, the
      fee transaction hash, then the collateral and proposal validity.
      Proceeding means the proposal is relayed and added; the answer is its
      hash. */
  function Submit(params: seq<Json>, h: nat, cycle: int, o: Outside): (r: Reply<(Proposal, Hash)>)
    requires cycle > 0
    ensures r.Proceed? ==> CheckProposal(true, params, h, cycle) == Proceed(r.value.0)
    ensures r.Proceed? ==> ParseHashV(params[7], "parameter 1") == Ok(r.value.1)
    ensures r.Proceed? ==> o.addressValid && o.amountValid && o.collateralError.None? && o.validError.None?
    ensures r.Proceed? <==>
      && CheckProposal(true, params, h, cycle).Proceed? && o.addressValid && o.amountValid
      && ParseHashV(params[7], "parameter 1").Ok? && o.collateralError.None? && o.validError.None?
    ensures CheckProposal(true, params, h, cycle).Thrown? ==> r == Thrown(CheckProposal(true, params, h, cycle).msg)
    ensures CheckProposal(true, params, h, cycle).Returned? ==> r == Returned(CheckProposal(true, params, h, cycle).text)
    ensures CheckProposal(true, params, h, cycle).Proceed? && !o.addressValid ==> r == Thrown("Invalid Dash address")
    ensures CheckProposal(true, params, h, cycle).Proceed? && o.addressValid && !o.amountValid ==> r == Thrown("Invalid amount")
    ensures (CheckProposal(true, params, h, cycle).Proceed? && o.addressValid && o.amountValid
             && ParseHashV(params[7], "parameter 1").Ok? && o.collateralError.Some?)
      ==> r.Returned? && |r.text| > |o.collateralError.value|
  {
    match CheckProposal(true, params, h, cycle)
    case Thrown(m) => Thrown(m)
    case Returned(t) => Returned(t)
    case Proceed(p) =>
      if !o.addressValid then Thrown("Invalid Dash address")
      else if !o.amountValid then Thrown("Invalid amount")
      else match ParseHashV(params[7], "parameter 1")
        case Err(e) => Thrown(e)
        case Ok(fee) =>
          if o.collateralError.Some? then Returned("Proposal FeeTX is not valid - " + ToHex(fee, 64) + " - " + o.collateralError.value)
          else if o.validError.Some? then Returned("Proposal is not valid - " + ToHex(o.proposalHash, 64) + " - " + o.validError.value)
          else Proceed((p, fee))
  }

  // ---------------------------------------------------------------------
  // Votes

  datatype Vote = Yes | No

  /** Only "yes" and "no" are votes; the abstain default is never used. */
  function ParseVote(s: string): (r: Option<Vote>)
    ensures r.Some? <==> s == "yes" || s == "no"
    ensures r == Some(Yes) <==> s == "yes"
  {
    if s == "yes" then Some(Yes) else if s == "no" then Some(No) else None
  }

  const OnlyYesNo: string := "You can only vote 'yes' or 'no'"

  /** How one masternode of the configuration fares in a vote-many. */
  datatype Attempt =
    | KeyFailed(message: string)
    | NoMasternode
    | SignFailed
    | Rejected(error: string)
    | Accepted

  datatype Entry = Entry(alias: string, attempt: Attempt)

  /** The per-masternode detail of a vote-many answer. */
  datatype Detail = Detail(alias: string, result: string, errorMessage: Option<string>)

  function DetailOf(e: Entry): (d: Detail)
    ensures d.alias == e.alias
    ensures d.result == "success" <==> e.attempt.Accepted? || e.attempt == Rejected("success")
  {
    match e.attempt
    case KeyFailed(m) => Detail(e.alias, "failed", Some("Masternode signing error, could not set key correctly: " + m))
    case NoMasternode => Detail(e.alias, "failed", Some("Can't find masternode by pubkey"))
    case SignFailed => Detail(e.alias, "failed", Some("Failure to sign."))
    case Rejected(err) => Detail(e.alias, err, None)
    case Accepted => Detail(e.alias, "success", None)
  }

  function CountAccepted(es: seq<Entry>): (n: nat)
    ensures n <= |es|
  {
    if |es| == 0 then 0 else CountAccepted(es[..|es| - 1]) + (if es[|es| - 1].attempt.Accepted? then 1 else 0)
  }

  datatype Tally = Tally(success: nat, failed: nat, details: seq<Detail>)

  function Overall(t: Tally): string
  {
    "Voted successfully " + NatToDecimal(t.success) + " time(s) and failed " + NatToDecimal(t.failed) + " time(s)."
  }

  /** The vote-many loop of `mnbudget` and `mnfinalbudget`: every
      configured masternode counts once, as a success exactly when the
      budget manager took its vote, and gets one detail line. */
  method VoteMany(es: seq<Entry>) returns (t: Tally)
    ensures t.success + t.failed == |es|
    ensures t.success == CountAccepted(es)
    ensures |t.details| == |es|
    ensures forall k :: 0 <= k < |es| ==> t.details[k] == DetailOf(es[k])
  {
    var success, failed := 0, 0;
    var details: seq<Detail> := [];
    var k := 0;
    while k < |es|
      invariant 0 <= k <= |es|
      invariant success + failed == k
      invariant success == CountAccepted(es[..k])
      invariant |details| == k
      invariant forall j :: 0 <= j < k ==> details[j] == DetailOf(es[j])
    {
      assert es[..k + 1][..k] == es[..k];
      if es[k].attempt.Accepted? {
        success := success + 1;
      } else {
        failed := failed + 1;
      }
      details := details + [DetailOf(es[k])];
      k := k + 1;
    }
    assert es[..k] == es;
    t := Tally(success, failed, details);
  }

  /** The tally splits the configuration: failures are exactly the
      attempts the budget manager did not take. */
  lemma {:induction false} TallySplits(es: seq<Entry>)
    ensures CountAccepted(es) + CountRefused(es) == |es|
    ensures CountAccepted(es) == |es| <==> forall k :: 0 <= k < |es| ==> es[k].attempt.Accepted?
  {
    if |es| > 0 {
      var init := es[..|es| - 1];
      TallySplits(init);
      assert forall k :: 0 <= k < |init| ==> init[k] == es[k];
    }
  }

  function CountRefused(es: seq<Entry>): nat
  {
    if |es| == 0 then 0 else CountRefused(es[..|es| - 1]) + (if es[|es| - 1].attempt.Accepted? then 0 else 1)
  }

  /** `mnbudget vote-many`: three parameters, a hexadecimal proposal hash
      and a yes/no vote, then the tally. */
  method BudgetVoteMany(params: seq<Json>, es: seq<Entry>) returns (r: Reply<(Hash, Vote, Tally)>)
    ensures r.Proceed? <==> |params| == 3 && ParseHashV(params[1], "parameter 1").Ok?
                            && params[2].JStr? && ParseVote(params[2].str).Some?
    ensures r.Proceed? ==> r.value.0 == ParseHash(params[1].str) && Some(r.value.1) == ParseVote(params[2].str)
    ensures r.Proceed? ==> r.value.2.success + r.value.2.failed == |es| && r.value.2.success == CountAccepted(es)
    ensures |params| == 3 && ParseHashV(params[1], "parameter 1").Ok? && params[2].JStr? && ParseVote(params[2].str).None?
      ==> r == Returned(OnlyYesNo)
  {
    if |params| != 3 {
      return Thrown("Correct usage is 'mnbudget vote-many proposal-hash yes|no'");
    }
    match ParseHashV(params[1], "parameter 1")
    case Err(e) => return Thrown(e);
    case Ok(h) =>
      if !params[2].JStr? {
        return Thrown(TypeMismatch);
      }
      match ParseVote(params[2].str)
      case None => return Returned(OnlyYesNo);
      case Some(v) =>
        var t := VoteMany(es);
        return Proceed((h, v, t));
  }

  /** `mnfinalbudget vote-many`: two parameters; the budget hash is read
      with `uint256`'s string constructor, which accepts any text. */
  method FinalBudgetVoteMany(params: seq<Json>, es: seq<Entry>) returns (r: Reply<(Hash, Tally)>)
    ensures r.Proceed? <==> |params| == 2 && params[1].JStr?
    ensures r.Proceed? ==> r.value.0 == ParseHash(params[1].str)
    ensures r.Proceed? ==> r.value.1.success + r.value.1.failed == |es| && r.value.1.success == CountAccepted(es)
  {
    if |params| != 2 {
      return Thrown("Correct usage is 'mnfinalbudget vote-many BUDGET_HASH'");
    }
    if !params[1].JStr? {
      return Thrown(TypeMismatch);
    }
    var t := VoteMany(es);
    return Proceed((ParseHash(params[1].str), t));
  }

  /** The answer to a single vote of this node's own masternode once the
      hash and vote are read: `success` is "Voted successfully" for
      `mnbudget vote` and "success" for `mnfinalbudget vote`. */
  function SingleVote(keyOk: bool, signOk: bool, updateError: Option<string>, success: string): (r: string)
    requires success == "Voted successfully" || success == "success"
    ensures r == success <==> keyOk && signOk && updateError.None?
    ensures keyOk && signOk && updateError.Some? ==> r == "Error voting : " + updateError.value
  {
    if !keyOk then "Error upon calling SetKey"
    else if !signOk then "Failure to sign."
    else match updateError
      case Some(e) =>
        var r := "Error voting : " + e;
        assert r[0] != success[0];
        r
      case None => success
  }

  /** `mnbudget vote`: three parameters, a hexadecimal proposal hash and a
      yes/no vote. */
  function BudgetVote(params: seq<Json>, keyOk: bool, signOk: bool, updateError: Option<string>): (r: Reply<string>)
    ensures r.Proceed? <==> |params| == 3 && ParseHashV(params[1], "parameter 1").Ok?
                            && params[2].JStr? && ParseVote(params[2].str).Some?
    ensures r == Proceed("Voted successfully") <==> r.Proceed? && keyOk && signOk && updateError.None?
  {
    if |params| != 3 then Thrown("Correct usage is 'mnbudget vote proposal-hash yes|no'")
    else match ParseHashV(params[1], "parameter 1")
      case Err(e) => Thrown(e)
      case Ok(_) =>
        if !params[2].JStr? then Thrown(TypeMismatch)
        else if ParseVote(params[2].str).None? then Returned(OnlyYesNo)
        else Proceed(SingleVote(keyOk, signOk, updateError, "Voted successfully"))
  }

  /** `mnfinalbudget vote`: two parameters, any text read as the budget hash. */
  function FinalBudgetVote(params: seq<Json>, keyOk: bool, signOk: bool, updateError: Option<string>): (r: Reply<string>)
    ensures r.Proceed? <==> |params| == 2 && params[1].JStr?
    ensures r == Proceed("success") <==> r.Proceed? && keyOk && signOk && updateError.None?
  {
    if |params| != 2 then Thrown("Correct usage is 'mnfinalbudget vote BUDGET_HASH'")
    else if !params[1].JStr? then Thrown(TypeMismatch)
    else Proceed(SingleVote(keyOk, signOk, updateError, "success"))
  }

  // ---------------------------------------------------------------------
  // show and projection

  /** A budget proposal as `show` and `projection` list it. */
  datatype BudgetProposal = BudgetProposal(name: string, valid: bool, allotted: int)

  function ValidOnly(ps: seq<BudgetProposal>): (r: seq<BudgetProposal>)
    ensures forall k :: 0 <= k < |r| ==> r[k].valid
    ensures forall p :: p in r <==> p in ps && p.valid
    ensures |r| <= |ps|
  {
    if |ps| == 0 then []
    else ValidOnly(ps[..|ps| - 1]) + (if ps[|ps| - 1].valid then [ps[|ps| - 1]] else [])
  }

  /** `mnbudget show` as written: the optional argument is read into a new
      local variable that hides nothing and is never used, so the filter
      word stays "valid". */
  function ShowAsWritten(params: seq<Json>, ps: seq<BudgetProposal>): (r: Result<seq<BudgetProposal>, string>)
    ensures |params| == 2 && !params[1].JStr? ==> r == Err(TypeMismatch)
    ensures r.Ok? ==> r.value == ValidOnly(ps)
  {
    if |params| == 2 && !params[1].JStr? then Err(TypeMismatch)
    else
      var strShow := "valid";
      Ok(if strShow == "valid" then ValidOnly(ps) else ps)
  }

  /** `mnbudget show` as evidently intended: the argument replaces the
      "valid" filter word, and any other word lists every proposal. */
  function ShowIntended(params: seq<Json>, ps: seq<BudgetProposal>): (r: Result<seq<BudgetProposal>, string>)
    ensures |params| == 2 && !params[1].JStr? ==> r == Err(TypeMismatch)
    ensures r.Ok? && (|params| != 2 || params[1].str == "valid") ==> r.value == ValidOnly(ps)
    ensures r.Ok? && |params| == 2 && params[1].str != "valid" ==> r.value == ps
  {
    if |params| == 2 && !params[1].JStr? then Err(TypeMismatch)
    else
      var strShow := if |params| == 2 then params[1].str else "valid";
      Ok(if strShow == "valid" then ValidOnly(ps) else ps)
  }

  /** Asking `show` for every proposal still hides an invalid one. */
  lemma ShowAllHidesInvalid()
    ensures var ps := [BudgetProposal("p", false, 5)];
      && ShowAsWritten([JStr("show"), JStr("all")], ps) == Ok([])
      && ShowIntended([JStr("show"), JStr("all")], ps) == Ok(ps)
  {
    var ps := [BudgetProposal("p", false, 5)];
    assert ValidOnly(ps) == ValidOnly([]) + [];
  }

  /** Both readings agree whenever no filter word is given. */
  lemma ShowAgreesWithoutArgument(params: seq<Json>, ps: seq<BudgetProposal>)
    requires |params| != 2
    ensures ShowAsWritten(params, ps) == ShowIntended(params, ps)
  {
  }

  function SumAllotted(ps: seq<BudgetProposal>): int
  {
    if |ps| == 0 then 0 else SumAllotted(ps[..|ps| - 1]) + ps[|ps| - 1].allotted
  }

  /** `mnbudget projection`: each winning proposal with the running total
      `TotalBudgetAlloted` of the amounts allotted up to and including it. */
  method Projection(ps: seq<BudgetProposal>) returns (rows: seq<(BudgetProposal, int)>)
    ensures |rows| == |ps|
    ensures forall k :: 0 <= k < |ps| ==> rows[k] == (ps[k], SumAllotted(ps[..k + 1]))
  {
    var total := 0;
    rows := [];
    var k := 0;
    while k < |ps|
      invariant 0 <= k <= |ps|
      invariant total == SumAllotted(ps[..k])
      invariant |rows| == k
      invariant forall j :: 0 <= j < k ==> rows[j] == (ps[j], SumAllotted(ps[..j + 1]))
    {
      assert ps[..k + 1][..k] == ps[..k];
      total := total + ps[k].allotted;
      rows := rows + [(ps[k], total)];
      k := k + 1;
    }
  }

  /** With non-negative allotments the running total never falls and ends
      at the whole sum. */
  lemma {:induction false} ProjectionTotals(ps: seq<BudgetProposal>, i: nat, j: nat)
    requires i <= j <= |ps|
    requires forall k :: 0 <= k < |ps| ==> ps[k].allotted >= 0
    ensures SumAllotted(ps[..i]) <= SumAllotted(ps[..j])
    decreases j
  {
    if i < j {
      ProjectionTotals(ps, i, j - 1);
      assert ps[..j][..j - 1] == ps[..j - 1];
    }
  }

  // ---------------------------------------------------------------------
  // getinfo, getvotes, check, suggest

  /** `getinfo` and `getvotes`: exactly one proposal name, looked up with
      `find`. */
  function ByName<P>(params: seq<Json>, find: string -> Option<P>): (r: Reply<P>)
    ensures r.Proceed? <==> |params| == 2 && params[1].JStr? && find(params[1].str).Some?
    ensures r.Proceed? ==> find(params[1].str) == Some(r.value)
    ensures |params| == 2 && params[1].JStr? && find(params[1].str).None? ==> r == Returned("Unknown proposal name")
  {
    if |params| != 2 then Thrown("Correct usage is 'mnbudget getinfo profilename'")
    else if !params[1].JStr? then Thrown(TypeMismatch)
    else match find(params[1].str)
      case None => Returned("Unknown proposal name")
      case Some(p) => Proceed(p)
  }
}
