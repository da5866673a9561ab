/** The DEX remote-procedure calls: argument parsing of `dexoffers` and
    `dexmyoffers`, the buy/sell merge under a result limit, adding, editing,
    sending, deleting and fetching offers, and the `dexsync` and
    `dexsettings` keyword dispatch.

    Every call's outcome is a `Result`: `Err(m)` stands for the
    `runtime_error` the command throws with message `m`. Reference data
    (valid country and currency codes, payment methods, which codes the
    database enables, how a word reads as an offer status) is a `Catalog`.
    Wallet, key and network steps whose code is not shown are inputs: their
    outcome is passed in, and what the command asks of them is returned. */
module DexRpc {
  import opened Common
  import opened OfferStore
  import opened DexTx
  import opened DexSync

  /** `PaymentMethodInfo`: a name and its numeric type. */
  datatype PaymentMethod = PaymentMethod(name: string, code: int)

  datatype Catalog = Catalog(
    countries: set<string>,
    currencies: set<string>,
    methods: seq<PaymentMethod>,
    enabledCountries: set<string>,
    enabledCurrencies: set<string>,
    statusOf: string -> OfferStatus)

  /** Stands for the help text a command throws on a wrong argument count. */
  function Usage(command: string): string
  {
    command + " usage"
  }

  const NotEnoughParameters: string := "\nnot enough parameters\n"
  const WrongParameters: string := "\nwrong parameters\n"
  const CountryDisabled: string := "\nERROR: this country is disabled in DB\n"
  const CurrencyDisabled: string := "\nERROR: this currency is disabled in DB\n"
  const HashEmpty: string := "\nERROR: offer hash is empty"
  const HashError: string := "\nERROR: offer hash error\n"
  const NotFound: string := "\nERROR: offer not found in DB\n"
  const OperationFailed: string := "\nERROR: the operation failed"
  const Unchanged: string := "\nERROR: unchanged data doesn't match"

  function WrongParameter(p: string): string
  {
    "\nwrong parameter: " + p + "\n"
  }

  /** The message for an unknown word is never the one for a missing type. */
  lemma WrongParameterDiffers(p: string)
    ensures WrongParameter(p) != WrongParameters
  {
    assert WrongParameter(p)[16] == ':';
    assert WrongParameters[16] == 's';
  }

  /** The offer-type keywords. */
  const TypeWords: set<string> := {"buy", "sell", "all"}

  /** `std::stoi`: a number that does not fit a 32-bit `int` is refused as
      well (`std::out_of_range`). */
  function StoiInt(s: string): (r: Option<int>)
    ensures r.Some? ==> -0x8000_0000 <= r.value < 0x8000_0000
    ensures r.Some? ==> StoI(s) == r
  {
    match StoI(s)
    case None => None
    case Some(v) => if -0x8000_0000 <= v < 0x8000_0000 then Some(v) else None
  }

  /** The payment method whose name equals `lname` ignoring case; the loop
      does not stop at a match, so the last one wins. */
  function LastMatch(ms: seq<PaymentMethod>, lname: string): (r: Option<PaymentMethod>)
    ensures r.Some? ==> r.value in ms && ToLower(r.value.name) == lname
    ensures r.Some? ==> exists k :: 0 <= k < |ms| && ms[k] == r.value && forall j :: k < j < |ms| ==> ToLower(ms[j].name) != lname
    ensures r.None? <==> forall k :: 0 <= k < |ms| ==> ToLower(ms[k].name) != lname
  {
    if |ms| == 0 then None
    else if ToLower(ms[|ms| - 1].name) == lname then Some(ms[|ms| - 1])
    else
      var pre := ms[..|ms| - 1];
      var r := LastMatch(pre, lname);
      assert forall k :: 0 <= k < |pre| ==> pre[k] == ms[k];
      if r.Some? then
        var k :| 0 <= k < |pre| && pre[k] == r.value && forall j :: k < j < |pre| ==> ToLower(pre[j].name) != lname;
        assert forall j :: k < j < |ms| ==> ToLower(ms[j].name) != lname;
        r
      else r
  }

  // ---------------------------------------------------------------------
  // dexoffers

  datatype OffersQuery = OffersQuery(
    typeFilter: string,
    country: string,
    currency: string,
    payment: string,
    methodType: int,
    limit: int,
    offset: int)

  const NoFilter: OffersQuery := OffersQuery("", "", "", "", 0, 0, 0)

  /** One positional word of `dexoffers` that is neither `limit` nor
      `offset`: a country code only among the first two words, a currency
      code only among the first three, anything else must name a payment
      method. */
  function ClassifyOffersWord(p: string, i: nat, q: OffersQuery, cat: Catalog): (r: Result<OffersQuery, string>)
    ensures r.Ok? ==> r.value.typeFilter == q.typeFilter && r.value.limit == q.limit && r.value.offset == q.offset
    ensures r.Ok? && r.value.country != q.country ==> i < 2 && q.country == "" && r.value.country == p && p in cat.countries
    ensures r.Ok? && r.value.currency != q.currency ==> i < 3 && q.currency == "" && r.value.currency == p && p in cat.currencies
    ensures r.Err? <==> !(i < 2 && q.country == "" && p in cat.countries) && !(i < 3 && q.currency == "" && p in cat.currencies)
                        && LastMatch(cat.methods, ToLower(p)).None?
    ensures r.Err? ==> r.error == WrongParameter(p)
    ensures var isCountry := i < 2 && q.country == "" && p in cat.countries;
      var isCurrency := !isCountry && i < 3 && q.currency == "" && p in cat.currencies;
      && (isCountry ==> r.Ok? && r.value.country == p && r.value.currency == q.currency
                        && r.value.payment == q.payment && r.value.methodType == q.methodType)
      && (isCurrency ==> r.Ok? && r.value.currency == p && r.value.country == q.country
                         && r.value.payment == q.payment && r.value.methodType == q.methodType)
      && (!isCountry && !isCurrency && r.Ok? ==>
            && r.value.country == q.country && r.value.currency == q.currency
            && r.value.payment == LastMatch(cat.methods, ToLower(p)).value.name
            && r.value.methodType == LastMatch(cat.methods, ToLower(p)).value.code)
  {
    if i < 2 && q.country == "" && p in cat.countries then Ok(q.(country := p))
    else if i < 3 && q.currency == "" && p in cat.currencies then Ok(q.(currency := p))
    else match LastMatch(cat.methods, ToLower(p))
      case None => Err(WrongParameter(p))
      case Some(m) => Ok(q.(payment := m.name, methodType := m.code))
  }

  /** The argument loop of `dexoffers` from word `i` on. */
  function ParseOffersFrom(params: seq<string>, i: nat, q: OffersQuery, cat: Catalog): Result<OffersQuery, string>
    decreases |params| - i
  {
    if i >= |params| then Ok(q)
    else
      var p := params[i];
      if p == "limit" then
        if i == 0 || |params| <= i + 1 then Err(NotEnoughParameters)
        else match StoiInt(params[i + 1])
          case None => Err("stoi")
          case Some(v) => ParseOffersFrom(params, i + 2, q.(limit := v), cat)
      else if p == "offset" && q.limit > 0 then
        if i == 0 || |params| <= i + 1 then Err(NotEnoughParameters)
        else match StoiInt(params[i + 1])
          case None => Err("stoi")
          case Some(v) => Ok(q.(offset := v))
      else if i == 0 && q.typeFilter == "" && p in TypeWords then
        ParseOffersFrom(params, i + 1, q.(typeFilter := p), cat)
      else
        var q1 := if i == 0 && q.typeFilter == "" then q.(typeFilter := "all") else q;
        match ClassifyOffersWord(p, i, q1, cat)
        case Err(e) => Err(e)
        case Ok(q2) => ParseOffersFrom(params, i + 1, q2, cat)
  }

  /** `dexoffers` argument handling: 1 to 8 words, then the country and
      currency found must be enabled in the database. */
  function ParseDexOffers(params: seq<string>, cat: Catalog): (r: Result<OffersQuery, string>)
    ensures r.Ok? ==> 1 <= |params| <= 8
    ensures r.Ok? ==> r.value.country == "" || r.value.country in cat.enabledCountries
    ensures r.Ok? ==> r.value.currency == "" || r.value.currency in cat.enabledCurrencies
  {
    if |params| < 1 || |params| > 8 then Err(Usage("dexoffers"))
    else match ParseOffersFrom(params, 0, NoFilter, cat)
      case Err(e) => Err(e)
      case Ok(q) =>
        if q.typeFilter == "" then Err(WrongParameters)
        else if q.country != "" && q.country !in cat.enabledCountries then Err(CountryDisabled)
        else if q.currency != "" && q.currency !in cat.enabledCurrencies then Err(CurrencyDisabled)
        else Ok(q)
  }

  /** Past the first word the type is never touched again, an offset is only
      taken after a positive limit, and codes come only from early words. */
  lemma {:induction false} ParseOffersFromKeeps(params: seq<string>, i: nat, q: OffersQuery, cat: Catalog)
    requires i >= 1
    requires q.offset == 0
    ensures var r := ParseOffersFrom(params, i, q, cat);
      && r != Err(WrongParameters)
      && (r.Ok? ==> r.value.typeFilter == q.typeFilter)
      && (r.Ok? && r.value.offset != 0 ==> r.value.limit > 0)
      && (r.Ok? ==> r.value.country == q.country || exists j :: i <= j < 2 && j < |params| && params[j] == r.value.country && q.country == "")
      && (r.Ok? ==> r.value.currency == q.currency || exists j :: i <= j < 3 && j < |params| && params[j] == r.value.currency && q.currency == "")
    decreases |params| - i
  {
    if i < |params| {
      var p := params[i];
      if p == "limit" {
        if !(|params| <= i + 1) && StoiInt(params[i + 1]).Some? {
          var v := StoiInt(params[i + 1]).value;
          ParseOffersFromKeeps(params, i + 2, q.(limit := v), cat);
        }
      } else if p == "offset" && q.limit > 0 {
      } else {
        match ClassifyOffersWord(p, i, q, cat)
        case Err(e) => WrongParameterDiffers(p);
        case Ok(q2) => ParseOffersFromKeeps(params, i + 1, q2, cat);
      }
    }
  }

  /** `dexoffers` always has a type: the first word if it is a type
      keyword, "all" otherwise, so the "wrong parameters" error cannot
      happen. `limit` as the first word is refused. An offset is only
      recognised after a positive limit; a country code is taken only from
      the first two words and a currency code only from the first three. */
  lemma DexOffersParsing(params: seq<string>, cat: Catalog)
    requires 1 <= |params| <= 8
    ensures params[0] == "limit" ==> ParseDexOffers(params, cat) == Err(NotEnoughParameters)
    ensures ParseDexOffers(params, cat) != Err(WrongParameters)
    ensures var r := ParseDexOffers(params, cat);
      && (r.Ok? ==> r.value.typeFilter == (if params[0] in TypeWords then params[0] else "all"))
      && (r.Ok? && r.value.offset != 0 ==> r.value.limit > 0)
      && (r.Ok? && r.value.country != "" ==> exists j :: 0 <= j < 2 && j < |params| && params[j] == r.value.country)
      && (r.Ok? && r.value.currency != "" ==> exists j :: 0 <= j < 3 && j < |params| && params[j] == r.value.currency)
  {
    var p := params[0];
    var r0 := ParseOffersFrom(params, 0, NoFilter, cat);
    if p == "limit" {
    } else if p in TypeWords {
      ParseOffersFromKeeps(params, 1, NoFilter.(typeFilter := p), cat);
    } else {
      var q1 := NoFilter.(typeFilter := "all");
      match ClassifyOffersWord(p, 0, q1, cat)
      case Err(e) =>
        WrongParameterDiffers(p);
      case Ok(q2) => ParseOffersFromKeeps(params, 1, q2, cat);
    }
  }

  /** The buy rows `dexoffers` shows: all of them without a positive limit,
      at most `limit` otherwise. */
  function TakeUpTo(rows: seq<OfferInfo>, limit: int): (r: seq<OfferInfo>)
    ensures limit > 0 ==> |r| == (if |rows| < limit then |rows| else limit)
    ensures limit <= 0 ==> r == rows
    ensures r <= rows
  {
    if limit > 0 && |rows| > limit then rows[..limit] else rows
  }

  datatype Listing = Listing(result: seq<(OfferInfo, OfferKind)>, sellLimit: Option<int>)

  function Tagged(rows: seq<OfferInfo>, kind: OfferKind): (r: seq<(OfferInfo, OfferKind)>)
    ensures |r| == |rows| && forall k :: 0 <= k < |rows| ==> r[k] == (rows[k], kind)
  {
    seq(|rows|, k requires 0 <= k < |rows| => (rows[k], kind))
  }

  /** The end of `dexoffers`: limit 0 means `maxOutput()`; the buy rows
      `buyRows` the database returns are shown up to the limit; the sell
      table is queried for the rest of the limit only if the buy rows did
      not fill it, and its rows `sellRows` are shown as returned. */
  method MergeOffers(typeFilter: string, limit0: int, maxOutput: int, buyRows: seq<OfferInfo>, sellRows: seq<OfferInfo>)
    returns (l: Listing)
    ensures var limit := if limit0 == 0 then maxOutput else limit0;
      var buys := if typeFilter == "buy" || typeFilter == "all" then TakeUpTo(buyRows, limit) else [];
      var step := if limit > 0 then |buys| else 0;
      && (l.sellLimit.Some? <==> (typeFilter == "sell" || typeFilter == "all") && !(limit > 0 && step == limit))
      && (l.sellLimit.Some? ==> l.sellLimit.value == limit - step)
      && l.result == Tagged(buys, Buy) + (if l.sellLimit.Some? then Tagged(sellRows, Sell) else [])
  {
    var limit := limit0;
    if limit == 0 {
      limit := maxOutput;
    }
    var step := 0;
    var result: seq<(OfferInfo, OfferKind)> := [];
    ghost var buys: seq<OfferInfo> := [];
    if typeFilter == "buy" || typeFilter == "all" {
      var k := 0;
      while k < |buyRows|
        invariant 0 <= k <= |buyRows|
        invariant buys == buyRows[..k]
        invariant result == Tagged(buys, Buy)
        invariant step == (if limit > 0 then k else 0)
        invariant limit > 0 ==> step < limit || (step == limit && k == |buyRows|)
        invariant limit > 0 ==> k <= limit
      {
        result := result + [(buyRows[k], Buy)];
        buys := buyRows[..k + 1];
        k := k + 1;
        if limit > 0 {
          step := step + 1;
          if step == limit {
            break;
          }
        }
      }
      assert buys == TakeUpTo(buyRows, limit);
    }
    if (typeFilter == "sell" || typeFilter == "all") && !(limit > 0 && step == limit) {
      result := result + Tagged(sellRows, Sell);
      l := Listing(result, Some(limit - step));
    } else {
      l := Listing(result, None);
    }
  }

  /** If the database honours a positive sell limit, `dexoffers` never
      shows more offers than the limit. */
  lemma MergeWithinLimit(typeFilter: string, limit: int, buyRows: seq<OfferInfo>, sellRows: seq<OfferInfo>, l: Listing)
    requires limit > 0
    requires var buys := if typeFilter == "buy" || typeFilter == "all" then TakeUpTo(buyRows, limit) else [];
      var step := |buys|;
      && (l.sellLimit.Some? <==> (typeFilter == "sell" || typeFilter == "all") && step != limit)
      && (l.sellLimit.Some? ==> l.sellLimit.value == limit - step)
      && l.result == Tagged(buys, Buy) + (if l.sellLimit.Some? then Tagged(sellRows, Sell) else [])
    requires l.sellLimit.Some? ==> |sellRows| <= l.sellLimit.value
    ensures |l.result| <= limit
  {
  }

  // ---------------------------------------------------------------------
  // dexmyoffers

  datatype MyOffersQuery = MyOffersQuery(
    typeFilter: string,
    country: string,
    currency: string,
    payment: string,
    methodType: int,
    status: OfferStatus,
    limit: int,
    offset: int)

  const NoMyFilter: MyOffersQuery := MyOffersQuery("", "", "", "", 0, Indefined, 0, 0)

  /** `words[typefilter]`: buy 0, sell 1, all -1. */
  function TypeCode(t: string): (c: int)
    requires t in TypeWords
    ensures c == -1 <==> t == "all"
    ensures -1 <= c <= 1
  {
    if t == "buy" then 0 else if t == "sell" then 1 else -1
  }

  /** One word of `dexmyoffers` that is neither `limit` nor `offset`: a type
      keyword in any case, a country, a currency; failing those it may name
      a payment method and, in the same step, a status. No word is refused. */
  function ClassifyMyWord(p: string, q: MyOffersQuery, cat: Catalog): (r: MyOffersQuery)
    ensures r.limit == q.limit && r.offset == q.offset
    ensures r.typeFilter != q.typeFilter ==> q.typeFilter == "" && r.typeFilter == ToLower(p) && r.typeFilter in TypeWords
    ensures q.typeFilter == "" && ToLower(p) in TypeWords ==> r.typeFilter == ToLower(p)
    ensures var isType := q.typeFilter == "" && ToLower(p) in TypeWords;
      var isCountry := !isType && q.country == "" && p in cat.countries;
      var isCurrency := !isType && !isCountry && q.currency == "" && p in cat.currencies;
      var other := !isType && !isCountry && !isCurrency;
      var m := LastMatch(cat.methods, ToLower(p));
      && (r.country != q.country ==> isCountry && r.country == p)
      && (isCountry ==> r.country == p)
      && (r.currency != q.currency ==> isCurrency && r.currency == p)
      && (isCurrency ==> r.currency == p)
      && (other && q.payment == "" && m.Some? ==> r.payment == m.value.name && r.methodType == m.value.code)
      && (!(other && q.payment == "" && m.Some?) ==> r.payment == q.payment && r.methodType == q.methodType)
      && (other && q.status == Indefined && cat.statusOf(p) != Indefined ==> r.status == cat.statusOf(p))
      && (!(other && q.status == Indefined && cat.statusOf(p) != Indefined) ==> r.status == q.status)
  {
    if q.typeFilter == "" && ToLower(p) in TypeWords then q.(typeFilter := ToLower(p))
    else if q.country == "" && p in cat.countries then q.(country := p)
    else if q.currency == "" && p in cat.currencies then q.(currency := p)
    else
      var q1 := if q.payment == "" then
                  match LastMatch(cat.methods, ToLower(p))
                  case None => q
                  case Some(m) => q.(payment := m.name, methodType := m.code)
                else q;
      if q1.status == Indefined && cat.statusOf(p) != Indefined then q1.(status := cat.statusOf(p)) else q1
  }

  function ParseMyOffersFrom(params: seq<string>, i: nat, q: MyOffersQuery, cat: Catalog): (r: Result<MyOffersQuery, string>)
    ensures r.Ok? && (q.typeFilter == "" || q.typeFilter in TypeWords) ==> r.value.typeFilter == "" || r.value.typeFilter in TypeWords
    ensures r.Ok? && q.typeFilter != "" ==> r.value.typeFilter == q.typeFilter
    decreases |params| - i
  {
    if i >= |params| then Ok(q)
    else
      var p := params[i];
      if p == "limit" then
        if i == 0 || |params| <= i + 1 then Err(NotEnoughParameters)
        else match StoiInt(params[i + 1])
          case None => Err("stoi")
          case Some(v) => ParseMyOffersFrom(params, i + 2, q.(limit := v), cat)
      else if p == "offset" && q.limit > 0 then
        if i == 0 || |params| <= i + 1 then Err(NotEnoughParameters)
        else match StoiInt(params[i + 1])
          case None => Err("stoi")
          case Some(v) => Ok(q.(offset := v))
      else ParseMyOffersFrom(params, i + 1, ClassifyMyWord(p, q, cat), cat)
  }

  /** What `dexmyoffers` asks the database for. */
  datatype MyOffersRequest = MyOffersRequest(query: MyOffersQuery, typeCode: int)

  /** `dexmyoffers` argument handling: 1 to 9 words; the type defaults to
      "all"; limit 0 means `maxOutput()`. */
  function ParseDexMyOffers(params: seq<string>, cat: Catalog, maxOutput: int): (r: Result<MyOffersRequest, string>)
    ensures r.Ok? ==> r.value.query.typeFilter in TypeWords && r.value.typeCode == TypeCode(r.value.query.typeFilter)
    ensures r.Ok? ==> r.value.query.limit != 0 || maxOutput == 0
    ensures r.Ok? ==> r.value.query.country == "" || r.value.query.country in cat.enabledCountries
    ensures r.Ok? ==> r.value.query.currency == "" || r.value.query.currency in cat.enabledCurrencies
  {
    if |params| < 1 || |params| > 9 then Err(Usage("dexmyoffers"))
    else match ParseMyOffersFrom(params, 0, NoMyFilter, cat)
      case Err(e) => Err(e)
      case Ok(q) =>
        var q1 := if q.typeFilter == "" then q.(typeFilter := "all") else q;
        if q1.country != "" && q1.country !in cat.enabledCountries then Err(CountryDisabled)
        else if q1.currency != "" && q1.currency !in cat.enabledCurrencies then Err(CurrencyDisabled)
        else
          var q2 := if q1.limit == 0 then q1.(limit := maxOutput) else q1;
          assert q2.typeFilter in TypeWords;
          Ok(MyOffersRequest(q2, TypeCode(q2.typeFilter)))
  }

  lemma {:induction false} ParseMyOffersFromKeeps(params: seq<string>, i: nat, q: MyOffersQuery, cat: Catalog)
    requires forall k :: i <= k < |params| ==> params[k] != "limit" && params[k] != "offset"
    ensures ParseMyOffersFrom(params, i, q, cat).Ok?
    decreases |params| - i
  {
    if i < |params| {
      ParseMyOffersFromKeeps(params, i + 1, ClassifyMyWord(params[i], q, cat), cat);
    }
  }

  /** `dexmyoffers` never refuses a word: without `limit` and `offset`, and
      with enabled codes, it always answers. A first word naming a type in
      any case decides the type code. */
  lemma DexMyOffersParsing(params: seq<string>, cat: Catalog, maxOutput: int)
    requires 1 <= |params| <= 9
    requires forall k :: 0 <= k < |params| ==> params[k] != "limit" && params[k] != "offset"
    requires forall c :: c in cat.countries ==> c in cat.enabledCountries
    requires forall c :: c in cat.currencies ==> c in cat.enabledCurrencies
    ensures ParseDexMyOffers(params, cat, maxOutput).Ok?
    ensures ToLower(params[0]) in TypeWords ==>
      ParseDexMyOffers(params, cat, maxOutput).value.typeCode == TypeCode(ToLower(params[0]))
  {
    ParseMyOffersFromKeeps(params, 0, NoMyFilter, cat);
    var r := ParseMyOffersFrom(params, 0, NoMyFilter, cat).value;
    assert r.country == "" || r.country in cat.countries by {
      CountryFromCatalog(params, 0, NoMyFilter, cat);
    }
    assert r.currency == "" || r.currency in cat.currencies by {
      CountryFromCatalog(params, 0, NoMyFilter, cat);
    }
  }

  lemma {:induction false} CountryFromCatalog(params: seq<string>, i: nat, q: MyOffersQuery, cat: Catalog)
    requires q.country == "" || q.country in cat.countries
    requires q.currency == "" || q.currency in cat.currencies
    ensures var r := ParseMyOffersFrom(params, i, q, cat);
      r.Ok? ==> ((r.value.country == "" || r.value.country in cat.countries)
                && (r.value.currency == "" || r.value.currency in cat.currencies))
    decreases |params| - i
  {
    if i < |params| {
      var p := params[i];
      if p == "limit" {
        if i != 0 && |params| > i + 1 && StoiInt(params[i + 1]).Some? {
          CountryFromCatalog(params, i + 2, q.(limit := StoiInt(params[i + 1]).value), cat);
        }
      } else if !(p == "offset" && q.limit > 0) {
        CountryFromCatalog(params, i + 1, ClassifyMyWord(p, q, cat), cat);
      }
    }
  }

  // ---------------------------------------------------------------------
  // Hash arguments and lookups

  /** The hash argument of `deldexoffer`, `editdexoffer`, `senddexoffer` and
      `getdexoffer`: not empty and not reading as the null hash. */
  function HashArg(s: string): (r: Result<Hash, string>)
    ensures r.Ok? <==> |s| > 0 && ParseHash(s) != NullHash
    ensures r.Ok? ==> r.value == ParseHash(s)
    ensures |s| == 0 ==> r == Err(HashEmpty)
    ensures |s| > 0 && ParseHash(s) == NullHash ==> r == Err(HashError)
  {
    if |s| == 0 then Err(HashEmpty)
    else
      var h := ParseHash(s);
      if h == NullHash then Err(HashError) else Ok(h)
  }

  /** The 64-digit spelling of any non-null hash is accepted as that hash. */
  lemma HashArgRoundTrip(h: Hash)
    requires 0 < h < HashModulus
    ensures HashArg(ToHex(h, 64)) == Ok(h)
  {
    ParseHashRoundTrip(h);
  }

  /** A `CDexOffer` as the commands see it: built from an own offer it keeps
      that offer's side and status; built from a buy or sell row its status
      is `Indefined`. */
  datatype Found = Found(info: OfferInfo, kind: OfferKind, status: OfferStatus, mine: bool)

  /** `deldexoffer`'s lookup: own offers, then buy, then sell. */
  function LookupForDelete(db: Db, h: Hash): (r: Option<Found>)
    ensures r.Some? ==> r.value.info.hash == h
    ensures r.None? <==> !HasHash(db.my, MyView, h) && !HasHash(db.buy, PlainView, h) && !HasHash(db.sell, PlainView, h)
    ensures HasHash(db.my, MyView, h) ==> r.Some? && r.value.mine
    ensures !HasHash(db.my, MyView, h) && HasHash(db.buy, PlainView, h) ==> r == Some(Found(GetByHash(db.buy, PlainView, h).value, Buy, Indefined, false))
    ensures !HasHash(db.my, MyView, h) && !HasHash(db.buy, PlainView, h) && HasHash(db.sell, PlainView, h)
      ==> r == Some(Found(GetByHash(db.sell, PlainView, h).value, Sell, Indefined, false))
  {
    match GetByHash(db.my, MyView, h)
    case Some(m) => Some(Found(m.info, m.kind, m.status, true))
    case None =>
      match GetByHash(db.buy, PlainView, h)
      case Some(o) => Some(Found(o, Buy, Indefined, false))
      case None =>
        match GetByHash(db.sell, PlainView, h)
        case Some(o) => Some(Found(o, Sell, Indefined, false))
        case None => None
  }

  /** Every path of `deldexoffer` ends in a thrown message, "success" at
      the end; `broadcast` says whether `DEXDELOFFER` went to the peers. */
  datatype DelOutcome = DelOutcome(db: Db, broadcast: bool, thrown: string)

  const Success: string := "\nsuccess\n"

  /** `deldexoffer`. `keyError` is `FindKey`'s failure message, if it fails;
      `sign` is what signing produces; `delivered` is how many peers the
      broadcast actually reached. */
  function DelDexOffer(params: seq<string>, db: Db, keyError: Option<string>, sign: Option<seq<bv8>>, delivered: nat): (r: DelOutcome)
  {
    if |params| != 1 then DelOutcome(db, false, Usage("deldexoffer"))
    else match HashArg(params[0])
      case Err(e) => DelOutcome(db, false, e)
      case Ok(h) =>
        match LookupForDelete(db, h)
        case None => DelOutcome(db, false, NotFound)
        case Some(f) =>
          if keyError.Some? then DelOutcome(db, false, keyError.value)
          else
            var signed := SignOffer(true, f.info, sign, "");
            if !signed.ok then DelOutcome(db, false, signed.err)
            else
              var broadcast := f.status != Draft;
              var sended := if broadcast then delivered else 0;
              if sended > 1 || f.status == Draft || f.status == Indefined then
                var db1 := if f.kind == Buy && f.status != Draft then DeleteOfferByHash(db, Buy, h).db else db;
                var db2 := if f.kind == Sell && f.status != Draft then DeleteOfferByHash(db1, Sell, h).db else db1;
                var db3 := if f.mine then DeleteMyOfferByHash(db2, h).db else db2;
                DelOutcome(db3, broadcast, Success)
              else DelOutcome(db, broadcast, Success)
  }

  /** A found offer is broadcast unless it is a draft, and deleted locally
      when more than one peer took the broadcast or it is a draft or not
      an own offer; a draft leaves the buy and sell tables alone, and every
      call that gets past the lookup and the signature ends in "success". */
  lemma DelDexOfferRules(db: Db, s: string, keyError: Option<string>, sign: Option<seq<bv8>>, delivered: nat)
    requires HashArg(s).Ok?
    requires keyError.None? && sign.Some?
    requires LookupForDelete(db, HashArg(s).value).Some?
    ensures var h := HashArg(s).value;
      var f := LookupForDelete(db, h).value;
      var r := DelDexOffer([s], db, keyError, sign, delivered);
      && r.thrown == Success
      && (r.broadcast <==> f.status != Draft)
      && (f.status == Draft ==> r.db.buy == db.buy && r.db.sell == db.sell && !HasHash(r.db.my, MyView, h))
      && (!f.mine ==> !HasHash(Offers(r.db, f.kind), PlainView, h) && r.db.my == db.my)
      && (f.status != Draft && f.status != Indefined && delivered <= 1 ==> r.db == db)
      && (f.mine && f.status != Draft && delivered > 1 ==>
            !HasHash(Offers(r.db, f.kind), PlainView, h) && !HasHash(r.db.my, MyView, h))
  {
    var h := HashArg(s).value;
    var f := LookupForDelete(db, h).value;
    assert !IsNullOffer(f.info);
  }

  /** `getdexoffer`: sell, then buy, then the unconfirmed offers `unc`;
      nothing found gives the empty answer `None`. */
  function GetDexOffer(params: seq<string>, db: Db, unc: seq<(OfferInfo, OfferKind)>): (r: Result<Option<(OfferInfo, OfferKind)>, string>)
    ensures r.Ok? ==> |params| >= 1 && HashArg(params[0]).Ok?
    ensures r.Ok? && r.value.Some? ==> r.value.value.0.hash == HashArg(params[0]).value
    ensures r.Ok? ==> var h := HashArg(params[0]).value;
      && (HasHash(db.sell, PlainView, h) ==> r.value == Some((GetByHash(db.sell, PlainView, h).value, Sell)))
      && (!HasHash(db.sell, PlainView, h) && HasHash(db.buy, PlainView, h) ==> r.value == Some((GetByHash(db.buy, PlainView, h).value, Buy)))
      && (r.value.None? <==> !HasHash(db.sell, PlainView, h) && !HasHash(db.buy, PlainView, h)
                             && forall k :: 0 <= k < |unc| ==> unc[k].0.hash != h)
  {
    if |params| < 1 then Err(NotAString)
    else match HashArg(params[0])
      case Err(e) => Err(e)
      case Ok(h) =>
        match GetByHash(db.sell, PlainView, h)
        case Some(o) => Ok(Some((o, Sell)))
        case None =>
          match GetByHash(db.buy, PlainView, h)
          case Some(o) => Ok(Some((o, Buy)))
          case None =>
            var u := (x: (OfferInfo, OfferKind)) => x.0.hash == h;
            match IndexWhere(unc, u)
            case Some(k) => assert u(unc[k]); Ok(Some(unc[k]))
            case None => Ok(None)
  }

  // ---------------------------------------------------------------------
  // Adding, editing and sending own offers

  /** The draft `adddexoffer` stores: the parsed offer as a draft at
      editing version 0, with the new public key and the hash `Create` gives. */
  function DraftOf(m: MyOfferInfo, pubKey: string, h: Hash): MyOfferInfo
  {
    m.(status := Draft, info := m.info.(editingVersion := 0, pubKey := pubKey, hash := h))
  }

  /** `adddexoffer`. `json` is the parsed offer and the parser's error text;
      `keyAdded` whether the new key went into the wallet; `pubKey` its hex
      form; `created` the hash `CDexOffer::Create` gives, or `None` if it
      fails. The new offer is stored as a draft at editing version 0; the
      own-offer table refuses a hash it already holds, and the command then
      reports the failure. */
  function AddDexOffer(json: (MyOfferInfo, string), keyAdded: bool, pubKey: string, created: Option<Hash>, db: Db): (r: (Db, Result<Hash, string>))
    ensures |json.1| > 0 ==> r == (db, Err("\nERROR: " + json.1))
    ensures r.1.Ok? ==> |json.1| == 0 && keyAdded && created == Some(r.1.value)
    ensures r.1.Ok? ==> r.0.my == db.my + [DraftOf(json.0, pubKey, r.1.value)] && !HasHash(db.my, MyView, r.1.value)
    ensures |json.1| == 0 && keyAdded && created.Some? ==>
      (r.1.Ok? <==> !HasHash(db.my, MyView, created.value))
    ensures r.1.Err? ==> r.0 == db
    ensures r.0.buy == db.buy && r.0.sell == db.sell
  {
    if |json.1| > 0 then (db, Err("\nERROR: " + json.1))
    else if !keyAdded then (db, Err("\nERROR: add key to wallet error"))
    else match created
      case None => (db, Err("\nERROR: error create offer"))
      case Some(h) =>
        var c := AddMyOffer(db, DraftOf(json.0, pubKey, h));
        if c.event.status == Failed && ExistsByHash(c.db.my, MyView, h) then (c.db, Err(OperationFailed))
        else (c.db, Ok(h))
  }

  /** After `adddexoffer` answers a hash, fetching that hash returns the
      stored draft, and `deldexoffer` finds it as an own draft. */
  lemma AddThenFound(json: (MyOfferInfo, string), keyAdded: bool, pubKey: string, created: Option<Hash>, db: Db)
    requires AddDexOffer(json, keyAdded, pubKey, created, db).1.Ok?
    ensures var (db', r) := AddDexOffer(json, keyAdded, pubKey, created, db);
      var d := DraftOf(json.0, pubKey, r.value);
      && GetByHash(db'.my, MyView, r.value) == Some(d)
      && LookupForDelete(db', r.value) == Some(Found(d.info, d.kind, Draft, true))
  {
    var (db', r) := AddDexOffer(json, keyAdded, pubKey, created, db);
    var h := r.value;
    var k := IndexWhere(db'.my, HashIs(MyView, h));
    assert HashIs(MyView, h)(db'.my[|db.my|]);
    assert k.Some?;
    assert HashIs(MyView, h)(db'.my[k.value]);
    if k.value < |db.my| {
      assert false;
    }
  }

  /** The database step `editdexoffer` asks for. */
  datatype EditAction = NoAction | SaveDraft(offer: MyOfferInfo) | SendActive(offer: MyOfferInfo)

  /** The fields an Active offer may not change, with the shelf life in
      days as `editdexoffer` computes it. */
  predicate SameFixedFields(cur: MyOfferInfo, upd: MyOfferInfo)
  {
    && cur.kind == upd.kind
    && cur.info.countryIso == upd.info.countryIso
    && cur.info.currencyIso == upd.info.currencyIso
    && cur.info.paymentMethod == upd.info.paymentMethod
    && cur.info.minAmount == upd.info.minAmount
    && Days(upd.info.timeCreate, upd.info.timeToExpiration) == Days(cur.info.timeCreate, cur.info.timeToExpiration)
  }

  datatype EditOutcome = EditOutcome(action: EditAction, reply: Result<Option<Hash>, string>)

  /** `editdexoffer`. `json` as for `adddexoffer`; `failed` says that the
      database callback reported an error and the offer is still stored;
      `sendError` is what `prepareAndSendMyOffer` reports. */
  function EditDexOffer(params: seq<string>, db: Db, json: (MyOfferInfo, string), failed: bool, sendError: string): (r: EditOutcome)
  {
    if |params| != 2 then EditOutcome(NoAction, Err(Usage("editdexoffer")))
    else match HashArg(params[0])
      case Err(e) => EditOutcome(NoAction, Err(e))
      case Ok(h) =>
        if !ExistsByHash(db.my, MyView, h) then EditOutcome(NoAction, Err(NotFound))
        else if |json.1| > 0 then EditOutcome(NoAction, Err("\nERROR: " + json.1))
        else
          var cur := GetByHash(db.my, MyView, h).value;
          var next := json.0;
          if cur.status == Draft then
            var d := next.(status := Draft, info := next.info.(editingVersion := 0));
            EditOutcome(SaveDraft(d), if failed then Err(OperationFailed) else Ok(Some(d.info.hash)))
          else if cur.status == Active then
            if !SameFixedFields(cur, next) then EditOutcome(NoAction, Err(Unchanged))
            else
              var upd := cur.(info := cur.info.(price := next.info.price, shortInfo := next.info.shortInfo, details := next.info.details));
              EditOutcome(SendActive(upd),
                if failed then Err(OperationFailed)
                else if |sendError| > 0 then Err("\nERROR: " + sendError + "\n")
                else Ok(None))
          else EditOutcome(NoAction, Ok(None))
  }

  /** Editing a draft saves the new data as a draft at editing version 0.
      Editing an Active offer is refused unless side, country, currency,
      payment method, minimum amount and shelf life are all unchanged, and
      then only price, short info and details are taken from the new data. */
  lemma EditDexOfferRules(db: Db, s: string, s2: string, json: (MyOfferInfo, string), failed: bool, sendError: string)
    requires HashArg(s).Ok? && HasHash(db.my, MyView, HashArg(s).value) && |json.1| == 0
    ensures var cur := GetByHash(db.my, MyView, HashArg(s).value).value;
      var r := EditDexOffer([s, s2], db, json, failed, sendError);
      && (cur.status == Draft ==>
            r.action.SaveDraft? && r.action.offer.status == Draft && r.action.offer.info.editingVersion == 0
            && r.action.offer.info.(editingVersion := json.0.info.editingVersion) == json.0.info
            && r.action.offer.kind == json.0.kind)
      && (cur.status == Active ==> (r.action.SendActive? <==> SameFixedFields(cur, json.0)))
      && (cur.status == Active && !SameFixedFields(cur, json.0) ==> r.reply == Err(Unchanged))
      && (cur.status == Active && r.action.SendActive? ==>
            && r.action.offer.info.price == json.0.info.price
            && r.action.offer.info.shortInfo == json.0.info.shortInfo
            && r.action.offer.info.details == json.0.info.details
            && r.action.offer.(info := r.action.offer.info.(price := cur.info.price, shortInfo := cur.info.shortInfo, details := cur.info.details)) == cur)
      && (cur.status != Draft && cur.status != Active ==> r == EditOutcome(NoAction, Ok(None)))
  {
  }

  /** `senddexoffer`: the own offer with that hash is handed to `prepare`
      (`prepareAndSendMyOffer`), which returns the offer as sent and an
      error text; the reply is the hash of the offer as sent. */
  function SendDexOffer(params: seq<string>, db: Db, prepare: MyOfferInfo -> (MyOfferInfo, string)): (r: Result<Hash, string>)
    ensures r.Ok? ==> |params| == 1 && HashArg(params[0]).Ok? && HasHash(db.my, MyView, HashArg(params[0]).value)
    ensures r.Ok? ==> var m := GetByHash(db.my, MyView, HashArg(params[0]).value).value;
      |prepare(m).1| == 0 && r.value == prepare(m).0.info.hash
    ensures |params| == 1 && HashArg(params[0]).Ok? && !HasHash(db.my, MyView, HashArg(params[0]).value) ==> r == Err(NotFound)
    ensures |params| == 1 && HashArg(params[0]).Ok? && HasHash(db.my, MyView, HashArg(params[0]).value) ==>
      var e := prepare(GetByHash(db.my, MyView, HashArg(params[0]).value).value).1;
      |e| > 0 ==> r == Err("\nERROR: " + e + "\n")
  {
    if |params| != 1 then Err(Usage("senddexoffer"))
    else match HashArg(params[0])
      case Err(e) => Err(e)
      case Ok(h) =>
        match GetByHash(db.my, MyView, h)
        case None => Err(NotFound)
        case Some(m) =>
          var (sent, e) := prepare(m);
          if |e| > 0 then Err("\nERROR: " + e + "\n") else Ok(sent.info.hash)
  }

  /** A draft `adddexoffer` has just stored can be sent by the hash it
      answered: `senddexoffer` hands exactly that draft to `prepare`. */
  lemma AddThenSend(json: (MyOfferInfo, string), keyAdded: bool, pubKey: string, created: Option<Hash>, db: Db,
                    prepare: MyOfferInfo -> (MyOfferInfo, string))
    requires AddDexOffer(json, keyAdded, pubKey, created, db).1.Ok?
    requires var h := AddDexOffer(json, keyAdded, pubKey, created, db).1.value; 0 < h < HashModulus
    ensures var (db', r) := AddDexOffer(json, keyAdded, pubKey, created, db);
      var d := DraftOf(json.0, pubKey, r.value);
      && (|prepare(d).1| == 0 ==> SendDexOffer([ToHex(r.value, 64)], db', prepare) == Ok(prepare(d).0.info.hash))
      && (|prepare(d).1| > 0 ==> SendDexOffer([ToHex(r.value, 64)], db', prepare) == Err("\nERROR: " + prepare(d).1 + "\n"))
  {
    var (db', r) := AddDexOffer(json, keyAdded, pubKey, created, db);
    AddThenFound(json, keyAdded, pubKey, created, db);
    HashArgRoundTrip(r.value);
  }

  // ---------------------------------------------------------------------
  // dexsync and dexsettings

  /** `getSyncStatus`. */
  function StatusText(s: Status): string
  {
    match s
    case NoStarted => "Synchronization offers doesn't start..."
    case Started => "Synchronization offers started..."
    case Initial => "Synchronization offers pending..."
    case SyncStepOne => "Synchronization offers..."
    case SyncStepSecond => "Synchronization offers..."
    case Finished => "Synchronization offers finished"
  }

  /** `dexsync` leaves the synchroniser as `step` says; `forceSynced` says
      that `forceSynced` was asked for. */
  datatype SyncReply = SyncReply(step: Step, forceSynced: bool, reply: Result<string, string>)

  function DexSyncCommand(params: seq<string>, env: Env, db: Db, s: SyncState): (r: SyncReply)
    ensures r.reply.Ok? ==> |params| == 1 && params[0] in {"status", "reset", "force-synced"}
    ensures |params| == 1 && params[0] == "status" ==> r == SyncReply(Step(s, []), false, Ok(StatusText(s.status)))
    ensures |params| == 1 && params[0] == "reset" ==>
      && r.step == Reset(env, db, s).1
      && (r.reply == Ok("reset sunc") <==> s.status != SyncStepOne && s.status != SyncStepSecond)
    ensures r.forceSynced <==> |params| == 1 && params[0] == "force-synced"
    ensures !(|params| == 1 && params[0] == "reset") ==> r.step == Step(s, [])
  {
    if |params| != 1 then SyncReply(Step(s, []), false, Err(Usage("dexsync")))
    else
      var key := params[0];
      if key == "status" then SyncReply(Step(s, []), false, Ok(StatusText(s.status)))
      else if key == "reset" then
        var (ok, st) := Reset(env, db, s);
        SyncReply(st, false, Ok(if ok then "reset sunc" else "reset is not available now"))
      else if key == "force-synced" then SyncReply(Step(s, []), true, Ok("force synced"))
      else SyncReply(Step(s, []), false, Err("\nwrong parameter " + key + "\n"))
  }

  datatype MaxOutputShown = ShowAll | ShowNum(n: int)

  const IntegerOutOfRange: string := "JSON integer out of range"

  /** `dexsettings maxoutput [num]`: sets the limit when a number is given
      (`get_int` refuses one outside 32 bits), and shows 0 as "all". The
      reply and the limit in force afterwards. */
  function DexSettings(params: seq<Json>, maxOutput: int): (r: Result<(MaxOutputShown, int), string>)
    ensures r.Ok? ==> (r.value.0 == ShowAll <==> r.value.1 == 0)
    ensures r.Ok? && r.value.0.ShowNum? ==> r.value.0.n == r.value.1
    ensures r.Ok? && |params| == 1 ==> r.value.1 == maxOutput
    ensures r.Ok? && |params| == 2 ==> params[1] == JInt(r.value.1) && -0x8000_0000 <= r.value.1 < 0x8000_0000
    ensures r.Ok? <==> 1 <= |params| <= 2 && params[0] == JStr("maxoutput")
                       && (|params| == 2 ==> params[1].JInt? && -0x8000_0000 <= params[1].num < 0x8000_0000)
  {
    if |params| < 1 || |params| > 2 then Err(Usage("dexsettings"))
    else if !params[0].JStr? then Err(NotAString)
    else if params[0].str != "maxoutput" then Err("\nwrong parameter " + params[0].str + "\n")
    else if |params| == 2 && !params[1].JInt? then Err(NotAnInteger)
    else if |params| == 2 && !(-0x8000_0000 <= params[1].num < 0x8000_0000) then Err(IntegerOutOfRange)
    else
      var num := if |params| == 2 then params[1].num else maxOutput;
      Ok((if num == 0 then ShowAll else ShowNum(num), num))
  }

  /** Setting the limit and then asking for it shows the limit just set,
      as "all" exactly when it is 0. */
  lemma SettingsSetThenShow(n: int, before: int)
    requires -0x8000_0000 <= n < 0x8000_0000
    ensures var given := DexSettings([JStr("maxoutput"), JInt(n)], before);
      && given.Ok? && given.value.1 == n
      && DexSettings([JStr("maxoutput")], given.value.1) == given
      && (DexSettings([JStr("maxoutput")], given.value.1).value.0 == ShowAll <==> n == 0)
  {
  }
}
