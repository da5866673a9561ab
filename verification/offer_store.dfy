/** The offer tables of the DEX database: buy offers, sell offers and the
    node's own offers, with the behaviour the database unit tests pin down.
    The SQLite implementation is not part of this model. A table is the
    sequence of its rows in insertion order. The buy and sell tables are
    keyed by the transaction id that paid for the offer; the own-offer table
    is keyed by the offer hash, since a draft has no paying transaction yet.
    Every operation is a pure function of the table. */
module OfferStore {
  import opened Common

  datatype OfferKind = Buy | Sell

  /** `dex::StatusOffer`; `Indefined` is the source's spelling. */
  datatype OfferStatus = Indefined | Draft | Active | Expired | Cancelled | Suspended | Unconfirmed

  /** `dex::OfferInfo`: one row of the buy or sell table. */
  datatype OfferInfo = OfferInfo(
    pubKey: string,
    hash: Hash,
    idTransaction: Hash,
    price: int,
    minAmount: int,
    shortInfo: string,
    details: string,
    countryIso: string,
    currencyIso: string,
    paymentMethod: int,
    timeCreate: int,
    timeToExpiration: int,
    timeModification: nat,
    editingVersion: int)

  /** `dex::MyOfferInfo`: an own offer also records its side and status. */
  datatype MyOfferInfo = MyOfferInfo(info: OfferInfo, kind: OfferKind, status: OfferStatus)

  /** The offer fields of a row: the identity for the buy and sell tables,
      the embedded offer for the own-offer table. */
  function PlainView(o: OfferInfo): OfferInfo { o }

  function MyView(m: MyOfferInfo): OfferInfo { m.info }

  // ---------------------------------------------------------------------
  // Generic sequence helpers

  /** Position of the first row satisfying `p`. */
  function IndexWhere<T>(t: seq<T>, p: T -> bool): (r: Option<nat>)
    ensures r.Some? ==> r.value < |t| && p(t[r.value])
    ensures r.Some? ==> forall k :: 0 <= k < r.value ==> !p(t[k])
    ensures r.None? <==> forall k :: 0 <= k < |t| ==> !p(t[k])
  {
    if |t| == 0 then None
    else if p(t[0]) then Some(0)
    else match IndexWhere(t[1..], p)
      case None => None
      case Some(k) => Some(k + 1)
  }

  /** Number of rows satisfying `p`. */
  function CountWhere<T>(t: seq<T>, p: T -> bool): (n: nat)
    ensures n <= |t|
  {
    if |t| == 0 then 0
    else (if p(t[0]) then 1 else 0) + CountWhere(t[1..], p)
  }

  /** The rows satisfying `p`, in their order. */
  function Filter<T(!new)>(t: seq<T>, p: T -> bool): (r: seq<T>)
    ensures |r| == CountWhere(t, p)
    ensures forall x :: x in r <==> x in t && p(x)
  {
    if |t| == 0 then []
    else if p(t[0]) then [t[0]] + Filter(t[1..], p)
    else Filter(t[1..], p)
  }

  /** Adding one row at the end adds one to the count exactly when the row matches. */
  lemma {:induction false} CountWhereAppend<T>(t: seq<T>, x: T, p: T -> bool)
    ensures CountWhere(t + [x], p) == CountWhere(t, p) + (if p(x) then 1 else 0)
  {
    if |t| > 0 {
      assert (t + [x])[1..] == t[1..] + [x];
      CountWhereAppend(t[1..], x, p);
    }
  }

  /** Two predicates that are each other's negation on the rows split the table. */
  lemma {:induction false} CountWhereComplement<T>(t: seq<T>, p: T -> bool, q: T -> bool)
    requires forall i :: 0 <= i < |t| ==> q(t[i]) == !p(t[i])
    ensures CountWhere(t, p) + CountWhere(t, q) == |t|
  {
    if |t| > 0 {
      assert forall i :: 0 <= i < |t| - 1 ==> t[1..][i] == t[i + 1];
      CountWhereComplement(t[1..], p, q);
    }
  }

  /** A predicate no row satisfies counts zero. */
  lemma {:induction false} CountWhereNone<T>(t: seq<T>, p: T -> bool)
    requires forall i :: 0 <= i < |t| ==> !p(t[i])
    ensures CountWhere(t, p) == 0
  {
    if |t| > 0 {
      assert forall i :: 0 <= i < |t| - 1 ==> t[1..][i] == t[i + 1];
      CountWhereNone(t[1..], p);
    }
  }

  /** A predicate some row satisfies counts at least one. */
  lemma {:induction false} CountWhereSome<T>(t: seq<T>, p: T -> bool, i: nat)
    requires i < |t| && p(t[i])
    ensures CountWhere(t, p) >= 1
  {
    if i > 0 {
      CountWhereSome(t[1..], p, i - 1);
    }
  }

  // ---------------------------------------------------------------------
  // One table

  /** The column a table is keyed by. */
  datatype Key = ByTransaction | ByHash

  function KeyOf(o: OfferInfo, key: Key): Hash
  {
    match key
    case ByTransaction => o.idTransaction
    case ByHash => o.hash
  }

  /** No two rows share a key (the table's primary key). */
  ghost predicate UniqueKeys<T>(t: seq<T>, v: T -> OfferInfo, key: Key)
  {
    forall i, j :: 0 <= i < j < |t| ==> KeyOf(v(t[i]), key) != KeyOf(v(t[j]), key)
  }

  ghost predicate HasKey<T>(t: seq<T>, v: T -> OfferInfo, key: Key, x: Hash)
  {
    exists k :: 0 <= k < |t| && KeyOf(v(t[k]), key) == x
  }

  ghost predicate HasId<T>(t: seq<T>, v: T -> OfferInfo, id: Hash)
  {
    exists k :: 0 <= k < |t| && v(t[k]).idTransaction == id
  }

  ghost predicate HasHash<T>(t: seq<T>, v: T -> OfferInfo, h: Hash)
  {
    exists k :: 0 <= k < |t| && v(t[k]).hash == h
  }

  function KeyIs<T>(v: T -> OfferInfo, key: Key, x: Hash): T -> bool
  {
    r => KeyOf(v(r), key) == x
  }

  function IdIs<T>(v: T -> OfferInfo, id: Hash): T -> bool
  {
    r => v(r).idTransaction == id
  }

  function IdIsNot<T>(v: T -> OfferInfo, id: Hash): T -> bool
  {
    r => v(r).idTransaction != id
  }

  function HashIs<T>(v: T -> OfferInfo, h: Hash): T -> bool
  {
    r => v(r).hash == h
  }

  function HashIsNot<T>(v: T -> OfferInfo, h: Hash): T -> bool
  {
    r => v(r).hash != h
  }

  /** `isExistOffer…(idTransaction)`. */
  function Exists<T>(t: seq<T>, v: T -> OfferInfo, id: Hash): (b: bool)
    ensures b <==> HasId(t, v, id)
  {
    IndexWhere(t, IdIs(v, id)).Some?
  }

  /** `isExistOffer…ByHash(hash)`. */
  function ExistsByHash<T>(t: seq<T>, v: T -> OfferInfo, h: Hash): (b: bool)
    ensures b <==> HasHash(t, v, h)
  {
    IndexWhere(t, HashIs(v, h)).Some?
  }

  /** `getOffer…(idTransaction)`: the row with that id, if any. */
  function Get<T>(t: seq<T>, v: T -> OfferInfo, id: Hash): (r: Option<T>)
    ensures r.Some? ==> r.value in t && v(r.value).idTransaction == id
    ensures r.None? <==> !HasId(t, v, id)
  {
    match IndexWhere(t, IdIs(v, id))
    case None => None
    case Some(k) => Some(t[k])
  }

  /** `getOffer…ByHash(hash)`: the first row with that hash, if any. */
  function GetByHash<T>(t: seq<T>, v: T -> OfferInfo, h: Hash): (r: Option<T>)
    ensures r.Some? ==> r.value in t && v(r.value).hash == h
    ensures r.None? <==> !HasHash(t, v, h)
  {
    match IndexWhere(t, HashIs(v, h))
    case None => None
    case Some(k) => Some(t[k])
  }

  /** Outcome reported to the change callbacks (`StatusTableOperation`:
      `Ok` / `Error`). */
  datatype TableStatus = Succeeded | Failed

  /** `addOffer…`: a row whose key is already present is refused. */
  function Insert<T>(t: seq<T>, v: T -> OfferInfo, key: Key, row: T): (r: (seq<T>, TableStatus))
    ensures r.1 == Succeeded <==> !HasKey(t, v, key, KeyOf(v(row), key))
    ensures r.1 == Succeeded ==> r.0 == t + [row]
    ensures r.1 == Failed ==> r.0 == t
  {
    match IndexWhere(t, KeyIs(v, key, KeyOf(v(row), key)))
    case Some(k) => assert KeyIs(v, key, KeyOf(v(row), key))(t[k]); (t, Failed)
    case None => (t + [row], Succeeded)
  }

  /** `editOffer…`: the row with the same key is replaced; an update that
      matches no row succeeds and changes nothing. */
  function Update<T>(t: seq<T>, v: T -> OfferInfo, key: Key, row: T): (r: seq<T>)
    ensures |r| == |t|
    ensures forall i :: 0 <= i < |t| ==> KeyOf(v(r[i]), key) == KeyOf(v(t[i]), key)
    ensures forall i :: 0 <= i < |t| && KeyOf(v(t[i]), key) == KeyOf(v(row), key) ==> r[i] == row
    ensures forall i :: 0 <= i < |t| && KeyOf(v(t[i]), key) != KeyOf(v(row), key) ==> r[i] == t[i]
  {
    seq(|t|, i requires 0 <= i < |t| => if KeyOf(v(t[i]), key) == KeyOf(v(row), key) then row else t[i])
  }

  /** `deleteOffer…(idTransaction)`. */
  function Remove<T(!new)>(t: seq<T>, v: T -> OfferInfo, id: Hash): (r: seq<T>)
    ensures !HasId(r, v, id)
    ensures forall x :: x in r <==> x in t && v(x).idTransaction != id
  {
    var r := Filter(t, IdIsNot(v, id));
    assert forall k :: 0 <= k < |r| ==> r[k] in r;
    r
  }

  /** `deleteOffer…ByHash(hash)`. */
  function RemoveByHash<T(!new)>(t: seq<T>, v: T -> OfferInfo, h: Hash): (r: seq<T>)
    ensures !HasHash(r, v, h)
    ensures forall x :: x in r <==> x in t && v(x).hash != h
  {
    var r := Filter(t, HashIsNot(v, h));
    assert forall k :: 0 <= k < |r| ==> r[k] in r;
    r
  }

  /** `countOffers…(country, currency, paymentMethod)`. */
  function MatchesFilter<T>(v: T -> OfferInfo, country: string, currency: string, payment: int): T -> bool
  {
    r => v(r).countryIso == country && v(r).currencyIso == currency && v(r).paymentMethod == payment
  }

  function CountFiltered<T>(t: seq<T>, v: T -> OfferInfo, country: string, currency: string, payment: int): (n: nat)
    ensures n <= |t|
  {
    CountWhere(t, MatchesFilter(v, country, currency, payment))
  }

  /** `lastModificationOffers…`: the latest modification time, 0 for an empty table. */
  function LastModification<T>(t: seq<T>, v: T -> OfferInfo): (m: int)
    ensures forall i :: 0 <= i < |t| ==> v(t[i]).timeModification <= m
    ensures |t| > 0 ==> exists i :: 0 <= i < |t| && v(t[i]).timeModification == m
    ensures |t| == 0 ==> m == 0
  {
    if |t| == 0 then 0
    else if |t| == 1 then v(t[0]).timeModification
    else
      var rest := LastModification(t[1..], v);
      assert forall i :: 1 <= i < |t| ==> t[i] == t[1..][i - 1];
      if v(t[0]).timeModification >= rest then v(t[0]).timeModification else rest
  }

  /** `DexDB::OffersPeriod`: rows modified strictly before, or at or after, a time. */
  datatype Period = Before | After

  predicate InPeriod(o: OfferInfo, period: Period, time: int)
  {
    match period
    case Before => o.timeModification < time
    case After => o.timeModification >= time
  }

  function PeriodIs<T>(v: T -> OfferInfo, period: Period, time: int): T -> bool
  {
    r => InPeriod(v(r), period, time)
  }

  /** `countOffers…(period, time)`. */
  function CountPeriod<T>(t: seq<T>, v: T -> OfferInfo, period: Period, time: int): (n: nat)
    ensures n <= |t|
  {
    CountWhere(t, PeriodIs(v, period, time))
  }

  /** `getHashsAndEditingVersions…`: (hash, editingVersion) of every row. */
  function HashesAndVersions<T>(t: seq<T>, v: T -> OfferInfo): (r: seq<(Hash, int)>)
    ensures |r| == |t|
    ensures forall i :: 0 <= i < |t| ==> r[i] == (v(t[i]).hash, v(t[i]).editingVersion)
  {
    seq(|t|, i requires 0 <= i < |t| => (v(t[i]).hash, v(t[i]).editingVersion))
  }

  /** `getHashsAndEditingVersions…(period, time)`: one pair per row
      modified in the period, and no other pair. */
  function HashesAndVersionsIn<T(!new)>(t: seq<T>, v: T -> OfferInfo, period: Period, time: int): (r: seq<(Hash, int)>)
    ensures |r| == CountPeriod(t, v, period, time)
    ensures forall x :: x in r <==> exists o :: o in t && InPeriod(v(o), period, time) && x == (v(o).hash, v(o).editingVersion)
  {
    var f := Filter(t, PeriodIs(v, period, time));
    var r := HashesAndVersions(f, v);
    forall x | x in r
      ensures exists o :: o in t && InPeriod(v(o), period, time) && x == (v(o).hash, v(o).editingVersion)
    {
      var i :| 0 <= i < |r| && r[i] == x;
      assert f[i] in f;
    }
    forall o | o in t && InPeriod(v(o), period, time)
      ensures (v(o).hash, v(o).editingVersion) in r
    {
      assert PeriodIs(v, period, time)(o);
      var i :| 0 <= i < |f| && f[i] == o;
      assert r[i] == (v(o).hash, v(o).editingVersion);
    }
    r
  }

  /** `deleteOldOffers…`: rows whose expiration time has passed are removed. */
  function Unexpired<T>(v: T -> OfferInfo, now: int): T -> bool
  {
    r => v(r).timeToExpiration >= now
  }

  function RemoveExpired<T(!new)>(t: seq<T>, v: T -> OfferInfo, now: int): (r: seq<T>)
    ensures forall x :: x in r <==> x in t && v(x).timeToExpiration >= now
  {
    Filter(t, Unexpired(v, now))
  }

  // ---------------------------------------------------------------------
  // Properties of one table

  lemma {:induction false} FilterKeepsUniqueKeys<T(!new)>(t: seq<T>, v: T -> OfferInfo, key: Key, p: T -> bool)
    requires UniqueKeys(t, v, key)
    ensures UniqueKeys(Filter(t, p), v, key)
  {
    if |t| > 0 {
      var tail := t[1..];
      assert UniqueKeys(tail, v, key) by {
        forall i, j | 0 <= i < j < |tail|
          ensures KeyOf(v(tail[i]), key) != KeyOf(v(tail[j]), key)
        {
          assert tail[i] == t[i + 1] && tail[j] == t[j + 1];
        }
      }
      FilterKeepsUniqueKeys(tail, v, key, p);
      if p(t[0]) {
        var r := Filter(t, p);
        var fr := Filter(tail, p);
        assert r == [t[0]] + fr;
        forall j | 1 <= j < |r|
          ensures KeyOf(v(r[0]), key) != KeyOf(v(r[j]), key)
        {
          assert r[j] == fr[j - 1];
          assert fr[j - 1] in tail;
          var k :| 0 <= k < |tail| && tail[k] == fr[j - 1];
          assert tail[k] == t[k + 1];
        }
        forall i, j | 1 <= i < j < |r|
          ensures KeyOf(v(r[i]), key) != KeyOf(v(r[j]), key)
        {
          assert r[i] == fr[i - 1] && r[j] == fr[j - 1];
        }
      }
    }
  }

  /** Adding a row with a fresh key makes it findable by id and by hash, and
      ids that were absent and differ from it stay absent. */
  lemma AddThenExists<T>(t: seq<T>, v: T -> OfferInfo, key: Key, row: T, other: Hash)
    requires !HasKey(t, v, key, KeyOf(v(row), key))
    requires !HasId(t, v, other) && other != v(row).idTransaction
    ensures Insert(t, v, key, row).1 == Succeeded
    ensures Exists(Insert(t, v, key, row).0, v, v(row).idTransaction)
    ensures ExistsByHash(Insert(t, v, key, row).0, v, v(row).hash)
    ensures !Exists(Insert(t, v, key, row).0, v, other)
  {
    var r := Insert(t, v, key, row).0;
    assert r[|t|] == row;
  }

  /** Adds the rows one after another, as the test fixtures do. */
  function InsertAll<T>(t: seq<T>, v: T -> OfferInfo, key: Key, rows: seq<T>): seq<T>
    decreases |rows|
  {
    if |rows| == 0 then t else InsertAll(Insert(t, v, key, rows[0]).0, v, key, rows[1..])
  }

  /** After adding n offers with distinct fresh keys the table has grown by n. */
  lemma {:induction false} InsertAllCount<T>(t: seq<T>, v: T -> OfferInfo, key: Key, rows: seq<T>)
    requires forall i :: 0 <= i < |rows| ==> !HasKey(t, v, key, KeyOf(v(rows[i]), key))
    requires UniqueKeys(rows, v, key)
    ensures |InsertAll(t, v, key, rows)| == |t| + |rows|
    decreases |rows|
  {
    if |rows| > 0 {
      var t' := Insert(t, v, key, rows[0]).0;
      assert t' == t + [rows[0]];
      var rest := rows[1..];
      forall i | 0 <= i < |rest|
        ensures !HasKey(t', v, key, KeyOf(v(rest[i]), key))
      {
        assert rest[i] == rows[i + 1];
      }
      assert UniqueKeys(rest, v, key) by {
        forall i, j | 0 <= i < j < |rest|
          ensures KeyOf(v(rest[i]), key) != KeyOf(v(rest[j]), key)
        {
          assert rest[i] == rows[i + 1] && rest[j] == rows[j + 1];
        }
      }
      InsertAllCount(t', v, key, rest);
    }
  }

  /** The filtered count is the number of rows matching country, currency and
      payment method all three; adding a row raises it exactly when the row
      matches all three. */
  lemma CountFilteredAdd<T>(t: seq<T>, v: T -> OfferInfo, key: Key, row: T, country: string, currency: string, payment: int)
    requires !HasKey(t, v, key, KeyOf(v(row), key))
    ensures CountFiltered(Insert(t, v, key, row).0, v, country, currency, payment)
         == CountFiltered(t, v, country, currency, payment)
          + (if v(row).countryIso == country && v(row).currencyIso == currency && v(row).paymentMethod == payment then 1 else 0)
  {
    CountWhereAppend(t, row, MatchesFilter(v, country, currency, payment));
  }

  /** A count reaches the table size exactly when every row matches. */
  lemma {:induction false} CountWhereFull<T>(t: seq<T>, p: T -> bool)
    ensures CountWhere(t, p) == |t| <==> forall i :: 0 <= i < |t| ==> p(t[i])
  {
    if |t| > 0 {
      assert forall i :: 0 <= i < |t| - 1 ==> t[1..][i] == t[i + 1];
      CountWhereFull(t[1..], p);
      if p(t[0]) {
        assert (forall i :: 0 <= i < |t| ==> p(t[i])) <==> (forall i :: 0 <= i < |t| - 1 ==> p(t[1..][i]));
      }
    }
  }

  /** Filtered counts never exceed the table and reach it exactly when every
      row matches; in particular a country no row has counts zero. */
  lemma CountFilteredAll<T>(t: seq<T>, v: T -> OfferInfo, country: string, currency: string, payment: int)
    ensures CountFiltered(t, v, country, currency, payment) <= |t|
    ensures CountFiltered(t, v, country, currency, payment) == |t| <==>
      forall i :: 0 <= i < |t| ==> v(t[i]).countryIso == country && v(t[i]).currencyIso == currency && v(t[i]).paymentMethod == payment
    ensures (forall i :: 0 <= i < |t| ==> v(t[i]).countryIso != country) ==> CountFiltered(t, v, country, currency, payment) == 0
  {
    var m := MatchesFilter(v, country, currency, payment);
    CountWhereFull(t, m);
    if forall i :: 0 <= i < |t| ==> v(t[i]).countryIso != country {
      CountWhereNone(t, m);
    }
  }

  /** Before t and After t partition the table, whatever t is. */
  lemma PeriodSplit<T>(t: seq<T>, v: T -> OfferInfo, time: int)
    ensures CountPeriod(t, v, Before, time) + CountPeriod(t, v, After, time) == |t|
  {
    CountWhereComplement(t, PeriodIs(v, Before, time), PeriodIs(v, After, time));
  }

  /** Nothing is modified after the last modification time, and a non-empty
      table has at least one row at it. */
  lemma PeriodAtLastModification<T>(t: seq<T>, v: T -> OfferInfo)
    ensures CountPeriod(t, v, After, LastModification(t, v) + 1) == 0
    ensures |t| > 0 ==> CountPeriod(t, v, After, LastModification(t, v)) >= 1
    ensures |t| > 0 ==> CountPeriod(t, v, Before, LastModification(t, v)) < |t|
  {
    NoneAfterLastModification(t, v);
    if |t| > 0 {
      SomeAtLastModification(t, v);
      PeriodSplit(t, v, LastModification(t, v));
    }
  }

  lemma NoneAfterLastModification<T>(t: seq<T>, v: T -> OfferInfo)
    ensures CountPeriod(t, v, After, LastModification(t, v) + 1) == 0
  {
    var after := PeriodIs(v, After, LastModification(t, v) + 1);
    assert forall i :: 0 <= i < |t| ==> !after(t[i]);
    CountWhereNone(t, after);
  }

  lemma SomeAtLastModification<T>(t: seq<T>, v: T -> OfferInfo)
    requires |t| > 0
    ensures CountPeriod(t, v, After, LastModification(t, v)) >= 1
  {
    var m := LastModification(t, v);
    var i :| 0 <= i < |t| && v(t[i]).timeModification == m;
    assert PeriodIs(v, After, m)(t[i]);
    CountWhereSome(t, PeriodIs(v, After, m), i);
  }

  /** A deleted id is gone; every row with another id is still there, and
      the table's keys stay unique. */
  lemma DeleteRemovesOnlyThatId<T(!new)>(t: seq<T>, v: T -> OfferInfo, key: Key, id: Hash)
    ensures !Exists(Remove(t, v, id), v, id)
    ensures forall i :: 0 <= i < |t| && v(t[i]).idTransaction != id ==> t[i] in Remove(t, v, id)
    ensures UniqueKeys(t, v, key) ==> UniqueKeys(Remove(t, v, id), v, key)
  {
    if UniqueKeys(t, v, key) {
      FilterKeepsUniqueKeys(t, v, key, IdIsNot(v, id));
    }
  }

  /** In a table with unique ids every listed row is the row fetched by its id. */
  lemma ListedRowsAreFetched<T>(t: seq<T>, v: T -> OfferInfo)
    requires UniqueKeys(t, v, ByTransaction)
    ensures forall i :: 0 <= i < |t| ==> Get(t, v, v(t[i]).idTransaction) == Some(t[i])
  {
    forall i | 0 <= i < |t|
      ensures Get(t, v, v(t[i]).idTransaction) == Some(t[i])
    {
      var k := IndexWhere(t, IdIs(v, v(t[i]).idTransaction));
      assert k.Some?;
      assert IdIs(v, v(t[i]).idTransaction)(t[k.value]);
      if k.value != i {
        assert false;
      }
    }
  }

  /** After an edit, fetching by id and by hash returns every field as edited,
      provided no row with another key carries the edited id or hash. */
  lemma EditThenGet<T>(t: seq<T>, v: T -> OfferInfo, key: Key, row: T)
    requires UniqueKeys(t, v, key)
    requires HasKey(t, v, key, KeyOf(v(row), key))
    requires forall i :: 0 <= i < |t| && KeyOf(v(t[i]), key) != KeyOf(v(row), key) ==>
      v(t[i]).hash != v(row).hash && v(t[i]).idTransaction != v(row).idTransaction
    ensures UniqueKeys(Update(t, v, key, row), v, key)
    ensures Get(Update(t, v, key, row), v, v(row).idTransaction) == Some(row)
    ensures GetByHash(Update(t, v, key, row), v, v(row).hash) == Some(row)
  {
    var r := Update(t, v, key, row);
    var k :| 0 <= k < |t| && KeyOf(v(t[k]), key) == KeyOf(v(row), key);
    assert r[k] == row;
    var j := IndexWhere(r, IdIs(v, v(row).idTransaction));
    assert j.Some? by {
      assert IdIs(v, v(row).idTransaction)(r[k]);
    }
    assert r[j.value] == row by {
      assert IdIs(v, v(row).idTransaction)(r[j.value]);
    }
    var l := IndexWhere(r, HashIs(v, v(row).hash));
    assert l.Some? by {
      assert HashIs(v, v(row).hash)(r[k]);
    }
    assert r[l.value] == row by {
      assert HashIs(v, v(row).hash)(r[l.value]);
    }
  }

  /** Purging expired rows leaves only unexpired ones; a table of expired
      rows becomes empty. */
  lemma DeleteOldAllExpired<T(!new)>(t: seq<T>, v: T -> OfferInfo, now: int)
    requires forall i :: 0 <= i < |t| ==> v(t[i]).timeToExpiration < now
    ensures RemoveExpired(t, v, now) == []
  {
    CountWhereNone(t, Unexpired(v, now));
  }

  // ---------------------------------------------------------------------
  // The database: three tables and the change callback

  datatype Db = Db(buy: seq<OfferInfo>, sell: seq<OfferInfo>, my: seq<MyOfferInfo>)

  /** The key of the buy and sell tables and the key of the own-offer table. */
  const OfferKey: Key := ByTransaction
  const MyOfferKey: Key := ByHash

  ghost predicate Valid(db: Db)
  {
    UniqueKeys(db.buy, PlainView, OfferKey) && UniqueKeys(db.sell, PlainView, OfferKey) && UniqueKeys(db.my, MyView, MyOfferKey)
  }

  /** `TypeTable` and `TypeTableOperation` as reported to `CallBackDB`. */
  datatype TypeTable = OffersBuy | OffersSell | MyOffers

  datatype TableOperation = Add | Edit | Delete

  /** One `finishTableOperation(table, operation, status)` notification. */
  datatype Event = Event(table: TypeTable, operation: TableOperation, status: TableStatus)

  datatype Change = Change(db: Db, event: Event)

  function Offers(db: Db, kind: OfferKind): seq<OfferInfo>
  {
    match kind
    case Buy => db.buy
    case Sell => db.sell
  }

  function Other(kind: OfferKind): OfferKind
  {
    match kind
    case Buy => Sell
    case Sell => Buy
  }

  function WithOffers(db: Db, kind: OfferKind, t: seq<OfferInfo>): (r: Db)
    ensures Offers(r, kind) == t && r.my == db.my
    ensures Offers(r, Other(kind)) == Offers(db, Other(kind))
    ensures kind == Buy ==> r.sell == db.sell
    ensures kind == Sell ==> r.buy == db.buy
  {
    match kind
    case Buy => db.(buy := t)
    case Sell => db.(sell := t)
  }

  function TableOf(kind: OfferKind): TypeTable
  {
    match kind
    case Buy => OffersBuy
    case Sell => OffersSell
  }

  /** Only the table of `kind` may differ between `a` and `b`. */
  predicate OnlySide(a: Db, b: Db, kind: OfferKind)
  {
    Offers(b, Other(kind)) == Offers(a, Other(kind)) && b.my == a.my
  }

  /** `addOfferBuy` / `addOfferSell`. */
  function AddOffer(db: Db, kind: OfferKind, o: OfferInfo): (c: Change)
    ensures c.event.table == TableOf(kind) && c.event.operation == Add
    ensures c.event.status == Succeeded <==> !HasId(Offers(db, kind), PlainView, o.idTransaction)
    ensures c.event.status == Succeeded ==> Offers(c.db, kind) == Offers(db, kind) + [o]
    ensures c.event.status == Failed ==> c.db == db
    ensures OnlySide(db, c.db, kind)
  {
    var (t, st) := Insert(Offers(db, kind), PlainView, OfferKey, o);
    Change(WithOffers(db, kind, t), Event(TableOf(kind), Add, st))
  }

  /** `editOfferBuy` / `editOfferSell`: the row with the offer's id takes its
      fields, and the edit is always reported as successful. */
  function EditOffer(db: Db, kind: OfferKind, o: OfferInfo): (c: Change)
    ensures c.event == Event(TableOf(kind), Edit, Succeeded)
    ensures Offers(c.db, kind) == Update(Offers(db, kind), PlainView, OfferKey, o)
    ensures OnlySide(db, c.db, kind)
  {
    Change(WithOffers(db, kind, Update(Offers(db, kind), PlainView, OfferKey, o)), Event(TableOf(kind), Edit, Succeeded))
  }

  /** `deleteOfferBuy` / `deleteOfferSell` by transaction id. */
  function DeleteOffer(db: Db, kind: OfferKind, id: Hash): (c: Change)
    ensures c.event == Event(TableOf(kind), Delete, Succeeded)
    ensures !HasId(Offers(c.db, kind), PlainView, id)
    ensures forall o :: o in Offers(c.db, kind) <==> o in Offers(db, kind) && o.idTransaction != id
    ensures OnlySide(db, c.db, kind)
  {
    Change(WithOffers(db, kind, Remove(Offers(db, kind), PlainView, id)), Event(TableOf(kind), Delete, Succeeded))
  }

  /** `deleteOfferBuyByHash` / `deleteOfferSellByHash`. */
  function DeleteOfferByHash(db: Db, kind: OfferKind, h: Hash): (c: Change)
    ensures c.event == Event(TableOf(kind), Delete, Succeeded)
    ensures !HasHash(Offers(c.db, kind), PlainView, h)
    ensures forall o :: o in Offers(c.db, kind) <==> o in Offers(db, kind) && o.hash != h
    ensures OnlySide(db, c.db, kind)
  {
    Change(WithOffers(db, kind, RemoveByHash(Offers(db, kind), PlainView, h)), Event(TableOf(kind), Delete, Succeeded))
  }

  /** `addMyOffer`: an own offer whose hash is already stored is refused. */
  function AddMyOffer(db: Db, m: MyOfferInfo): (c: Change)
    ensures c.event.table == MyOffers && c.event.operation == Add
    ensures c.event.status == Succeeded <==> !HasHash(db.my, MyView, m.info.hash)
    ensures c.event.status == Succeeded ==> c.db.my == db.my + [m]
    ensures c.event.status == Failed ==> c.db == db
    ensures c.db.buy == db.buy && c.db.sell == db.sell
  {
    var (t, st) := Insert(db.my, MyView, MyOfferKey, m);
    Change(db.(my := t), Event(MyOffers, Add, st))
  }

  /** `editMyOffer`: the own offer with the same hash takes the new fields. */
  function EditMyOffer(db: Db, m: MyOfferInfo): (c: Change)
    ensures c.event == Event(MyOffers, Edit, Succeeded)
    ensures c.db.my == Update(db.my, MyView, MyOfferKey, m)
    ensures c.db.buy == db.buy && c.db.sell == db.sell
  {
    Change(db.(my := Update(db.my, MyView, MyOfferKey, m)), Event(MyOffers, Edit, Succeeded))
  }

  function DeleteMyOffer(db: Db, id: Hash): (c: Change)
    ensures c.event == Event(MyOffers, Delete, Succeeded)
    ensures !HasId(c.db.my, MyView, id)
    ensures forall m :: m in c.db.my <==> m in db.my && m.info.idTransaction != id
    ensures c.db.buy == db.buy && c.db.sell == db.sell
  {
    Change(db.(my := Remove(db.my, MyView, id)), Event(MyOffers, Delete, Succeeded))
  }

  function DeleteMyOfferByHash(db: Db, h: Hash): (c: Change)
    ensures c.event == Event(MyOffers, Delete, Succeeded)
    ensures !HasHash(c.db.my, MyView, h)
    ensures forall m :: m in c.db.my <==> m in db.my && m.info.hash != h
    ensures c.db.buy == db.buy && c.db.sell == db.sell
  {
    Change(db.(my := RemoveByHash(db.my, MyView, h)), Event(MyOffers, Delete, Succeeded))
  }

  /** `countMyOffers(country, currency, paymentMethod, type, status)`. */
  function MyMatches(country: string, currency: string, payment: int, kind: OfferKind, status: OfferStatus): MyOfferInfo -> bool
  {
    (m: MyOfferInfo) => m.info.countryIso == country && m.info.currencyIso == currency
         && m.info.paymentMethod == payment && m.kind == kind && m.status == status
  }

  function CountMyFiltered(db: Db, country: string, currency: string, payment: int, kind: OfferKind, status: OfferStatus): (n: nat)
    ensures n <= |db.my|
  {
    CountWhere(db.my, MyMatches(country, currency, payment, kind, status))
  }

  /** Adding an own offer raises the filtered own-offer count exactly when
      the offer matches country, currency, payment method, side and status;
      a refused add leaves every count as it was. */
  lemma CountMyFilteredAdd(db: Db, m: MyOfferInfo, country: string, currency: string, payment: int, kind: OfferKind, status: OfferStatus)
    ensures var c := AddMyOffer(db, m);
      CountMyFiltered(c.db, country, currency, payment, kind, status)
        == CountMyFiltered(db, country, currency, payment, kind, status)
         + (if c.event.status == Succeeded && m.info.countryIso == country && m.info.currencyIso == currency
               && m.info.paymentMethod == payment && m.kind == kind && m.status == status then 1 else 0)
  {
    CountWhereAppend(db.my, m, MyMatches(country, currency, payment, kind, status));
  }

  /** An own offer with the given fields, the rest left empty. */
  function MyFixture(hash: Hash, id: Hash, kind: OfferKind, status: OfferStatus, country: string, currency: string, payment: int): MyOfferInfo
  {
    MyOfferInfo(OfferInfo("", hash, id, 0, 0, "", "", country, currency, payment, 0, 0, 0, 0), kind, status)
  }

  /** The own-offer fixture of the database tests: three offers (RU/RUB/1
      buy Active, US/USD/128 buy Draft, UA/UAN/128 sell Active) with
      distinct hashes, added to an empty table, count three in all, one for
      (RU, RUB, 1, Buy, Active) and none for (RU, RUB, 1, Buy, Draft). */
  lemma CountMyOffersFixture(h1: Hash, h2: Hash, h3: Hash, i1: Hash, i2: Hash, i3: Hash)
    requires h1 != h2 && h1 != h3 && h2 != h3
    ensures var m1 := MyFixture(h1, i1, Buy, Active, "RU", "RUB", 1);
      var m2 := MyFixture(h2, i2, Buy, Draft, "US", "USD", 128);
      var m3 := MyFixture(h3, i3, Sell, Active, "UA", "UAN", 128);
      var db := AddMyOffer(AddMyOffer(AddMyOffer(Db([], [], []), m1).db, m2).db, m3).db;
      && |db.my| == 3
      && CountMyFiltered(db, "RU", "RUB", 1, Buy, Active) == 1
      && CountMyFiltered(db, "RU", "RUB", 1, Buy, Draft) == 0
  {
    var m1 := MyFixture(h1, i1, Buy, Active, "RU", "RUB", 1);
    var m2 := MyFixture(h2, i2, Buy, Draft, "US", "USD", 128);
    var m3 := MyFixture(h3, i3, Sell, Active, "UA", "UAN", 128);
    var db0 := Db([], [], []);
    var db1 := AddMyOffer(db0, m1).db;
    assert db1.my == [m1];
    var db2 := AddMyOffer(db1, m2).db;
    assert db2.my == [m1, m2];
    var db3 := AddMyOffer(db2, m3).db;
    assert db3.my == [m1, m2, m3];
    CountMyFilteredAdd(db0, m1, "RU", "RUB", 1, Buy, Active);
    CountMyFilteredAdd(db1, m2, "RU", "RUB", 1, Buy, Active);
    CountMyFilteredAdd(db2, m3, "RU", "RUB", 1, Buy, Active);
    CountMyFilteredAdd(db0, m1, "RU", "RUB", 1, Buy, Draft);
    CountMyFilteredAdd(db1, m2, "RU", "RUB", 1, Buy, Draft);
    CountMyFilteredAdd(db2, m3, "RU", "RUB", 1, Buy, Draft);
  }

  /** `deleteOldOffersBuy` / `deleteOldOffersSell`. */
  function DeleteOldOffers(db: Db, kind: OfferKind, now: int): (r: Db)
    ensures forall o :: o in Offers(r, kind) <==> o in Offers(db, kind) && o.timeToExpiration >= now
    ensures r.my == db.my
  {
    WithOffers(db, kind, RemoveExpired(Offers(db, kind), PlainView, now))
  }

  /** `deleteOldMyOffers`. */
  function DeleteOldMyOffers(db: Db, now: int): (r: Db)
    ensures forall m :: m in r.my <==> m in db.my && m.info.timeToExpiration >= now
    ensures r.buy == db.buy && r.sell == db.sell
  {
    db.(my := RemoveExpired(db.my, MyView, now))
  }

  /** `dexSyncInfo`'s database part: total offers and latest modification. */
  function TotalOffers(db: Db): nat
  {
    |db.buy| + |db.sell|
  }

  // ---------------------------------------------------------------------
  // Database-level properties

  /** Deleting from the sell table leaves the buy table's copy of the same id. */
  lemma DeleteSellKeepsBuy(db: Db, id: Hash)
    ensures DeleteOffer(db, Sell, id).db.buy == db.buy
    ensures HasId(db.buy, PlainView, id) ==> Exists(DeleteOffer(db, Sell, id).db.buy, PlainView, id)
    ensures !Exists(DeleteOffer(db, Sell, id).db.sell, PlainView, id)
  {
  }

  lemma InsertKeepsUniqueKeys<T>(t: seq<T>, v: T -> OfferInfo, key: Key, row: T)
    requires UniqueKeys(t, v, key)
    ensures UniqueKeys(Insert(t, v, key, row).0, v, key)
  {
    if !HasKey(t, v, key, KeyOf(v(row), key)) {
      var r := t + [row];
      forall i, j | 0 <= i < j < |r|
        ensures KeyOf(v(r[i]), key) != KeyOf(v(r[j]), key)
      {
        if j == |t| {
          assert r[i] == t[i];
        }
      }
    }
  }

  /** Adding and editing keep the primary keys unique. */
  lemma AddEditKeepValid(db: Db, kind: OfferKind, o: OfferInfo, m: MyOfferInfo)
    requires Valid(db)
    ensures Valid(AddOffer(db, kind, o).db)
    ensures Valid(EditOffer(db, kind, o).db)
    ensures Valid(AddMyOffer(db, m).db)
    ensures Valid(EditMyOffer(db, m).db)
  {
    InsertKeepsUniqueKeys(Offers(db, kind), PlainView, OfferKey, o);
    InsertKeepsUniqueKeys(db.my, MyView, MyOfferKey, m);
  }

  /** Deleting and purging keep the primary keys unique. */
  lemma DeleteKeepValid(db: Db, kind: OfferKind, id: Hash, h: Hash, now: int)
    requires Valid(db)
    ensures Valid(DeleteOffer(db, kind, id).db)
    ensures Valid(DeleteOfferByHash(db, kind, h).db)
    ensures Valid(DeleteMyOffer(db, id).db)
    ensures Valid(DeleteMyOfferByHash(db, h).db)
    ensures Valid(DeleteOldOffers(db, kind, now))
    ensures Valid(DeleteOldMyOffers(db, now))
  {
    var t := Offers(db, kind);
    FilterKeepsUniqueKeys(t, PlainView, OfferKey, IdIsNot(PlainView, id));
    FilterKeepsUniqueKeys(t, PlainView, OfferKey, HashIsNot(PlainView, h));
    FilterKeepsUniqueKeys(t, PlainView, OfferKey, Unexpired(PlainView, now));
    FilterKeepsUniqueKeys(db.my, MyView, MyOfferKey, IdIsNot(MyView, id));
    FilterKeepsUniqueKeys(db.my, MyView, MyOfferKey, HashIsNot(MyView, h));
    FilterKeepsUniqueKeys(db.my, MyView, MyOfferKey, Unexpired(MyView, now));
  }

  /** The change callback reports (OffersSell, Add, Ok) after adding a sell
      offer with a new id, and (OffersBuy, Edit, Ok) after editing a buy offer. */
  lemma CallbackReports(db: Db, o: OfferInfo, e: OfferInfo)
    requires !HasId(db.sell, PlainView, o.idTransaction)
    ensures AddOffer(db, Sell, o).event == Event(OffersSell, Add, Succeeded)
    ensures EditOffer(AddOffer(db, Sell, o).db, Buy, e).event == Event(OffersBuy, Edit, Succeeded)
  {
  }
}
