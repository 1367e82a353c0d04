/** The payout ledger of core/payout_engine.py: an append-only list of payout
    records that admits at most one record per farmer. */
module Payout {

  /** The amount paid when the caller names none. */
  const DefaultAmount: int := 5000

  /** The reason given when a farmer already has a record. */
  const DuplicateMessage: string := "Payout already processed for this farmer recently."

  /** One ledger row: transaction id, timestamp, farmer, amount and reason. */
  datatype PayoutRecord = PayoutRecord(
    transactionId: string,
    date: string,
    farmerId: string,
    amount: int,
    reason: string)

  /** The records of the ledger that belong to the farmer (the `Farmer ID` mask). */
  function RecentPayouts(ledger: seq<PayoutRecord>, farmerId: string): (r: seq<PayoutRecord>)
    ensures forall p :: p in r <==> p in ledger && p.farmerId == farmerId
    ensures r == [] <==> !HasPayout(ledger, farmerId)
  {
    if ledger == [] then []
    else if ledger[0].farmerId == farmerId then [ledger[0]] + RecentPayouts(ledger[1..], farmerId)
    else RecentPayouts(ledger[1..], farmerId)
  }

  /** Some record of the ledger belongs to the farmer. */
  predicate HasPayout(ledger: seq<PayoutRecord>, farmerId: string) {
    exists p :: p in ledger && p.farmerId == farmerId
  }

  /** No two records share a farmer. */
  predicate OnePerFarmer(ledger: seq<PayoutRecord>) {
    forall i, j :: 0 <= i < j < |ledger| ==> ledger[i].farmerId != ledger[j].farmerId
  }

  const LowerHex: string := "0123456789abcdef"
  const UpperHex: string := "0123456789ABCDEF"

  /** The shape of `uuid.uuid4().hex`: 32 lower-case hexadecimal digits. */
  predicate IsUuidHex(s: string) {
    |s| == 32 && forall k :: 0 <= k < |s| ==> s[k] in LowerHex
  }

  function UpperChar(c: char): char {
    if 'a' <= c <= 'z' then (c as int - 32) as char else c
  }

  /** `f"TXN-{hex[:8].upper()}"`. */
  function TransactionId(uuidHex: string): (r: string)
    requires IsUuidHex(uuidHex)
    ensures |r| == 12 && r[..4] == "TXN-"
    ensures forall k :: 4 <= k < 12 ==> r[k] in UpperHex
    ensures forall k :: 0 <= k < 8 ==> r[4 + k] == UpperChar(uuidHex[k])
  {
    var digits := seq(8, k requires 0 <= k < 8 => UpperChar(uuidHex[k]));
    assert forall k :: 0 <= k < 8 ==> digits[k] in UpperHex by {
      forall k | 0 <= k < 8 ensures digits[k] in UpperHex {
        var c := uuidHex[k];
        assert c in LowerHex;
        var i :| 0 <= i < 16 && LowerHex[i] == c;
        assert UpperChar(c) == UpperHex[i];
      }
    }
    "TXN-" + digits
  }

  /** Upper-casing is one-to-one on lower-case hexadecimal digits. */
  lemma UpperCharInjective(c: char, d: char)
    requires c in LowerHex && d in LowerHex && c != d
    ensures UpperChar(c) != UpperChar(d)
  {
    var i :| 0 <= i < 16 && LowerHex[i] == c;
    var j :| 0 <= j < 16 && LowerHex[j] == d;
    assert UpperChar(c) == UpperHex[i] && UpperChar(d) == UpperHex[j];
  }

  /** Ids are as unique as the uuids' first eight digits: two uuids that
      differ there give different transaction ids. */
  lemma {:induction false} DistinctPrefixesGiveDistinctIds(u1: string, u2: string)
    requires IsUuidHex(u1) && IsUuidHex(u2)
    requires u1[..8] != u2[..8]
    ensures TransactionId(u1) != TransactionId(u2)
  {
    var k :| 0 <= k < 8 && u1[k] != u2[k];
    UpperCharInjective(u1[k], u2[k]);
    assert TransactionId(u1)[4 + k] != TransactionId(u2)[4 + k];
  }

  /** What one call of `trigger_payout` answers, with the ledger it leaves. */
  datatype Authorization = Authorization(success: bool, result: string, ledger: seq<PayoutRecord>)

  /** The effect of `trigger_payout` on a ledger, with the fresh uuid and
      timestamp supplied by the caller: the value-level account of the method
      `PayoutEngine.TriggerPayout`, about which the lemmas below are stated. */
  function Authorize(ledger: seq<PayoutRecord>, farmerId: string, reason: string, amount: int,
                     uuidHex: string, timestamp: string): (a: Authorization)
    requires IsUuidHex(uuidHex)
    ensures a.success <==> !HasPayout(ledger, farmerId)
    ensures |a.ledger| == |ledger| + (if a.success then 1 else 0)
  {
    if ledger != [] && RecentPayouts(ledger, farmerId) != [] then
      Authorization(false, DuplicateMessage, ledger)
    else
      var txId := TransactionId(uuidHex);
      Authorization(true, txId, ledger + [PayoutRecord(txId, timestamp, farmerId, amount, reason)])
  }

  /** A call is refused exactly when the farmer already has a record, and a
      refusal carries the duplicate message and leaves the ledger as it was. */
  lemma AuthorizeRefusesExactlyDuplicates(ledger: seq<PayoutRecord>, farmerId: string, reason: string,
                                          amount: int, uuidHex: string, timestamp: string)
    requires IsUuidHex(uuidHex)
    ensures var a := Authorize(ledger, farmerId, reason, amount, uuidHex, timestamp);
      (!a.success <==> HasPayout(ledger, farmerId)) &&
      (!a.success ==> a.result == DuplicateMessage && a.ledger == ledger)
  {
    if HasPayout(ledger, farmerId) {
      var p :| p in ledger && p.farmerId == farmerId;
      assert p in RecentPayouts(ledger, farmerId);
    }
  }

  /** A successful call appends exactly one record, after the untouched old
      ones, holding the caller's farmer, amount and reason and the returned id. */
  lemma AuthorizeAppendsOneRecord(ledger: seq<PayoutRecord>, farmerId: string, reason: string,
                                  amount: int, uuidHex: string, timestamp: string)
    requires IsUuidHex(uuidHex)
    ensures var a := Authorize(ledger, farmerId, reason, amount, uuidHex, timestamp);
      a.success ==>
        |a.ledger| == |ledger| + 1 && a.ledger[..|ledger|] == ledger &&
        a.ledger[|ledger|] == PayoutRecord(a.result, timestamp, farmerId, amount, reason) &&
        a.result == TransactionId(uuidHex)
  {
    var a := Authorize(ledger, farmerId, reason, amount, uuidHex, timestamp);
    if a.success {
      assert a.ledger[..|ledger|] == ledger;
    }
  }

  /** The old ledger is always a prefix of the new one: history is never rewritten. */
  lemma AuthorizeIsAppendOnly(ledger: seq<PayoutRecord>, farmerId: string, reason: string,
                              amount: int, uuidHex: string, timestamp: string)
    requires IsUuidHex(uuidHex)
    ensures var a := Authorize(ledger, farmerId, reason, amount, uuidHex, timestamp);
      |ledger| <= |a.ledger| && a.ledger[..|ledger|] == ledger
  {
    AuthorizeAppendsOneRecord(ledger, farmerId, reason, amount, uuidHex, timestamp);
  }

  /** "At most one record per farmer" is preserved by every call. */
  lemma AuthorizePreservesOnePerFarmer(ledger: seq<PayoutRecord>, farmerId: string, reason: string,
                                       amount: int, uuidHex: string, timestamp: string)
    requires IsUuidHex(uuidHex)
    requires OnePerFarmer(ledger)
    ensures OnePerFarmer(Authorize(ledger, farmerId, reason, amount, uuidHex, timestamp).ledger)
  {
    var a := Authorize(ledger, farmerId, reason, amount, uuidHex, timestamp);
    AuthorizeRefusesExactlyDuplicates(ledger, farmerId, reason, amount, uuidHex, timestamp);
    if a.success {
      forall i | 0 <= i < |ledger| ensures ledger[i].farmerId != farmerId {
        assert ledger[i] in ledger;
      }
    }
  }

  /** Two calls for the same farmer: if the farmer had no record the first
      succeeds, and the second is always refused without changing the ledger. */
  lemma AuthorizeTwiceForSameFarmer(ledger: seq<PayoutRecord>, farmerId: string,
                                    reason1: string, amount1: int, uuidHex1: string, timestamp1: string,
                                    reason2: string, amount2: int, uuidHex2: string, timestamp2: string)
    requires IsUuidHex(uuidHex1) && IsUuidHex(uuidHex2)
    ensures var first := Authorize(ledger, farmerId, reason1, amount1, uuidHex1, timestamp1);
      var second := Authorize(first.ledger, farmerId, reason2, amount2, uuidHex2, timestamp2);
      (!HasPayout(ledger, farmerId) ==> first.success) &&
      !second.success && second.result == DuplicateMessage &&
      |second.ledger| == |first.ledger|
  {
    var first := Authorize(ledger, farmerId, reason1, amount1, uuidHex1, timestamp1);
    AuthorizeRefusesExactlyDuplicates(ledger, farmerId, reason1, amount1, uuidHex1, timestamp1);
    if first.success {
      assert first.ledger[|ledger|] in first.ledger;
    }
    assert HasPayout(first.ledger, farmerId);
    AuthorizeRefusesExactlyDuplicates(first.ledger, farmerId, reason2, amount2, uuidHex2, timestamp2);
  }

  /** The payout engine: the ledger, empty at creation, that `TriggerPayout` grows. */
  class PayoutEngine {
    var ledger: seq<PayoutRecord>

    constructor ()
      ensures ledger == [] && OnePerFarmer(ledger)
    {
      ledger := [];
    }

    /** trigger_payout: refuses a farmer who already has a record; otherwise
        appends a record with the transaction id built from `uuidHex`. The
        first `ensures` links the method to `Authorize`, so that the lemmas
        about `Authorize` apply to every call; the others state the outcome and
        the new ledger directly. */
    method TriggerPayout(farmerId: string, reason: string, uuidHex: string, timestamp: string,
                         amount: int := DefaultAmount)
      returns (success: bool, result: string)
      requires IsUuidHex(uuidHex)
      modifies this
      ensures Authorization(success, result, ledger)
           == Authorize(old(ledger), farmerId, reason, amount, uuidHex, timestamp)
      ensures success <==> !HasPayout(old(ledger), farmerId)
      ensures !success ==> result == DuplicateMessage && ledger == old(ledger)
      ensures success ==> ledger == old(ledger) + [PayoutRecord(result, timestamp, farmerId, amount, reason)]
      ensures old(OnePerFarmer(ledger)) ==> OnePerFarmer(ledger)
    {
      AuthorizeRefusesExactlyDuplicates(ledger, farmerId, reason, amount, uuidHex, timestamp);
      if OnePerFarmer(ledger) {
        AuthorizePreservesOnePerFarmer(ledger, farmerId, reason, amount, uuidHex, timestamp);
      }
      if ledger != [] {
        var recent := RecentPayouts(ledger, farmerId);
        if recent != [] {
          return false, DuplicateMessage;
        }
      }
      var txId := TransactionId(uuidHex);
      var record := PayoutRecord(txId, timestamp, farmerId, amount, reason);
      ledger := ledger + [record];
      return true, txId;
    }

    /** get_ledger: every record, in the order the payouts were made. */
    function GetLedger(): (r: seq<PayoutRecord>)
      reads this
      ensures r == ledger
    {
      ledger
    }
  }
}
