/** `TransactionService`: the engine state (thresholds, the stored
    transactions and the two blacklists) and the operations on it —
    validating a transaction, recording feedback, and the per-card
    history. */
module Transactions {
  import opened Base
  import opened Seqs
  import opened Text
  import opened Regions
  import opened Decision
  import opened Limits
  import Order
  import Validation
  import StolenCards
  import SuspiciousIps

  /** A stored transaction. `time` is the date in seconds; `feedback` is
      the nullable feedback column, `Some("")` when none was given. */
  datatype Tx = Tx(
    id: int, amount: int, ip: string, number: string, region: Region,
    time: int, result: Verdict, feedback: Option<string>)

  /** The state behind the service: the current thresholds, the stored
      transactions in insertion order, the stolen cards and the
      suspicious IPs. */
  datatype Engine = Engine(
    limits: Thresholds, ledger: seq<Tx>, stolen: set<string>, suspicious: set<string>)

  const InitialEngine := Engine(InitialThresholds, [], {}, {})

  /** `minusHours(1)`, in seconds. */
  const OneHour := 3600

  /** A transaction request after bean validation. `time` is the parsed
      date, or None when the date does not parse. */
  datatype Request = Request(amount: int, ip: string, number: string, region: string, time: Option<int>)

  /** The `result` and `info` of the response. */
  datatype Evaluation = Evaluation(result: Verdict, info: string)

  /** The identity column counts from 1, so the n-th stored transaction
      has id n. */
  predicate IdsAreIndices(ledger: seq<Tx>) {
    forall i :: 0 <= i < |ledger| ==> ledger[i].id == i + 1
  }

  /** The state invariant: ordered thresholds and identity ids. */
  predicate Inv(st: Engine) {
    Ordered(st.limits) && IdsAreIndices(st.ledger)
  }

  lemma InitialInv()
    ensures Inv(InitialEngine)
  {
  }

  // ---------------------------------------------------------------------
  // The correlation window
  // ---------------------------------------------------------------------

  /** `findByNumberAndDateBetween(number, t - 1h, t)`: a derived
      `Between` query, inclusive at both ends. */
  predicate InWindow(h: Tx, number: string, t: int) {
    h.number == number && t - OneHour <= h.time <= t
  }

  function Window(ledger: seq<Tx>, number: string, t: int): (r: seq<Tx>)
    ensures forall h :: h in r <==> h in ledger && InWindow(h, number, t)
  {
    if |ledger| == 0 then []
    else
      var rest := Window(ledger[..|ledger| - 1], number, t);
      var last := ledger[|ledger| - 1];
      assert ledger == ledger[..|ledger| - 1] + [last];
      if InWindow(last, number, t) then rest + [last] else rest
  }

  /** The distinct IPs of window entries other than the request's IP. */
  ghost function OtherIps(ledger: seq<Tx>, number: string, t: int, ip: string): set<string> {
    set h | h in ledger && InWindow(h, number, t) && h.ip != ip :: h.ip
  }

  /** The distinct regions of window entries other than the request's. */
  ghost function OtherRegions(ledger: seq<Tx>, number: string, t: int, region: Region): set<Region> {
    set h | h in ledger && InWindow(h, number, t) && h.region != region :: h.region
  }

  function IpsOf(history: seq<Tx>): (r: seq<string>)
    ensures forall y :: y in r <==> exists h :: h in history && h.ip == y
  {
    if |history| == 0 then []
    else
      assert history == [history[0]] + history[1..];
      [history[0].ip] + IpsOf(history[1..])
  }

  function RegionsOf(history: seq<Tx>): (r: seq<Region>)
    ensures forall y :: y in r <==> exists h :: h in history && h.region == y
  {
    if |history| == 0 then []
    else
      assert history == [history[0]] + history[1..];
      [history[0].region] + RegionsOf(history[1..])
  }

  /** `distinctIpCount`: map to IP, drop the request's IP, count the
      distinct rest. */
  function IpCorrelation(ledger: seq<Tx>, number: string, t: int, ip: string): (n: nat)
    ensures n == |OtherIps(ledger, number, t, ip)|
  {
    var kept := Without(IpsOf(Window(ledger, number, t)), ip);
    DistinctCount(kept);
    assert (set y | y in kept) == OtherIps(ledger, number, t, ip);
    |Distinct(kept)|
  }

  /** `distinctRegionCount`, likewise for regions. */
  function RegionCorrelation(ledger: seq<Tx>, number: string, t: int, region: Region): (n: nat)
    ensures n == |OtherRegions(ledger, number, t, region)|
  {
    var kept := Without(RegionsOf(Window(ledger, number, t)), region);
    DistinctCount(kept);
    assert (set y | y in kept) == OtherRegions(ledger, number, t, region);
    |Distinct(kept)|
  }

  // ---------------------------------------------------------------------
  // validateTransaction
  // ---------------------------------------------------------------------

  /** The eight checks for a request at time `t` in `region`. */
  function RequestSignals(st: Engine, req: Request, t: int, region: Region): Signals {
    ComputeSignals(st.limits.maxAllowed, st.limits.maxManual, req.amount,
      SuspiciousIps.IsIpSuspicious(st.suspicious, req.ip),
      StolenCards.IsCardStolen(st.stolen, req.number),
      IpCorrelation(st.ledger, req.number, t, req.ip),
      RegionCorrelation(st.ledger, req.number, t, region))
  }

  /** Some check reaches PROHIBITED. */
  ghost predicate ProhibitedCase(st: Engine, req: Request, t: int, region: Region) {
    || req.amount > st.limits.maxManual
    || req.ip in st.suspicious
    || req.number in st.stolen
    || |OtherIps(st.ledger, req.number, t, req.ip)| >= 3
    || |OtherRegions(st.ledger, req.number, t, region)| >= 3
  }

  /** Some check reaches MANUAL_PROCESSING. */
  ghost predicate ManualCase(st: Engine, req: Request, t: int, region: Region) {
    || st.limits.maxAllowed < req.amount <= st.limits.maxManual
    || |OtherIps(st.ledger, req.number, t, req.ip)| == 2
    || |OtherRegions(st.ledger, req.number, t, region)| == 2
  }

  /** `validateTransaction`. An unparsable date, then an unknown region
      code, is a bad request that changes nothing. Otherwise the verdict
      is the strictest tier any check reaches, the info lists the tokens
      of the checks at that tier in sorted order ("none" when ALLOWED),
      and exactly one record is appended with the next id and an empty
      feedback; thresholds and blacklists are untouched. */
  function ValidateTransaction(st: Engine, req: Request): (r: Step<Engine, Evaluation>)
    ensures r.out.Ok? <==> req.time.Some? && IsValidCode(Some(req.region))
    ensures r.out.Err? ==> r == Step(st, Err(BadRequest))
    ensures r.out.Ok? ==>
      var e := r.out.value;
      var t := req.time.value;
      var region := FromCode(Some(req.region)).value;
      && Name(region) == req.region
      && r.next == st.(ledger := st.ledger +
           [Tx(|st.ledger| + 1, req.amount, req.ip, req.number, region, t, e.result, Some(""))])
      && (e.result == Prohibited <==> ProhibitedCase(st, req, t, region))
      && (e.result == ManualProcessing <==>
            !ProhibitedCase(st, req, t, region) && ManualCase(st, req, t, region))
      && (e.info == "none" <==> e.result == Allowed)
      && (e.result != Allowed ==>
            e.info == Join(Winners(RequestSignals(st, req, t, region), e.result, AllReasons), ", "))
      && e.info != "unknown"
  {
    match req.time
    case None => Step(st, Err(BadRequest))
    case Some(t) =>
      match FromCode(Some(req.region))
      case None => Step(st, Err(BadRequest))
      case Some(region) =>
        var s := RequestSignals(st, req, t, region);
        var v := Decide(s);
        InfoListsWinningTier(s);
        var tx := Tx(|st.ledger| + 1, req.amount, req.ip, req.number, region, t, v, Some(""));
        Step(st.(ledger := st.ledger + [tx]), Ok(Evaluation(v, Info(s, v))))
  }

  lemma ValidatePreservesInv(st: Engine, req: Request)
    requires Inv(st)
    ensures Inv(ValidateTransaction(st, req).next)
  {
  }

  // ---------------------------------------------------------------------
  // addFeedback
  // ---------------------------------------------------------------------

  /** `findById`: the position of a record with that id. */
  function FindTx(ledger: seq<Tx>, id: int): (r: Option<nat>)
    ensures r.Some? ==> r.value < |ledger| && ledger[r.value].id == id
    ensures r.None? ==> forall i :: 0 <= i < |ledger| ==> ledger[i].id != id
  {
    if |ledger| == 0 then None
    else if ledger[|ledger| - 1].id == id then Some(|ledger| - 1)
    else FindTx(ledger[..|ledger| - 1], id)
  }

  /** The lookup reads only the ids. */
  lemma {:induction false} FindTxIds(a: seq<Tx>, b: seq<Tx>, id: int)
    requires |a| == |b|
    requires forall i :: 0 <= i < |a| ==> a[i].id == b[i].id
    ensures FindTx(a, id) == FindTx(b, id)
  {
    if |a| > 0 {
      FindTxIds(a[..|a| - 1], b[..|b| - 1], id);
    }
  }

  /** Under the invariant the ids present are exactly 1..n. */
  lemma FindTxIndices(ledger: seq<Tx>, id: int)
    requires IdsAreIndices(ledger)
    ensures FindTx(ledger, id).Some? <==> 1 <= id <= |ledger|
    ensures FindTx(ledger, id).Some? ==> FindTx(ledger, id).value == id - 1
  {
    if 1 <= id <= |ledger| {
      assert ledger[id - 1].id == id;
    }
  }

  /** Non-null and non-empty. */
  predicate HasFeedback(tx: Tx) {
    tx.feedback.Some? && |tx.feedback.value| > 0
  }

  /** `addFeedback`. The errors come in order — no such transaction,
      feedback already present, a value that is no verdict name in any
      case, a value equal to the original verdict — and change nothing.
      On success exactly that record gains the canonical verdict name as
      feedback, keeping its result, and the thresholds are adjusted with
      its amount. */
  function AddFeedback(st: Engine, id: int, value: string): (r: Step<Engine, Tx>)
    ensures FindTx(st.ledger, id).None? ==> r == Step(st, Err(NotFound))
    ensures FindTx(st.ledger, id).Some? ==>
      var k := FindTx(st.ledger, id).value;
      var tx := st.ledger[k];
      && (HasFeedback(tx) ==> r == Step(st, Err(Conflict)))
      && (!HasFeedback(tx) && ParseVerdict(value).None? ==> r == Step(st, Err(BadRequest)))
      && (!HasFeedback(tx) && ParseVerdict(value) == Some(tx.result) ==> r == Step(st, Err(Unprocessable)))
      && (r.out.Ok? ==>
            && !HasFeedback(tx)
            && ParseVerdict(value).Some?
            && ParseVerdict(value).value != tx.result
            && r.out.value == tx.(feedback := Some(Upper(value)))
            && r.next == st.(limits := AdjustLimits(st.limits, tx.amount, tx.result, ParseVerdict(value).value),
                             ledger := st.ledger[k := r.out.value]))
    ensures r.out.Ok? <==>
      && FindTx(st.ledger, id).Some?
      && !HasFeedback(st.ledger[FindTx(st.ledger, id).value])
      && ParseVerdict(value).Some?
      && ParseVerdict(value).value != st.ledger[FindTx(st.ledger, id).value].result
    ensures r.out.Err? ==> r.next == st
  {
    match FindTx(st.ledger, id)
    case None => Step(st, Err(NotFound))
    case Some(k) =>
      var tx := st.ledger[k];
      if HasFeedback(tx) then Step(st, Err(Conflict))
      else
        match ParseVerdict(value)
        case None => Step(st, Err(BadRequest))
        case Some(v) =>
          if v == tx.result then Step(st, Err(Unprocessable))
          else
            var updated := tx.(feedback := Some(VerdictName(v)));
            Step(st.(limits := AdjustLimits(st.limits, tx.amount, tx.result, v),
                     ledger := st.ledger[k := updated]),
                 Ok(updated))
  }

  lemma FeedbackPreservesInv(st: Engine, id: int, value: string)
    requires Inv(st)
    ensures Inv(AddFeedback(st, id, value).next)
  {
  }

  /** Feedback is given once: after a successful call, any further
      feedback for the same transaction is a conflict. */
  lemma SecondFeedbackConflicts(st: Engine, id: int, value: string, again: string)
    requires AddFeedback(st, id, value).out.Ok?
    ensures var next := AddFeedback(st, id, value).next;
      AddFeedback(next, id, again) == Step(next, Err(Conflict))
  {
    var k := FindTx(st.ledger, id).value;
    var next := AddFeedback(st, id, value).next;
    FindTxIds(st.ledger, next.ledger, id);
    var v := ParseVerdict(value).value;
    assert |VerdictName(v)| > 0;
  }

  // ---------------------------------------------------------------------
  // getTransactionHistoryByNumber
  // ---------------------------------------------------------------------

  predicate IdsIncreasing(s: seq<Tx>) {
    forall i, j :: 0 <= i < j < |s| ==> s[i].id < s[j].id
  }

  /** `findByNumberOrderByTransactionIdAsc`. */
  function CardHistory(ledger: seq<Tx>, number: string): (r: seq<Tx>)
    ensures forall h :: h in r <==> h in ledger && h.number == number
    ensures IdsIncreasing(ledger) ==> IdsIncreasing(r)
  {
    if |ledger| == 0 then []
    else
      var init := ledger[..|ledger| - 1];
      var last := ledger[|ledger| - 1];
      var rest := CardHistory(init, number);
      assert ledger == init + [last];
      if last.number == number then
        assert IdsIncreasing(ledger) ==> forall h :: h in rest ==> h.id < last.id;
        rest + [last]
      else rest
  }

  /** `getTransactionHistoryByNumber`: a number failing the Luhn check is
      a bad request; a number with no transactions is not found;
      otherwise every transaction of that card, in id order. */
  function TransactionHistoryByNumber(ledger: seq<Tx>, number: string): (r: Result<seq<Tx>>)
    ensures !Validation.LuhnValid(number) ==> r == Err(BadRequest)
    ensures Validation.LuhnValid(number) && (forall h :: h in ledger ==> h.number != number) ==>
      r == Err(NotFound)
    ensures r.Ok? ==>
      && Validation.LuhnValid(number)
      && |r.value| > 0
      && (forall h :: h in r.value <==> h in ledger && h.number == number)
    ensures r.Ok? && IdsAreIndices(ledger) ==> IdsIncreasing(r.value)
    ensures r.Ok? <==> Validation.LuhnValid(number) && exists h :: h in ledger && h.number == number
  {
    if !Validation.LuhnValid(number) then Err(BadRequest)
    else
      var history := CardHistory(ledger, number);
      if |history| == 0 then Err(NotFound)
      else
        assert history[0] in history;
        Ok(history)
  }

  // ---------------------------------------------------------------------
  // Scenarios
  // ---------------------------------------------------------------------

  /** On the initial state (thresholds (200, 1500), nothing stored or
      listed) only the amount can raise a signal: the verdict is the zone
      of the amount, and the info is "amount" unless it is ALLOWED. So 201
      needs manual processing and 1501 is prohibited. */
  lemma {:induction false} InitialAmountOnly(amount: int, ip: string, number: string, t: int)
    ensures var v := AmountResult(200, 1500, amount);
      ValidateTransaction(InitialEngine, Request(amount, ip, number, "EAP", Some(t))).out
        == Ok(Evaluation(v, if v == Allowed then "none" else "amount"))
    ensures AmountResult(200, 1500, 201) == ManualProcessing
    ensures AmountResult(200, 1500, 1501) == Prohibited
  {
    var req := Request(amount, ip, number, "EAP", Some(t));
    NameRoundTrip(EAP);
    assert OtherIps([], number, t, ip) == {};
    assert OtherRegions([], number, t, EAP) == {};
    var s := RequestSignals(InitialEngine, req, t, EAP);
    assert s == Signals(200 < amount <= 1500, amount > 1500, false, false, false, false, false, false);
    AmountOnlyInfo(s);
  }

  /** With only amount signals, the info of the verdict reached is "none"
      or "amount". */
  lemma AmountOnlyInfo(s: Signals)
    requires !s.ipSuspicious && !s.cardStolen
    requires !s.ipCorrelationManual && !s.ipCorrelationProhibited
    requires !s.regionCorrelationManual && !s.regionCorrelationProhibited
    requires !(s.amountManual && s.amountProhibited)
    ensures Info(s, Decide(s)) == if Decide(s) == Allowed then "none" else "amount"
  {
    var v := Decide(s);
    if v != Allowed {
      assert ReasonList(s, v) == ["amount"];
      assert Order.Sort(["amount"]) == ["amount"];
      assert Join(["amount"], ", ") == "amount";
    }
  }
}
