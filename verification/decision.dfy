/** The risk decision of `validateTransaction` once its inputs are known:
    eight yes/no signals, the most severe tier among them, and the reason
    string naming the checks that reached that tier. */
module Decision {
  import opened Base
  import opened Text
  import opened Seqs
  import opened Order

  /** `TransactionValidationResult`. */
  datatype Verdict = Allowed | ManualProcessing | Prohibited

  /** The severity order PROHIBITED > MANUAL_PROCESSING > ALLOWED. */
  function Severity(v: Verdict): nat {
    match v
    case Allowed => 0
    case ManualProcessing => 1
    case Prohibited => 2
  }

  /** `name()` of the enum constant. */
  function VerdictName(v: Verdict): string {
    match v
    case Allowed => "ALLOWED"
    case ManualProcessing => "MANUAL_PROCESSING"
    case Prohibited => "PROHIBITED"
  }

  /** `valueOf(value.toUpperCase())`: the verdict whose name is the
      upper-cased value, if any. */
  function ParseVerdict(value: string): (r: Option<Verdict>)
    ensures r.Some? ==> VerdictName(r.value) == Upper(value)
    ensures r.None? ==> forall v :: VerdictName(v) != Upper(value)
  {
    var u := Upper(value);
    if u == "ALLOWED" then Some(Allowed)
    else if u == "MANUAL_PROCESSING" then Some(ManualProcessing)
    else if u == "PROHIBITED" then Some(Prohibited)
    else None
  }

  /** Verdict names parse back, in any letter case. */
  lemma ParseVerdictName(v: Verdict, value: string)
    requires EqualsIgnoreCase(value, VerdictName(v))
    ensures ParseVerdict(value) == Some(v)
  {
    UpperFixed(VerdictName(v));
    assert Upper(value) == VerdictName(v);
    // the three names differ in length
    assert |VerdictName(v)| == match v case Allowed => 7 case ManualProcessing => 17 case Prohibited => 10;
  }

  // ---------------------------------------------------------------------
  // Signals
  // ---------------------------------------------------------------------

  const ManualCorrelationLimit := 2
  const ProhibitedCorrelationLimit := 3

  /** The eight conditions the source evaluates. */
  datatype Signals = Signals(
    amountManual: bool, amountProhibited: bool,
    ipSuspicious: bool, cardStolen: bool,
    ipCorrelationManual: bool, ipCorrelationProhibited: bool,
    regionCorrelationManual: bool, regionCorrelationProhibited: bool)

  /** The signals for an amount, the two blacklist answers and the two
      correlation counts under the thresholds `(maxAllowed, maxManual)`.
      A correlation count of exactly 2 is a manual-tier signal and 3 or
      more a prohibited-tier one; 0 and 1 signal nothing. */
  function ComputeSignals(maxAllowed: int, maxManual: int, amount: int,
                          ipSuspicious: bool, cardStolen: bool,
                          ipCount: nat, regionCount: nat): (s: Signals)
    ensures !(s.amountManual && s.amountProhibited)
    ensures maxAllowed < maxManual ==> (s.amountManual || s.amountProhibited <==> amount > maxAllowed)
    ensures !(s.ipCorrelationManual && s.ipCorrelationProhibited)
    ensures !(s.regionCorrelationManual && s.regionCorrelationProhibited)
    ensures ipCount <= 1 ==> !s.ipCorrelationManual && !s.ipCorrelationProhibited
    ensures regionCount <= 1 ==> !s.regionCorrelationManual && !s.regionCorrelationProhibited
    ensures s.amountProhibited <==> amount > maxManual
    ensures s.ipSuspicious == ipSuspicious && s.cardStolen == cardStolen
    ensures s.ipCorrelationManual <==> ipCount == 2
    ensures s.ipCorrelationProhibited <==> ipCount >= 3
    ensures s.regionCorrelationManual <==> regionCount == 2
    ensures s.regionCorrelationProhibited <==> regionCount >= 3
  {
    Signals(
      amount > maxAllowed && amount <= maxManual, amount > maxManual,
      ipSuspicious, cardStolen,
      ipCount == ManualCorrelationLimit, ipCount >= ProhibitedCorrelationLimit,
      regionCount == ManualCorrelationLimit, regionCount >= ProhibitedCorrelationLimit)
  }

  /** `getAmountResult`: the zone of the amount axis the amount falls in.
      For ordered thresholds its severity counts the bounds the amount
      exceeds. */
  function AmountResult(maxAllowed: int, maxManual: int, amount: int): (v: Verdict)
    ensures v == Allowed <==> amount <= maxAllowed
    ensures maxAllowed < maxManual ==>
      Severity(v) == (if amount > maxAllowed then 1 else 0) + (if amount > maxManual then 1 else 0)
  {
    if amount <= maxAllowed then Allowed
    else if amount <= maxManual then ManualProcessing
    else Prohibited
  }

  /** For ordered thresholds the two amount signals name the same zone as
      `getAmountResult`. */
  lemma AmountSignalsAgree(maxAllowed: int, maxManual: int, amount: int,
                           ipSuspicious: bool, cardStolen: bool, ipCount: nat, regionCount: nat)
    requires maxAllowed < maxManual
    ensures var s := ComputeSignals(maxAllowed, maxManual, amount, ipSuspicious, cardStolen, ipCount, regionCount);
      && (s.amountProhibited <==> AmountResult(maxAllowed, maxManual, amount) == Prohibited)
      && (s.amountManual <==> AmountResult(maxAllowed, maxManual, amount) == ManualProcessing)
      && Tier(s, AmountReason) == AmountResult(maxAllowed, maxManual, amount)
  {
  }

  // ---------------------------------------------------------------------
  // Tiers and the verdict
  // ---------------------------------------------------------------------

  /** The checks that can give a reason. */
  datatype Reason = AmountReason | CardNumberReason | IpReason | IpCorrelationReason | RegionCorrelationReason

  function Token(k: Reason): string {
    match k
    case AmountReason => "amount"
    case CardNumberReason => "card-number"
    case IpReason => "ip"
    case IpCorrelationReason => "ip-correlation"
    case RegionCorrelationReason => "region-correlation"
  }

  /** Every check, listed in the lexicographic order of its token. */
  const AllReasons: seq<Reason> :=
    [AmountReason, CardNumberReason, IpReason, IpCorrelationReason, RegionCorrelationReason]

  /** The tier one check reaches on its own. */
  function Tier(s: Signals, k: Reason): Verdict {
    match k
    case AmountReason =>
      if s.amountProhibited then Prohibited else if s.amountManual then ManualProcessing else Allowed
    case CardNumberReason => if s.cardStolen then Prohibited else Allowed
    case IpReason => if s.ipSuspicious then Prohibited else Allowed
    case IpCorrelationReason =>
      if s.ipCorrelationProhibited then Prohibited
      else if s.ipCorrelationManual then ManualProcessing else Allowed
    case RegionCorrelationReason =>
      if s.regionCorrelationProhibited then Prohibited
      else if s.regionCorrelationManual then ManualProcessing else Allowed
  }

  /** The most severe tier any of `ks` reaches (ALLOWED when none does). */
  function Strongest(s: Signals, ks: seq<Reason>): (v: Verdict)
    ensures forall k :: k in ks ==> Severity(Tier(s, k)) <= Severity(v)
    ensures v == Allowed || exists k :: k in ks && Tier(s, k) == v
  {
    if |ks| == 0 then Allowed
    else
      var rest := Strongest(s, ks[1..]);
      assert forall k :: k in ks ==> k == ks[0] || k in ks[1..];
      if Severity(Tier(s, ks[0])) >= Severity(rest) then Tier(s, ks[0]) else rest
  }

  /** The severity chain of `validateTransaction`: prohibited when any
      prohibited-tier signal holds, else manual when any manual-tier signal
      holds, else allowed. That is the most severe tier reached by any
      single check. */
  function Decide(s: Signals): (v: Verdict)
    ensures v == Strongest(s, AllReasons)
  {
    assert AmountReason in AllReasons && CardNumberReason in AllReasons && IpReason in AllReasons;
    assert IpCorrelationReason in AllReasons && RegionCorrelationReason in AllReasons;
    if s.amountProhibited || s.ipSuspicious || s.cardStolen
       || s.ipCorrelationProhibited || s.regionCorrelationProhibited then Prohibited
    else if s.amountManual || s.ipCorrelationManual || s.regionCorrelationManual then ManualProcessing
    else Allowed
  }

  // ---------------------------------------------------------------------
  // The reason string
  // ---------------------------------------------------------------------

  /** `reasons.add(x)` when `b` holds, for an `x` not yet collected. */
  function AddIf(reasons: seq<string>, b: bool, x: string): (r: seq<string>)
    requires NoDuplicates(reasons) && x !in reasons
    ensures NoDuplicates(r)
    ensures forall y :: y in r <==> y in reasons || (b && y == x)
  {
    if b then reasons + [x] else reasons
  }

  /** The reasons the reason-collecting branch of `validateTransaction`
      gathers for verdict `v`, in the order it adds them. The five tokens
      differ in length, hence from each other. For the verdict actually
      reached, a check's token is collected exactly when the check reached
      the verdict's tier. */
  function ReasonList(s: Signals, v: Verdict): (r: seq<string>)
    ensures NoDuplicates(r)
    ensures v == Prohibited ==> forall k :: Token(k) in r <==> Tier(s, k) == Prohibited
    ensures v == ManualProcessing && Decide(s) == ManualProcessing ==>
      forall k :: Token(k) in r <==> Tier(s, k) == ManualProcessing
  {
    if v == ManualProcessing then
      var r1 := AddIf([], s.amountManual, "amount");
      var r2 := AddIf(r1, s.ipCorrelationManual, "ip-correlation");
      var r3 := AddIf(r2, s.regionCorrelationManual, "region-correlation");
      assert Decide(s) == ManualProcessing ==> forall k :: Token(k) in r3 <==> Tier(s, k) == ManualProcessing by {
        forall k ensures Decide(s) == ManualProcessing ==> (Token(k) in r3 <==> Tier(s, k) == ManualProcessing) {
          TokenLength(k);
        }
      }
      r3
    else
      var r1 := AddIf([], s.amountProhibited, "amount");
      var r2 := AddIf(r1, s.ipSuspicious, "ip");
      var r3 := AddIf(r2, s.cardStolen, "card-number");
      var r4 := AddIf(r3, s.ipCorrelationProhibited, "ip-correlation");
      var r5 := AddIf(r4, s.regionCorrelationProhibited, "region-correlation");
      assert forall k :: Token(k) in r5 <==> Tier(s, k) == Prohibited by {
        forall k ensures Token(k) in r5 <==> Tier(s, k) == Prohibited {
          TokenLength(k);
        }
      }
      r5
  }

  /** The five tokens have five different lengths. */
  lemma TokenLength(k: Reason)
    ensures |Token(k)| == match k
      case AmountReason => 6
      case CardNumberReason => 11
      case IpReason => 2
      case IpCorrelationReason => 14
      case RegionCorrelationReason => 18
  {
  }

  /** The `info` string `validateTransaction` reports: "none" for an
      allowed transaction, otherwise the collected reasons sorted and joined
      with ", ", with the source's fallback for an empty list; so it is
      "none" exactly for an allowed verdict. */
  function Info(s: Signals, v: Verdict): (r: string)
    ensures r == "none" <==> v == Allowed
  {
    if v == Allowed then "none"
    else
      JoinedReasonsNotNone(s, v);
      var info := Join(Sort(ReasonList(s, v)), ", ");
      if info == "" then (if v == ManualProcessing && s.amountManual then "amount" else "unknown")
      else info
  }

  /** The tokens of the checks among `ks` that reach tier `v`, in the
      order of `ks`. */
  function Winners(s: Signals, v: Verdict, ks: seq<Reason>): (r: seq<string>)
    ensures forall x :: x in r <==> exists k :: k in ks && Tier(s, k) == v && Token(k) == x
    ensures TokensSorted(ks) ==> StrictlySorted(r)
  {
    if |ks| == 0 then []
    else
      var rest := Winners(s, v, ks[1..]);
      assert forall k :: k in ks <==> k == ks[0] || k in ks[1..];
      assert TokensSorted(ks) ==> TokensSorted(ks[1..]);
      if Tier(s, ks[0]) == v then
        assert TokensSorted(ks) ==> forall x :: x in rest ==> LexLess(Token(ks[0]), x) by {
          if TokensSorted(ks) {
            forall x | x in rest ensures LexLess(Token(ks[0]), x) {
              var k :| k in ks[1..] && Token(k) == x;
              var j :| 1 <= j < |ks| && ks[j] == k;
            }
          }
        }
        [Token(ks[0])] + rest
      else rest
  }

  /** The tokens of `ks` are in strictly increasing order. */
  predicate TokensSorted(ks: seq<Reason>) {
    forall i, j :: 0 <= i < j < |ks| ==> LexLess(Token(ks[i]), Token(ks[j]))
  }

  lemma AllReasonsSorted()
    ensures TokensSorted(AllReasons)
  {
    var t := ["amount", "card-number", "ip", "ip-correlation", "region-correlation"];
    assert LexLess(t[0], t[1]);
    assert LexLess(t[1], t[2]);
    assert LexLess(t[2], t[3]) by {
      assert t[2][1..] == "p" && t[3][1..] == "p-correlation";
      assert t[2][1..][1..] == [] && t[3][1..][1..] == "-correlation";
    }
    assert LexLess(t[3], t[4]);
    LexLessTransitive(t[0], t[1], t[2]);
    LexLessTransitive(t[0], t[2], t[3]);
    LexLessTransitive(t[0], t[3], t[4]);
    LexLessTransitive(t[1], t[2], t[3]);
    LexLessTransitive(t[1], t[3], t[4]);
    LexLessTransitive(t[2], t[3], t[4]);
    assert forall i :: 0 <= i < 5 ==> Token(AllReasons[i]) == t[i];
  }

  /** Only check tokens are collected. */
  lemma ReasonListTokens(s: Signals, v: Verdict, x: string)
    requires x in ReasonList(s, v)
    ensures exists k :: Token(k) == x
  {
    if x == "amount" { assert Token(AmountReason) == x; }
    else if x == "ip" { assert Token(IpReason) == x; }
    else if x == "card-number" { assert Token(CardNumberReason) == x; }
    else if x == "ip-correlation" { assert Token(IpCorrelationReason) == x; }
    else { assert Token(RegionCorrelationReason) == x; }
  }

  /** The sorted, joined reasons are never the word "none": a non-empty
      join starts with the first letter of a token. */
  lemma JoinedReasonsNotNone(s: Signals, v: Verdict)
    ensures Join(Sort(ReasonList(s, v)), ", ") != "none"
  {
    var sorted := Sort(ReasonList(s, v));
    if |sorted| > 0 {
      var x := sorted[0];
      assert x in ReasonList(s, v) by { assert x in multiset(sorted); }
      ReasonListTokens(s, v, x);
      var k :| Token(k) == x;
      TokenHead(k);
      JoinHead(sorted, ", ");
      assert Join(sorted, ", ")[0] != "none"[0];
    }
  }

  /** `info` is "none" exactly for an allowed verdict; otherwise it lists,
      sorted and joined with ", ", exactly the tokens of the checks that
      reached the verdict's own tier, so the "unknown" fallback is never
      produced. */
  lemma InfoListsWinningTier(s: Signals)
    ensures Info(s, Decide(s)) == "none" <==> Decide(s) == Allowed
    ensures Decide(s) != Allowed ==>
      Info(s, Decide(s)) == Join(Winners(s, Decide(s), AllReasons), ", ")
    ensures Info(s, Decide(s)) != "unknown"
  {
    var v := Decide(s);
    if v != Allowed {
      var w := Winners(s, v, AllReasons);
      SortedReasonsAreWinners(s);
      WinnersHead(s);
      var info := Join(w, ", ");
      assert Info(s, v) == info;
    }
  }

  /** The joined winners of a non-allowed verdict are non-empty and start
      with the first letter of a token. */
  lemma WinnersHead(s: Signals)
    requires Decide(s) != Allowed
    ensures var info := Join(Winners(s, Decide(s), AllReasons), ", ");
      |info| > 0 && (info[0] == 'a' || info[0] == 'c' || info[0] == 'i' || info[0] == 'r')
  {
    var v := Decide(s);
    var w := Winners(s, v, AllReasons);
    var k :| k in AllReasons && Tier(s, k) == v;
    assert Token(k) in w;
    assert w[0] in w;
    var k0 :| k0 in AllReasons && Tier(s, k0) == v && Token(k0) == w[0];
    TokenHead(k0);
    JoinHead(w, ", ");
  }

  lemma TokenHead(k: Reason)
    ensures |Token(k)| > 0
    ensures var c := Token(k)[0]; c == 'a' || c == 'c' || c == 'i' || c == 'r'
  {
  }

  /** The sorted reasons are the winning tokens in canonical order. */
  lemma SortedReasonsAreWinners(s: Signals)
    requires Decide(s) != Allowed
    ensures Sort(ReasonList(s, Decide(s))) == Winners(s, Decide(s), AllReasons)
  {
    var v := Decide(s);
    var sorted := Sort(ReasonList(s, v));
    var w := Winners(s, v, AllReasons);
    AllReasonsSorted();
    forall x ensures x in sorted <==> x in w {
      assert x in sorted <==> x in multiset(ReasonList(s, v));
      if x in ReasonList(s, v) {
        ReasonListTokens(s, v, x);
        var k :| Token(k) == x;
        assert k in AllReasons by { AllListed(k); }
      }
      if x in w {
        var k :| k in AllReasons && Tier(s, k) == v && Token(k) == x;
      }
    }
    SortedUnique(sorted, w);
  }

  lemma AllListed(k: Reason)
    ensures k in AllReasons
  {
  }
}
