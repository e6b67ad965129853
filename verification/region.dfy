/** The closed set of world regions a transaction may come from. */
module Regions {
  import opened Base

  datatype Region = EAP | ECA | HIC | LAC | MENA | SA | SSA

  /** `Region.values()`, in declaration order. */
  const AllRegions: seq<Region> := [EAP, ECA, HIC, LAC, MENA, SA, SSA]

  /** `name()`: the enum constant's identifier. */
  function Name(r: Region): string {
    match r
    case EAP => "EAP"
    case ECA => "ECA"
    case HIC => "HIC"
    case LAC => "LAC"
    case MENA => "MENA"
    case SA => "SA"
    case SSA => "SSA"
  }

  /** `isValidCode`: some region's name equals the code exactly, so the
      valid codes are the seven names, compared case-sensitively, and
      `null` is not one. */
  predicate IsValidCode(code: Option<string>)
    ensures IsValidCode(code) <==>
      code.Some? && code.value in {"EAP", "ECA", "HIC", "LAC", "MENA", "SA", "SSA"}
  {
    match code
    case None => false
    case Some(s) =>
      ValidCodes(s);
      exists r :: r in AllRegions && Name(r) == s
  }

  /** A string names some region iff it is one of the seven names. */
  lemma ValidCodes(s: string)
    ensures (exists r :: r in AllRegions && Name(r) == s) <==>
      s in {"EAP", "ECA", "HIC", "LAC", "MENA", "SA", "SSA"}
  {
    if exists r :: r in AllRegions && Name(r) == s {
      var r :| r in AllRegions && Name(r) == s;
      match r
      case EAP => case ECA => case HIC => case LAC => case MENA => case SA => case SSA =>
    } else {
      assert Name(AllRegions[0]) != s && Name(AllRegions[1]) != s && Name(AllRegions[2]) != s;
      assert Name(AllRegions[3]) != s && Name(AllRegions[4]) != s;
      assert Name(AllRegions[5]) != s && Name(AllRegions[6]) != s;
    }
  }

  /** `fromCode` (and `valueOf` inside it): the region with exactly that
      name, or nothing for an unknown or `null` code. */
  function FromCode(code: Option<string>): (r: Option<Region>)
    ensures r.Some? <==> IsValidCode(code)
    ensures r.Some? ==> code == Some(Name(r.value))
  {
    match code
    case None => None
    case Some(s) =>
      if s == "EAP" then Some(EAP)
      else if s == "ECA" then Some(ECA)
      else if s == "HIC" then Some(HIC)
      else if s == "LAC" then Some(LAC)
      else if s == "MENA" then Some(MENA)
      else if s == "SA" then Some(SA)
      else if s == "SSA" then Some(SSA)
      else None
  }

  /** Every region is listed, and parsing its name gives it back. */
  lemma NameRoundTrip(r: Region)
    ensures r in AllRegions
    ensures IsValidCode(Some(Name(r)))
    ensures FromCode(Some(Name(r))) == Some(r)
  {
  }

  /** Codes are matched case-sensitively. */
  lemma LowerCaseRejected()
    ensures !IsValidCode(Some("eap")) && FromCode(Some("eap")) == None
    ensures !IsValidCode(Some("Mena")) && FromCode(Some("Mena")) == None
    ensures !IsValidCode(None) && FromCode(None) == None
  {
  }
}
