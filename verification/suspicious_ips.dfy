/** `SuspiciousIpService`: the set of IP addresses flagged as suspicious.
    The repository is the set itself; entity ids are not modelled. */
module SuspiciousIps {
  import opened Base
  import Validation
  import Text

  /** `addSuspiciousIp`: the address must be a dotted quad, then must not
      already be listed; on success the set gains exactly that address. */
  function AddSuspiciousIp(ips: set<string>, ip: string): (r: Step<set<string>, string>)
    ensures r.out.Ok? <==> Validation.IsValidIpV4(Some(ip)) && ip !in ips
    ensures r.out.Ok? ==> r.out.value == ip && r.next == ips + {ip}
    ensures r.out.Err? ==> r.next == ips
    ensures !Validation.IsValidIpV4(Some(ip)) ==> r.out == Err(BadRequest)
    ensures Validation.IsValidIpV4(Some(ip)) && ip in ips ==> r.out == Err(Conflict)
  {
    if !Validation.IsValidIpV4(Some(ip)) then Step(ips, Err(BadRequest))
    else if ip in ips then Step(ips, Err(Conflict))
    else Step(ips + {ip}, Ok(ip))
  }

  function RemovedMessage(ip: string): string {
    "IP " + ip + " successfully removed!"
  }

  /** `deleteSuspiciousIp`: the format check first, then the address must
      be listed; on success the set loses exactly that address. */
  function DeleteSuspiciousIp(ips: set<string>, ip: string): (r: Step<set<string>, string>)
    ensures r.out.Ok? <==> Validation.IsValidIpV4(Some(ip)) && ip in ips
    ensures r.out.Ok? ==> r.out.value == RemovedMessage(ip) && r.next == ips - {ip}
    ensures r.out.Err? ==> r.next == ips
    ensures !Validation.IsValidIpV4(Some(ip)) ==> r.out == Err(BadRequest)
    ensures Validation.IsValidIpV4(Some(ip)) && ip !in ips ==> r.out == Err(NotFound)
  {
    if !Validation.IsValidIpV4(Some(ip)) then Step(ips, Err(BadRequest))
    else if ip !in ips then Step(ips, Err(NotFound))
    else Step(ips - {ip}, Ok(RemovedMessage(ip)))
  }

  /** `isIpSuspicious`: plain membership, with no format check. For a valid
      address it agrees with the add and delete operations: a suspicious
      address is one an add rejects as a conflict and a delete removes. */
  predicate IsIpSuspicious(ips: set<string>, ip: string)
    ensures Validation.IsValidIpV4(Some(ip)) ==>
      (IsIpSuspicious(ips, ip) <==> AddSuspiciousIp(ips, ip).out == Err(Conflict))
    ensures Validation.IsValidIpV4(Some(ip)) ==>
      (IsIpSuspicious(ips, ip) <==> DeleteSuspiciousIp(ips, ip).out.Ok?)
  {
    ip in ips
  }

  /** Adding an unlisted valid address and deleting it again restores the
      set; in between the address is reported suspicious. */
  lemma AddThenDelete(ips: set<string>, ip: string)
    requires Validation.IsValidIpV4(Some(ip)) && ip !in ips
    ensures IsIpSuspicious(AddSuspiciousIp(ips, ip).next, ip)
    ensures DeleteSuspiciousIp(AddSuspiciousIp(ips, ip).next, ip)
         == Step(ips, Ok(RemovedMessage(ip)))
  {
    assert ips + {ip} - {ip} == ips;
  }

  /** A listed string is reported suspicious even when it is not an
      address; the query does not check the format. */
  lemma QueryIgnoresFormat()
    ensures !Validation.IsValidIpV4(Some("abc")) && IsIpSuspicious({"abc"}, "abc")
  {
    Text.JoinSplit("abc", '.');
  }
}
