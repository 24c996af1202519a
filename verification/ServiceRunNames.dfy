/** Standing-run names `agent-n`: minting, parsing, and the admission-time reservation. */
module ServiceRunNames {
  import opened Prelude
  import opened Decimal

  /** The name the Service controller mints for its n-th standing run. */
  function MintedName(agentName: string, n: nat): string { agentName + "-" + Dec(n) }

  function TrimAgentPrefix(agentName: string, runName: string): Option<string> {
    var prefix := agentName + "-";
    if prefix <= runName then Some(runName[|prefix|..]) else None
  }

  function ServiceRunSuffix(agentName: string, runName: string): (suffix: Option<nat>) {
    match TrimAgentPrefix(agentName, runName)
    case None => None
    case Some(digits) =>
      match ParseInt32(digits)
      case None => None
      case Some(value) =>
        if value < 1 then None
        else if runName == MintedName(agentName, value) then Some(value)
        else None
  }

  predicate IsReservedServiceRunName(agentName: string, runName: string) {
    match TrimAgentPrefix(agentName, runName)
    case None => false
    case Some(digits) =>
      match ParseInt32(digits)
      case None => false
      case Some(value) => value >= 1 && runName == MintedName(agentName, value)
  }

  /** The parser accepts exactly the names the controller mints, and inverts minting. */
  lemma SuffixInvertsMinting(agentName: string, runName: string, n: nat)
    ensures ServiceRunSuffix(agentName, runName) == Some(n)
       <==> 1 <= n <= MAX_INT32 && runName == MintedName(agentName, n)
  {
    if 1 <= n <= MAX_INT32 && runName == MintedName(agentName, n) {
      var prefix := agentName + "-";
      assert runName[|prefix|..] == Dec(n) && runName[..|prefix|] == prefix;
      ParseInt32Dec(n);
    }
  }

  /** Minting is injective in the agent's name as well as in the suffix. */
  lemma MintedNameInjective(a: string, m: nat, b: string, n: nat)
    ensures MintedName(a, m) == MintedName(b, n) <==> a == b && m == n
  {
    if MintedName(a, m) == MintedName(b, n) { DashDecInjective(a, m, b, n); }
  }

  /** Admission reserves exactly the names that the controller can mint. */
  lemma ReservedIffMintable(agentName: string, runName: string)
    ensures IsReservedServiceRunName(agentName, runName)
       <==> exists n :: 1 <= n <= MAX_INT32 && runName == MintedName(agentName, n)
  {
    if n :| 1 <= n <= MAX_INT32 && runName == MintedName(agentName, n) {
      SuffixInvertsMinting(agentName, runName, n);
    }
  }
}
