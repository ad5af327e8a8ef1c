/** internal/validation: the read-only checks of `doctor`, and the final gate
    that also creates and removes an ephemeral Docker network. */
module Validation {

  datatype Status = Ok | Error

  datatype Check = Check(name: string, status: Status)

  const NAMES: seq<string> :=
    ["docker", "traefik", "postgresql", "agent-config", "agent-service", "agent-enabled"]

  const NETWORK := "centralcloud-installer-validation"

  function Passed(names: seq<string>): (checks: seq<Check>)
    ensures |checks| == |names|
  {
    seq(|names|, i requires 0 <= i < |names| => Check(names[i], Ok))
  }

  /** What the final gate reports when nothing is wrong: seven checks. */
  const ALL_OK: seq<Check> := Passed(NAMES) + [Check("docker-network", Ok)]

  /** `probe(i)` tells whether the i-th command of the run succeeds. */
  method Run(probe: nat -> bool) returns (result: seq<Check>, ok: bool)
    ensures ok <==> forall i: nat | i < |NAMES| :: probe(i)
    ensures ok ==> result == Passed(NAMES)
    ensures !ok ==>
      && 0 < |result| <= |NAMES|
      && !probe(|result| - 1)
      && (forall i: nat | i < |result| - 1 :: probe(i))
      && result == Passed(NAMES[..|result| - 1]) + [Check(NAMES[|result| - 1], Error)]
  {
    result := [];
    for index := 0 to |NAMES|
      invariant forall i: nat | i < index :: probe(i)
      invariant result == Passed(NAMES[..index])
    {
      if !probe(index) {
        result := result + [Check(NAMES[index], Error)];
        return result, false;
      }
      result := result + [Check(NAMES[index], Ok)];
    }
    assert NAMES[..|NAMES|] == NAMES;
    return result, true;
  }

  /** Success means seven passing checks and no validation network left behind;
      no other Docker network is touched in any case. */
  method RunFinal(networks: set<string>, probe: nat -> bool)
    returns (result: seq<Check>, ok: bool, after: set<string>)
    ensures ok <==> (forall i: nat | i < |NAMES| :: probe(i)) && probe(7) && probe(8)
    ensures ok ==> result == ALL_OK && NETWORK !in after
    ensures !ok ==> result != [] && result[|result| - 1].status == Error
    ensures after - {NETWORK} == networks - {NETWORK}
  {
    after := networks;
    result, ok := Run(probe);
    if !ok {
      return;
    }
    if probe(6) {
      after := after - {NETWORK};
    }
    if !probe(7) {
      return result + [Check("docker-network", Error)], false, after;
    }
    after := after + {NETWORK};
    if !probe(8) {
      return result + [Check("docker-network", Error)], false, after;
    }
    after := after - {NETWORK};
    return result + [Check("docker-network", Ok)], true, after;
  }
}
