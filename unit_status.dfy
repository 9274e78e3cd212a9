/**
 * Unit statuses as the ops framework knows them, and the rule it applies when a
 * collect-status handler adds several: the status of highest priority is reported, the
 * earliest added winning a tie.
 */
module UnitStatus {

  datatype Status =
    | Active(message: string)
    | Blocked(message: string)
    | Maintenance(message: string)
    | Waiting(message: string)

  /** ops's ordering of status kinds: blocked > maintenance > waiting > active. */
  function Priority(s: Status): (p: nat)
    ensures 1 <= p <= 4
    ensures p == 1 <==> s.Active?
    ensures p == 4 <==> s.Blocked?
    ensures s.Maintenance? ==> p == 3
    ensures s.Waiting? ==> p == 2
  {
    match s
    case Blocked(_) => 4
    case Maintenance(_) => 3
    case Waiting(_) => 2
    case Active(_) => 1
  }

  /** The index of the status ops reports: of highest priority, and the first such. */
  function HighestIndex(statuses: seq<Status>): (k: nat)
    requires |statuses| > 0
    ensures k < |statuses|
    ensures forall j :: 0 <= j < |statuses| ==> Priority(statuses[j]) <= Priority(statuses[k])
    ensures forall j :: 0 <= j < k ==> Priority(statuses[j]) < Priority(statuses[k])
  {
    if |statuses| == 1 then 0
    else
      var rest := HighestIndex(statuses[1..]) + 1;
      if Priority(statuses[0]) >= Priority(statuses[rest]) then 0 else rest
  }

  /** The unit status ops sets from the statuses a handler added. */
  function Reported(statuses: seq<Status>): (reported: Status)
    requires |statuses| > 0
    ensures reported in statuses
    ensures forall j :: 0 <= j < |statuses| ==> Priority(statuses[j]) <= Priority(reported)
    ensures exists k :: 0 <= k < |statuses| && statuses[k] == reported
                        && forall j :: 0 <= j < k ==> Priority(statuses[j]) < Priority(reported)
  {
    statuses[HighestIndex(statuses)]
  }
}
