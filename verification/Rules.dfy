/** Which (owner subtype, counterparty subtype) pairs each contract may join. */
module Rules {
  import opened Common

  datatype PartSubtype =
    | Software | Container | Image | Pod | Compose
    | Deployment | StatefulSet | Service | Ingress
    | Secret | ConfigMap | Job | Chart

  datatype ContractSubtype = Interaction | Binding | Connection

  datatype ConnectionType =
    | BuildsFrom | Instantiates | Runs | Composes | DependsOn | Submodule | ServesStatic
    | Selects | RoutesTo | ConsumedBy

  // A rule table gives every connection type its list of admitted pairs.
  type RuleTable = ConnectionType -> seq<(PartSubtype, PartSubtype)>

  const BINDING_OWNER_SUBTYPES: set<PartSubtype> := {Container, Pod}

  function ConnectionRules(ct: ConnectionType): seq<(PartSubtype, PartSubtype)> {
    match ct
    case BuildsFrom => [(Software, Image)]
    case Instantiates => [(Image, Container), (Image, Pod)]
    case Runs => [(Container, Software), (Pod, Software)]
    case Composes =>
      [(Compose, Container),
       (Deployment, Pod), (StatefulSet, Pod), (Job, Pod),
       (Pod, Container),
       (Chart, Deployment), (Chart, StatefulSet), (Chart, Job), (Chart, Service),
       (Chart, Ingress), (Chart, Secret), (Chart, ConfigMap)]
    case DependsOn => [(Container, Container)]
    case Submodule => [(Software, Software)]
    case ServesStatic => [(Software, Software)]
    case Selects => [(Service, Deployment), (Service, StatefulSet)]
    case RoutesTo => [(Ingress, Service)]
    case ConsumedBy =>
      [(Secret, Deployment), (Secret, StatefulSet), (Secret, Job),
       (ConfigMap, Deployment), (ConfigMap, StatefulSet), (ConfigMap, Job)]
  }

  function AllowedOwnerSubtypes(rules: RuleTable, ct: ConnectionType): set<PartSubtype> {
    set p | p in rules(ct) :: p.0
  }

  function AllowedCounterpartySubtypes(rules: RuleTable, ct: ConnectionType): set<PartSubtype> {
    set p | p in rules(ct) :: p.1
  }

  predicate IsPairAllowed(rules: RuleTable, ct: ConnectionType, owner: PartSubtype, counterparty: PartSubtype) {
    (owner, counterparty) in rules(ct)
  }

  /** The check inside registration: the two sides one by one, then the pair. None is a pass. */
  function CheckRegistration(rules: RuleTable, subtype: ContractSubtype, ct: Option<ConnectionType>,
                             owner: PartSubtype, counterparty: PartSubtype): Option<Refusal>
  {
    if subtype == Binding then
      if owner !in BINDING_OWNER_SUBTYPES then Some(Unprocessable)
      else if counterparty != Software then Some(Unprocessable)
      else None
    else if subtype == Connection && ct.Some? then
      var owners, counterparties := AllowedOwnerSubtypes(rules, ct.value), AllowedCounterpartySubtypes(rules, ct.value);
      if owner !in owners then Some(Unprocessable)
      else if counterparty !in counterparties then Some(Unprocessable)
      else if !IsPairAllowed(rules, ct.value, owner, counterparty) then Some(Unprocessable)
      else None
    else None
  }

  /** The check of a subtype shift: the proposed shape against the present endpoints. */
  function CheckShapeShift(rules: RuleTable, newSubtype: ContractSubtype, newType: Option<ConnectionType>,
                           owner: PartSubtype, counterparty: PartSubtype): Option<Refusal>
  {
    match newSubtype
    case Interaction => None
    case Binding =>
      if owner !in BINDING_OWNER_SUBTYPES then Some(Unprocessable)
      else if counterparty != Software then Some(Unprocessable)
      else None
    case Connection =>
      if newType.None? then None
      else if owner !in AllowedOwnerSubtypes(rules, newType.value) then Some(Unprocessable)
      else if counterparty !in AllowedCounterpartySubtypes(rules, newType.value) then Some(Unprocessable)
      else if !IsPairAllowed(rules, newType.value, owner, counterparty) then Some(Unprocessable)
      else None
  }

  /** The check of an endpoint shift: the present shape against the proposed endpoints. */
  function CheckEndpointShift(rules: RuleTable, subtype: ContractSubtype, ct: Option<ConnectionType>,
                              newOwner: PartSubtype, newCounterparty: PartSubtype): Option<Refusal>
  {
    match subtype
    case Interaction => None
    case Binding =>
      if newOwner !in BINDING_OWNER_SUBTYPES then Some(Unprocessable)
      else if newCounterparty != Software then Some(Unprocessable)
      else None
    case Connection =>
      if ct.None? then None
      else if newOwner !in AllowedOwnerSubtypes(rules, ct.value) then Some(Unprocessable)
      else if newCounterparty !in AllowedCounterpartySubtypes(rules, ct.value) then Some(Unprocessable)
      else if !IsPairAllowed(rules, ct.value, newOwner, newCounterparty) then Some(Unprocessable)
      else None
  }

  datatype Violation = OwnerSide | CounterpartySide | Pair

  /** The check of the impact preview: what would be wrong with a contract. */
  function ImpactViolation(rules: RuleTable, subtype: ContractSubtype, ct: Option<ConnectionType>,
                           owner: PartSubtype, counterparty: PartSubtype): Option<Violation>
  {
    if subtype == Binding then
      if owner !in BINDING_OWNER_SUBTYPES then Some(OwnerSide)
      else if counterparty != Software then Some(CounterpartySide)
      else None
    else if subtype == Connection && ct.Some? then
      if owner !in AllowedOwnerSubtypes(rules, ct.value) then Some(OwnerSide)
      else if counterparty !in AllowedCounterpartySubtypes(rules, ct.value) then Some(CounterpartySide)
      else if !IsPairAllowed(rules, ct.value, owner, counterparty) then Some(Pair)
      else None
    else None
  }

  /** The rule itself, as one condition on the pair. */
  predicate RuleHolds(rules: RuleTable, subtype: ContractSubtype, ct: Option<ConnectionType>,
                      owner: PartSubtype, counterparty: PartSubtype)
  {
    match subtype
    case Interaction => true
    case Binding => owner in {Container, Pod} && counterparty == Software
    case Connection => ct.Some? ==> (owner, counterparty) in rules(ct.value)
  }

  lemma PairHasSides(rules: RuleTable, ct: ConnectionType, owner: PartSubtype, counterparty: PartSubtype)
    ensures IsPairAllowed(rules, ct, owner, counterparty)
            ==> owner in AllowedOwnerSubtypes(rules, ct) && counterparty in AllowedCounterpartySubtypes(rules, ct)
  {
    var p := (owner, counterparty);
    assert p in rules(ct) ==> p.0 in AllowedOwnerSubtypes(rules, ct) && p.1 in AllowedCounterpartySubtypes(rules, ct);
  }

  lemma RegistrationAgrees(rules: RuleTable, subtype: ContractSubtype, ct: Option<ConnectionType>,
      owner: PartSubtype, counterparty: PartSubtype)
    ensures CheckRegistration(rules, subtype, ct, owner, counterparty).None?
            <==> RuleHolds(rules, subtype, ct, owner, counterparty)
  {
    hide AllowedOwnerSubtypes; hide AllowedCounterpartySubtypes;
    if subtype == Connection && ct.Some? {
      PairHasSides(rules, ct.value, owner, counterparty);
    }
  }

  lemma ShapeShiftAgrees(rules: RuleTable, subtype: ContractSubtype, ct: Option<ConnectionType>,
      owner: PartSubtype, counterparty: PartSubtype)
    ensures CheckShapeShift(rules, subtype, ct, owner, counterparty).None?
            <==> RuleHolds(rules, subtype, ct, owner, counterparty)
  {
    hide AllowedOwnerSubtypes; hide AllowedCounterpartySubtypes;
    if subtype == Connection && ct.Some? {
      PairHasSides(rules, ct.value, owner, counterparty);
    }
  }

  lemma EndpointShiftAgrees(rules: RuleTable, subtype: ContractSubtype, ct: Option<ConnectionType>,
      owner: PartSubtype, counterparty: PartSubtype)
    ensures CheckEndpointShift(rules, subtype, ct, owner, counterparty).None?
            <==> RuleHolds(rules, subtype, ct, owner, counterparty)
  {
    hide AllowedOwnerSubtypes; hide AllowedCounterpartySubtypes;
    if subtype == Connection && ct.Some? {
      PairHasSides(rules, ct.value, owner, counterparty);
    }
  }

  lemma ImpactAgrees(rules: RuleTable, subtype: ContractSubtype, ct: Option<ConnectionType>,
      owner: PartSubtype, counterparty: PartSubtype)
    ensures ImpactViolation(rules, subtype, ct, owner, counterparty).None?
            <==> RuleHolds(rules, subtype, ct, owner, counterparty)
  {
    hide AllowedOwnerSubtypes; hide AllowedCounterpartySubtypes;
    if subtype == Connection && ct.Some? {
      PairHasSides(rules, ct.value, owner, counterparty);
    }
  }

  /** For every rule table the three stepwise checks and the preview all decide the one rule: the
      side-by-side tests never refuse a pair the table admits. */
  lemma ChecksAgree(rules: RuleTable, subtype: ContractSubtype, ct: Option<ConnectionType>,
                    owner: PartSubtype, counterparty: PartSubtype)
    ensures CheckRegistration(rules, subtype, ct, owner, counterparty).None?
            <==> RuleHolds(rules, subtype, ct, owner, counterparty)
    ensures CheckShapeShift(rules, subtype, ct, owner, counterparty).None?
            <==> RuleHolds(rules, subtype, ct, owner, counterparty)
    ensures CheckEndpointShift(rules, subtype, ct, owner, counterparty).None?
            <==> RuleHolds(rules, subtype, ct, owner, counterparty)
    ensures ImpactViolation(rules, subtype, ct, owner, counterparty).None?
            <==> RuleHolds(rules, subtype, ct, owner, counterparty)
  {
    hide RuleHolds; hide CheckRegistration; hide CheckShapeShift; hide CheckEndpointShift; hide ImpactViolation;
    RegistrationAgrees(rules, subtype, ct, owner, counterparty);
    ShapeShiftAgrees(rules, subtype, ct, owner, counterparty);
    EndpointShiftAgrees(rules, subtype, ct, owner, counterparty);
    ImpactAgrees(rules, subtype, ct, owner, counterparty);
  }
}
