/** The Customer collection (backend/models/Customer.js). */
module CustomerModel {
  import opened Wrappers
  import opened Schema

  /** The closed `region` enum. */
  datatype Region = North | South | East | West | Central

  /** The closed `type` enum. */
  datatype CustomerType = Individual | Business | Government

  function RegionName(g: Region): string {
    match g
    case North => "North"
    case South => "South"
    case East => "East"
    case West => "West"
    case Central => "Central"
  }

  function CustomerTypeName(t: CustomerType): string {
    match t
    case Individual => "Individual"
    case Business => "Business"
    case Government => "Government"
  }

  /** Every region there is. */
  const AllRegions: set<Region> := {North, South, East, West, Central}

  /** The region enum has five members, so no set of regions is larger. */
  lemma RegionSetBound(s: set<Region>)
    ensures |s| <= 5
  {
    forall g | g in s ensures g in AllRegions {
      match g
      case North =>
      case South =>
      case East =>
      case West =>
      case Central =>
    }
    assert s <= AllRegions;
    assert AllRegions == s + (AllRegions - s);
    assert |AllRegions| == 5;
  }

  /** The `enum` validator on `region`. */
  function ParseRegion(s: string): (r: Option<Region>)
    ensures forall g :: r == Some(g) <==> RegionName(g) == s
  {
    if s == "North" then Some(North)
    else if s == "South" then Some(South)
    else if s == "East" then Some(East)
    else if s == "West" then Some(West)
    else if s == "Central" then Some(Central)
    else None
  }

  /** The `enum` validator on `type`. */
  function ParseCustomerType(s: string): (r: Option<CustomerType>)
    ensures forall t :: r == Some(t) <==> CustomerTypeName(t) == s
  {
    if s == "Individual" then Some(Individual)
    else if s == "Business" then Some(Business)
    else if s == "Government" then Some(Government)
    else None
  }

  datatype Customer = Customer(id: Id, name: string, region: Region, kind: CustomerType)

  /** What every stored customer satisfies. */
  predicate ValidCustomer(c: Customer) {
    |c.name| > 0 && IsTrimmed(c.name)
  }

  /**
   * Every validation failure of a customer whose name is already trimmed, one
   * per failing path, in path order.
   */
  function CustomerErrors(name: string, region: string, kind: string): (errs: seq<SchemaError>)
    ensures errs == [] <==> |name| > 0 && ParseRegion(region).Some? && ParseCustomerType(kind).Some?
    ensures Required("name") in errs <==> |name| == 0
    ensures Required("region") in errs <==> |region| == 0
    ensures NotInEnum("region") in errs <==> |region| > 0 && ParseRegion(region).None?
    ensures Required("type") in errs <==> |kind| == 0
    ensures NotInEnum("type") in errs <==> |kind| > 0 && ParseCustomerType(kind).None?
    ensures forall e :: e in errs ==> e in CustomerErrorKinds
  {
    var e1 := RequiredString("name", name);
    var e2 := RequiredEnum("region", region, ParseRegion(region).Some?);
    var e3 := RequiredEnum("type", kind, ParseCustomerType(kind).Some?);
    assert ParseRegion("").None? && ParseCustomerType("").None?;
    assert "region" != "type" by {
      assert "region"[0] != "type"[0];
    }
    assert Required("region") !in e1 + e3 && NotInEnum("region") !in e1 + e3;
    assert Required("type") !in e1 + e2 && NotInEnum("type") !in e1 + e2;
    assert Required("name") !in e2 + e3;
    e1 + e2 + e3
  }

  /** The errors a customer can raise. */
  const CustomerErrorKinds: seq<SchemaError> :=
    [Required("name"), Required("region"), NotInEnum("region"), Required("type"), NotInEnum("type")]

  /** Building a Customer document: trim the name, then validate every path. */
  function NewCustomer(id: Id, name: string, region: string, kind: string): (r: Result<Customer, seq<SchemaError>>)
    ensures r.Success? <==> |Trim(name)| > 0 && ParseRegion(region).Some? && ParseCustomerType(kind).Some?
    ensures r.Success? ==> ValidCustomer(r.value) && r.value.id == id && r.value.name == Trim(name)
                           && RegionName(r.value.region) == region && CustomerTypeName(r.value.kind) == kind
    ensures r.Failure? ==> && (Required("name") in r.error <==> |Trim(name)| == 0)
                           && (Required("region") in r.error <==> |region| == 0)
                           && (NotInEnum("region") in r.error <==> |region| > 0 && ParseRegion(region).None?)
                           && (Required("type") in r.error <==> |kind| == 0)
                           && (NotInEnum("type") in r.error <==> |kind| > 0 && ParseCustomerType(kind).None?)
    ensures r.Failure? ==> forall e :: e in r.error ==> e in CustomerErrorKinds
  {
    var stored := Trim(name);
    var errs := CustomerErrors(stored, region, kind);
    if errs == [] then Success(Customer(id, stored, ParseRegion(region).value, ParseCustomerType(kind).value))
    else Failure(errs)
  }
}
