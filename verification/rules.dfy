/**
  One truck-traffic regulation of the Tehran catalog: the vehicle categories and
  time-restriction labels it uses, and the rule record itself.
 */
module Rules {
  import opened Wrappers

  /** The closed set of vehicle categories a rule can name. */
  datatype VehicleType =
    | LightTruck    // up to 3.5 tons
    | MediumTruck   // 3.5 to 7.5 tons
    | HeavyTruck    // above 7.5 tons
    | SemiTrailer
    | Tanker
    | Refrigerated

  /** A descriptive label only: nothing in the catalog evaluates it against a clock. */
  datatype TimeRestriction =
    | NoRestriction
    | DaytimeOnly     // 6 AM to 10 PM
    | NighttimeOnly   // 10 PM to 6 AM
    | WeekdaysOnly
    | WeekendsOnly

  /** Maximum vehicle dimensions in meters; the three keys of the rule's dimension
      dictionary are the three fields, so none of them can be missing. */
  datatype Dimensions = Dimensions(length: real, width: real, height: real)

  /** One regulation. `requiredPermits` and `exceptions` are always present lists. */
  datatype Rule = Rule(
    ruleId: string,
    title: string,
    description: string,
    vehicleTypes: seq<VehicleType>,
    timeRestriction: TimeRestriction,
    areas: seq<string>,
    maxWeight: Option<real>,        // tons
    maxDimensions: Option<Dimensions>,
    requiredPermits: seq<string>,
    exceptions: seq<string>)

  /** Builds a rule the way the record's constructor does: an omitted (`None`) list of
      permits or of exceptions becomes the empty list, a given one is kept as it is, and
      every other field is stored unchanged. */
  function MakeRule(
    ruleId: string,
    title: string,
    description: string,
    vehicleTypes: seq<VehicleType>,
    timeRestriction: TimeRestriction,
    areas: seq<string>,
    maxWeight: Option<real>,
    maxDimensions: Option<Dimensions>,
    requiredPermits: Option<seq<string>>,
    exceptions: Option<seq<string>>): (r: Rule)
    ensures r.ruleId == ruleId && r.title == title && r.description == description
    ensures r.vehicleTypes == vehicleTypes && r.timeRestriction == timeRestriction
    ensures r.areas == areas && r.maxWeight == maxWeight && r.maxDimensions == maxDimensions
    ensures requiredPermits.None? ==> r.requiredPermits == []
    ensures requiredPermits.Some? ==> r.requiredPermits == requiredPermits.value
    ensures exceptions.None? ==> r.exceptions == []
    ensures exceptions.Some? ==> r.exceptions == exceptions.value
  {
    Rule(ruleId, title, description, vehicleTypes, timeRestriction, areas,
         maxWeight, maxDimensions,
         match requiredPermits case None => [] case Some(ps) => ps,
         match exceptions case None => [] case Some(es) => es)
  }

  /** Handing the constructor a rule's own fields, with both lists given, rebuilds that
      very rule; leaving a list out is the same as giving it empty. */
  lemma MakeRuleRoundTrip(r: Rule, permits: Option<seq<string>>, exceptions: Option<seq<string>>)
    ensures MakeRule(r.ruleId, r.title, r.description, r.vehicleTypes, r.timeRestriction, r.areas,
                     r.maxWeight, r.maxDimensions, Some(r.requiredPermits), Some(r.exceptions)) == r
    ensures MakeRule(r.ruleId, r.title, r.description, r.vehicleTypes, r.timeRestriction, r.areas,
                     r.maxWeight, r.maxDimensions, None, exceptions)
         == MakeRule(r.ruleId, r.title, r.description, r.vehicleTypes, r.timeRestriction, r.areas,
                     r.maxWeight, r.maxDimensions, Some([]), exceptions)
    ensures MakeRule(r.ruleId, r.title, r.description, r.vehicleTypes, r.timeRestriction, r.areas,
                     r.maxWeight, r.maxDimensions, permits, None)
         == MakeRule(r.ruleId, r.title, r.description, r.vehicleTypes, r.timeRestriction, r.areas,
                     r.maxWeight, r.maxDimensions, permits, Some([]))
  {
  }

  /** The shape every rule of the catalog has: at least one vehicle type and one area,
      a positive weight limit when there is one, positive dimensions when there are some. */
  ghost predicate WellShaped(r: Rule)
  {
    && |r.vehicleTypes| > 0
    && |r.areas| > 0
    && (r.maxWeight.Some? ==> r.maxWeight.value > 0.0)
    && (r.maxDimensions.Some? ==>
          && r.maxDimensions.value.length > 0.0
          && r.maxDimensions.value.width > 0.0
          && r.maxDimensions.value.height > 0.0)
  }
}
