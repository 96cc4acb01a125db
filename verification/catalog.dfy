/**
  The Tehran rule catalog: the fixed list of ten rules built once at construction, and
  the read-only queries over it (by vehicle type, by area, by identifier, and all rules).
 */
module Catalog {
  import opened Wrappers
  import opened Rules
  import opened Filters

  /** The one area name the area query treats as "applies everywhere". Region-qualified
      names such as "All Tehran Bridges" are ordinary area names, not this marker. */
  const AllTehran: string := "All Tehran"

  /** The catalog object: it owns nothing but its list of rules. */
  datatype TehranRules = TehranRules(rules: seq<Rule>)

  /** The identifiers of `rs`, in order. */
  function Ids(rs: seq<Rule>): (ids: seq<string>)
    ensures |ids| == |rs|
    ensures forall i :: 0 <= i < |rs| ==> ids[i] == rs[i].ruleId
  {
    seq(|rs|, i requires 0 <= i < |rs| => rs[i].ruleId)
  }

  ghost predicate DistinctIds(rs: seq<Rule>)
  {
    forall i, j :: 0 <= i < j < |rs| ==> rs[i].ruleId != rs[j].ruleId
  }

  /** The catalog's invariant: unique identifiers and every rule well shaped. */
  ghost predicate WellFormed(rs: seq<Rule>)
  {
    DistinctIds(rs) && forall i :: 0 <= i < |rs| ==> WellShaped(rs[i])
  }

  // The ten rules of the catalog, each built through the record's constructor with the
  // fields the loader passes; an argument the loader leaves out is None.

  const Teh001: Rule := MakeRule("TEH-001", "Restricted Zones in Central Tehran",
        "Heavy trucks are prohibited from entering central Tehran zones during peak hours (7 AM - 9 PM)",
        [HeavyTruck, SemiTrailer], DaytimeOnly,
        ["Central Tehran", "Downtown", "Valiasr Square", "Enghelab Square"],
        None, None, Some(["Special Entry Permit"]), None)

  const Teh002: Rule := MakeRule("TEH-002", "Weight Limit on City Bridges",
        "Maximum weight limit of 20 tons for trucks on city bridges and overpasses",
        [HeavyTruck, SemiTrailer], NoRestriction,
        ["All Tehran Bridges", "Overpasses"],
        Some(20.0), None, Some(["Bridge Crossing Permit"]), None)

  const Teh003: Rule := MakeRule("TEH-003", "Nighttime Truck Movement",
        "Heavy trucks allowed in residential areas only between 10 PM and 6 AM",
        [HeavyTruck, SemiTrailer], NighttimeOnly,
        ["Residential Zones", "Residential Complexes"],
        None, None, None, Some(["Emergency vehicles", "Municipal services"]))

  const Teh004: Rule := MakeRule("TEH-004", "Maximum Vehicle Dimensions",
        "Maximum dimensions for trucks: Length 12m, Width 2.5m, Height 4.5m",
        [HeavyTruck, SemiTrailer], NoRestriction,
        ["All Tehran"],
        None, Some(Dimensions(12.0, 2.5, 4.5)), None, None)

  const Teh005: Rule := MakeRule("TEH-005", "Environmental Zone Restrictions",
        "Trucks older than 10 years are restricted from entering low-emission zones",
        [LightTruck, MediumTruck, HeavyTruck], NoRestriction,
        ["Low-Emission Zones", "Environmental Zones"],
        None, None, Some(["Environmental Permit", "Emission Certificate"]), None)

  const Teh006: Rule := MakeRule("TEH-006", "Highway Access",
        "Heavy trucks must use designated lanes on highways and are restricted from left lanes",
        [HeavyTruck, SemiTrailer], NoRestriction,
        ["Tehran-Karaj Highway", "Tehran-Qom Highway", "Tehran-Saveh Highway"],
        None, None, None, Some(["Overtaking situations"]))

  const Teh007: Rule := MakeRule("TEH-007", "Weekend Truck Ban",
        "Heavy trucks are banned from entering Tehran on Fridays (weekend)",
        [HeavyTruck, SemiTrailer], WeekendsOnly,
        ["All Tehran Entry Points"],
        None, None, None, Some(["Essential goods", "Emergency services", "With special permit"]))

  const Teh008: Rule := MakeRule("TEH-008", "Tanker Truck Regulations",
        "Tanker trucks carrying hazardous materials require special permits and escort vehicles",
        [Tanker], DaytimeOnly,
        ["All Tehran"],
        Some(25.0), None, Some(["Hazardous Materials Permit", "Escort Vehicle Authorization"]), None)

  const Teh009: Rule := MakeRule("TEH-009", "Refrigerated Truck Access",
        "Refrigerated trucks carrying perishable goods have extended access hours (5 AM - 11 PM)",
        [Refrigerated], DaytimeOnly,
        ["Markets", "Distribution Centers", "Food Processing Areas"],
        None, None, Some(["Food Transport Permit"]), None)

  const Teh010: Rule := MakeRule("TEH-010", "Construction Vehicle Regulations",
        "Construction trucks are restricted to construction zones and require site-specific permits",
        [HeavyTruck, MediumTruck], DaytimeOnly,
        ["Construction Sites", "Designated Construction Routes"],
        None, None, Some(["Construction Site Permit", "Route Permit"]), None)

  /** The identifiers the loader assigns, in load order. */
  const LoadedIdList: seq<string> :=
    ["TEH-001", "TEH-002", "TEH-003", "TEH-004", "TEH-005",
     "TEH-006", "TEH-007", "TEH-008", "TEH-009", "TEH-010"]

  /** The ten rules, in the order they are loaded: TEH-001 to TEH-010, every one well
      shaped. */
  function LoadRules(): (rs: seq<Rule>)
    ensures |rs| == 10
    ensures Ids(rs) == LoadedIdList
    ensures forall i :: 0 <= i < |rs| ==> WellShaped(rs[i])
  {
    [Teh001, Teh002, Teh003, Teh004, Teh005, Teh006, Teh007, Teh008, Teh009, Teh010]
  }

  /** Constructs the catalog, loading the ten rules. After construction it holds exactly
      ten rules, TEH-001 to TEH-010 in that order, with distinct identifiers and every
      rule well shaped. */
  function NewCatalog(): (c: TehranRules)
    ensures |c.rules| == 10
    ensures Ids(c.rules) == LoadedIdList
    ensures WellFormed(c.rules)
  {
    LoadedIdsDistinct();
    TehranRules(LoadRules())
  }

  /** Rules whose identifier list has no repetition have distinct identifiers. */
  lemma DistinctIdsFromList(rs: seq<Rule>, ids: seq<string>)
    requires Ids(rs) == ids
    requires forall i, j :: 0 <= i < j < |ids| ==> ids[i] != ids[j]
    ensures DistinctIds(rs)
  {
    forall i, j | 0 <= i < j < |rs|
      ensures rs[i].ruleId != rs[j].ruleId
    {
      assert ids[i] == rs[i].ruleId && ids[j] == rs[j].ruleId;
    }
  }

  lemma LoadedIdsDistinct()
    ensures DistinctIds(LoadRules())
  {
    assert forall i, j :: 0 <= i < j < |LoadedIdList| ==> LoadedIdList[i] != LoadedIdList[j];
    DistinctIdsFromList(LoadRules(), LoadedIdList);
  }

  /** The condition of the vehicle-type query. */
  function VehicleMatch(t: VehicleType): Rule -> bool
  {
    (x: Rule) => t in x.vehicleTypes
  }

  /** The condition of the area query: the area is listed verbatim, or the exact sentinel is. */
  function AreaMatch(area: string): Rule -> bool
  {
    (x: Rule) => area in x.areas || AllTehran in x.areas
  }

  /** The rules whose vehicle types include `t`, in catalog order. */
  function ByVehicleType(c: TehranRules, t: VehicleType): (r: seq<Rule>)
    ensures forall x :: x in r ==> x in c.rules && t in x.vehicleTypes
    ensures forall i :: 0 <= i < |c.rules| && t in c.rules[i].vehicleTypes ==> c.rules[i] in r
  {
    Filter(c.rules, VehicleMatch(t))
  }

  /** The rules that list `area`, or list the exact element "All Tehran", in catalog order. */
  function ByArea(c: TehranRules, area: string): (r: seq<Rule>)
    ensures forall x :: x in r ==> x in c.rules && (area in x.areas || AllTehran in x.areas)
    ensures forall i :: 0 <= i < |c.rules| && (area in c.rules[i].areas || AllTehran in c.rules[i].areas)
                        ==> c.rules[i] in r
  {
    Filter(c.rules, AreaMatch(area))
  }

  /** A copy of the rule list: same length, same rules, same order. */
  function AllRules(c: TehranRules): (r: seq<Rule>)
    ensures |r| == |c.rules|
    ensures forall i :: 0 <= i < |r| ==> r[i] == c.rules[i]
  {
    c.rules[..]
  }

  /** The first rule of `rs` whose identifier is `id`, or None when there is none. */
  function FirstWithId(rs: seq<Rule>, id: string): (r: Option<Rule>)
    ensures r.None? <==> forall i :: 0 <= i < |rs| ==> rs[i].ruleId != id
    ensures r.Some? ==> exists k :: 0 <= k < |rs| && rs[k] == r.value && rs[k].ruleId == id
                                    && forall j :: 0 <= j < k ==> rs[j].ruleId != id
    decreases |rs|
  {
    if |rs| == 0 then None
    else if rs[0].ruleId == id then Some(rs[0])
    else
      var r := FirstWithId(rs[1..], id);
      assert r.Some? ==> exists k :: 1 <= k < |rs| && rs[k] == r.value && rs[k].ruleId == id
                                    && forall j :: 0 <= j < k ==> rs[j].ruleId != id by {
        if r.Some? {
          var k :| 0 <= k < |rs[1..]| && rs[1..][k] == r.value && rs[1..][k].ruleId == id
                   && forall j :: 0 <= j < k ==> rs[1..][j].ruleId != id;
          assert rs[k + 1] == r.value;
          forall j | 0 <= j < k + 1
            ensures rs[j].ruleId != id
          {
            if j > 0 {
              assert rs[j] == rs[1..][j - 1];
            }
          }
        }
      }
      r
  }

  /** The lookup by identifier: a scan of the catalog in order, stopping at the first match. */
  function RuleById(c: TehranRules, id: string): (r: Option<Rule>)
    ensures r.None? <==> forall i :: 0 <= i < |c.rules| ==> c.rules[i].ruleId != id
    ensures r.Some? ==> exists k :: 0 <= k < |c.rules| && c.rules[k] == r.value && r.value.ruleId == id
                                    && forall j :: 0 <= j < k ==> c.rules[j].ruleId != id
  {
    FirstWithId(c.rules, id)
  }

  /** The vehicle-type query returns exactly the order-preserving selection of the rules
      naming `t`: `r` is its result if and only if such a selection yields `r`. */
  lemma ByVehicleTypeExact(c: TehranRules, t: VehicleType, r: seq<Rule>)
    ensures r == ByVehicleType(c, t) <==> exists idx :: Selects(idx, c.rules, r, VehicleMatch(t))
  {
    if r == ByVehicleType(c, t) {
      FilterSelects(c.rules, VehicleMatch(t));
    }
    if idx :| Selects(idx, c.rules, r, VehicleMatch(t)) {
      SelectsIsFilter(idx, c.rules, r, VehicleMatch(t));
    }
  }

  /** The area query returns exactly the order-preserving selection of the rules that list
      `area` or the exact sentinel. */
  lemma ByAreaExact(c: TehranRules, area: string, r: seq<Rule>)
    ensures r == ByArea(c, area) <==> exists idx :: Selects(idx, c.rules, r, AreaMatch(area))
  {
    if r == ByArea(c, area) {
      FilterSelects(c.rules, AreaMatch(area));
    }
    if idx :| Selects(idx, c.rules, r, AreaMatch(area)) {
      SelectsIsFilter(idx, c.rules, r, AreaMatch(area));
    }
  }

  /** A rule of the catalog is in the area query's answer exactly when it lists the area
      or the exact sentinel. */
  lemma InAreaAnswer(c: TehranRules, i: int, area: string)
    requires 0 <= i < |c.rules|
    ensures c.rules[i] in ByArea(c, area) <==> area in c.rules[i].areas || AllTehran in c.rules[i].areas
  {
  }

  /** A rule that does not list the exact sentinel is in the area query's answer only
      for the areas it lists itself. */
  lemma InAreaAnswerWithoutSentinel(c: TehranRules, i: int, area: string)
    requires 0 <= i < |c.rules|
    requires AllTehran !in c.rules[i].areas
    ensures c.rules[i] in ByArea(c, area) <==> area in c.rules[i].areas
  {
  }

  /** A rule of the catalog is in the vehicle-type query's answer exactly when it names
      the vehicle type. */
  lemma InVehicleTypeAnswer(c: TehranRules, i: int, t: VehicleType)
    requires 0 <= i < |c.rules|
    ensures c.rules[i] in ByVehicleType(c, t) <==> t in c.rules[i].vehicleTypes
  {
  }

  /** An order-preserving selection of the rules naming `t` is the vehicle-type answer. */
  lemma VehicleAnswerFromSelection(c: TehranRules, t: VehicleType, idx: seq<int>, r: seq<Rule>)
    requires Selects(idx, c.rules, r, VehicleMatch(t))
    ensures ByVehicleType(c, t) == r
  {
    SelectsIsFilter(idx, c.rules, r, VehicleMatch(t));
  }

  /** An order-preserving selection of the rules matching `area` is the area answer. */
  lemma AreaAnswerFromSelection(c: TehranRules, area: string, idx: seq<int>, r: seq<Rule>)
    requires Selects(idx, c.rules, r, AreaMatch(area))
    ensures ByArea(c, area) == r
  {
    SelectsIsFilter(idx, c.rules, r, AreaMatch(area));
  }

  /** Asking the vehicle-type query again of its own result changes nothing. */
  lemma ByVehicleTypeIdempotent(c: TehranRules, t: VehicleType)
    ensures ByVehicleType(TehranRules(ByVehicleType(c, t)), t) == ByVehicleType(c, t)
  {
    FilterIdempotent(c.rules, VehicleMatch(t));
  }

  /** Asking the area query again of its own result changes nothing. */
  lemma ByAreaIdempotent(c: TehranRules, area: string)
    ensures ByArea(TehranRules(ByArea(c, area)), area) == ByArea(c, area)
  {
    FilterIdempotent(c.rules, AreaMatch(area));
  }

  /** The condition of a lookup by identifier, as a filter. */
  function IdMatch(id: string): Rule -> bool
  {
    (x: Rule) => x.ruleId == id
  }

  /** The lookup by identifier agrees with the head of the list of all rules carrying that
      identifier: None when that list is empty, its first element otherwise. */
  lemma {:induction false} FirstWithIdIsHeadOfFilter(rs: seq<Rule>, id: string)
    ensures var f := Filter(rs, IdMatch(id));
            FirstWithId(rs, id) == if f == [] then None else Some(f[0])
    decreases |rs|
  {
    if |rs| > 0 {
      FirstWithIdIsHeadOfFilter(rs[1..], id);
    }
  }

  /** An identifier that no rule of the catalog carries finds nothing. */
  lemma AbsentIdFindsNothing(c: TehranRules, id: string)
    requires id !in Ids(c.rules)
    ensures RuleById(c, id) == None
  {
    forall i | 0 <= i < |c.rules|
      ensures c.rules[i].ruleId != id
    {
      assert Ids(c.rules)[i] == c.rules[i].ruleId;
    }
  }

  /** With distinct identifiers, looking up a rule's identifier finds that very rule. */
  lemma RuleByIdFindsOnlyMatch(c: TehranRules, i: int)
    requires DistinctIds(c.rules)
    requires 0 <= i < |c.rules|
    ensures RuleById(c, c.rules[i].ruleId) == Some(c.rules[i])
  {
    var r := FirstWithId(c.rules, c.rules[i].ruleId);
    var k :| 0 <= k < |c.rules| && c.rules[k] == r.value && c.rules[k].ruleId == c.rules[i].ruleId
             && forall j :: 0 <= j < k ==> c.rules[j].ruleId != c.rules[i].ruleId;
    assert k == i;
  }
}
