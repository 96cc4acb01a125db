/**
  What the queries answer on the concrete ten-rule catalog: the lookups the catalog's
  own tests perform, the full answer of every vehicle-type query, and how the "All Tehran"
  sentinel (and only that exact element) makes a rule match every area.

  The answers are obtained through the order-preserving selection that characterises
  each query: the positions a query selects are worked out from a table of the one field
  the query reads, then turned into the query's answer.
 */
module CatalogFacts {
  import opened Wrappers
  import opened Rules
  import opened Filters
  import opened Catalog

  /** Looking up TEH-001 finds the central-Tehran zone rule, the first of the catalog. */
  lemma LookupFirstRule()
    ensures RuleById(NewCatalog(), "TEH-001") == Some(Teh001)
    ensures Teh001.title == "Restricted Zones in Central Tehran"
  {
    assert NewCatalog().rules[0] == Teh001 && Teh001.ruleId == "TEH-001";
  }

  /** An identifier the catalog does not hold finds nothing. */
  lemma LookupMissingId(id: string)
    requires id !in LoadedIdList
    ensures RuleById(NewCatalog(), id) == None
  {
    AbsentIdFindsNothing(NewCatalog(), id);
  }

  /** TEH-999 is such an identifier. */
  lemma LookupTeh999()
    ensures RuleById(NewCatalog(), "TEH-999") == None
  {
    LookupMissingId("TEH-999");
  }

  /** Every identifier the catalog holds finds the rule at its position. */
  lemma LookupEveryId(i: int)
    requires 0 <= i < 10
    ensures RuleById(NewCatalog(), LoadedIdList[i]) == Some(NewCatalog().rules[i])
  {
    LoadedIdsDistinct();
    RuleByIdFindsOnlyMatch(NewCatalog(), i);
  }

  /** Every position of the catalog is one of its ten positions. */
  lemma TenPositions(i: int)
    requires 0 <= i < 10
    ensures i == 0 || i == 1 || i == 2 || i == 3 || i == 4 || i == 5 || i == 6 || i == 7 || i == 8 || i == 9
  {
  }

  /** The vehicle types of the ten rules, position by position. */
  ghost predicate VehicleTable(rs: seq<Rule>)
  {
    && |rs| == 10
    && rs[0].vehicleTypes == [HeavyTruck, SemiTrailer]
    && rs[1].vehicleTypes == [HeavyTruck, SemiTrailer]
    && rs[2].vehicleTypes == [HeavyTruck, SemiTrailer]
    && rs[3].vehicleTypes == [HeavyTruck, SemiTrailer]
    && rs[4].vehicleTypes == [LightTruck, MediumTruck, HeavyTruck]
    && rs[5].vehicleTypes == [HeavyTruck, SemiTrailer]
    && rs[6].vehicleTypes == [HeavyTruck, SemiTrailer]
    && rs[7].vehicleTypes == [Tanker]
    && rs[8].vehicleTypes == [Refrigerated]
    && rs[9].vehicleTypes == [HeavyTruck, MediumTruck]
  }

  /** The areas of the ten rules, position by position. */
  ghost predicate AreaTable(rs: seq<Rule>)
  {
    && |rs| == 10
    && rs[0].areas == ["Central Tehran", "Downtown", "Valiasr Square", "Enghelab Square"]
    && rs[1].areas == ["All Tehran Bridges", "Overpasses"]
    && rs[2].areas == ["Residential Zones", "Residential Complexes"]
    && rs[3].areas == ["All Tehran"]
    && rs[4].areas == ["Low-Emission Zones", "Environmental Zones"]
    && rs[5].areas == ["Tehran-Karaj Highway", "Tehran-Qom Highway", "Tehran-Saveh Highway"]
    && rs[6].areas == ["All Tehran Entry Points"]
    && rs[7].areas == ["All Tehran"]
    && rs[8].areas == ["Markets", "Distribution Centers", "Food Processing Areas"]
    && rs[9].areas == ["Construction Sites", "Designated Construction Routes"]
  }

  /** The loaded catalog has the vehicle-type table above. */
  lemma LoadedVehicleTable()
    ensures VehicleTable(LoadRules())
  {
  }

  /** The loaded catalog has the area table above. */
  lemma LoadedAreaTable()
    ensures AreaTable(LoadRules())
  {
  }

  /** Exactly these positions, in increasing order, hold rules naming heavy trucks. */
  lemma HeavyTruckPositions(rs: seq<Rule>)
    requires VehicleTable(rs)
    ensures Covers([0, 1, 2, 3, 4, 5, 6, 9], rs, VehicleMatch(HeavyTruck))
    ensures Increasing([0, 1, 2, 3, 4, 5, 6, 9])
  {
    forall i | 0 <= i < |rs|
      ensures VehicleMatch(HeavyTruck)(rs[i]) <==> i in [0, 1, 2, 3, 4, 5, 6, 9]
    {
      TenPositions(i);
    }
    var idx := [0, 1, 2, 3, 4, 5, 6, 9];
    forall k | 0 <= k < |idx| - 1
      ensures idx[k] < idx[k + 1]
    {
      TenPositions(k);
    }
    IncreasingFromSteps(idx);
  }

  /** Heavy trucks are named by every rule except TEH-008 and TEH-009. */
  lemma HeavyTruckAnswer()
    ensures ByVehicleType(NewCatalog(), HeavyTruck) == [Teh001, Teh002, Teh003, Teh004, Teh005, Teh006, Teh007, Teh010]
  {
    var idx, r := [0, 1, 2, 3, 4, 5, 6, 9], [Teh001, Teh002, Teh003, Teh004, Teh005, Teh006, Teh007, Teh010];
    LoadedVehicleTable();
    HeavyTruckPositions(LoadRules());
    assert Picks(idx, LoadRules(), r) by {
      forall k | 0 <= k < |idx|
        ensures 0 <= idx[k] < |LoadRules()| && r[k] == LoadRules()[idx[k]]
      {
        TenPositions(k);
      }
    }
    VehicleAnswerFromSelection(NewCatalog(), HeavyTruck, idx, r);
  }

  /** Exactly these positions, in increasing order, hold rules naming semi-trailers. */
  lemma SemiTrailerPositions(rs: seq<Rule>)
    requires VehicleTable(rs)
    ensures Covers([0, 1, 2, 3, 5, 6], rs, VehicleMatch(SemiTrailer))
    ensures Increasing([0, 1, 2, 3, 5, 6])
  {
    forall i | 0 <= i < |rs|
      ensures VehicleMatch(SemiTrailer)(rs[i]) <==> i in [0, 1, 2, 3, 5, 6]
    {
      TenPositions(i);
    }
    var idx := [0, 1, 2, 3, 5, 6];
    forall k | 0 <= k < |idx| - 1
      ensures idx[k] < idx[k + 1]
    {
      TenPositions(k);
    }
    IncreasingFromSteps(idx);
  }

  /** Semi-trailers are named by TEH-001 to TEH-004, TEH-006 and TEH-007. */
  lemma SemiTrailerAnswer()
    ensures ByVehicleType(NewCatalog(), SemiTrailer) == [Teh001, Teh002, Teh003, Teh004, Teh006, Teh007]
  {
    var idx, r := [0, 1, 2, 3, 5, 6], [Teh001, Teh002, Teh003, Teh004, Teh006, Teh007];
    LoadedVehicleTable();
    SemiTrailerPositions(LoadRules());
    assert Picks(idx, LoadRules(), r) by {
      forall k | 0 <= k < |idx|
        ensures 0 <= idx[k] < |LoadRules()| && r[k] == LoadRules()[idx[k]]
      {
        TenPositions(k);
      }
    }
    VehicleAnswerFromSelection(NewCatalog(), SemiTrailer, idx, r);
  }

  /** Exactly these positions, in increasing order, hold rules naming light trucks. */
  lemma LightTruckPositions(rs: seq<Rule>)
    requires VehicleTable(rs)
    ensures Covers([4], rs, VehicleMatch(LightTruck))
  {
    forall i | 0 <= i < |rs|
      ensures VehicleMatch(LightTruck)(rs[i]) <==> i in [4]
    {
      TenPositions(i);
    }
  }

  /** Light trucks are named by the environmental-zone rule TEH-005 alone. */
  lemma LightTruckAnswer()
    ensures ByVehicleType(NewCatalog(), LightTruck) == [Teh005]
  {
    var idx, r := [4], [Teh005];
    LoadedVehicleTable();
    LightTruckPositions(LoadRules());
    assert Picks(idx, LoadRules(), r) by {
      forall k | 0 <= k < |idx|
        ensures 0 <= idx[k] < |LoadRules()| && r[k] == LoadRules()[idx[k]]
      {
        TenPositions(k);
      }
    }
    VehicleAnswerFromSelection(NewCatalog(), LightTruck, idx, r);
  }

  /** Exactly these positions, in increasing order, hold rules naming medium trucks. */
  lemma MediumTruckPositions(rs: seq<Rule>)
    requires VehicleTable(rs)
    ensures Covers([4, 9], rs, VehicleMatch(MediumTruck))
    ensures Increasing([4, 9])
  {
    forall i | 0 <= i < |rs|
      ensures VehicleMatch(MediumTruck)(rs[i]) <==> i in [4, 9]
    {
      TenPositions(i);
    }
    var idx := [4, 9];
    forall k | 0 <= k < |idx| - 1
      ensures idx[k] < idx[k + 1]
    {
      TenPositions(k);
    }
    IncreasingFromSteps(idx);
  }

  /** Medium trucks are named by TEH-005 and TEH-010. */
  lemma MediumTruckAnswer()
    ensures ByVehicleType(NewCatalog(), MediumTruck) == [Teh005, Teh010]
  {
    var idx, r := [4, 9], [Teh005, Teh010];
    LoadedVehicleTable();
    MediumTruckPositions(LoadRules());
    assert Picks(idx, LoadRules(), r) by {
      forall k | 0 <= k < |idx|
        ensures 0 <= idx[k] < |LoadRules()| && r[k] == LoadRules()[idx[k]]
      {
        TenPositions(k);
      }
    }
    VehicleAnswerFromSelection(NewCatalog(), MediumTruck, idx, r);
  }

  /** Exactly these positions, in increasing order, hold rules naming tankers. */
  lemma TankerPositions(rs: seq<Rule>)
    requires VehicleTable(rs)
    ensures Covers([7], rs, VehicleMatch(Tanker))
  {
    forall i | 0 <= i < |rs|
      ensures VehicleMatch(Tanker)(rs[i]) <==> i in [7]
    {
      TenPositions(i);
    }
  }

  /** Tankers are named by the hazardous-materials rule TEH-008 alone. */
  lemma TankerAnswer()
    ensures ByVehicleType(NewCatalog(), Tanker) == [Teh008]
  {
    var idx, r := [7], [Teh008];
    LoadedVehicleTable();
    TankerPositions(LoadRules());
    assert Picks(idx, LoadRules(), r) by {
      forall k | 0 <= k < |idx|
        ensures 0 <= idx[k] < |LoadRules()| && r[k] == LoadRules()[idx[k]]
      {
        TenPositions(k);
      }
    }
    VehicleAnswerFromSelection(NewCatalog(), Tanker, idx, r);
  }

  /** Exactly these positions, in increasing order, hold rules naming refrigerated trucks. */
  lemma RefrigeratedPositions(rs: seq<Rule>)
    requires VehicleTable(rs)
    ensures Covers([8], rs, VehicleMatch(Refrigerated))
  {
    forall i | 0 <= i < |rs|
      ensures VehicleMatch(Refrigerated)(rs[i]) <==> i in [8]
    {
      TenPositions(i);
    }
  }

  /** Refrigerated trucks are named by TEH-009 alone. */
  lemma RefrigeratedAnswer()
    ensures ByVehicleType(NewCatalog(), Refrigerated) == [Teh009]
  {
    var idx, r := [8], [Teh009];
    LoadedVehicleTable();
    RefrigeratedPositions(LoadRules());
    assert Picks(idx, LoadRules(), r) by {
      forall k | 0 <= k < |idx|
        ensures 0 <= idx[k] < |LoadRules()| && r[k] == LoadRules()[idx[k]]
      {
        TenPositions(k);
      }
    }
    VehicleAnswerFromSelection(NewCatalog(), Refrigerated, idx, r);
  }

  /** Exactly these positions, in increasing order, hold rules matching "Central Tehran". */
  lemma CentralTehranPositions(rs: seq<Rule>)
    requires AreaTable(rs)
    ensures Covers([0, 3, 7], rs, AreaMatch("Central Tehran"))
    ensures Increasing([0, 3, 7])
  {
    forall i | 0 <= i < |rs|
      ensures AreaMatch("Central Tehran")(rs[i]) <==> i in [0, 3, 7]
    {
      TenPositions(i);
    }
    var idx := [0, 3, 7];
    forall k | 0 <= k < |idx| - 1
      ensures idx[k] < idx[k + 1]
    {
      TenPositions(k);
    }
    IncreasingFromSteps(idx);
  }

  /** The area query for "Central Tehran" answers the central-zone rule TEH-001 and the two
      rules that list the exact sentinel, TEH-004 and TEH-008. */
  lemma CentralTehranAnswer()
    ensures ByArea(NewCatalog(), "Central Tehran") == [Teh001, Teh004, Teh008]
  {
    var idx, r := [0, 3, 7], [Teh001, Teh004, Teh008];
    LoadedAreaTable();
    CentralTehranPositions(LoadRules());
    assert Picks(idx, LoadRules(), r) by {
      forall k | 0 <= k < |idx|
        ensures 0 <= idx[k] < |LoadRules()| && r[k] == LoadRules()[idx[k]]
      {
        TenPositions(k);
      }
    }
    AreaAnswerFromSelection(NewCatalog(), "Central Tehran", idx, r);
  }

  /** For an area no rule lists, exactly the positions of the sentinel rules match. */
  lemma UnlistedAreaPositions(rs: seq<Rule>, area: string)
    requires AreaTable(rs)
    requires forall i :: 0 <= i < |rs| ==> area !in rs[i].areas
    ensures Covers([3, 7], rs, AreaMatch(area))
    ensures Increasing([3, 7])
  {
    forall i | 0 <= i < |rs|
      ensures AreaMatch(area)(rs[i]) <==> i in [3, 7]
    {
      TenPositions(i);
    }
    var idx := [3, 7];
    forall k | 0 <= k < |idx| - 1
      ensures idx[k] < idx[k + 1]
    {
      TenPositions(k);
    }
    IncreasingFromSteps(idx);
  }

  /** An area no rule lists still gets the two rules carrying the exact sentinel, and only
      those: the region-qualified "All Tehran Bridges" and "All Tehran Entry Points" do not
      count as the sentinel. */
  lemma UnlistedAreaAnswer(area: string)
    requires forall i :: 0 <= i < |LoadRules()| ==> area !in LoadRules()[i].areas
    ensures ByArea(NewCatalog(), area) == [Teh004, Teh008]
  {
    var idx, r := [3, 7], [Teh004, Teh008];
    LoadedAreaTable();
    UnlistedAreaPositions(LoadRules(), area);
    assert Picks(idx, LoadRules(), r) by {
      forall k | 0 <= k < |idx|
        ensures 0 <= idx[k] < |LoadRules()| && r[k] == LoadRules()[idx[k]]
      {
        TenPositions(k);
      }
    }
    AreaAnswerFromSelection(NewCatalog(), area, idx, r);
  }

  /** Whatever area is asked for, TEH-004 and TEH-008 are in the answer, because each lists
      the exact element "All Tehran". */
  lemma SentinelRulesInEveryArea(area: string)
    ensures Teh004 in ByArea(NewCatalog(), area)
    ensures Teh008 in ByArea(NewCatalog(), area)
  {
    var c := NewCatalog();
    assert c.rules[3] == Teh004 && AllTehran in Teh004.areas;
    assert c.rules[7] == Teh008 && AllTehran in Teh008.areas;
  }

  /** TEH-002 answers an area query only when the area is one it lists verbatim: its
      "All Tehran Bridges" is not the sentinel. */
  lemma BridgesRuleIsNotUniversal(area: string)
    ensures Teh002 in ByArea(NewCatalog(), area) <==> area == "All Tehran Bridges" || area == "Overpasses"
  {
    var c := NewCatalog();
    assert c.rules[1] == Teh002 && AllTehran !in Teh002.areas;
    assert area in Teh002.areas <==> area == "All Tehran Bridges" || area == "Overpasses" by {
      assert Teh002.areas == ["All Tehran Bridges", "Overpasses"];
    }
    InAreaAnswerWithoutSentinel(c, 1, area);
  }

  /** TEH-007 answers an area query only for "All Tehran Entry Points" itself: that
      region-qualified name is not the sentinel. */
  lemma EntryPointsRuleIsNotUniversal(area: string)
    ensures Teh007 in ByArea(NewCatalog(), area) <==> area == "All Tehran Entry Points"
  {
    var c := NewCatalog();
    assert c.rules[6] == Teh007 && AllTehran !in Teh007.areas;
    assert area in Teh007.areas <==> area == "All Tehran Entry Points" by {
      assert Teh007.areas == ["All Tehran Entry Points"];
    }
    InAreaAnswerWithoutSentinel(c, 6, area);
  }

  /** The time labels the catalog's tests look for are present: TEH-007 applies on weekends
      only and TEH-003 at night only. */
  lemma TimeLabelsPresent()
    ensures NewCatalog().rules[6].timeRestriction == WeekendsOnly
    ensures NewCatalog().rules[2].timeRestriction == NighttimeOnly
  {
    assert NewCatalog().rules[6] == Teh007 && NewCatalog().rules[2] == Teh003;
  }

  /** The weight and dimension limits of the catalog: TEH-002 allows 20 tons, TEH-008
      25 tons, TEH-004 is limited to 12 x 2.5 x 4.5 meters, and no other rule has either. */
  lemma LimitsOfTheCatalog(i: int)
    requires 0 <= i < 10
    ensures NewCatalog().rules[i].maxWeight.Some? <==> i == 1 || i == 7
    ensures NewCatalog().rules[i].maxDimensions.Some? <==> i == 3
    ensures Teh002.maxWeight == Some(20.0) && Teh008.maxWeight == Some(25.0)
    ensures Teh004.maxDimensions == Some(Dimensions(12.0, 2.5, 4.5))
  {
    TenPositions(i);
  }

  /** Rules built without permits or without exceptions carry empty lists, never absent ones;
      at least one rule (TEH-001) requires a permit. */
  lemma DefaultListsAreEmpty()
    ensures Teh003.requiredPermits == [] && Teh004.requiredPermits == []
    ensures Teh001.exceptions == [] && Teh004.exceptions == []
    ensures Teh001.requiredPermits == ["Special Entry Permit"]
  {
  }
}
