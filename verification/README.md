# Tehran truck-transportation rules, in Dafny

A model of the Tehran truck-transportation rules module: a catalog of the rules and
regulations for truck transportation in Tehran. A rule (`TransportationRule`) names the
vehicle categories it applies to, a time-restriction label, the areas it covers,
optional weight and dimension limits, the permits it requires and its exceptions. The catalog (`TehranTransportationRules`) loads ten fixed
rules, TEH-001 to TEH-010, when it is constructed. It answers four read-only queries:
rules by vehicle type, rules by area (where the exact element "All Tehran" makes a rule
match every area), all rules, and a rule by identifier.

Layout:

- `wrappers.dfy`: `Option`, for the optional fields and the lookup's absent result.
- `rules.dfy` (module `Rules`): the two enumerations, the dimension record, the rule
  record, and its constructor with the defaulting of the two lists.
- `filters.dfy` (module `Filters`): the list comprehension every query is built on. It
  is characterised independently as the strictly increasing selection of exactly the
  matching positions, and both directions are proved.
- `catalog.dfy` (module `Catalog`): the ten rules, the catalog's construction, the four
  queries and their general properties.
- `catalog_facts.dfy` (module `CatalogFacts`): what the queries answer on the concrete
  ten-rule catalog: the lookups and structural checks of the catalog's own tests, except
  those listed under "## Left out".

## Model

| member | source | states |
|---|---|---|
| Rules.MakeRule | transportation_rules.py:31-49 | every given field is stored unchanged; an omitted list of permits or exceptions becomes the empty list, and a given one is kept as it is |
| Rules.MakeRuleRoundTrip | transportation_rules.py:45-49 | rebuilding a rule from its own fields gives back that rule; leaving a list out is the same as passing an empty one |
| Catalog.LoadRules | transportation_rules.py:59-171 | the loader yields exactly ten rules with identifiers TEH-001 to TEH-010 in load order; every rule names at least one vehicle type and one area, and any weight or dimension limit it has is positive |
| Catalog.NewCatalog | transportation_rules.py:55-57 | after construction the catalog holds exactly ten rules, TEH-001 to TEH-010 in load order, with distinct identifiers and every rule well shaped |
| Catalog.ByVehicleType | transportation_rules.py:173-175 | every rule returned is in the catalog and names the vehicle type; every catalog rule naming it is returned |
| Catalog.ByVehicleTypeExact | transportation_rules.py:173-175 | a list is the vehicle-type answer exactly when it is the catalog's rules at the strictly increasing list of all positions whose rule names the type (both directions) |
| Catalog.InVehicleTypeAnswer | transportation_rules.py:173-175 | a catalog rule is in the answer if and only if it names the vehicle type |
| Catalog.ByVehicleTypeIdempotent | transportation_rules.py:173-175 | querying the answer again for the same vehicle type returns it unchanged |
| Catalog.ByArea | transportation_rules.py:177-179 | every rule returned lists the area or the exact element "All Tehran"; every catalog rule that does is returned |
| Catalog.ByAreaExact | transportation_rules.py:177-179 | a list is the area answer exactly when it is the catalog's rules at the strictly increasing list of all positions whose rule lists the area or the sentinel (both directions) |
| Catalog.InAreaAnswer | transportation_rules.py:177-179 | a catalog rule is in the area answer if and only if it lists the area or the exact sentinel |
| Catalog.InAreaAnswerWithoutSentinel | transportation_rules.py:177-179 | a rule that does not list the exact sentinel is returned only for the areas it lists itself |
| Catalog.ByAreaIdempotent | transportation_rules.py:177-179 | querying the answer again for the same area returns it unchanged |
| Catalog.AllRules | transportation_rules.py:181-183 | the result has the catalog's length and the same rule at every position |
| Catalog.FirstWithId | transportation_rules.py:185-190 | the scan finds nothing exactly when no rule carries the identifier; otherwise it returns the first rule in catalog order that carries it |
| Catalog.RuleById | transportation_rules.py:185-190 | the lookup returns None exactly when no catalog rule has the identifier; otherwise it returns the first rule in catalog order that has it |
| Catalog.FirstWithIdIsHeadOfFilter | transportation_rules.py:185-190 | the lookup equals the head of the list of all rules carrying the identifier, and None when that list is empty |
| Catalog.AbsentIdFindsNothing | transportation_rules.py:185-190 | an identifier no catalog rule carries makes the lookup return None |
| Catalog.RuleByIdFindsOnlyMatch | transportation_rules.py:185-190 | when identifiers are distinct, looking up any rule's identifier returns that very rule |
| Filters.Filter | transportation_rules.py:175 | the comprehension keeps only matching elements of the input, keeps every matching element, and is never longer than the input |
| Filters.FilterSelects | transportation_rules.py:175 | the comprehension's result is the input at the strictly increasing list of exactly the matching positions |
| Filters.SelectsIsFilter | transportation_rules.py:179 | any such order-preserving selection of exactly the matching positions equals the comprehension's result |
| Filters.FilterIdempotent | transportation_rules.py:179 | filtering a filtered list again with the same condition changes nothing |
| CatalogFacts.LookupFirstRule | test_transportation_rules.py:47-52 | looking up TEH-001 returns the first rule, titled "Restricted Zones in Central Tehran" |
| CatalogFacts.LookupMissingId | transportation_rules.py:185-190 | every identifier that is not one of the ten loaded ones finds nothing |
| CatalogFacts.LookupTeh999 | test_transportation_rules.py:54-57 | looking up TEH-999 returns None |
| CatalogFacts.LookupEveryId | transportation_rules.py:185-190 | each of the ten loaded identifiers finds the rule at its own position |
| CatalogFacts.HeavyTruckAnswer | test_transportation_rules.py:26-33 | the heavy-truck answer is every rule except TEH-008 and TEH-009, in catalog order |
| CatalogFacts.SemiTrailerAnswer | transportation_rules.py:62-137 | the semi-trailer answer is TEH-001 to TEH-004, TEH-006 and TEH-007 |
| CatalogFacts.LightTruckAnswer | transportation_rules.py:107-115 | the light-truck answer is TEH-005 alone |
| CatalogFacts.MediumTruckAnswer | transportation_rules.py:107-171 | the medium-truck answer is TEH-005 and TEH-010 |
| CatalogFacts.TankerAnswer | test_transportation_rules.py:95-105 | the tanker answer is the hazardous-materials rule TEH-008 alone |
| CatalogFacts.RefrigeratedAnswer | test_transportation_rules.py:107-110 | the refrigerated answer is TEH-009 alone |
| CatalogFacts.CentralTehranAnswer | test_transportation_rules.py:35-45 | the "Central Tehran" answer is TEH-001, TEH-004 and TEH-008 |
| CatalogFacts.UnlistedAreaAnswer | transportation_rules.py:177-179 | an area no rule lists gets exactly the two sentinel rules TEH-004 and TEH-008 |
| CatalogFacts.SentinelRulesInEveryArea | transportation_rules.py:179 | TEH-004 and TEH-008 are in the answer for every area |
| CatalogFacts.BridgesRuleIsNotUniversal | transportation_rules.py:73-82 | TEH-002 is returned exactly for "All Tehran Bridges" and "Overpasses": the region-qualified name is not the sentinel |
| CatalogFacts.EntryPointsRuleIsNotUniversal | transportation_rules.py:129-137 | TEH-007 is returned exactly for "All Tehran Entry Points" |
| CatalogFacts.TimeLabelsPresent | test_transportation_rules.py:112-126 | the catalog has a weekends-only rule (TEH-007) and a nighttime-only rule (TEH-003) |
| CatalogFacts.LimitsOfTheCatalog | test_transportation_rules.py:71-88 | only TEH-002 (20 tons) and TEH-008 (25 tons) have a weight limit; only TEH-004 (12 x 2.5 x 4.5 m) has dimension limits |
| CatalogFacts.DefaultListsAreEmpty | test_transportation_rules.py:90-93 | rules built without permits or exceptions carry empty lists; TEH-001 requires the "Special Entry Permit" |

## Left out

- The module-level global instance (transportation_rules.py:194): it is just one more `NewCatalog()`.
- Object identity and aliasing: the model has values only. `get_all_rules` returns a shallow copy whose rules are shared with the catalog's list; in the model, "copy" means an equal sequence.
- Mutation after construction: nothing in the catalog mutates its list after loading, so the list is an immutable sequence.
- The enumerations' string payloads ("heavy_truck", …): nothing in the core reads them, so the enumerations are plain datatypes.
- Floating point: weights and dimensions are `real`. Only their presence and positivity are used, so the test's check that a weight is a float (test_transportation_rules.py:77) holds by type.
- `max_dimensions` as a dictionary: it becomes a three-field record, so the "length", "width" and "height" keys the tests look for cannot be missing.
- Time restrictions are labels only: no clock is consulted anywhere in the core, and none is modelled.
- The tanker test's case-insensitive search for "hazardous" (test_transportation_rules.py:101-104): no lower-casing or substring search is modelled. `CatalogFacts.TankerAnswer` pins the answer to TEH-008, whose description contains the word.
- `test_runner.py`: it reads README.md and checks the spelling of its title; that is file input and documentation, not rule logic.
