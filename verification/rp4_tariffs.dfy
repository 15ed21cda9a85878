/** The RP4 electricity tariff catalog: a constant nested table from
    customer class to tariff group to a list of tariff plans, each with its
    named rates and billing rules, and lookups into it.

    Rates are fixed-point integers in ten-thousandths of a ringgit, so the
    catalog's decimal literals are represented exactly (0.2703 is 2703,
    20.00 is 200000). */
module RP4Tariffs {
  import opened Wrappers
  import opened AssocLists

  /** An amount in ten-thousandths. */
  type Fixed = int

  datatype CustomerClass = Residential | Business

  datatype TariffGroup =
    | Domestic
    | NonDomestic
    | SpecificAgriculture
    | WaterSewerageOperator
    | StreetLighting
    | CoGeneration
    | Traction
    | Bulk
    | ThermalEnergyStorage
    | Backfeed

  datatype Voltage = LowVoltage | MediumVoltage | HighVoltage

  datatype PlanType = General | TOU

  /** What a capacity or network charge is billed on; `NoBasis` is the
      catalog's `None`. */
  datatype Basis = KWh | KW | KWPeakOnly | NoBasis

  /** The "Rules" record. `tiered` is `None` where the plan's record has no
      "tiered" key at all, which is the case for every Non Domestic plan. */
  datatype Rules = Rules(
    tiered: Option<bool>,
    chargeCapacityBy: Basis,
    chargeNetworkBy: Basis,
    hasPeakSplit: bool,
    afaApplicable: bool)

  /** One entry of a group's "Tariffs" list. Voltage and type are absent on
      the domestic plan. */
  datatype TariffPlan = TariffPlan(
    name: string,
    voltage: Option<Voltage>,
    planType: Option<PlanType>,
    rates: map<string, Fixed>,
    rules: Rules)

  type Groups = seq<(TariffGroup, seq<TariffPlan>)>
  type Catalog = seq<(CustomerClass, Groups)>

  // ---------------------------------------------------------------------
  // Key texts
  // ---------------------------------------------------------------------

  function ClassName(c: CustomerClass): string {
    match c
    case Residential => "Residential"
    case Business => "Business"
  }

  function GroupName(g: TariffGroup): string {
    match g
    case Domestic => "Domestic"
    case NonDomestic => "Non Domestic"
    case SpecificAgriculture => "Specific Agriculture"
    case WaterSewerageOperator => "Water & Sewerage Operator"
    case StreetLighting => "Street Lighting"
    case CoGeneration => "Co-Generation"
    case Traction => "Traction"
    case Bulk => "Bulk"
    case ThermalEnergyStorage => "Thermal Energy Storage (TES)"
    case Backfeed => "Backfeed"
  }

  /** The dictionary key text back to its class; `None` for any other text. */
  function ParseClass(s: string): (r: Option<CustomerClass>)
    ensures r.Some? ==> ClassName(r.value) == s
    ensures forall c :: ClassName(c) == s ==> r == Some(c)
  {
    if s == "Residential" then Some(Residential)
    else if s == "Business" then Some(Business)
    else None
  }

  /** The dictionary key text back to its group; `None` for any other text. */
  function ParseGroup(s: string): (r: Option<TariffGroup>)
    ensures r.Some? ==> GroupName(r.value) == s
    ensures forall g :: GroupName(g) == s ==> r == Some(g)
  {
    if s == "Domestic" then Some(Domestic)
    else if s == "Non Domestic" then Some(NonDomestic)
    else if s == "Specific Agriculture" then Some(SpecificAgriculture)
    else if s == "Water & Sewerage Operator" then Some(WaterSewerageOperator)
    else if s == "Street Lighting" then Some(StreetLighting)
    else if s == "Co-Generation" then Some(CoGeneration)
    else if s == "Traction" then Some(Traction)
    else if s == "Bulk" then Some(Bulk)
    else if s == "Thermal Energy Storage (TES)" then Some(ThermalEnergyStorage)
    else if s == "Backfeed" then Some(Backfeed)
    else None
  }

  const EnergyRate: string := "Energy Rate"
  const PeakRate: string := "Peak Rate"
  const OffPeakRate: string := "OffPeak Rate"
  const CapacityRate: string := "Capacity Rate"
  const NetworkRate: string := "Network Rate"
  const RetailRate: string := "Retail Rate"

  // ---------------------------------------------------------------------
  // The catalog
  // ---------------------------------------------------------------------

  const DomesticBlockTariff: TariffPlan :=
    TariffPlan("Domestic Block Tariff", None, None, map[],
               Rules(Some(true), NoBasis, NoBasis, false, false))

  const NonDomesticPlans: seq<TariffPlan> := [
    TariffPlan("Low Voltage General", Some(LowVoltage), Some(General),
               map[EnergyRate := 2703, CapacityRate := 883, NetworkRate := 1482, RetailRate := 200000],
               Rules(None, KWh, KWh, false, false)),
    TariffPlan("Low Voltage TOU", Some(LowVoltage), Some(TOU),
               map[PeakRate := 2852, OffPeakRate := 2443, CapacityRate := 883, NetworkRate := 1482, RetailRate := 200000],
               Rules(None, KWh, KWh, true, false)),
    TariffPlan("Medium Voltage General", Some(MediumVoltage), Some(General),
               map[EnergyRate := 2983, CapacityRate := 294300, NetworkRate := 598400, RetailRate := 2000000],
               Rules(None, KW, KW, false, true)),
    TariffPlan("Medium Voltage TOU", Some(MediumVoltage), Some(TOU),
               map[PeakRate := 3132, OffPeakRate := 2723, CapacityRate := 301900, NetworkRate := 668700, RetailRate := 2000000],
               Rules(None, KWPeakOnly, KWPeakOnly, true, true)),
    TariffPlan("High Voltage General", Some(HighVoltage), Some(General),
               map[EnergyRate := 4303, CapacityRate := 166800, NetworkRate := 145300, RetailRate := 2500000],
               Rules(None, KW, KW, false, true)),
    TariffPlan("High Voltage TOU", Some(HighVoltage), Some(TOU),
               map[PeakRate := 4452, OffPeakRate := 4043, CapacityRate := 217600, NetworkRate := 230600, RetailRate := 2500000],
               Rules(None, KWPeakOnly, KWPeakOnly, true, true))
  ]

  /** The groups without plans yet, in catalog order. */
  const PlaceholderGroups: seq<TariffGroup> := [
    SpecificAgriculture, WaterSewerageOperator, StreetLighting, CoGeneration,
    Traction, Bulk, ThermalEnergyStorage, Backfeed
  ]

  /** `TARIFF_DATA`. */
  const TariffData: Catalog := [
    (Residential, [(Domestic, [DomesticBlockTariff])]),
    (Business, [
      (NonDomestic, NonDomesticPlans),
      (SpecificAgriculture, []),
      (WaterSewerageOperator, []),
      (StreetLighting, []),
      (CoGeneration, []),
      (Traction, []),
      (Bulk, []),
      (ThermalEnergyStorage, []),
      (Backfeed, [])
    ])
  ]

  /** Plan names are distinct within a list. */
  ghost predicate UniqueNames(plans: seq<TariffPlan>) {
    forall i, j :: 0 <= i < j < |plans| ==> plans[i].name != plans[j].name
  }

  /** The shape every catalog keeps: dictionary keys unique at both levels,
      and plan names unique within a group, so lookup by name is well defined. */
  ghost predicate WellFormed(catalog: Catalog) {
    && UniqueKeys(catalog)
    && forall i :: 0 <= i < |catalog| ==>
         && UniqueKeys(catalog[i].1)
         && forall j :: 0 <= j < |catalog[i].1| ==> UniqueNames(catalog[i].1[j].1)
  }

  /** `get_tariff_data()`: the catalog constant, which is well formed. */
  function GetTariffData(): (catalog: Catalog)
    ensures catalog == TariffData
    ensures WellFormed(catalog)
    ensures |catalog| == 2
  {
    assert UniqueNames(NonDomesticPlans);
    TariffData
  }

  // ---------------------------------------------------------------------
  // Lookup
  // ---------------------------------------------------------------------

  /** `TARIFF_DATA[class]["Tariff Groups"][group]["Tariffs"]`; `None` where
      the dictionary has no such key. Residential offers only Domestic, and
      Business offers every group except Domestic. */
  function Lookup(c: CustomerClass, g: TariffGroup): (r: Option<seq<TariffPlan>>)
    ensures r.Some? <==> (c == Residential) == (g == Domestic)
  {
    CatalogKeys(c, g);
    match Find(TariffData, c)
    case None => None
    case Some(groups) => Find(groups, g)
  }

  /** The position of a group among the Business groups of the catalog. */
  function BusinessGroupIndex(g: TariffGroup): nat {
    match g
    case NonDomestic => 0 case SpecificAgriculture => 1 case WaterSewerageOperator => 2
    case StreetLighting => 3 case CoGeneration => 4 case Traction => 5 case Bulk => 6
    case ThermalEnergyStorage => 7 case Backfeed => 8 case Domestic => 9
  }

  /** Both classes are keys of the catalog; Residential has the Domestic
      group only, and Business every other group. */
  lemma CatalogKeys(c: CustomerClass, g: TariffGroup)
    ensures Find(TariffData, c).Some?
    ensures Find(Find(TariffData, c).value, g).Some? <==> (c == Residential) == (g == Domestic)
  {
    var ci := if c == Residential then 0 else 1;
    FindEntry(TariffData, ci);
    var groups := TariffData[ci].1;
    if c == Business && g != Domestic {
      assert groups[BusinessGroupIndex(g)].0 == g;
    }
  }

  /** The plans of a list keyed by their names. */
  function ByName(plans: seq<TariffPlan>): (entries: seq<(string, TariffPlan)>)
    ensures |entries| == |plans|
    ensures forall i :: 0 <= i < |plans| ==> entries[i] == (plans[i].name, plans[i])
  {
    seq(|plans|, i requires 0 <= i < |plans| => (plans[i].name, plans[i]))
  }

  /** The plan called `name` in a class's group, if there is one. */
  function LookupPlan(c: CustomerClass, g: TariffGroup, name: string): (r: Option<TariffPlan>)
    ensures r.Some? ==> r.value.name == name
    ensures r.Some? ==> Lookup(c, g).Some? && r.value in Lookup(c, g).value
  {
    match Lookup(c, g)
    case None => None
    case Some(plans) =>
      var r := Find(ByName(plans), name);
      assert r.Some? ==> exists i :: 0 <= i < |plans| && plans[i] == r.value && plans[i].name == name;
      r
  }

  // ---------------------------------------------------------------------
  // Structural regularities of the catalog
  // ---------------------------------------------------------------------

  lemma TariffDataWellFormed()
    ensures WellFormed(TariffData)
  {
  }

  /** Every group list found by `Lookup` has unique plan names. */
  lemma LookupHasUniqueNames(c: CustomerClass, g: TariffGroup)
    requires Lookup(c, g).Some?
    ensures UniqueNames(Lookup(c, g).value)
  {
  }

  /** Looking a plan up by the name of any plan in its group returns that
      plan. */
  lemma LookupPlanFindsEveryPlan(c: CustomerClass, g: TariffGroup, i: int)
    requires Lookup(c, g).Some? && 0 <= i < |Lookup(c, g).value|
    ensures LookupPlan(c, g, Lookup(c, g).value[i].name) == Some(Lookup(c, g).value[i])
  {
    var plans := Lookup(c, g).value;
    LookupHasUniqueNames(c, g);
    FindEntry(ByName(plans), i);
  }

  /** Residential/Domestic holds only the domestic block tariff: no rates,
      tiered, no charge basis, no peak split, no fuel adjustment. */
  lemma DomesticHasOnlyBlockTariff()
    ensures Lookup(Residential, Domestic) == Some([DomesticBlockTariff])
    ensures var p := DomesticBlockTariff;
      && p.name == "Domestic Block Tariff"
      && p.rates == map[]
      && p.rules.tiered == Some(true)
      && p.rules.chargeCapacityBy == NoBasis && p.rules.chargeNetworkBy == NoBasis
      && !p.rules.hasPeakSplit && !p.rules.afaApplicable
  {
  }

  /** Business/Non Domestic holds six plans with distinct names. */
  lemma NonDomesticHasSixPlans()
    ensures Lookup(Business, NonDomestic) == Some(NonDomesticPlans)
    ensures |NonDomesticPlans| == 6
    ensures UniqueNames(NonDomesticPlans)
  {
  }

  /** Every voltage and plan type combination has a Non Domestic plan. */
  lemma NonDomesticCoversEveryCombination(v: Voltage, t: PlanType)
    ensures exists i :: 0 <= i < |NonDomesticPlans| && NonDomesticPlans[i].voltage == Some(v) && NonDomesticPlans[i].planType == Some(t)
  {
    var i := (match v case LowVoltage => 0 case MediumVoltage => 2 case HighVoltage => 4)
           + (match t case General => 0 case TOU => 1);
    assert NonDomesticPlans[i].voltage == Some(v) && NonDomesticPlans[i].planType == Some(t);
  }

  /** No two Non Domestic plans share a voltage and plan type, so together
      with the previous two lemmas there is exactly one plan per combination. */
  lemma NonDomesticCombinationsDistinct(i: int, j: int)
    requires 0 <= i < j < |NonDomesticPlans|
    ensures (NonDomesticPlans[i].voltage, NonDomesticPlans[i].planType) != (NonDomesticPlans[j].voltage, NonDomesticPlans[j].planType)
  {
  }

  /** A Non Domestic plan is TOU exactly when it splits peak and off-peak,
      exactly when its rates name a peak and an off-peak rate instead of a
      single energy rate. */
  lemma TouIffPeakSplit(i: int)
    requires 0 <= i < |NonDomesticPlans|
    ensures var p := NonDomesticPlans[i];
      && (p.planType == Some(TOU) <==> p.rules.hasPeakSplit)
      && (p.rules.hasPeakSplit <==> PeakRate in p.rates && OffPeakRate in p.rates && EnergyRate !in p.rates)
      && (!p.rules.hasPeakSplit <==> EnergyRate in p.rates && PeakRate !in p.rates && OffPeakRate !in p.rates)
  {
  }

  /** Capacity and network charges share a basis: kWh at low voltage, kW for
      medium and high voltage General, peak-only kW for medium and high
      voltage TOU. */
  lemma ChargeBasisByVoltageAndType(i: int)
    requires 0 <= i < |NonDomesticPlans|
    ensures var p := NonDomesticPlans[i];
      && p.rules.chargeCapacityBy == p.rules.chargeNetworkBy
      && (p.voltage == Some(LowVoltage) ==> p.rules.chargeCapacityBy == KWh)
      && (p.voltage != Some(LowVoltage) && p.planType == Some(General) ==> p.rules.chargeCapacityBy == KW)
      && (p.voltage != Some(LowVoltage) && p.planType == Some(TOU) ==> p.rules.chargeCapacityBy == KWPeakOnly)
  {
  }

  /** The fuel adjustment applies to every medium and high voltage plan and
      to no low voltage plan; no Non Domestic plan has a "tiered" rule. */
  lemma AfaByVoltage(i: int)
    requires 0 <= i < |NonDomesticPlans|
    ensures NonDomesticPlans[i].rules.afaApplicable <==> NonDomesticPlans[i].voltage != Some(LowVoltage)
    ensures NonDomesticPlans[i].rules.tiered == None
  {
  }

  /** The eight placeholder groups are present under Business with empty plan
      lists: looking them up yields the empty list, not a missing key. */
  lemma PlaceholderGroupsAreEmpty(g: TariffGroup)
    requires g != Domestic && g != NonDomestic
    ensures g in PlaceholderGroups
    ensures Lookup(Business, g) == Some([])
  {
  }

  /** Low Voltage General bills 0.2703 per kWh of energy and 0.0883 per kWh
      of capacity. */
  lemma LowVoltageGeneralRates()
    ensures LookupPlan(Business, NonDomestic, "Low Voltage General").Some?
    ensures var p := LookupPlan(Business, NonDomestic, "Low Voltage General").value;
      && p.rates == map[EnergyRate := 2703, CapacityRate := 883, NetworkRate := 1482, RetailRate := 200000]
      && p.voltage == Some(LowVoltage) && p.planType == Some(General)
  {
  }
}
