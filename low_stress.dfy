/** The low-stress piping check of FESHM 5031.1 (header.py,
    `pressure_rating` and `check_low_stress`). The piping code's tube
    pressure-rating formula is not part of this model: it is a parameter. */
module LowStress {
  import opened Piping

  /** The external tube formula: component, allowable stress S (psi), joint
      efficiency E, coefficient W and coefficient Y to a rating (psi). */
  type TubeFormula = (Component, real, real, real, real) -> real

  /** The type tags rated by the tube formula. */
  const TubeTypes: set<string> := {"Tube", "NPS pipe", "Copper tube Type K"}

  const PressureLimit: real := 150.0     // psid; the design pressure must stay below it
  const StressRatioLimit: real := 0.2    // largest design/rating ratio allowed
  const TemperatureLimit: real := 366.0  // degC; the design temperature may not exceed it

  /** `pressure_rating`: tube types are rated by the formula from their
      material's allowable stress, a fitting by its own stated rating, and
      any other tag is a type error. */
  function PressureRating(c: Component, e: real, w: real, y: real, formula: TubeFormula): (r: Result<real>)
    ensures r == Err(UnknownComponentType(c.kind)) <==> c.kind !in TubeTypes && c.kind != "Fitting"
    ensures r.Err? <==>
      (c.kind !in TubeTypes && c.kind != "Fitting") || (c.kind in TubeTypes && c.material.s.None?)
    ensures c.kind == "Fitting" ==> r == Ok(c.p)
    ensures c.kind in TubeTypes && c.material.s.None? ==> r == Err(MissingAttribute(c.material.name, "S"))
    ensures c.kind in TubeTypes && c.material.s.Some? ==> r == Ok(formula(c, c.material.s.value, e, w, y))
  {
    if c.kind in TubeTypes then
      match c.material.s
      case None => Err(MissingAttribute(c.material.name, "S"))
      case Some(s) => Ok(formula(c, s, e, w, y))
    else if c.kind == "Fitting" then Ok(c.p)
    else Err(UnknownComponentType(c.kind))
  }

  /** A fitting's rating is the one stated on it, whatever the tube formula
      and the factors E, W and Y. */
  lemma FittingRatingIgnoresFormula(c: Component, e: real, w: real, y: real, f: TubeFormula,
                                    e': real, w': real, y': real, g: TubeFormula)
    requires c.kind == "Fitting"
    ensures PressureRating(c, e, w, y, f) == PressureRating(c, e', w', y', g) == Ok(c.p)
  {
  }

  /** `P_des / pressure_rating(c, ...)`, with Python's division by zero. */
  function Ratio(pDes: real, c: Component, e: real, w: real, y: real, formula: TubeFormula): (r: Result<real>)
    ensures r.Ok? <==> PressureRating(c, e, w, y, formula).Ok? && PressureRating(c, e, w, y, formula).value != 0.0
    ensures r.Ok? ==> r.value * PressureRating(c, e, w, y, formula).value == pDes
    ensures r.Err? ==> r.error == (if PressureRating(c, e, w, y, formula).Err?
                                   then PressureRating(c, e, w, y, formula).error else ZeroDivision)
  {
    match PressureRating(c, e, w, y, formula)
    case Err(err) => Err(err)
    case Ok(rating) => if rating == 0.0 then Err(ZeroDivision) else Ok(pDes / rating)
  }

  /** The list `[P_des / pressure_rating(c, ...) for c in components]`:
      every component is rated, in order, and the first failure is raised. */
  function Ratios(pDes: real, cs: seq<Component>, e: real, w: real, y: real, formula: TubeFormula): (r: Result<seq<real>>)
    ensures r.Ok? <==> forall i :: 0 <= i < |cs| ==> Ratio(pDes, cs[i], e, w, y, formula).Ok?
    ensures r.Ok? ==> (|r.value| == |cs| &&
      forall i :: 0 <= i < |cs| ==> r.value[i] == Ratio(pDes, cs[i], e, w, y, formula).value)
    ensures r.Err? ==> exists i :: 0 <= i < |cs| && Ratio(pDes, cs[i], e, w, y, formula) == Err(r.error)
    decreases |cs|
  {
    if cs == [] then Ok([])
    else
      match Ratio(pDes, cs[0], e, w, y, formula)
      case Err(err) => Err(err)
      case Ok(q) =>
        var rest := Ratios(pDes, cs[1..], e, w, y, formula);
        assert forall i :: 1 <= i < |cs| ==> cs[i] == cs[1..][i - 1];
        match rest
        case Err(err) => Err(err)
        case Ok(qs) => Ok([q] + qs)
  }

  /** The list `[c.material.T_min for c in components]`, in order, raising
      at the first material that has no `T_min`. */
  function Floors(cs: seq<Component>): (r: Result<seq<real>>)
    ensures r.Ok? <==> forall i :: 0 <= i < |cs| ==> cs[i].material.tMin.Some?
    ensures r.Ok? ==> (|r.value| == |cs| &&
      forall i :: 0 <= i < |cs| ==> r.value[i] == cs[i].material.tMin.value)
    ensures r.Err? ==> exists i :: (0 <= i < |cs| && cs[i].material.tMin.None? &&
      r.error == MissingAttribute(cs[i].material.name, "T_min"))
    decreases |cs|
  {
    if cs == [] then Ok([])
    else
      match cs[0].material.tMin
      case None => Err(MissingAttribute(cs[0].material.name, "T_min"))
      case Some(t) =>
        var rest := Floors(cs[1..]);
        assert forall i :: 1 <= i < |cs| ==> cs[i] == cs[1..][i - 1];
        match rest
        case Err(err) => Err(err)
        case Ok(ts) => Ok([t] + ts)
  }

  /** The outcome of `check_low_stress`: the category is met, or the first
      rule that fails (the message the source prints). */
  datatype Verdict =
    | LowStress
    | PressureTooHigh          // "Pressure too high for low stress category."
    | StressRatioTooHigh       // "Stress ratio too high for low stress category."
    | TemperatureTooHigh       // "Design temperature too high for low stress category."
    | MaterialNotListed        // "Material is not listed for this temperature."
  {
    /** The boolean the source returns. */
    predicate Passed() { this == LowStress }
  }

  /** `check_low_stress(P_des, T_des, components, E=e, W=w, Y=y)`. A design
      pressure of 150 psid or more fails before anything is rated; a pass
      keeps pressure and temperature in range; whatever it raises comes from
      a component that cannot be rated or a material without `T_min`. */
  function CheckLowStress(pDes: real, tDes: real, cs: seq<Component>,
                          e: real, w: real, y: real, formula: TubeFormula): (r: Result<Verdict>)
    ensures pDes >= PressureLimit ==> r == Ok(PressureTooHigh)
    ensures r == Ok(LowStress) ==> pDes < PressureLimit && tDes <= TemperatureLimit
    ensures r.Err? ==>
      (exists i :: 0 <= i < |cs| && Ratio(pDes, cs[i], e, w, y, formula) == Err(r.error)) ||
      (exists i :: 0 <= i < |cs| && cs[i].material.tMin.None? &&
         r.error == MissingAttribute(cs[i].material.name, "T_min"))
  {
    if pDes >= PressureLimit then Ok(PressureTooHigh)
    else
      match Ratios(pDes, cs, e, w, y, formula)
      case Err(err) => Err(err)
      case Ok(ratios) =>
        if exists q :: q in ratios && q > StressRatioLimit then Ok(StressRatioTooHigh)
        else if tDes > TemperatureLimit then Ok(TemperatureTooHigh)
        else
          match Floors(cs)
          case Err(err) => Err(err)
          case Ok(floors) =>
            if exists t :: t in floors && tDes < t then Ok(MaterialNotListed) else Ok(LowStress)
  }

  // The four rules, stated per component.

  /** Rule 1: the design pressure is below 150 psid. */
  predicate PressureRule(pDes: real) { pDes < PressureLimit }

  /** Every component can be rated and its rating divides the design pressure. */
  ghost predicate Ratable(cs: seq<Component>, e: real, w: real, y: real, formula: TubeFormula)
  {
    forall i :: 0 <= i < |cs| ==>
      PressureRating(cs[i], e, w, y, formula).Ok? && PressureRating(cs[i], e, w, y, formula).value != 0.0
  }

  /** Rule 2: no component's design/rating ratio exceeds 0.2. */
  ghost predicate StressRule(pDes: real, cs: seq<Component>, e: real, w: real, y: real, formula: TubeFormula)
    requires Ratable(cs, e, w, y, formula)
  {
    forall i :: 0 <= i < |cs| ==> pDes / PressureRating(cs[i], e, w, y, formula).value <= StressRatioLimit
  }

  /** Rule 3: the design temperature does not exceed 366 degC. */
  predicate TemperatureRule(tDes: real) { tDes <= TemperatureLimit }

  /** Every material names its lowest service temperature. */
  ghost predicate FloorsKnown(cs: seq<Component>)
  {
    forall i :: 0 <= i < |cs| ==> cs[i].material.tMin.Some?
  }

  /** Rule 4: the design temperature is not below any material's floor. */
  ghost predicate FloorRule(tDes: real, cs: seq<Component>)
    requires FloorsKnown(cs)
  {
    forall i :: 0 <= i < |cs| ==> tDes >= cs[i].material.tMin.value
  }

  lemma RatiosAgree(pDes: real, cs: seq<Component>, e: real, w: real, y: real, formula: TubeFormula)
    ensures Ratios(pDes, cs, e, w, y, formula).Ok? <==> Ratable(cs, e, w, y, formula)
    ensures Ratable(cs, e, w, y, formula) ==>
      ((exists q :: q in Ratios(pDes, cs, e, w, y, formula).value && q > StressRatioLimit)
       <==> !StressRule(pDes, cs, e, w, y, formula))
  {
    var r := Ratios(pDes, cs, e, w, y, formula);
    if Ratable(cs, e, w, y, formula) {
      if !StressRule(pDes, cs, e, w, y, formula) {
        var i :| 0 <= i < |cs| && pDes / PressureRating(cs[i], e, w, y, formula).value > StressRatioLimit;
        assert r.value[i] in r.value;
      }
    }
  }

  lemma FloorsAgree(tDes: real, cs: seq<Component>)
    ensures Floors(cs).Ok? <==> FloorsKnown(cs)
    ensures FloorsKnown(cs) ==>
      ((exists t :: t in Floors(cs).value && tDes < t) <==> !FloorRule(tDes, cs))
  {
    var r := Floors(cs);
    if FloorsKnown(cs) && !FloorRule(tDes, cs) {
      var i :| 0 <= i < |cs| && tDes < cs[i].material.tMin.value;
      assert r.value[i] in r.value;
    }
  }

  /** The check passes exactly when all four rules hold. */
  lemma CheckLowStressPasses(pDes: real, tDes: real, cs: seq<Component>,
                             e: real, w: real, y: real, formula: TubeFormula)
    ensures CheckLowStress(pDes, tDes, cs, e, w, y, formula) == Ok(LowStress) <==>
      && PressureRule(pDes)
      && Ratable(cs, e, w, y, formula) && StressRule(pDes, cs, e, w, y, formula)
      && TemperatureRule(tDes)
      && FloorsKnown(cs) && FloorRule(tDes, cs)
  {
    RatiosAgree(pDes, cs, e, w, y, formula);
    FloorsAgree(tDes, cs);
  }

  /** Each failing verdict names the first rule, in the source's order, that
      does not hold; the pressure rule is decided before any component is
      rated, so it fails even for components of unknown type. */
  lemma CheckLowStressVerdicts(pDes: real, tDes: real, cs: seq<Component>,
                               e: real, w: real, y: real, formula: TubeFormula)
    ensures var r := CheckLowStress(pDes, tDes, cs, e, w, y, formula);
      && (r == Ok(PressureTooHigh) <==> !PressureRule(pDes))
      && (r == Ok(StressRatioTooHigh) <==>
            PressureRule(pDes) && Ratable(cs, e, w, y, formula) && !StressRule(pDes, cs, e, w, y, formula))
      && (r == Ok(TemperatureTooHigh) <==>
            PressureRule(pDes) && Ratable(cs, e, w, y, formula) && StressRule(pDes, cs, e, w, y, formula)
            && !TemperatureRule(tDes))
      && (r == Ok(MaterialNotListed) <==>
            PressureRule(pDes) && Ratable(cs, e, w, y, formula) && StressRule(pDes, cs, e, w, y, formula)
            && TemperatureRule(tDes) && FloorsKnown(cs) && !FloorRule(tDes, cs))
  {
    RatiosAgree(pDes, cs, e, w, y, formula);
    FloorsAgree(tDes, cs);
  }

  /** Below the pressure limit, the check raises exactly when some component
      cannot be rated, or when the first three rules pass and some material
      has no floor temperature. */
  lemma CheckLowStressRaises(pDes: real, tDes: real, cs: seq<Component>,
                             e: real, w: real, y: real, formula: TubeFormula)
    ensures CheckLowStress(pDes, tDes, cs, e, w, y, formula).Err? <==>
      PressureRule(pDes) &&
      (!Ratable(cs, e, w, y, formula) ||
       (StressRule(pDes, cs, e, w, y, formula) && TemperatureRule(tDes) && !FloorsKnown(cs)))
  {
    RatiosAgree(pDes, cs, e, w, y, formula);
    FloorsAgree(tDes, cs);
  }

  /** The ratio list is built in full before it is tested: the first
      component that cannot be rated raises its error, whatever the ratios
      of the components before or after it. */
  lemma {:induction false} RatiosFirstError(pDes: real, cs: seq<Component>, e: real, w: real, y: real,
                                            formula: TubeFormula, k: nat)
    requires k < |cs| && Ratio(pDes, cs[k], e, w, y, formula).Err?
    requires forall i :: 0 <= i < k ==> Ratio(pDes, cs[i], e, w, y, formula).Ok?
    ensures Ratios(pDes, cs, e, w, y, formula) == Err(Ratio(pDes, cs[k], e, w, y, formula).error)
    decreases k
  {
    if k > 0 {
      assert forall i :: 0 <= i < k - 1 ==> cs[1..][i] == cs[i + 1];
      RatiosFirstError(pDes, cs[1..], e, w, y, formula, k - 1);
    }
  }

  lemma CheckLowStressFirstRatingError(pDes: real, tDes: real, cs: seq<Component>,
                                       e: real, w: real, y: real, formula: TubeFormula, k: nat)
    requires PressureRule(pDes)
    requires k < |cs| && Ratio(pDes, cs[k], e, w, y, formula).Err?
    requires forall i :: 0 <= i < k ==> Ratio(pDes, cs[i], e, w, y, formula).Ok?
    ensures CheckLowStress(pDes, tDes, cs, e, w, y, formula) == Err(Ratio(pDes, cs[k], e, w, y, formula).error)
  {
    RatiosFirstError(pDes, cs, e, w, y, formula, k);
  }

  /** The floor list likewise raises at the first material without `T_min`. */
  lemma {:induction false} FloorsFirstError(cs: seq<Component>, k: nat)
    requires k < |cs| && cs[k].material.tMin.None?
    requires forall i :: 0 <= i < k ==> cs[i].material.tMin.Some?
    ensures Floors(cs) == Err(MissingAttribute(cs[k].material.name, "T_min"))
    decreases k
  {
    if k > 0 {
      assert forall i :: 0 <= i < k - 1 ==> cs[1..][i] == cs[i + 1];
      FloorsFirstError(cs[1..], k - 1);
    }
  }

  /** Components made of catalogue materials, of known type, with fittings
      stating a positive rating, never make the check raise when the tube
      formula gives positive ratings. */
  lemma CatalogueNeverRaises(pDes: real, tDes: real, cs: seq<Component>,
                             e: real, w: real, y: real, formula: TubeFormula)
    requires forall c, s, e', w', y' :: formula(c, s, e', w', y') > 0.0
    requires forall i :: 0 <= i < |cs| ==>
      cs[i].material in Catalogue && (cs[i].kind in TubeTypes || (cs[i].kind == "Fitting" && cs[i].p > 0.0))
    ensures CheckLowStress(pDes, tDes, cs, e, w, y, formula).Ok?
  {
    CatalogueComplete();
    forall i | 0 <= i < |cs|
      ensures PressureRating(cs[i], e, w, y, formula).Ok? && PressureRating(cs[i], e, w, y, formula).value != 0.0
    {
      if cs[i].kind in TubeTypes {
        assert PressureRating(cs[i], e, w, y, formula).value == formula(cs[i], cs[i].material.s.value, e, w, y);
      }
    }
    CheckLowStressRaises(pDes, tDes, cs, e, w, y, formula);
  }

  /** Two 500 psi fittings of 304L stainless steel at 100 psi and 20 degC
      qualify; at 200 psi they do not; a "Flange" cannot be rated; a
      material without a floor temperature makes rule 4 raise. */
  lemma CheckLowStressScenarios(e: real, w: real, y: real, formula: TubeFormula)
    ensures var fitting := Component("elbow", "1/2", "vendor", 500.0, SS304L);
      && CheckLowStress(100.0, 20.0, [fitting, fitting], e, w, y, formula) == Ok(LowStress)
      && CheckLowStress(200.0, 20.0, [fitting, fitting], e, w, y, formula) == Ok(PressureTooHigh)
    ensures var flange := Component("flange", "1/2", "vendor", 500.0, SS304L, "Flange");
      PressureRating(flange, e, w, y, formula) == Err(UnknownComponentType("Flange"))
    ensures var bare := Component("elbow", "1/2", "vendor", 500.0, Material("bare", Some(1.0), None));
      CheckLowStress(100.0, 20.0, [bare], e, w, y, formula) == Err(MissingAttribute("bare", "T_min"))
  {
    var fitting := Component("elbow", "1/2", "vendor", 500.0, SS304L);
    CheckLowStressPasses(100.0, 20.0, [fitting, fitting], e, w, y, formula);
    var bare := Component("elbow", "1/2", "vendor", 500.0, Material("bare", Some(1.0), None));
    FloorsFirstError([bare], 0);
    RatiosAgree(100.0, [bare], e, w, y, formula);
  }
}
