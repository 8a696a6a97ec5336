/** `calculateDeterminantIncome`: the ten per-field adjustments that turn the
    household's declared amounts into the determinant income, and their sum. */
module Determinant {
  import opened Csv

  /** Ten amounts, one per financial field of the form, in the form's order.
      The same shape holds the parsed inputs and the determinant terms derived
      from them. */
  datatype Amounts = Amounts(
    revenuNet: real,
    caisseMaladie: real,
    reductionPrime: real,
    autresPrimes: real,
    prevoyanceConjoint: real,
    prevoyanceConjointe: real,
    rachatAssurance: real,
    interetsPassifs: real,
    fraisImmeubles: real,
    fortuneImposable: real)

  /** `Math.max(0, x)`. */
  function Max0(x: real): (r: real)
    ensures r >= 0.0 && r >= x
    ensures r == x || r == 0.0
  {
    if x > 0.0 then x else 0.0
  }

  /** The configuration keys of the three franchises (deductible thresholds). */
  const FranchiseRachat := "franchise_rachat_lpp"
  const FranchiseInterets := "franchise_interets_passifs"
  const FranchiseImmeubles := "franchise_frais_immeubles"

  /** Wealth enters the determinant income at one twentieth of its value. */
  const WealthDivisor := 20.0

  /** The determinant terms: net income as entered, the premium reduction
      already received subtracted, the three franchised amounts reduced by their
      franchise, wealth divided by twenty, and every other amount floored at 0. */
  function Determinants(x: Amounts, config: map<string, Value>): (d: Amounts)
    ensures d.revenuNet == x.revenuNet
    ensures d.reductionPrime <= 0.0 && (x.reductionPrime >= 0.0 ==> d.reductionPrime == -x.reductionPrime)
    ensures d.caisseMaladie >= 0.0 && d.autresPrimes >= 0.0
    ensures d.prevoyanceConjoint >= 0.0 && d.prevoyanceConjointe >= 0.0
    ensures d.rachatAssurance >= 0.0 && d.interetsPassifs >= 0.0 && d.fraisImmeubles >= 0.0
    ensures d.fortuneImposable >= 0.0 && (x.fortuneImposable >= 0.0 ==> d.fortuneImposable * 20.0 == x.fortuneImposable)
    ensures x.fortuneImposable <= 0.0 ==> d.fortuneImposable == 0.0
  {
    Amounts(
      x.revenuNet,
      Max0(x.caisseMaladie),
      -Max0(x.reductionPrime),
      Max0(x.autresPrimes),
      Max0(x.prevoyanceConjoint),
      Max0(x.prevoyanceConjointe),
      Max0(x.rachatAssurance - NumberOrZero(config, FranchiseRachat)),
      Max0(x.interetsPassifs - NumberOrZero(config, FranchiseInterets)),
      Max0(x.fraisImmeubles - NumberOrZero(config, FranchiseImmeubles)),
      Max0(x.fortuneImposable) / WealthDivisor)
  }

  /** The value of each term: an amount floored at 0 is kept when it is not
      negative and counts as 0 otherwise; the premium reduction counts only
      when positive; a franchised amount counts for what exceeds its franchise
      (a missing franchise being 0), and for 0 when it does not exceed it. */
  lemma DeterminantTerms(x: Amounts, config: map<string, Value>)
    ensures var d := Determinants(x, config);
      (x.caisseMaladie >= 0.0 ==> d.caisseMaladie == x.caisseMaladie)
      && (x.caisseMaladie <= 0.0 ==> d.caisseMaladie == 0.0)
      && (x.autresPrimes >= 0.0 ==> d.autresPrimes == x.autresPrimes)
      && (x.autresPrimes <= 0.0 ==> d.autresPrimes == 0.0)
      && (x.prevoyanceConjoint >= 0.0 ==> d.prevoyanceConjoint == x.prevoyanceConjoint)
      && (x.prevoyanceConjoint <= 0.0 ==> d.prevoyanceConjoint == 0.0)
      && (x.prevoyanceConjointe >= 0.0 ==> d.prevoyanceConjointe == x.prevoyanceConjointe)
      && (x.prevoyanceConjointe <= 0.0 ==> d.prevoyanceConjointe == 0.0)
      && (x.reductionPrime <= 0.0 ==> d.reductionPrime == 0.0)
    ensures var d := Determinants(x, config);
      var fr := NumberOrZero(config, FranchiseRachat);
      var fi := NumberOrZero(config, FranchiseInterets);
      var fm := NumberOrZero(config, FranchiseImmeubles);
      d.rachatAssurance == (if x.rachatAssurance >= fr then x.rachatAssurance - fr else 0.0)
      && d.interetsPassifs == (if x.interetsPassifs >= fi then x.interetsPassifs - fi else 0.0)
      && d.fraisImmeubles == (if x.fraisImmeubles >= fm then x.fraisImmeubles - fm else 0.0)
  {
  }

  /** The determinant income: the sum of the ten terms. */
  function Total(d: Amounts): real {
    d.revenuNet + d.caisseMaladie + d.reductionPrime + d.autresPrimes
    + d.prevoyanceConjoint + d.prevoyanceConjointe + d.rachatAssurance
    + d.interetsPassifs + d.fraisImmeubles + d.fortuneImposable
  }

  /** The determinant income of the inputs under a configuration: only the
      premium reduction can take it below net income, and by at most the
      reduction declared. */
  function DeterminantIncome(x: Amounts, config: map<string, Value>): (total: real)
    ensures total >= x.revenuNet - Max0(x.reductionPrime)
  {
    Total(Determinants(x, config))
  }

  /** A franchise missing from the configuration acts as a franchise of 0. */
  lemma MissingFranchiseIsZero(x: Amounts, config: map<string, Value>, key: string)
    requires key in {FranchiseRachat, FranchiseInterets, FranchiseImmeubles}
    requires key !in config
    ensures Determinants(x, config) == Determinants(x, config[key := Num(0.0)])
  {
  }

  /** Whether every franchise of the configuration is at least 0 (a missing one is 0). */
  predicate FranchisesNonNegative(config: map<string, Value>) {
    NumberOrZero(config, FranchiseRachat) >= 0.0
    && NumberOrZero(config, FranchiseInterets) >= 0.0
    && NumberOrZero(config, FranchiseImmeubles) >= 0.0
  }

  /** With non-negative franchises the determinant income is at most net
      income plus every other amount taken whole and a twentieth of wealth. */
  lemma TotalBounds(x: Amounts, config: map<string, Value>)
    ensures FranchisesNonNegative(config) ==>
              DeterminantIncome(x, config) <=
                x.revenuNet + Max0(x.caisseMaladie) + Max0(x.autresPrimes)
                + Max0(x.prevoyanceConjoint) + Max0(x.prevoyanceConjointe)
                + Max0(x.rachatAssurance) + Max0(x.interetsPassifs)
                + Max0(x.fraisImmeubles) + Max0(x.fortuneImposable) / 20.0
  {
  }

  /** Whether `y` declares at least as much as `x` in every field that adds to
      the determinant income, and at most as much premium reduction. */
  predicate Dominates(y: Amounts, x: Amounts) {
    y.revenuNet >= x.revenuNet && y.caisseMaladie >= x.caisseMaladie
    && y.reductionPrime <= x.reductionPrime && y.autresPrimes >= x.autresPrimes
    && y.prevoyanceConjoint >= x.prevoyanceConjoint && y.prevoyanceConjointe >= x.prevoyanceConjointe
    && y.rachatAssurance >= x.rachatAssurance && y.interetsPassifs >= x.interetsPassifs
    && y.fraisImmeubles >= x.fraisImmeubles && y.fortuneImposable >= x.fortuneImposable
  }

  /** Declaring more income or wealth never lowers the determinant income. */
  lemma TotalMonotone(x: Amounts, y: Amounts, config: map<string, Value>)
    requires Dominates(y, x)
    ensures DeterminantIncome(y, config) >= DeterminantIncome(x, config)
  {
    var dx, dy := Determinants(x, config), Determinants(y, config);
    Max0Monotone(x.caisseMaladie, y.caisseMaladie);
    Max0Monotone(y.reductionPrime, x.reductionPrime);
    Max0Monotone(x.autresPrimes, y.autresPrimes);
    Max0Monotone(x.prevoyanceConjoint, y.prevoyanceConjoint);
    Max0Monotone(x.prevoyanceConjointe, y.prevoyanceConjointe);
    Max0Monotone(x.rachatAssurance - NumberOrZero(config, FranchiseRachat),
                 y.rachatAssurance - NumberOrZero(config, FranchiseRachat));
    Max0Monotone(x.interetsPassifs - NumberOrZero(config, FranchiseInterets),
                 y.interetsPassifs - NumberOrZero(config, FranchiseInterets));
    Max0Monotone(x.fraisImmeubles - NumberOrZero(config, FranchiseImmeubles),
                 y.fraisImmeubles - NumberOrZero(config, FranchiseImmeubles));
    Max0Monotone(x.fortuneImposable, y.fortuneImposable);
    assert dy.caisseMaladie >= dx.caisseMaladie && dy.reductionPrime >= dx.reductionPrime;
    assert dy.autresPrimes >= dx.autresPrimes && dy.prevoyanceConjoint >= dx.prevoyanceConjoint;
    assert dy.prevoyanceConjointe >= dx.prevoyanceConjointe && dy.rachatAssurance >= dx.rachatAssurance;
    assert dy.interetsPassifs >= dx.interetsPassifs && dy.fraisImmeubles >= dx.fraisImmeubles;
    assert dy.fortuneImposable >= dx.fortuneImposable;
  }

  lemma Max0Monotone(a: real, b: real)
    requires a <= b
    ensures Max0(a) <= Max0(b)
  {
  }

  /** A higher franchise never raises the determinant income. */
  lemma FranchiseLowersTotal(x: Amounts, config: map<string, Value>, key: string, f: real)
    requires key in {FranchiseRachat, FranchiseInterets, FranchiseImmeubles}
    requires f >= NumberOrZero(config, key)
    ensures DeterminantIncome(x, config[key := Num(f)]) <= DeterminantIncome(x, config)
  {
  }

  /** Amounts with only net income and a premium reduction declared. */
  function NetAndReduction(net: real, reduction: real): Amounts {
    Amounts(net, 0.0, reduction, 0.0, 0.0, 0.0, 0.0, 0.0, 0.0, 0.0)
  }

  /** A premium reduction already received is subtracted exactly once:
      20000 of net income and 500 of reduction give 19500. */
  lemma ReductionSubtractedOnce(config: map<string, Value>)
    requires FranchisesNonNegative(config)
    ensures DeterminantIncome(NetAndReduction(20000.0, 500.0), config) == 19500.0
  {
  }

  /** With no deduction or wealth declared, the determinant income is the net income. */
  lemma NetIncomeAlone(net: real, config: map<string, Value>)
    requires FranchisesNonNegative(config)
    ensures DeterminantIncome(NetAndReduction(net, 0.0), config) == net
  {
  }
}
