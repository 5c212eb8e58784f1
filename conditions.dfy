/** The condition list `__main__` builds from its filtering options (lines
    309-312 and 370-405), specified twice: as the list of predicates
    (`Conditions`) and directly on the relay's attributes (`Admits`). */
module Conditions {
  import opened Wrappers
  import opened Decimal
  import opened RelayFilter
  import opened Arguments

  /** The filtering options, each as argparse leaves it: `None` when absent. */
  datatype FilterArgs = FilterArgs(
    country: Option<seq<string>>, countryNot: Option<seq<string>>,
    city: Option<seq<string>>, cityNot: Option<seq<string>>,
    hostname: Option<seq<string>>, hostnameNot: Option<seq<string>>,
    provider: Option<seq<string>>, providerNot: Option<seq<string>>,
    bandwidth: Option<string>,
    wireguard: bool, openvpn: bool, stboot: bool, owned: bool, ipv6: bool)

  /* ---------------- the list of predicates ---------------- */

  const BASE: seq<Pred> := [Neq(TYPE, VStr(BRIDGE)), Eq(ACTIVE, VBool(true))]

  /** `getFilter(values, eqAttr(key), filterOr, ...)` when the option is given. */
  function AnyOfValues(key: string, values: Option<seq<string>>): seq<Pred>
  {
    match values
    case None => []
    case Some(vs) => [Or(seq(|vs|, i requires 0 <= i < |vs| => Eq(key, VStr(vs[i]))))]
  }

  /** `getFilter(values, neqAttr(key), filterAnd, ...)` when the option is given. */
  function NoneOfValues(key: string, values: Option<seq<string>>): seq<Pred>
  {
    match values
    case None => []
    case Some(vs) => [And(seq(|vs|, i requires 0 <= i < |vs| => Neq(key, VStr(vs[i]))))]
  }

  /** One `inCity` test per (country, city) pair. */
  function InCityTests(codes: seq<string>): seq<Pred>
  {
    var pairs := CityPairs(codes);
    seq(|pairs|, i requires 0 <= i < |pairs| => InCity(pairs[i].0, pairs[i].1))
  }

  /** One `notInCity` test per (country, city) pair. */
  function NotInCityTests(codes: seq<string>): seq<Pred>
  {
    var pairs := CityPairs(codes);
    seq(|pairs|, i requires 0 <= i < |pairs| => NotInCity(pairs[i].0, pairs[i].1))
  }

  function InCities(codes: Option<seq<string>>): seq<Pred>
  {
    match codes
    case None => []
    case Some(cs) => [Or(InCityTests(cs))]
  }

  function NotInCities(codes: Option<seq<string>>): seq<Pred>
  {
    match codes
    case None => []
    case Some(cs) => [And(NotInCityTests(cs))]
  }

  /** `if args.bandwidth:` then `geqAttr(BANDWIDTH)(float(args.bandwidth))`;
      the empty string counts as not given. */
  function BandwidthPart(bandwidth: Option<string>): Result<seq<Pred>, ArgError>
  {
    if bandwidth.None? || bandwidth.value == [] then Success([])
    else match ParseDecimal(bandwidth.value)
      case None => Failure(BandwidthNotANumber)
      case Some(b) => Success([Geq(BANDWIDTH, b)])
  }

  function Flag(set_: bool, p: Pred): seq<Pred>
  {
    if set_ then [p] else []
  }

  /** The conditions in the order the program appends them. */
  function Conditions(args: FilterArgs): (res: Result<seq<Pred>, ArgError>)
    ensures res.Failure? <==>
      args.bandwidth.Some? && args.bandwidth.value != [] && ParseDecimal(args.bandwidth.value).None?
    ensures res.Success? ==> |res.value| >= 2 && res.value[..2] == BASE
  {
    match BandwidthPart(args.bandwidth)
    case Failure(e) => Failure(e)
    case Success(bw) => Success(BASE
      + AnyOfValues(COUNTRY_CODE, args.country) + NoneOfValues(COUNTRY_CODE, args.countryNot)
      + InCities(args.city) + NotInCities(args.cityNot)
      + AnyOfValues(HOSTNAME, args.hostname) + NoneOfValues(HOSTNAME, args.hostnameNot)
      + AnyOfValues(PROVIDER, args.provider) + NoneOfValues(PROVIDER, args.providerNot)
      + bw
      + Flag(args.wireguard, Eq(TYPE, VStr(WIREGUARD))) + Flag(args.openvpn, Eq(TYPE, VStr(OPENVPN)))
      + Flag(args.stboot, Eq(STBOOT, VBool(true))) + Flag(args.owned, Eq(OWNED, VBool(true)))
      + Flag(args.ipv6, Has(IPV6)))
  }

  /** Lines 309-312 and 370-405: start from the two base conditions and
      append one condition per option given, in the program's order; a
      bandwidth that is not a number stops the program. */
  method BuildConditions(args: FilterArgs) returns (res: Result<seq<Pred>, ArgError>)
    ensures res == Conditions(args)
    ensures res.Failure? <==> args.bandwidth.Some? && args.bandwidth.value != [] && ParseDecimal(args.bandwidth.value).None?
  {
    var list := new ConditionList();
    AddOptions(list, args);
    ghost var options := list.conds;
    if args.bandwidth.Some? && args.bandwidth.value != [] {
      var b := ParseDecimal(args.bandwidth.value);
      if b.None? {
        return Failure(BandwidthNotANumber);
      }
      list.Append(Geq(BANDWIDTH, b.value));
    }
    assert list.conds == options + BandwidthPart(args.bandwidth).value;
    AddFlags(list, args);
    return Success(list.conds);
  }

  /** Lines 370-393: the options whose values are lists. */
  method AddOptions(list: ConditionList, args: FilterArgs)
    modifies list
    ensures list.conds == old(list.conds)
      + AnyOfValues(COUNTRY_CODE, args.country) + NoneOfValues(COUNTRY_CODE, args.countryNot)
      + InCities(args.city) + NotInCities(args.cityNot)
      + AnyOfValues(HOSTNAME, args.hostname) + NoneOfValues(HOSTNAME, args.hostnameNot)
      + AnyOfValues(PROVIDER, args.provider) + NoneOfValues(PROVIDER, args.providerNot)
  {
    AddAnyOf(list, COUNTRY_CODE, args.country);
    AddNoneOf(list, COUNTRY_CODE, args.countryNot);
    AddInCities(list, args.city);
    AddNotInCities(list, args.cityNot);
    AddAnyOf(list, HOSTNAME, args.hostname);
    AddNoneOf(list, HOSTNAME, args.hostnameNot);
    AddAnyOf(list, PROVIDER, args.provider);
    AddNoneOf(list, PROVIDER, args.providerNot);
  }

  /** Lines 401-405: the flags. */
  method AddFlags(list: ConditionList, args: FilterArgs)
    modifies list
    ensures list.conds == old(list.conds)
      + Flag(args.wireguard, Eq(TYPE, VStr(WIREGUARD))) + Flag(args.openvpn, Eq(TYPE, VStr(OPENVPN)))
      + Flag(args.stboot, Eq(STBOOT, VBool(true))) + Flag(args.owned, Eq(OWNED, VBool(true)))
      + Flag(args.ipv6, Has(IPV6))
  {
    AddFlag(list, args.wireguard, Eq(TYPE, VStr(WIREGUARD)));
    AddFlag(list, args.openvpn, Eq(TYPE, VStr(OPENVPN)));
    AddFlag(list, args.stboot, Eq(STBOOT, VBool(true)));
    AddFlag(list, args.owned, Eq(OWNED, VBool(true)));
    AddFlag(list, args.ipv6, Has(IPV6));
  }

  method AddAnyOf(list: ConditionList, key: string, values: Option<seq<string>>)
    modifies list
    ensures list.conds == old(list.conds) + AnyOfValues(key, values)
  {
    if values.Some? {
      var vs := values.value;
      var sub := (v: string) => Eq(key, VStr(v));
      list.GetFilter(vs, sub, AnyOf);
      ghost var conditions := seq(|vs|, i requires 0 <= i < |vs| => Eq(key, VStr(vs[i])));
      assert MapPreds(vs, sub) == conditions;
      assert AnyOfValues(key, values) == [Aggregate(AnyOf, conditions)];
    }
  }

  method AddNoneOf(list: ConditionList, key: string, values: Option<seq<string>>)
    modifies list
    ensures list.conds == old(list.conds) + NoneOfValues(key, values)
  {
    if values.Some? {
      var vs := values.value;
      var sub := (v: string) => Neq(key, VStr(v));
      list.GetFilter(vs, sub, AllOf);
      ghost var conditions := seq(|vs|, i requires 0 <= i < |vs| => Neq(key, VStr(vs[i])));
      assert MapPreds(vs, sub) == conditions;
      assert NoneOfValues(key, values) == [Aggregate(AllOf, conditions)];
    }
  }

  /** The codes are paired first (line 374). */
  method AddInCities(list: ConditionList, codes: Option<seq<string>>)
    modifies list
    ensures list.conds == old(list.conds) + InCities(codes)
  {
    if codes.Some? {
      var pairs := CityPairs(codes.value);
      var sub := (p: (string, string)) => InCity(p.0, p.1);
      list.GetFilter(pairs, sub, AnyOf);
      ghost var conditions := InCityTests(codes.value);
      assert MapPreds(pairs, sub) == conditions;
      assert InCities(codes) == [Aggregate(AnyOf, conditions)];
    }
  }

  /** The codes are paired first (line 382). */
  method AddNotInCities(list: ConditionList, codes: Option<seq<string>>)
    modifies list
    ensures list.conds == old(list.conds) + NotInCities(codes)
  {
    if codes.Some? {
      var pairs := CityPairs(codes.value);
      var sub := (p: (string, string)) => NotInCity(p.0, p.1);
      list.GetFilter(pairs, sub, AllOf);
      ghost var conditions := NotInCityTests(codes.value);
      assert MapPreds(pairs, sub) == conditions;
      assert NotInCities(codes) == [Aggregate(AllOf, conditions)];
    }
  }

  method AddFlag(list: ConditionList, set_: bool, p: Pred)
    modifies list
    ensures list.conds == old(list.conds) + Flag(set_, p)
  {
    if set_ {
      list.Append(p);
    }
  }

  /* ---------------- the same conditions, on the attributes ---------------- */

  predicate HasText(r: Relay, key: string, v: string)
  {
    key in r && r[key] == VStr(v)
  }

  /** Not a bridge and active; a relay lacking either attribute fails. */
  predicate BaseHolds(r: Relay)
  {
    TYPE in r && r[TYPE] != VStr(BRIDGE) && ACTIVE in r && r[ACTIVE] == VBool(true)
  }

  predicate AnyOfHolds(key: string, values: Option<seq<string>>, r: Relay)
  {
    values.None? || exists i :: 0 <= i < |values.value| && HasText(r, key, values.value[i])
  }

  predicate NoneOfHolds(key: string, values: Option<seq<string>>, r: Relay)
  {
    values.None? || forall i :: 0 <= i < |values.value| ==> key in r && r[key] != VStr(values.value[i])
  }

  /** The relay is in the city named by the codes at `2 * i` and
      `2 * i + 1`. */
  predicate InPair(codes: seq<string>, i: nat, r: Relay)
    requires 2 * i + 1 < |codes|
  {
    InCityHolds(codes[2 * i], codes[2 * i + 1], r)
  }

  /** The relay is in one of the cities named by a code at an even position
      and the code after it. */
  predicate InCitiesHolds(codes: Option<seq<string>>, r: Relay)
  {
    codes.None? ||
    exists i: nat :: i < |codes.value| && 2 * i + 1 < |codes.value| && InPair(codes.value, i, r)
  }

  predicate NotInCitiesHolds(codes: Option<seq<string>>, r: Relay)
  {
    codes.None? ||
    forall i: nat :: i < |codes.value| && 2 * i + 1 < |codes.value| ==> !InPair(codes.value, i, r)
  }

  predicate BandwidthHolds(bandwidth: Option<string>, r: Relay)
  {
    bandwidth.None? || bandwidth.value == [] || ParseDecimal(bandwidth.value).None? ||
    (BANDWIDTH in r
     && ((r[BANDWIDTH].VNum? && r[BANDWIDTH].n >= ParseDecimal(bandwidth.value).value)
         || (r[BANDWIDTH].VBool? && (if r[BANDWIDTH].b then 1.0 else 0.0) >= ParseDecimal(bandwidth.value).value)))
  }

  /** Every option given, read directly on the relay's attributes. */
  predicate Admits(args: FilterArgs, r: Relay)
    ensures Admits(args, r) ==> ACTIVE in r && r[ACTIVE] == VBool(true) && TYPE in r && r[TYPE] != VStr(BRIDGE)
    ensures Admits(args, r) ==> !(args.wireguard && args.openvpn)
  {
    BaseHolds(r)
    && AnyOfHolds(COUNTRY_CODE, args.country, r) && NoneOfHolds(COUNTRY_CODE, args.countryNot, r)
    && InCitiesHolds(args.city, r) && NotInCitiesHolds(args.cityNot, r)
    && AnyOfHolds(HOSTNAME, args.hostname, r) && NoneOfHolds(HOSTNAME, args.hostnameNot, r)
    && AnyOfHolds(PROVIDER, args.provider, r) && NoneOfHolds(PROVIDER, args.providerNot, r)
    && BandwidthHolds(args.bandwidth, r)
    && (args.wireguard ==> HasText(r, TYPE, WIREGUARD)) && (args.openvpn ==> HasText(r, TYPE, OPENVPN))
    && (args.stboot ==> STBOOT in r && r[STBOOT] == VBool(true))
    && (args.owned ==> OWNED in r && r[OWNED] == VBool(true))
    && (args.ipv6 ==> IPV6 in r)
  }

  lemma {:induction false} BaseMeaning(r: Relay)
    ensures Eval(And(BASE), r) <==> BaseHolds(r)
  {
    AndMeaning(BASE, r);
    assert BASE[0] == Neq(TYPE, VStr(BRIDGE)) && BASE[1] == Eq(ACTIVE, VBool(true));
  }

  lemma {:induction false} AnyOfMeaning(key: string, values: Option<seq<string>>, r: Relay)
    ensures Eval(And(AnyOfValues(key, values)), r) <==> AnyOfHolds(key, values, r)
  {
    EmptyCombinators(r);
    if values.Some? {
      var vs := values.value;
      var ps := seq(|vs|, i requires 0 <= i < |vs| => Eq(key, VStr(vs[i])));
      AndSingle(Or(ps), r);
      OrMeaning(ps, r);
      assert forall i :: 0 <= i < |vs| ==> (Eval(ps[i], r) <==> HasText(r, key, vs[i]));
    }
  }

  lemma {:induction false} NoneOfMeaning(key: string, values: Option<seq<string>>, r: Relay)
    ensures Eval(And(NoneOfValues(key, values)), r) <==> NoneOfHolds(key, values, r)
  {
    EmptyCombinators(r);
    if values.Some? {
      var vs := values.value;
      var ps := seq(|vs|, i requires 0 <= i < |vs| => Neq(key, VStr(vs[i])));
      AndSingle(And(ps), r);
      AndMeaning(ps, r);
      assert forall i :: 0 <= i < |vs| ==> (Eval(ps[i], r) <==> key in r && r[key] != VStr(vs[i]));
    }
  }

  /** The city test at pair `i` is the one on the codes at `2 * i` and
      `2 * i + 1`. */
  lemma {:induction false} CityPairAt(codes: seq<string>, i: nat)
    requires i < |codes| / 2
    ensures 2 * i + 1 < |codes| && |CityPairs(codes)| == |codes| / 2
    ensures CityPairs(codes)[i] == (codes[2 * i], codes[2 * i + 1])
  {
    CityPairsShape(codes);
  }

  lemma {:induction false} CityPairsCount(codes: seq<string>)
    ensures |CityPairs(codes)| == |codes| / 2
  {
    CityPairsShape(codes);
  }

  /** The `i`-th city test is on the codes at `2 * i` and `2 * i + 1`. */
  lemma {:induction false} CityTestAt(codes: seq<string>, i: nat)
    requires i < |codes| / 2
    ensures |InCityTests(codes)| == |NotInCityTests(codes)| == |codes| / 2
    ensures 2 * i + 1 < |codes|
    ensures InCityTests(codes)[i] == InCity(codes[2 * i], codes[2 * i + 1])
    ensures NotInCityTests(codes)[i] == NotInCity(codes[2 * i], codes[2 * i + 1])
  {
    CityPairAt(codes, i);
  }

  lemma {:induction false} CityTestsCount(codes: seq<string>)
    ensures |InCityTests(codes)| == |NotInCityTests(codes)| == |codes| / 2
  {
    CityPairsCount(codes);
  }

  /** A pair of codes lies within the first `|codes| / 2` pairs. */
  lemma {:induction false} PairIndex(codes: seq<string>, i: nat)
    requires 2 * i + 1 < |codes|
    ensures i < |codes| / 2
  {
  }

  lemma {:induction false} CityTestHolds(codes: seq<string>, r: Relay, i: nat)
    requires i < |InCityTests(codes)| && Eval(InCityTests(codes)[i], r)
    ensures InCitiesHolds(Some(codes), r)
  {
    CityTestsCount(codes);
    CityTestAt(codes, i);
    assert InPair(codes, i, r);
  }

  lemma {:induction false} CityHoldsTest(codes: seq<string>, r: Relay, i: nat)
    requires 2 * i + 1 < |codes| && InPair(codes, i, r)
    ensures i < |InCityTests(codes)| && Eval(InCityTests(codes)[i], r)
  {
    PairIndex(codes, i);
    CityTestAt(codes, i);
  }

  /** Some city test holds exactly when the relay is in a named city. */
  lemma {:induction false} SomeCityTest(codes: seq<string>, r: Relay)
    ensures (exists i :: 0 <= i < |InCityTests(codes)| && Eval(InCityTests(codes)[i], r))
        <==> InCitiesHolds(Some(codes), r)
  {
    var ps := InCityTests(codes);
    if exists i :: 0 <= i < |ps| && Eval(ps[i], r) {
      var i :| 0 <= i < |ps| && Eval(ps[i], r);
      CityTestHolds(codes, r, i);
    }
    if InCitiesHolds(Some(codes), r) {
      var i: nat :| i < |codes| && 2 * i + 1 < |codes| && InPair(codes, i, r);
      CityHoldsTest(codes, r, i);
    }
  }

  /** Every city test holds exactly when the relay is in none of the cities. */
  lemma {:induction false} EveryNotCityTest(codes: seq<string>, r: Relay)
    ensures (forall i :: 0 <= i < |NotInCityTests(codes)| ==> Eval(NotInCityTests(codes)[i], r))
        <==> NotInCitiesHolds(Some(codes), r)
  {
    var ps := NotInCityTests(codes);
    CityTestsCount(codes);
    if forall i :: 0 <= i < |ps| ==> Eval(ps[i], r) {
      forall i: nat | i < |codes| && 2 * i + 1 < |codes| ensures !InPair(codes, i, r) {
        PairIndex(codes, i);
        CityTestAt(codes, i);
        assert Eval(ps[i], r);
      }
    }
    if NotInCitiesHolds(Some(codes), r) {
      forall i | 0 <= i < |ps| ensures Eval(ps[i], r) {
        CityTestAt(codes, i);
        assert !InPair(codes, i, r);
      }
    }
  }

  lemma {:induction false} InCitiesMeaning(codes: Option<seq<string>>, r: Relay)
    ensures Eval(And(InCities(codes)), r) <==> InCitiesHolds(codes, r)
  {
    EmptyCombinators(r);
    if codes.Some? {
      AndSingle(Or(InCityTests(codes.value)), r);
      OrMeaning(InCityTests(codes.value), r);
      SomeCityTest(codes.value, r);
    }
  }

  lemma {:induction false} NotInCitiesMeaning(codes: Option<seq<string>>, r: Relay)
    ensures Eval(And(NotInCities(codes)), r) <==> NotInCitiesHolds(codes, r)
  {
    EmptyCombinators(r);
    if codes.Some? {
      AndSingle(And(NotInCityTests(codes.value)), r);
      AndMeaning(NotInCityTests(codes.value), r);
      EveryNotCityTest(codes.value, r);
    }
  }

  lemma {:induction false} FlagMeaning(set_: bool, p: Pred, r: Relay)
    ensures Eval(And(Flag(set_, p)), r) <==> (set_ ==> Eval(p, r))
  {
    EmptyCombinators(r);
    AndSingle(p, r);
  }

  lemma {:induction false} BandwidthMeaning(bandwidth: Option<string>, r: Relay)
    requires BandwidthPart(bandwidth).Success?
    ensures Eval(And(BandwidthPart(bandwidth).value), r) <==> BandwidthHolds(bandwidth, r)
  {
    EmptyCombinators(r);
    if bandwidth.Some? && bandwidth.value != [] {
      AndSingle(Geq(BANDWIDTH, ParseDecimal(bandwidth.value).value), r);
    }
  }

  /** The list the program builds admits a relay exactly when the relay
      meets every option given. */
  lemma {:induction false} ConditionsMeaning(args: FilterArgs, r: Relay)
    requires Conditions(args).Success?
    ensures Eval(And(Conditions(args).value), r) <==> Admits(args, r)
  {
    var bw := BandwidthPart(args.bandwidth).value;
    var s0 := BASE;
    var s1 := s0 + AnyOfValues(COUNTRY_CODE, args.country);
    var s2 := s1 + NoneOfValues(COUNTRY_CODE, args.countryNot);
    var s3 := s2 + InCities(args.city);
    var s4 := s3 + NotInCities(args.cityNot);
    var s5 := s4 + AnyOfValues(HOSTNAME, args.hostname);
    var s6 := s5 + NoneOfValues(HOSTNAME, args.hostnameNot);
    var s7 := s6 + AnyOfValues(PROVIDER, args.provider);
    var s8 := s7 + NoneOfValues(PROVIDER, args.providerNot);
    var s9 := s8 + bw;
    var s10 := s9 + Flag(args.wireguard, Eq(TYPE, VStr(WIREGUARD)));
    var s11 := s10 + Flag(args.openvpn, Eq(TYPE, VStr(OPENVPN)));
    var s12 := s11 + Flag(args.stboot, Eq(STBOOT, VBool(true)));
    var s13 := s12 + Flag(args.owned, Eq(OWNED, VBool(true)));
    var s14 := s13 + Flag(args.ipv6, Has(IPV6));
    assert Conditions(args).value == s14;
    BaseMeaning(r);
    AndConcat(s0, AnyOfValues(COUNTRY_CODE, args.country), r);
    AnyOfMeaning(COUNTRY_CODE, args.country, r);
    AndConcat(s1, NoneOfValues(COUNTRY_CODE, args.countryNot), r);
    NoneOfMeaning(COUNTRY_CODE, args.countryNot, r);
    AndConcat(s2, InCities(args.city), r);
    InCitiesMeaning(args.city, r);
    AndConcat(s3, NotInCities(args.cityNot), r);
    NotInCitiesMeaning(args.cityNot, r);
    AndConcat(s4, AnyOfValues(HOSTNAME, args.hostname), r);
    AnyOfMeaning(HOSTNAME, args.hostname, r);
    AndConcat(s5, NoneOfValues(HOSTNAME, args.hostnameNot), r);
    NoneOfMeaning(HOSTNAME, args.hostnameNot, r);
    AndConcat(s6, AnyOfValues(PROVIDER, args.provider), r);
    AnyOfMeaning(PROVIDER, args.provider, r);
    AndConcat(s7, NoneOfValues(PROVIDER, args.providerNot), r);
    NoneOfMeaning(PROVIDER, args.providerNot, r);
    AndConcat(s8, bw, r);
    BandwidthMeaning(args.bandwidth, r);
    AndConcat(s9, Flag(args.wireguard, Eq(TYPE, VStr(WIREGUARD))), r);
    FlagMeaning(args.wireguard, Eq(TYPE, VStr(WIREGUARD)), r);
    AndConcat(s10, Flag(args.openvpn, Eq(TYPE, VStr(OPENVPN))), r);
    FlagMeaning(args.openvpn, Eq(TYPE, VStr(OPENVPN)), r);
    AndConcat(s11, Flag(args.stboot, Eq(STBOOT, VBool(true))), r);
    FlagMeaning(args.stboot, Eq(STBOOT, VBool(true)), r);
    AndConcat(s12, Flag(args.owned, Eq(OWNED, VBool(true))), r);
    FlagMeaning(args.owned, Eq(OWNED, VBool(true)), r);
    AndConcat(s13, Flag(args.ipv6, Has(IPV6)), r);
    FlagMeaning(args.ipv6, Has(IPV6), r);
  }

  /** Whatever the options, bridges, inactive relays and relays lacking
      `type` or `active` are never selected. */
  lemma {:induction false} BaseExcludes(args: FilterArgs, r: Relay)
    requires Conditions(args).Success? && Eval(And(Conditions(args).value), r)
    ensures TYPE in r && r[TYPE] != VStr(BRIDGE) && ACTIVE in r && r[ACTIVE] == VBool(true)
  {
    ConditionsMeaning(args, r);
  }

  /** `-w` together with `-o` asks for a type that is both: nothing is left. */
  lemma {:induction false} WireguardAndOpenvpn(args: FilterArgs, relays: seq<Relay>)
    requires Conditions(args).Success? && args.wireguard && args.openvpn
    ensures Select(And(Conditions(args).value), relays) == []
  {
    forall i | 0 <= i < |relays| ensures !Eval(And(Conditions(args).value), relays[i]) {
      ConditionsMeaning(args, relays[i]);
    }
    SelectNone(And(Conditions(args).value), relays);
  }
}
