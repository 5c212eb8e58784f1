/** Relays as the Mullvad API gives them (one JSON object per relay), and
    the predicates `mulping` filters them with. Python builds each predicate
    as a closure (`eqAttr`, `neqAttr`, `geqAttr`, `inCity`, `notInCity`,
    `IPV6 in r`, `filterOr`, `filterAnd`); here each is a constructor of
    `Pred` and `Eval` gives its meaning. */
module RelayFilter {
  import opened Wrappers

  /** A JSON value of a relay attribute. */
  datatype Value = VStr(s: string) | VBool(b: bool) | VNum(n: real) | VNull

  type Relay = map<string, Value>

  const HOSTNAME := "hostname"
  const TYPE := "type"
  const ACTIVE := "active"
  const COUNTRY_CODE := "country_code"
  const COUNTRY_NAME := "country_name"
  const CITY_CODE := "city_code"
  const CITY_NAME := "city_name"
  const IPV4 := "ipv4_addr_in"
  const IPV6 := "ipv6_addr_in"
  const PROVIDER := "provider"
  const BANDWIDTH := "network_port_speed"
  const OWNED := "owned"
  const STBOOT := "stboot"
  const RTT := "round_trip_time"

  const WIREGUARD := "wireguard"
  const OPENVPN := "openvpn"
  const BRIDGE := "bridge"

  datatype Pred =
    | Eq(key: string, value: Value)          // eqAttr(key)(value)
    | Neq(key: string, value: Value)         // neqAttr(key)(value)
    | Geq(key: string, bound: real)          // geqAttr(key)(bound)
    | InCity(country: string, city: string)  // inCity((country, city))
    | NotInCity(country: string, city: string)
    | Has(key: string)                       // lambda r: key in r
    | Or(preds: seq<Pred>)                   // filterOr(preds)
    | And(preds: seq<Pred>)                  // filterAnd(preds)

  /** How many entries of `xs` are `x`: Python's `list.count`. */
  function Count(xs: seq<bool>, x: bool): (n: nat)
    ensures n <= |xs|
    ensures n == 0 <==> x !in xs
  {
    if xs == [] then 0 else (if xs[0] == x then 1 else 0) + Count(xs[1..], x)
  }

  /** The number Python compares a value as: a `bool` is the `int` 0 or 1;
      other values are not numbers. */
  function Numeric(v: Value): Option<real>
  {
    match v
    case VNum(n) => Some(n)
    case VBool(b) => Some(if b then 1.0 else 0.0)
    case _ => None
  }

  /** Both attributes of the city test hold. */
  predicate InCityHolds(country: string, city: string, r: Relay)
  {
    COUNTRY_CODE in r && r[COUNTRY_CODE] == VStr(country) && CITY_CODE in r && r[CITY_CODE] == VStr(city)
  }

  /** The meaning of a predicate on one relay. `Or` and `And` count the
      results of their parts, as `filterOr` and `filterAnd` do. */
  function Eval(p: Pred, r: Relay): (b: bool)
    ensures (p.Eq? || p.Neq? || p.Geq? || p.Has?) && b ==> p.key in r
    ensures (p.InCity? && b) || (p.NotInCity? && !b) ==> COUNTRY_CODE in r && CITY_CODE in r
    decreases p
  {
    match p
    case Eq(a, v) => a in r && r[a] == v
    case Neq(a, v) => a in r && r[a] != v
    case Geq(a, v) => a in r && Numeric(r[a]).Some? && Numeric(r[a]).value >= v
    case InCity(c, t) => InCityHolds(c, t, r)
    case NotInCity(c, t) => !InCityHolds(c, t, r)
    case Has(a) => a in r
    case Or(ps) => Count(seq(|ps|, i requires 0 <= i < |ps| => Eval(ps[i], r)), true) > 0
    case And(ps) => Count(seq(|ps|, i requires 0 <= i < |ps| => Eval(ps[i], r)), false) == 0
  }

  /* ---------------- the primitives ---------------- */

  /** A missing attribute makes every primitive test false. */
  lemma {:induction false} AbsentKey(r: Relay, a: string, v: Value, b: real)
    requires a !in r
    ensures !Eval(Eq(a, v), r) && !Eval(Neq(a, v), r) && !Eval(Geq(a, b), r) && !Eval(Has(a), r)
  {
  }

  /** `geqAttr` compares numbers, and a `bool` as 0 or 1. */
  lemma {:induction false} GeqMeaning(r: Relay, a: string, b: real)
    ensures Eval(Geq(a, b), r) <==>
      a in r && ((r[a].VNum? && r[a].n >= b) || (r[a].VBool? && (if r[a].b then 1.0 else 0.0) >= b))
    ensures a in r && (r[a].VStr? || r[a].VNull?) ==> !Eval(Geq(a, b), r)
  {
  }

  /** `neqAttr` is the negation of `eqAttr` only where the attribute exists. */
  lemma {:induction false} NeqMeaning(r: Relay, a: string, v: Value)
    ensures Eval(Neq(a, v), r) <==> a in r && !Eval(Eq(a, v), r)
    ensures a !in r ==> !Eval(Eq(a, v), r) && !Eval(Neq(a, v), r)
  {
  }

  /** `inCity` holds exactly when both codes are equal. */
  lemma {:induction false} InCityMeaning(r: Relay, country: string, city: string)
    ensures Eval(InCity(country, city), r)
        <==> Eval(Eq(COUNTRY_CODE, VStr(country)), r) && Eval(Eq(CITY_CODE, VStr(city)), r)
  {
  }

  /** `notInCity` is the exact negation of `inCity`: a relay missing either
      code is not in the city. */
  lemma {:induction false} NotInCityMeaning(r: Relay, country: string, city: string)
    ensures Eval(NotInCity(country, city), r) == !Eval(InCity(country, city), r)
    ensures COUNTRY_CODE !in r || CITY_CODE !in r ==> Eval(NotInCity(country, city), r)
  {
  }

  /* ---------------- the combinators ---------------- */

  lemma {:induction false} CountPositive(xs: seq<bool>, x: bool)
    ensures Count(xs, x) > 0 <==> exists i :: 0 <= i < |xs| && xs[i] == x
  {
    if Count(xs, x) > 0 {
      assert x in xs;
    }
  }

  /** A conjunction of one predicate is that predicate. */
  lemma {:induction false} AndSingle(p: Pred, r: Relay)
    ensures Eval(And([p]), r) == Eval(p, r)
  {
    AndMeaning([p], r);
  }

  /** `filterOr` holds when at least one part holds. */
  lemma {:induction false} OrMeaning(ps: seq<Pred>, r: Relay)
    ensures Eval(Or(ps), r) <==> exists i :: 0 <= i < |ps| && Eval(ps[i], r)
  {
    var results := seq(|ps|, i requires 0 <= i < |ps| => Eval(ps[i], r));
    CountPositive(results, true);
    assert Eval(Or(ps), r) == (Count(results, true) > 0);
    if Count(results, true) > 0 {
      var i :| 0 <= i < |results| && results[i] == true;
      assert Eval(ps[i], r);
    } else {
      forall i | 0 <= i < |ps| ensures !Eval(ps[i], r) {
        assert results[i] == Eval(ps[i], r);
      }
    }
  }

  /** `filterAnd` holds when no part is false. */
  lemma {:induction false} AndMeaning(ps: seq<Pred>, r: Relay)
    ensures Eval(And(ps), r) <==> forall i :: 0 <= i < |ps| ==> Eval(ps[i], r)
  {
    var results := seq(|ps|, i requires 0 <= i < |ps| => Eval(ps[i], r));
    CountPositive(results, false);
    assert forall i :: 0 <= i < |ps| ==> results[i] == Eval(ps[i], r);
  }

  /** No part: `filterOr` rejects every relay, `filterAnd` admits every one. */
  lemma {:induction false} EmptyCombinators(r: Relay)
    ensures !Eval(Or([]), r) && Eval(And([]), r)
  {
    OrMeaning([], r);
    AndMeaning([], r);
  }

  /** A conjunction of two lists is the conjunction of the two. */
  lemma {:induction false} AndConcat(ps: seq<Pred>, qs: seq<Pred>, r: Relay)
    ensures Eval(And(ps + qs), r) <==> Eval(And(ps), r) && Eval(And(qs), r)
  {
    AndMeaning(ps + qs, r);
    AndMeaning(ps, r);
    AndMeaning(qs, r);
    if Eval(And(ps), r) && Eval(And(qs), r) {
      forall i | 0 <= i < |ps + qs| ensures Eval((ps + qs)[i], r) {
        if i >= |ps| {
          assert (ps + qs)[i] == qs[i - |ps|];
        }
      }
    }
    if Eval(And(ps + qs), r) {
      forall i | 0 <= i < |ps| ensures Eval(ps[i], r) {
        assert (ps + qs)[i] == ps[i];
      }
      forall i | 0 <= i < |qs| ensures Eval(qs[i], r) {
        assert (ps + qs)[i + |ps|] == qs[i];
      }
    }
  }

  /* ---------------- filtering a list ---------------- */

  /** `list(filter(p, rs))`: the relays satisfying `p`, in their order. */
  function Select(p: Pred, rs: seq<Relay>): (out: seq<Relay>)
    ensures |out| <= |rs|
    ensures forall i :: 0 <= i < |out| ==> Eval(p, out[i]) && out[i] in rs
  {
    if rs == [] then []
    else if Eval(p, rs[0]) then [rs[0]] + Select(p, rs[1..])
    else Select(p, rs[1..])
  }

  /** A relay is selected exactly when it is in the list and satisfies `p`. */
  lemma {:induction false} SelectMembership(p: Pred, rs: seq<Relay>, r: Relay)
    ensures r in Select(p, rs) <==> r in rs && Eval(p, r)
  {
    if rs != [] {
      SelectMembership(p, rs[1..], r);
      assert rs == [rs[0]] + rs[1..];
    }
  }

  /** Filtering keeps the order: it works piece by piece. */
  lemma {:induction false} SelectConcat(p: Pred, xs: seq<Relay>, ys: seq<Relay>)
    ensures Select(p, xs + ys) == Select(p, xs) + Select(p, ys)
  {
    if xs != [] {
      assert (xs + ys)[1..] == xs[1..] + ys;
      SelectConcat(p, xs[1..], ys);
    } else {
      assert xs + ys == ys;
    }
  }

  /** Filtering a list that holds only admitted relays keeps it whole. */
  lemma {:induction false} SelectAll(p: Pred, rs: seq<Relay>)
    requires forall i :: 0 <= i < |rs| ==> Eval(p, rs[i])
    ensures Select(p, rs) == rs
  {
    if rs != [] {
      SelectAll(p, rs[1..]);
    }
  }

  /** Nothing is selected when no relay satisfies `p`. */
  lemma {:induction false} SelectNone(p: Pred, rs: seq<Relay>)
    requires forall i :: 0 <= i < |rs| ==> !Eval(p, rs[i])
    ensures Select(p, rs) == []
  {
    if rs != [] {
      SelectNone(p, rs[1..]);
    }
  }

  /* ---------------- city arguments ---------------- */

  /** `xs[start::2]`. */
  function Strided(xs: seq<string>, start: nat): (ys: seq<string>)
    ensures |ys| == if start < |xs| then (|xs| - start + 1) / 2 else 0
    ensures forall i :: 0 <= i < |ys| ==> start + 2 * i < |xs| && ys[i] == xs[start + 2 * i]
    decreases |xs| - start
  {
    if start >= |xs| then [] else [xs[start]] + Strided(xs, start + 2)
  }

  /** `list(zip(xs, ys))`: stops at the shorter list. */
  function Zip(xs: seq<string>, ys: seq<string>): (zs: seq<(string, string)>)
    ensures |zs| == if |xs| < |ys| then |xs| else |ys|
    ensures forall i :: 0 <= i < |zs| ==> zs[i] == (xs[i], ys[i])
  {
    if xs == [] || ys == [] then [] else [(xs[0], ys[0])] + Zip(xs[1..], ys[1..])
  }

  /** `list(zip(codes[::2], codes[1::2]))`: country and city codes paired up. */
  function CityPairs(codes: seq<string>): seq<(string, string)>
  {
    Zip(Strided(codes, 0), Strided(codes, 1))
  }

  /** Consecutive codes are paired; an odd trailing code is dropped without
      complaint. */
  lemma {:induction false} CityPairsShape(codes: seq<string>)
    ensures |CityPairs(codes)| == |codes| / 2
    ensures forall i :: 0 <= i < |codes| / 2 ==> CityPairs(codes)[i] == (codes[2 * i], codes[2 * i + 1])
  {
    var evens, odds := Strided(codes, 0), Strided(codes, 1);
    assert |evens| == (|codes| + 1) / 2;
    assert |odds| == |codes| / 2;
  }

  /* ---------------- the condition list ---------------- */

  /** `filterOr` or `filterAnd`, as passed to `getFilter`. */
  datatype Aggregator = AnyOf | AllOf

  function Aggregate(agg: Aggregator, ps: seq<Pred>): Pred
  {
    match agg
    case AnyOf => Or(ps)
    case AllOf => And(ps)
  }

  /** `list(map(getSubFilter, source))`. */
  function MapPreds<T>(source: seq<T>, getSubFilter: T -> Pred): (ps: seq<Pred>)
    ensures |ps| == |source|
    ensures forall i :: 0 <= i < |source| ==> ps[i] == getSubFilter(source[i])
  {
    if source == [] then [] else [getSubFilter(source[0])] + MapPreds(source[1..], getSubFilter)
  }

  /** The list of conditions a relay must all satisfy (`relayConditions`),
      grown in place by `getFilter` and by direct appends. */
  class ConditionList {
    var conds: seq<Pred>

    /** The two base conditions: not a bridge, and active. */
    constructor ()
      ensures conds == [Neq(TYPE, VStr(BRIDGE)), Eq(ACTIVE, VBool(true))]
    {
      conds := [Neq(TYPE, VStr(BRIDGE)), Eq(ACTIVE, VBool(true))];
    }

    /** `relayConditions.append(p)`. */
    method Append(p: Pred)
      modifies this
      ensures conds == old(conds) + [p]
    {
      conds := conds + [p];
    }

    /** `getFilter(source, getSubFilter, aggregator, filters)`: one predicate
        per source value, in source order, aggregated into one condition
        appended at the end. */
    method GetFilter<T>(source: seq<T>, getSubFilter: T -> Pred, agg: Aggregator)
      modifies this
      ensures conds == old(conds) + [Aggregate(agg, MapPreds(source, getSubFilter))]
    {
      var conditions := MapPreds(source, getSubFilter);
      conds := conds + [Aggregate(agg, conditions)];
    }

    /** `filterAnd(relayConditions)(r)`. */
    predicate Admits(r: Relay)
      reads this
    {
      Eval(And(conds), r)
    }
  }

  /** What `getFilter` appends narrows the list by exactly that condition;
      the conditions already there keep their meaning. */
  lemma {:induction false} AppendNarrows(conds: seq<Pred>, p: Pred, r: Relay)
    ensures Eval(And(conds + [p]), r) <==> Eval(And(conds), r) && Eval(p, r)
  {
    AndConcat(conds, [p], r);
    AndMeaning([p], r);
  }
}
