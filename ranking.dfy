/** The main loop and the final operations of `mulping` (lines 422-487):
    the relays the conditions admit are pinged one by one and annotated with
    the round trip time, then split into reachable and unreachable ones,
    listed by decreasing latency, and the lowest and highest latency relays
    and the pool of a random choice are picked out. Each `ping` call is
    abstracted as the result it produces (`probe(i)` for the `i`-th relay);
    printing and switching relays are left out. */
module Ranking {
  import opened Wrappers
  import opened RelayFilter
  import opened PingParser

  /** Why the main loop stops with an error. */
  datatype RankError =
    | NoRelays                              // "The conditions specified resulted in no relays"
    | Unmeasurable(index: nat, key: string) // KeyError or TypeError while `getSpacing` measures a column
    | MissingAttribute(index: nat, key: string)  // KeyError on `r[HOSTNAME]` or `r[IP]`
    | PingRaised(index: nat, error: Raised) // an exception escaping `parsePing`
    | NoneReachable                         // "No relay could be reached"

  /* ---------------- pinging every relay ---------------- */

  /** The attribute `_, rtt, _ = ping(...)` stores: the middle number, or
      `None` when the output gave none. */
  function RttValue(result: PingResult): Value
  {
    match result
    case Rtts(_, middle, _) => VNum(middle)
    case _ => VNull
  }

  /** The relay at `index` stops the loop: it lacks its host name or its
      address, or its `ping` raised. */
  predicate Fails(r: Relay, ip: string, pingRequested: bool, result: PingResult)
  {
    HOSTNAME !in r || ip !in r || (pingRequested && result.Raises?)
  }

  /** The error of a relay that stops the loop, in the order the loop body
      meets them. */
  function StepError(index: nat, r: Relay, ip: string, result: PingResult): RankError
    requires HOSTNAME !in r || ip !in r || result.Raises?
  {
    if HOSTNAME !in r then MissingAttribute(index, HOSTNAME)
    else if ip !in r then MissingAttribute(index, ip)
    else PingRaised(index, result.error)
  }

  /** A relay after its turn in the loop. */
  function Updated(r: Relay, pingRequested: bool, result: PingResult): (u: Relay)
    ensures pingRequested ==> RTT in u && u[RTT] == RttValue(result)
    ensures forall a :: a in r && a != RTT ==> a in u && u[a] == r[a]
    ensures !pingRequested ==> u == r
    ensures u.Keys == r.Keys + (if pingRequested then {RTT} else {})
  {
    if pingRequested then r[RTT := RttValue(result)] else r
  }

  /** Every relay after the loop has run to its end. */
  function AnnotateAll(rs: seq<Relay>, pingRequested: bool, probe: nat -> PingResult): (out: seq<Relay>)
    ensures |out| == |rs|
    ensures forall i :: 0 <= i < |rs| ==> out[i] == Updated(rs[i], pingRequested, probe(i))
  {
    seq(|rs|, i requires 0 <= i < |rs| => Updated(rs[i], pingRequested, probe(i)))
  }

  /** The `for index, r in enumerate(relays)` loop: the relays before the
      one that stops it are annotated, the others are left as they were. */
  method AnnotateRtts(relays: array<Relay>, ip: string, pingRequested: bool, probe: nat -> PingResult)
    returns (err: Option<RankError>)
    modifies relays
    ensures err.None? <==> forall i :: 0 <= i < relays.Length ==> !Fails(old(relays[i]), ip, pingRequested, probe(i))
    ensures err.None? ==> relays[..] == AnnotateAll(old(relays[..]), pingRequested, probe)
    ensures err.Some? ==>
      exists k :: 0 <= k < relays.Length
        && Fails(old(relays[k]), ip, pingRequested, probe(k))
        && err.value == StepError(k, old(relays[k]), ip, probe(k))
        && (forall j :: 0 <= j < k ==> !Fails(old(relays[j]), ip, pingRequested, probe(j)))
        && (forall j :: 0 <= j < k ==> relays[j] == Updated(old(relays[j]), pingRequested, probe(j)))
        && (forall j :: k <= j < relays.Length ==> relays[j] == old(relays[j]))
  {
    for i := 0 to relays.Length
      invariant forall j :: 0 <= j < i ==> !Fails(old(relays[j]), ip, pingRequested, probe(j))
      invariant forall j :: 0 <= j < i ==> relays[j] == Updated(old(relays[j]), pingRequested, probe(j))
      invariant forall j :: i <= j < relays.Length ==> relays[j] == old(relays[j])
    {
      var r := relays[i];
      if HOSTNAME !in r || ip !in r {
        return Some(StepError(i, r, ip, probe(i)));
      }
      if pingRequested {
        var result := probe(i);
        if result.Raises? {
          return Some(PingRaised(i, result.error));
        }
        relays[i] := r[RTT := RttValue(result)];
      }
    }
    return None;
  }

  /** With pinging, every relay carries a round trip time: the middle number
      of its `ping`, or `None`. */
  lemma {:induction false} EveryRelayHasRtt(rs: seq<Relay>, probe: nat -> PingResult, i: nat)
    requires i < |rs|
    ensures RTT in AnnotateAll(rs, true, probe)[i]
    ensures AnnotateAll(rs, true, probe)[i][RTT] == VNull <==> !probe(i).Rtts?
    ensures probe(i).Rtts? ==> AnnotateAll(rs, true, probe)[i][RTT] == VNum(probe(i).second)
  {
  }

  /* ---------------- reachable and unreachable relays ---------------- */

  function Reachable(rs: seq<Relay>): (out: seq<Relay>)
    ensures |out| <= |rs|
    ensures forall i :: 0 <= i < |out| ==> out[i] in rs && RTT in out[i] && out[i][RTT] != VNull
  {
    Select(Neq(RTT, VNull), rs)
  }

  function Unreachable(rs: seq<Relay>): (out: seq<Relay>)
    ensures |out| <= |rs|
    ensures forall i :: 0 <= i < |out| ==> out[i] in rs && RTT in out[i] && out[i][RTT] == VNull
  {
    Select(Eq(RTT, VNull), rs)
  }

  /** When every relay carries a round trip time, the reachable and the
      unreachable relays together are all the relays. */
  lemma {:induction false} Partition(rs: seq<Relay>)
    requires forall i :: 0 <= i < |rs| ==> RTT in rs[i]
    ensures multiset(Reachable(rs)) + multiset(Unreachable(rs)) == multiset(rs)
  {
    if rs != [] {
      Partition(rs[1..]);
      assert rs == [rs[0]] + rs[1..];
    }
  }

  /** Without pinging, no relay from the relay list carries a round trip
      time, so neither list has any. */
  lemma {:induction false} NoPingNoPartition(rs: seq<Relay>, probe: nat -> PingResult)
    requires forall i :: 0 <= i < |rs| ==> RTT !in rs[i]
    ensures Reachable(AnnotateAll(rs, false, probe)) == []
    ensures Unreachable(AnnotateAll(rs, false, probe)) == []
  {
    var out := AnnotateAll(rs, false, probe);
    assert out == rs;
    forall i | 0 <= i < |rs| ensures !Eval(Neq(RTT, VNull), rs[i]) && !Eval(Eq(RTT, VNull), rs[i]) {
      AbsentKey(rs[i], RTT, VNull, 0.0);
    }
    SelectNone(Neq(RTT, VNull), rs);
    SelectNone(Eq(RTT, VNull), rs);
  }

  /** After pinging, a reachable relay carries the number its `ping` gave. */
  lemma {:induction false} ReachableMeasured(rs: seq<Relay>, probe: nat -> PingResult, r: Relay)
    requires r in Reachable(AnnotateAll(rs, true, probe))
    ensures RTT in r && r[RTT].VNum?
  {
    var out := AnnotateAll(rs, true, probe);
    SelectMembership(Neq(RTT, VNull), out, r);
    var i :| 0 <= i < |out| && out[i] == r;
    assert r[RTT] == RttValue(probe(i));
  }

  /* ---------------- ordering by latency ---------------- */

  /** `key = lambda r: r[RTT]`, on relays whose time is a number. */
  function Key(r: Relay): real
  {
    if RTT in r && r[RTT].VNum? then r[RTT].n else 0.0
  }

  predicate Descending(rs: seq<Relay>)
  {
    forall i, j :: 0 <= i < j < |rs| ==> Key(rs[i]) >= Key(rs[j])
  }

  /** The relays with a given key, in their order. */
  function WithKey(rs: seq<Relay>, k: real): (out: seq<Relay>)
    ensures |out| <= |rs|
  {
    if rs == [] then [] else (if Key(rs[0]) == k then [rs[0]] else []) + WithKey(rs[1..], k)
  }

  /** Insert `x` before the first relay whose key is not larger. */
  function Insert(x: Relay, s: seq<Relay>): (out: seq<Relay>)
    ensures |out| == |s| + 1
    ensures multiset(out) == multiset(s) + multiset{x}
  {
    if s == [] || Key(s[0]) <= Key(x) then [x] + s
    else
      assert s == [s[0]] + s[1..];
      [s[0]] + Insert(x, s[1..])
  }

  /** `sorted(rs, key = lambda r: r[RTT], reverse = True)`. */
  function SortDescending(rs: seq<Relay>): (out: seq<Relay>)
    ensures |out| == |rs|
    ensures multiset(out) == multiset(rs)
  {
    if rs == [] then []
    else
      assert rs == [rs[0]] + rs[1..];
      Insert(rs[0], SortDescending(rs[1..]))
  }

  /** No relay of `s` has a key above `b`. */
  predicate AllAtMost(s: seq<Relay>, b: real)
  {
    forall j :: 0 <= j < |s| ==> Key(s[j]) <= b
  }

  lemma {:induction false} DescendingCons(a: Relay, t: seq<Relay>)
    requires Descending(t) && AllAtMost(t, Key(a))
    ensures Descending([a] + t)
  {
    var out := [a] + t;
    forall i, j | 0 <= i < j < |out| ensures Key(out[i]) >= Key(out[j]) {
      assert out[j] == t[j - 1];
      if i > 0 {
        assert out[i] == t[i - 1];
      }
    }
  }

  lemma {:induction false} InsertAtMost(x: Relay, s: seq<Relay>, b: real)
    requires AllAtMost(s, b) && Key(x) <= b
    ensures AllAtMost(Insert(x, s), b)
  {
    if s == [] || Key(s[0]) <= Key(x) {
      var out := [x] + s;
      forall j | 0 < j < |out| ensures Key(out[j]) <= b {
        assert out[j] == s[j - 1];
      }
    } else {
      var t := Insert(x, s[1..]);
      assert AllAtMost(s[1..], b) by {
        forall j | 0 <= j < |s[1..]| ensures Key(s[1..][j]) <= b {
          assert s[1..][j] == s[j + 1];
        }
      }
      InsertAtMost(x, s[1..], b);
      var out := [s[0]] + t;
      forall j | 0 < j < |out| ensures Key(out[j]) <= b {
        assert out[j] == t[j - 1];
      }
    }
  }

  lemma {:induction false} DescendingTail(s: seq<Relay>)
    requires Descending(s) && s != []
    ensures Descending(s[1..]) && AllAtMost(s[1..], Key(s[0]))
  {
    forall i, j | 0 <= i < j < |s[1..]| ensures Key(s[1..][i]) >= Key(s[1..][j]) {
      assert s[1..][i] == s[i + 1] && s[1..][j] == s[j + 1];
    }
    forall j | 0 <= j < |s[1..]| ensures Key(s[1..][j]) <= Key(s[0]) {
      assert s[1..][j] == s[j + 1];
    }
  }

  lemma {:induction false} InsertDescending(x: Relay, s: seq<Relay>)
    requires Descending(s)
    ensures Descending(Insert(x, s))
  {
    if s == [] {
      DescendingCons(x, s);
    } else if Key(s[0]) <= Key(x) {
      assert AllAtMost(s, Key(x)) by {
        forall j | 0 < j < |s| ensures Key(s[j]) <= Key(x) {
          assert Key(s[0]) >= Key(s[j]);
        }
      }
      DescendingCons(x, s);
    } else {
      DescendingTail(s);
      InsertDescending(x, s[1..]);
      InsertAtMost(x, s[1..], Key(s[0]));
      DescendingCons(s[0], Insert(x, s[1..]));
    }
  }

  /** The sorted list runs from the highest latency to the lowest. */
  lemma {:induction false} SortIsDescending(rs: seq<Relay>)
    ensures Descending(SortDescending(rs))
  {
    if rs != [] {
      SortIsDescending(rs[1..]);
      InsertDescending(rs[0], SortDescending(rs[1..]));
    }
  }

  /** `[a]` when `a` has key `k`, nothing otherwise. */
  function Pick(a: Relay, k: real): seq<Relay>
  {
    if Key(a) == k then [a] else []
  }

  lemma {:induction false} WithKeyCons(a: Relay, t: seq<Relay>, k: real)
    ensures WithKey([a] + t, k) == Pick(a, k) + WithKey(t, k)
  {
    var u := [a] + t;
    assert u[0] == a && u[1..] == t;
  }

  lemma {:induction false} InsertStable(x: Relay, s: seq<Relay>, k: real)
    ensures WithKey(Insert(x, s), k) == Pick(x, k) + WithKey(s, k)
  {
    if s == [] || Key(s[0]) <= Key(x) {
      WithKeyCons(x, s, k);
    } else {
      var t := Insert(x, s[1..]);
      assert Insert(x, s) == [s[0]] + t;
      InsertStable(x, s[1..], k);
      WithKeyCons(s[0], t, k);
      WithKeyCons(s[0], s[1..], k);
      assert s == [s[0]] + s[1..];
      var w, p0, px := WithKey(s[1..], k), Pick(s[0], k), Pick(x, k);
      assert WithKey(Insert(x, s), k) == p0 + (px + w);
      assert WithKey(s, k) == p0 + w;
      if Key(x) == k {
        assert p0 == [];
        assert p0 + (px + w) == px + w;
        assert p0 + w == w;
      } else {
        assert px == [];
        assert px + w == w;
        assert px + (p0 + w) == p0 + w;
      }
    }
  }

  /** The sort is stable: relays with equal latency keep their order. */
  lemma {:induction false} SortStable(rs: seq<Relay>, k: real)
    ensures WithKey(SortDescending(rs), k) == WithKey(rs, k)
  {
    if rs != [] {
      SortStable(rs[1..], k);
      InsertStable(rs[0], SortDescending(rs[1..]), k);
    }
  }

  /** `nonReachableRelays + sorted(reachableRelays, ..., reverse = True)`. */
  function DescendingView(rs: seq<Relay>): (out: seq<Relay>)
    ensures |out| == |Unreachable(rs)| + |Reachable(rs)|
    ensures forall i :: 0 <= i < |out| ==> out[i] in rs && RTT in out[i]
    ensures forall i :: 0 <= i < |out| ==> (out[i][RTT] == VNull <==> i < |Unreachable(rs)|)
  {
    var u, s := Unreachable(rs), SortDescending(Reachable(rs));
    forall i | 0 <= i < |s| ensures s[i] in Reachable(rs) {
      assert s[i] in multiset(s);
    }
    u + s
  }

  /** The `-d` listing shows the unreachable relays first, in their order,
      then the reachable ones by decreasing latency; with pinging it shows
      every relay exactly once. */
  lemma {:induction false} DescendingViewShape(rs: seq<Relay>)
    requires forall i :: 0 <= i < |rs| ==> RTT in rs[i]
    ensures multiset(DescendingView(rs)) == multiset(rs)
    ensures DescendingView(rs)[..|Unreachable(rs)|] == Unreachable(rs)
    ensures Descending(DescendingView(rs)[|Unreachable(rs)|..])
  {
    Partition(rs);
    SortIsDescending(Reachable(rs));
    var v := DescendingView(rs);
    assert v[|Unreachable(rs)|..] == SortDescending(Reachable(rs));
  }

  /* ---------------- lowest and highest latency ---------------- */

  /** `min(rs, key = ...)`: the first relay of lowest latency. */
  function FirstMin(rs: seq<Relay>): (i: nat)
    requires rs != []
    ensures i < |rs|
    ensures forall j :: 0 <= j < |rs| ==> Key(rs[i]) <= Key(rs[j])
    ensures forall j :: 0 <= j < i ==> Key(rs[j]) > Key(rs[i])
  {
    if |rs| == 1 then 0
    else
      var k := FirstMin(rs[1..]) + 1;
      assert Key(rs[k]) == Key(rs[1..][k - 1]);
      if Key(rs[0]) <= Key(rs[k]) then 0 else k
  }

  /** `max(rs, key = ...)`: the first relay of highest latency. */
  function FirstMax(rs: seq<Relay>): (i: nat)
    requires rs != []
    ensures i < |rs|
    ensures forall j :: 0 <= j < |rs| ==> Key(rs[i]) >= Key(rs[j])
    ensures forall j :: 0 <= j < i ==> Key(rs[j]) < Key(rs[i])
  {
    if |rs| == 1 then 0
    else
      var k := FirstMax(rs[1..]) + 1;
      assert Key(rs[k]) == Key(rs[1..][k - 1]);
      if Key(rs[0]) >= Key(rs[k]) then 0 else k
  }

  /** The lowest latency is at most the highest, and they are the two ends
      of the descending order. */
  lemma {:induction false} LowestAndHighest(rs: seq<Relay>)
    requires rs != []
    ensures Key(rs[FirstMin(rs)]) <= Key(rs[FirstMax(rs)])
    ensures Key(rs[FirstMax(rs)]) == Key(SortDescending(rs)[0])
    ensures Key(rs[FirstMin(rs)]) == Key(SortDescending(rs)[|rs| - 1])
  {
    var s := SortDescending(rs);
    SortIsDescending(rs);
    InMultiset(s, rs, 0);
    InMultiset(s, rs, |s| - 1);
    InMultiset(rs, s, FirstMin(rs));
    InMultiset(rs, s, FirstMax(rs));
  }

  /** An element of one list is somewhere in a permutation of it. */
  lemma {:induction false} InMultiset(xs: seq<Relay>, ys: seq<Relay>, i: nat)
    requires multiset(xs) == multiset(ys) && i < |xs|
    ensures exists j :: 0 <= j < |ys| && ys[j] == xs[i]
  {
    assert xs[i] in multiset(xs);
    assert xs[i] in ys;
  }

  /* ---------------- the random pool ---------------- */

  /** `relays if not pingRequested else reachableRelays`. */
  function RandomPool(rs: seq<Relay>, pingRequested: bool): (pool: seq<Relay>)
    ensures forall i :: 0 <= i < |pool| ==> pool[i] in rs
    ensures pingRequested ==> forall i :: 0 <= i < |pool| ==> RTT in pool[i] && pool[i][RTT] != VNull
    ensures !pingRequested ==> pool == rs
  {
    if !pingRequested then rs else Reachable(rs)
  }

  /** `randomRelayPool[randint(0, len(randomRelayPool) - 1)]`: `randint`
      gives an index in bounds; which one is a parameter. */
  function RandomChoice(pool: seq<Relay>, pick: nat): (r: Relay)
    requires pick <= |pool| - 1
    ensures r in pool
  {
    pool[pick]
  }

  /** With pinging, the random choice never falls on a relay that could not
      be reached. */
  lemma {:induction false} RandomChoiceReachable(rs: seq<Relay>, probe: nat -> PingResult, pick: nat)
    requires pick < |RandomPool(AnnotateAll(rs, true, probe), true)|
    ensures RTT in RandomChoice(RandomPool(AnnotateAll(rs, true, probe), true), pick)
    ensures RandomChoice(RandomPool(AnnotateAll(rs, true, probe), true), pick)[RTT].VNum?
  {
    var r := RandomChoice(RandomPool(AnnotateAll(rs, true, probe), true), pick);
    ReachableMeasured(rs, probe, r);
  }

  /* ---------------- measuring the columns ---------------- */

  /** The attributes `ITEMS_FORMAT` shows as they are, so that `getSpacing`
      takes their `len` directly. */
  const PLAIN_ATTRIBUTES: set<string> :=
    {HOSTNAME, IPV4, IPV6, COUNTRY_CODE, CITY_CODE, PROVIDER, COUNTRY_NAME, CITY_NAME}

  /** `len(ITEMS_FORMAT[a](r[a]))` evaluates without raising: the attribute
      is present and, when it is shown as it is, a string. The formats of the
      other attributes accept any value. */
  predicate Measurable(r: Relay, a: string)
  {
    a in r && (a in PLAIN_ATTRIBUTES ==> r[a].VStr?)
  }

  /** `getSpacing` measures column `i` on every relay; the latency column
      is skipped and given a fixed width. */
  predicate ColumnMeasurable(relays: seq<Relay>, items: seq<string>, i: nat)
    requires i < |items|
  {
    items[i] == RTT || forall k :: 0 <= k < |relays| ==> Measurable(relays[k], items[i])
  }

  predicate AllMeasurable(relays: seq<Relay>, items: seq<string>)
  {
    forall i :: 0 <= i < |items| ==> ColumnMeasurable(relays, items, i)
  }

  /** The first failure of `getSpacing` is relay `k` in column `i`: the
      columns before it measure, and so do the relays before `k` in it. */
  predicate FirstUnmeasurable(relays: seq<Relay>, items: seq<string>, i: nat, k: nat)
  {
    i < |items| && k < |relays| && items[i] != RTT && !Measurable(relays[k], items[i])
    && (forall j :: 0 <= j < i ==> ColumnMeasurable(relays, items, j))
    && (forall m :: 0 <= m < k ==> Measurable(relays[m], items[i]))
  }

  /** The part of `getSpacing` that can stop the run: for each displayed
      attribute but the latency, `max(relays, key = ...)` measures every
      relay in order. The widths themselves are not modelled. */
  method MeasureColumns(relays: seq<Relay>, items: seq<string>) returns (err: Option<RankError>)
    ensures err.None? <==> AllMeasurable(relays, items)
    ensures err.Some? ==>
      exists i: nat, k: nat :: FirstUnmeasurable(relays, items, i, k) && err.value == Unmeasurable(k, items[i])
  {
    for i := 0 to |items|
      invariant forall j :: 0 <= j < i ==> ColumnMeasurable(relays, items, j)
    {
      if items[i] != RTT {
        for k := 0 to |relays|
          invariant forall m :: 0 <= m < k ==> Measurable(relays[m], items[i])
        {
          if !Measurable(relays[k], items[i]) {
            assert FirstUnmeasurable(relays, items, i, k);
            assert !ColumnMeasurable(relays, items, i);
            return Some(Unmeasurable(k, items[i]));
          }
        }
      }
    }
    return None;
  }

  /** A run that reaches the loop fails on its first relay that lacks its
      host name or address, or whose `ping` raises. */
  predicate SomeFails(rs: seq<Relay>, ip: string, pingRequested: bool, probe: nat -> PingResult)
  {
    exists k :: 0 <= k < |rs| && Fails(rs[k], ip, pingRequested, probe(k))
  }

  /* ---------------- the whole run ---------------- */

  /** What the final operations find. */
  datatype Ranking = Ranking(
    relays: seq<Relay>,
    reachable: seq<Relay>,
    unreachable: seq<Relay>,
    descending: seq<Relay>,
    lowest: Option<Relay>,
    highest: Option<Relay>,
    pool: seq<Relay>)

  /** The final operations on the pinged relays (lines 448-487): the two
      partitions, the descending listing, the lowest and highest latency
      relays and the random pool; with pinging, no reachable relay is the
      error "No relay could be reached". */
  method FinalOperations(rs: seq<Relay>, pingRequested: bool) returns (res: Result<Ranking, RankError>)
    ensures res.Failure? <==> pingRequested && Reachable(rs) == []
    ensures res.Failure? ==> res.error == NoneReachable
    ensures res.Success? ==>
      var v := res.value;
      v.relays == rs && v.reachable == Reachable(rs) && v.unreachable == Unreachable(rs)
      && v.descending == DescendingView(rs)
      && v.pool == RandomPool(rs, pingRequested)
      && (pingRequested ==> v.lowest == Some(v.reachable[FirstMin(v.reachable)]))
      && (pingRequested ==> v.highest == Some(v.reachable[FirstMax(v.reachable)]))
      && (!pingRequested ==> v.lowest.None? && v.highest.None?)
  {
    var unreachable := Unreachable(rs);
    var reachable := Reachable(rs);
    var descending := unreachable + SortDescending(reachable);
    if reachable == [] && pingRequested {
      return Failure(NoneReachable);
    }
    var lowest, highest := None, None;
    if pingRequested {
      lowest := Some(reachable[FirstMin(reachable)]);
      highest := Some(reachable[FirstMax(reachable)]);
    }
    var pool := if !pingRequested then rs else reachable;
    return Success(Ranking(rs, reachable, unreachable, descending, lowest, highest, pool));
  }

  /** The relays admitted by the conditions, measured for printing, pinged
      and ranked. Every outcome is pinned down, in the order the program
      meets its errors. */
  method RankRelays(all: seq<Relay>, conds: seq<Pred>, attributes: seq<string>, ip: string,
                    pingRequested: bool, probe: nat -> PingResult)
    returns (res: Result<Ranking, RankError>)
    ensures Select(And(conds), all) == [] ==> res == Failure(NoRelays)
    ensures var admitted := Select(And(conds), all);
      admitted != [] && !AllMeasurable(admitted, attributes) ==>
        res.Failure?
        && (exists i: nat, k: nat :: FirstUnmeasurable(admitted, attributes, i, k)
              && res.error == Unmeasurable(k, attributes[i]))
    ensures var admitted := Select(And(conds), all);
      admitted != [] && AllMeasurable(admitted, attributes) && SomeFails(admitted, ip, pingRequested, probe) ==>
        res.Failure?
        && (exists k :: 0 <= k < |admitted| && Fails(admitted[k], ip, pingRequested, probe(k))
              && res.error == StepError(k, admitted[k], ip, probe(k))
              && forall j :: 0 <= j < k ==> !Fails(admitted[j], ip, pingRequested, probe(j)))
    ensures var admitted := Select(And(conds), all);
      admitted != [] && AllMeasurable(admitted, attributes) && !SomeFails(admitted, ip, pingRequested, probe)
      && pingRequested && Reachable(AnnotateAll(admitted, true, probe)) == [] ==>
        res == Failure(NoneReachable)
    ensures res.Success? <==>
      var admitted := Select(And(conds), all);
      admitted != [] && AllMeasurable(admitted, attributes) && !SomeFails(admitted, ip, pingRequested, probe)
      && (pingRequested ==> Reachable(AnnotateAll(admitted, true, probe)) != [])
    ensures res.Success? ==>
      var rs := AnnotateAll(Select(And(conds), all), pingRequested, probe);
      var v := res.value;
      v.relays == rs && v.reachable == Reachable(rs) && v.unreachable == Unreachable(rs)
      && v.descending == DescendingView(rs)
      && v.pool == RandomPool(rs, pingRequested) && v.pool != []
      && (pingRequested ==> v.lowest == Some(v.reachable[FirstMin(v.reachable)]))
      && (pingRequested ==> v.highest == Some(v.reachable[FirstMax(v.reachable)]))
      && (!pingRequested ==> v.lowest.None? && v.highest.None?)
  {
    var admitted := Select(And(conds), all);
    if admitted == [] {
      return Failure(NoRelays);
    }
    var unmeasurable := MeasureColumns(admitted, attributes);
    if unmeasurable.Some? {
      return Failure(unmeasurable.value);
    }
    var relays := new Relay[|admitted|](i requires 0 <= i < |admitted| => admitted[i]);
    assert relays[..] == admitted;
    var err := AnnotateRtts(relays, ip, pingRequested, probe);
    if err.Some? {
      return Failure(err.value);
    }
    res := FinalOperations(relays[..], pingRequested);
  }
}
