/** Command-line handling that decides which relay attributes are shown
    and whether relays are pinged: `getAttributes`, the consistency rules
    between `-f`, `-v`, `-u`, `-d` and `-np`, and `getSpacingList`. */
module Arguments {
  import opened Wrappers
  import opened Text
  import opened RelayFilter

  /** The reasons `mulping` stops with `failure(...)` while reading its
      arguments. The option is named as the message names it. */
  datatype ArgError =
    | UnknownIdentifier(id: string)     // -f with an identifier not in ITEMS_IDS
    | NeedsLatency(option: string)      // -u or -d with a format lacking latency
    | ExcludedByNoPing(option: string)  // -u or -d together with -np
    | BandwidthNotANumber               // -b that `float()` rejects

  const ITEMS_IDS: map<string, string> := map[
    "h" := HOSTNAME, "4" := IPV4, "6" := IPV6, "c" := COUNTRY_CODE, "C" := CITY_CODE,
    "p" := PROVIDER, "l" := RTT, "O" := OWNED, "b" := BANDWIDTH, "cf" := COUNTRY_NAME,
    "Cf" := CITY_NAME, "s" := STBOOT, "t" := TYPE]

  const ATTRIBUTES_SHORT: seq<string> := [HOSTNAME, RTT]
  const ATTRIBUTES_LONG: seq<string> := [HOSTNAME, RTT, COUNTRY_NAME, CITY_NAME, PROVIDER, OWNED, STBOOT]

  /** `getAttributes(formatList)`: each identifier replaced by its attribute,
      in order; the first unknown identifier stops the program. */
  method GetAttributes(formatList: seq<string>) returns (res: Result<seq<string>, ArgError>)
    ensures res.Success? <==> forall i :: 0 <= i < |formatList| ==> formatList[i] in ITEMS_IDS
    ensures res.Success? ==> |res.value| == |formatList|
    ensures res.Success? ==> forall i :: 0 <= i < |formatList| ==> res.value[i] == ITEMS_IDS[formatList[i]]
    ensures res.Failure? ==>
      (exists k :: 0 <= k < |formatList| && formatList[k] !in ITEMS_IDS
        && res.error == UnknownIdentifier(formatList[k])
        && forall j :: 0 <= j < k ==> formatList[j] in ITEMS_IDS)
  {
    var attributes := [];
    for k := 0 to |formatList|
      invariant |attributes| == k
      invariant forall i :: 0 <= i < k ==> formatList[i] in ITEMS_IDS && attributes[i] == ITEMS_IDS[formatList[i]]
    {
      var id := formatList[k];
      if id !in ITEMS_IDS {
        return Failure(UnknownIdentifier(id));
      }
      attributes := attributes + [ITEMS_IDS[id]];
    }
    return Success(attributes);
  }

  /** Only the identifier "l" asks for the latency. */
  lemma {:induction false} LatencyIdentifier(id: string)
    ensures id in ITEMS_IDS && ITEMS_IDS[id] == RTT <==> id == "l"
  {
    if id in ITEMS_IDS && ITEMS_IDS[id] == RTT {
      assert id in ITEMS_IDS.Keys;
    }
  }

  /** The options that bear on the attributes and on pinging. */
  datatype Options = Options(format: Option<seq<string>>, verbose: bool, use: bool, descending: bool, noPing: bool)

  datatype Resolved = Resolved(attributes: seq<string>, pingRequested: bool)

  /** `if args.format:` is false for a missing and for an empty list. */
  predicate FormatGiven(opts: Options)
  {
    opts.format.Some? && opts.format.value != []
  }

  /** The attributes asked for before `-np` is applied, when every
      identifier is known. */
  function Requested(opts: Options): seq<string>
    requires FormatGiven(opts) ==> forall i :: 0 <= i < |opts.format.value| ==> opts.format.value[i] in ITEMS_IDS
  {
    if FormatGiven(opts) then
      seq(|opts.format.value|, i requires 0 <= i < |opts.format.value| => ITEMS_IDS[opts.format.value[i]])
    else if opts.verbose then ATTRIBUTES_LONG
    else ATTRIBUTES_SHORT
  }

  /** Lines 351-368: choose the attributes, check `-u` and `-d` against the
      latency and against `-np`, and with `-np` drop every latency entry. */
  method ResolveAttributes(opts: Options) returns (res: Result<Resolved, ArgError>)
    ensures FormatGiven(opts) && (exists i :: 0 <= i < |opts.format.value| && opts.format.value[i] !in ITEMS_IDS)
      ==> res.Failure? && res.error.UnknownIdentifier?
    ensures res.Success? ==> (res.value.pingRequested <==> RTT in res.value.attributes)
    ensures res.Success? && (opts.use || opts.descending) ==> res.value.pingRequested
    ensures res.Success? && opts.noPing ==> !res.value.pingRequested
    ensures !FormatGiven(opts) || (forall i :: 0 <= i < |opts.format.value| ==> opts.format.value[i] in ITEMS_IDS) ==>
      var attrs := Requested(opts);
      if RTT !in attrs && opts.use then res == Failure(NeedsLatency("-u"))
      else if RTT !in attrs && opts.descending then res == Failure(NeedsLatency("-d"))
      else if opts.noPing && opts.use then res == Failure(ExcludedByNoPing("-u"))
      else if opts.noPing && opts.descending then res == Failure(ExcludedByNoPing("-d"))
      else res == Success(Resolved(if opts.noPing then Without(attrs, RTT) else attrs, RTT in attrs && !opts.noPing))
  {
    var attributes: seq<string>;
    if FormatGiven(opts) {
      var looked := GetAttributes(opts.format.value);
      if looked.Failure? {
        return Failure(looked.error);
      }
      attributes := looked.value;
      assert attributes == Requested(opts);
    } else if opts.verbose {
      attributes := ATTRIBUTES_LONG;
    } else {
      attributes := ATTRIBUTES_SHORT;
    }
    var pingRequested := RTT in attributes;
    if !pingRequested {
      if opts.use {
        return Failure(NeedsLatency("-u"));
      }
      if opts.descending {
        return Failure(NeedsLatency("-d"));
      }
    }
    if opts.noPing {
      if opts.use {
        return Failure(ExcludedByNoPing("-u"));
      }
      if opts.descending {
        return Failure(ExcludedByNoPing("-d"));
      }
      attributes := RemoveAll(attributes, RTT);
      pingRequested := false;
    }
    return Success(Resolved(attributes, pingRequested));
  }

  /** `getSpacingList(items, spacing)`: each item's width, `None` for an
      item without one. */
  function SpacingList(items: seq<string>, spacing: map<string, int>): (ws: seq<Option<int>>)
    ensures |ws| == |items|
  {
    seq(|items|, i requires 0 <= i < |items| => if items[i] in spacing then Some(spacing[items[i]]) else None)
  }

  /** One width per item, in item order, so the list of a longer row is the
      two lists one after the other. */
  lemma {:induction false} SpacingListConcat(xs: seq<string>, ys: seq<string>, spacing: map<string, int>)
    ensures SpacingList(xs + ys, spacing) == SpacingList(xs, spacing) + SpacingList(ys, spacing)
  {
    var l, a, b := SpacingList(xs + ys, spacing), SpacingList(xs, spacing), SpacingList(ys, spacing);
    assert |l| == |a + b|;
    forall i | 0 <= i < |l| ensures l[i] == (a + b)[i] {
      if i < |xs| {
        assert (xs + ys)[i] == xs[i];
      } else {
        assert (xs + ys)[i] == ys[i - |xs|];
      }
    }
  }

  /** An item has a width exactly when the spacing knows it, and the width
      is the spacing's. */
  lemma {:induction false} SpacingListEntries(items: seq<string>, spacing: map<string, int>, i: nat)
    requires i < |items|
    ensures SpacingList(items, spacing)[i].Some? <==> items[i] in spacing
    ensures items[i] in spacing ==> SpacingList(items, spacing)[i] == Some(spacing[items[i]])
  {
  }
}
