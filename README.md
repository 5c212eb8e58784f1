# mulping, modelled in Dafny

`mulping` is a command-line tool for Mullvad VPN. It filters Mullvad's relay
list by the user's options. It pings every relay that is left and reports
the relays with the lowest and highest latency. It can also list them by
decreasing latency, or switch to the fastest relay or to a random one. This
project models the logic of `mulping.py` and proves what that logic promises:

- `parsePing`, which reads the round-trip times out of `ping` output, UNIX and
  WINDOWS (`ping_parser.dfy`). Python string operations are in `text.dfy`,
  and the decimal subset of `float()` is in `decimal.dfy`. The outputs of
  `tests.py` are proved in `ping_examples.dfy`.
- The relay predicates: `eqAttr`, `neqAttr`, `geqAttr`, the city tests,
  `filterOr`, `filterAnd` and `getFilter`. They are a `Pred` datatype with
  `Eval`, and the condition list that `getFilter` appends to is a class
  (`relay_filter.dfy`).
- The condition list that `__main__` builds from its options. It is specified
  twice: as a list of predicates, and directly on a relay's attributes. It is
  proved equal to both (`conditions.dfy`).
- The argument rules: `getAttributes`, the `-f`/`-v`/`-u`/`-d`/`-np`
  consistency checks, the removal of the latency column, and
  `getSpacingList` (`arguments.dfy`).
- The freshness rule of the relay cache (`relay_cache.dfy`).
- The main loop and its final operations (`ranking.dfy`):
  - the column measurements of `getSpacing`, which can stop the run;
  - each relay is annotated in place with its round-trip time (an array);
  - relays are split into reachable and unreachable;
  - the stable descending listing is built;
  - the first minimum and first maximum are picked;
  - the random pool is chosen.

A relay is a `map<string, Value>`. Numbers are exact `real`s. An error that
stops the program (`failure(...)`, or an exception nobody catches) is a
`Failure`/`Raises` value.

The `except` at `mulping.py:159-160` suggests that malformed `ping` output
should give the `None` triple. The model follows what the code does:

- The UNIX branch of `parsePing` reads the first three numbers outside its
  `try` (`mulping.py:165`). Fewer than three numbers therefore raise instead
  of giving the `None` triple.
- The WINDOWS branch has no `try` at all. Malformed output raises there, and
  it never gives the `None` triple (`WindowsNeverNone`).

The main loop keeps the middle value of the triple (`_, rtt, _` at
`mulping.py:435`), which UNIX `ping` prints as the average. The WINDOWS
triple keeps line order instead: (Minimum, Maximum, Average). So the value
kept on WINDOWS is the Maximum (`WindowsLineOrder`). The loop sends a single
echo request, so the three values coincide.

## Model

| member | source | states |
|---|---|---|
| Text.RemoveAll | mulping.py:152 | the `while "" in lines: lines.remove("")` loop leaves exactly the lines that are not `""`, in order |
| Text.Without | mulping.py:152 | the removed value is absent afterwards; every other element is kept and nothing new appears |
| Text.WithoutAppend | mulping.py:152 | removal distributes over concatenation |
| Text.SplitLinesUnlines | mulping.py:151 | `splitlines` gives back the lines of text printed line by line |
| Text.SplitJoin | mulping.py:158 | `split` on a separator undoes joining pieces that do not contain it |
| Text.JoinSplit | mulping.py:158 | joining the pieces of `split` gives the string back |
| Text.Split | mulping.py:158 | `split` gives at least one piece, and no piece holds the separator |
| Text.RFind | mulping.py:157 | `rfind` gives the last position of the character, and -1 exactly when it is absent |
| Text.Find | mulping.py:162 | `index` gives the first occurrence; `None` (the `ValueError`) when there is none |
| Text.Slice | mulping.py:157 | a slice within bounds is the subsequence; a negative start counts from the end (`s[-1:]` is the last character, as when `rfind` gives -1); bounds beyond either end are clamped, never an error |
| Decimal.ParseDecimal | mulping.py:158 | an accepted number consists only of digits, a point and a sign |
| Decimal.ParseShowNat | mulping.py:163 | reading back a printed whole number gives the number |
| Decimal.ParsePointed | mulping.py:158 | `whole.fraction` reads as whole plus fraction over the power of ten of its length |
| Decimal.ParseMillis | mulping.py:158 | any reading with three decimals, as UNIX `ping` prints it ("0.000", "20.045"), reads as its whole part plus its fractional digits in thousandths |
| PingParser.ParsePing | mulping.py:150-165 | `parsePing`: empty lines dropped, the last remaining line read for the platform; on WINDOWS never the `None` triple; on UNIX the only errors are no line at all and fewer than three numbers |
| PingParser.UnixStatistics | mulping.py:155-165 | the UNIX branch: whatever fails inside the `try` gives the `None` triple, so the only error it raises is fewer than three numbers (line 165) |
| PingParser.SegmentValue | mulping.py:162 | the text of one WINDOWS segment from two characters after its first "=" to its first "ms", present exactly when the segment has both markers |
| PingParser.WindowsStatistics | mulping.py:161-165 | the WINDOWS branch: a missing marker, a non-number or fewer than three values raise; it never gives the `None` triple |
| PingParser.ParseAll | mulping.py:158 | `[float(v) for v in vals]` succeeds exactly when every value is a number, and gives them in order |
| PingParser.SegmentValues | mulping.py:162 | one value per segment, in order, exactly when every segment has both markers |
| PingParser.NoLinesExactly | mulping.py:150-154 | the lookup of the last line raises exactly when every line of the output is empty |
| PingParser.ParsePrinted | mulping.py:150-154 | output printed line by line is read from its last non-empty line, whatever precedes it and with any empty lines after it |
| PingParser.UnixWithoutEquals | mulping.py:155-160 | a UNIX last line without `=` gives the `None` triple |
| PingParser.UnixField | mulping.py:157-158 | the field read is the text between the last "= " and the next space |
| PingParser.UnixSummary | mulping.py:155-165 | the UNIX summary line gives its first three numbers and ignores extra ones such as mdev; fewer than three raise; a non-number gives the `None` triple |
| PingParser.SegmentValueOf | mulping.py:162 | the text between "= " and the first "ms" of a well-formed WINDOWS segment is its number |
| PingParser.WindowsSummary | mulping.py:161-165 | each WINDOWS segment gives its number in line order; three or more give the first three, fewer raise |
| PingParser.WindowsLineOrder | mulping.py:161-165 | the line WINDOWS `ping` prints gives (Minimum, Maximum, Average) in that order |
| PingParser.WindowsMissingEquals | mulping.py:162 | a WINDOWS segment without `=` raises |
| PingParser.WindowsMissingMs | mulping.py:162 | a WINDOWS segment without "ms" raises |
| PingParser.WindowsNotANumber | mulping.py:162-163 | a WINDOWS segment whose text is not a number raises |
| PingParser.WindowsNeverNone | mulping.py:161-165 | the WINDOWS branch never gives the `None` triple |
| PingExamples.UnixOutput | tests.py:20-26 | the third UNIX output of the tests gives (100.131, 111.721, 163.633), whatever lines precede its summary line |
| PingExamples.UnixSummaryLine | tests.py:24-26 | its summary line gives min, avg and max and drops mdev |
| PingExamples.WindowsOutput | tests.py:28-39 | the WINDOWS output of the tests gives (98, 98, 98), with the empty lines around it |
| RelayFilter.Eval | mulping.py:69-79 | the closures `eqAttr`, `neqAttr`, `geqAttr`, `inCity` (377), `notInCity` (385), `IPV6 in r` (405), `filterOr`, `filterAnd` applied to a relay; a primitive test holds only when its attribute is present, and the city test only when both codes are |
| RelayFilter.AbsentKey | mulping.py:69-73 | `eqAttr`, `neqAttr`, `geqAttr` and the presence test are all false on a relay without the attribute |
| RelayFilter.NeqMeaning | mulping.py:69-72 | `neqAttr` holds exactly when the attribute is present and `eqAttr` fails, so it is not the negation of `eqAttr` |
| RelayFilter.GeqMeaning | mulping.py:73 | `geqAttr` holds exactly when the attribute is present and, as a number or as a `bool` read as 0 or 1, at least the bound; a string or `None` never passes |
| RelayFilter.InCityMeaning | mulping.py:377 | `inCity` holds exactly when both the country code and the city code are present and equal |
| RelayFilter.NotInCityMeaning | mulping.py:385 | `notInCity` is the exact negation of `inCity`, so it holds when either code is missing |
| RelayFilter.Count | mulping.py:76-79 | `count` is zero exactly when the value does not occur |
| RelayFilter.OrMeaning | mulping.py:76 | `filterOr` holds exactly when one of its predicates holds |
| RelayFilter.AndMeaning | mulping.py:79 | `filterAnd` holds exactly when every one of its predicates holds |
| RelayFilter.EmptyCombinators | mulping.py:76-79 | `filterOr([])` is false and `filterAnd([])` is true |
| RelayFilter.AndSingle | mulping.py:79 | `filterAnd` of one predicate is that predicate |
| RelayFilter.AndConcat | mulping.py:79 | `filterAnd` of two lists one after the other is the conjunction of the two |
| RelayFilter.Select | mulping.py:422 | `list(filter(p, rs))` keeps relays that satisfy `p` and come from `rs` |
| RelayFilter.SelectMembership | mulping.py:422 | a relay is kept exactly when it is in the list and satisfies the predicate |
| RelayFilter.SelectConcat | mulping.py:422 | filtering keeps order: filtering a concatenation concatenates the filtered parts |
| RelayFilter.SelectAll | mulping.py:422 | a list whose every relay passes is kept whole |
| RelayFilter.SelectNone | mulping.py:422 | a list whose every relay fails gives the empty list |
| RelayFilter.Strided | mulping.py:374 | `xs[start::2]`: element `i` is `xs[start + 2i]`, with the slice's length |
| RelayFilter.Zip | mulping.py:374 | `zip` pairs elements index by index, as long as the shorter list |
| RelayFilter.CityPairsShape | mulping.py:374 | the city codes are paired as (`codes[2i]`, `codes[2i+1]`); a trailing odd code is dropped |
| RelayFilter.MapPreds | mulping.py:85 | `map(getSubFilter, source)` gives one predicate per value, in order |
| RelayFilter.ConditionList.constructor | mulping.py:309-312 | the list starts with "not a bridge" and "active" |
| RelayFilter.ConditionList.Append | mulping.py:88 | one predicate is appended at the end, and the earlier ones are unchanged |
| RelayFilter.ConditionList.GetFilter | mulping.py:84-88 | `getFilter` appends exactly one aggregate of one sub-predicate per source value, in source order |
| RelayFilter.AppendNarrows | mulping.py:88 | appending a condition admits a relay exactly when the old list admits it and the new condition holds |
| Arguments.GetAttributes | mulping.py:251-259 | the attributes of the identifiers, in order, exactly when all are known; otherwise the first unknown one is reported |
| Arguments.LatencyIdentifier | mulping.py:232-246 | only the identifier "l" stands for the latency |
| Arguments.ResolveAttributes | mulping.py:351-368 | pinging happens exactly when the latency is shown; `-u` and `-d` need it and exclude `-np`; `-np` removes every latency entry; the errors come in the program's order |
| Arguments.SpacingList | mulping.py:272 | `getSpacingList`: one entry per item, the item's width or `None` |
| Arguments.SpacingListConcat | mulping.py:272 | one width per item, in item order |
| Arguments.SpacingListEntries | mulping.py:272 | an item has a width exactly when the spacing knows it, and the width is the spacing's |
| Conditions.Conditions | mulping.py:309-405 | the condition list `__main__` builds from its options, in its order: the two base conditions first; it fails exactly when a non-empty `-b` is not a number |
| Conditions.Admits | mulping.py:309-405 | the options read directly on a relay's attributes, independently of the predicate list; an admitted relay is active and not a bridge, and `-w` with `-o` admits none |
| Conditions.BuildConditions | mulping.py:309-405 | the list built is `Conditions(args)`; it fails exactly when a non-empty bandwidth is not a number |
| Conditions.AddOptions | mulping.py:370-393 | the options with value lists each append their aggregate, in the program's order |
| Conditions.AddFlags | mulping.py:401-405 | each flag set appends its test, in the program's order |
| Conditions.AddAnyOf | mulping.py:370 | a given list of values appends "any of them" |
| Conditions.AddNoneOf | mulping.py:371 | a given list of values appends "none of them" |
| Conditions.AddInCities | mulping.py:373-379 | a given city list appends "in one of the paired cities" |
| Conditions.AddNotInCities | mulping.py:381-387 | a given city list appends "in none of the paired cities" |
| Conditions.AddFlag | mulping.py:401-405 | a set flag appends its test, an unset one nothing |
| Conditions.BaseMeaning | mulping.py:309-312 | the base conditions admit exactly the active relays that are not bridges |
| Conditions.AnyOfMeaning | mulping.py:370 | the attribute is present and equals one of the values |
| Conditions.NoneOfMeaning | mulping.py:371 | the attribute is present and equals none of the values |
| Conditions.CityTestAt | mulping.py:374-377 | the `i`-th city test is on the codes at `2i` and `2i+1` |
| Conditions.SomeCityTest | mulping.py:373-379 | some city test holds exactly when the relay is in one of the named cities |
| Conditions.EveryNotCityTest | mulping.py:381-387 | every negated city test holds exactly when the relay is in none of the named cities |
| Conditions.InCitiesMeaning | mulping.py:373-379 | `-C` admits exactly the relays in one of the paired cities |
| Conditions.NotInCitiesMeaning | mulping.py:381-387 | `-Cn` admits exactly the relays in none of the paired cities |
| Conditions.FlagMeaning | mulping.py:401-405 | a set flag admits the relays that pass its test; an unset flag admits all |
| Conditions.BandwidthMeaning | mulping.py:395-399 | `-b` admits the relays whose speed, a number or a `bool` read as 0 or 1, is at least the bound; an empty `-b` admits all |
| Conditions.ConditionsMeaning | mulping.py:309-405 | the condition list admits a relay exactly when the relay meets every option given |
| Conditions.BaseExcludes | mulping.py:309-312 | bridges, inactive relays and relays without `type` or `active` are never admitted |
| Conditions.WireguardAndOpenvpn | mulping.py:401-402 | `-w` with `-o` leaves no relay |
| RelayCache.LoadRelays | mulping.py:119-131 | an empty list, a first element that is not a number and a timestamp twelve hours old or more are rejected; otherwise the list without its first element |
| RelayCache.StoreRelays | mulping.py:109-112 | the time of the fetch is put in front of the relays, which follow unchanged |
| RelayCache.StoreThenLoad | mulping.py:109-129 | a stored list is accepted back exactly while less than twelve hours old, and gives the stored relays |
| RelayCache.CacheReuse | mulping.py:133-142 | within twelve hours the next run reuses the stored relays, afterwards it fetches |
| RelayCache.GetRelays | mulping.py:133-142 | `getRelays`: the cached relays when the file holds a list whose timestamp is a number less than twelve hours old, the fetched relays otherwise |
| Ranking.Updated | mulping.py:434-436 | with pinging, a relay gains the round-trip time and no other attribute, and keeps every other attribute; without, it is unchanged |
| Ranking.AnnotateAll | mulping.py:430-436 | every relay is annotated with the result of its own `ping` |
| Ranking.AnnotateRtts | mulping.py:430-436 | the loop annotates every relay in place, or stops at the first one lacking its host name or address (or whose `ping` raises), the ones before it annotated and the rest untouched |
| Ranking.EveryRelayHasRtt | mulping.py:430-436 | with pinging, every relay has a round-trip time: the middle number of its `ping`, or `None` when there is none |
| Ranking.Reachable | mulping.py:449 | the relays, in order, whose round-trip time is present and not `None` |
| Ranking.Unreachable | mulping.py:448 | the relays, in order, whose round-trip time is `None` |
| Ranking.Partition | mulping.py:448-449 | the reachable and the unreachable relays together are all the relays |
| Ranking.NoPingNoPartition | mulping.py:448-449 | without pinging, both lists are empty |
| Ranking.ReachableMeasured | mulping.py:449 | every reachable relay carries a number |
| Ranking.Insert | mulping.py:455 | insertion adds exactly the one relay |
| Ranking.SortDescending | mulping.py:455 | the sort is a permutation of its input |
| Ranking.SortIsDescending | mulping.py:455 | the sorted list runs from the highest latency to the lowest |
| Ranking.SortStable | mulping.py:455 | relays with equal latency keep their original order |
| Ranking.DescendingView | mulping.py:455 | the `-d` listing: every relay with a round-trip time, the unreachable ones exactly at the front |
| Ranking.DescendingViewShape | mulping.py:455 | the `-d` listing holds every relay once: the unreachable ones first in their order, then the reachable ones by decreasing latency |
| Ranking.FirstMin | mulping.py:468 | `min` gives the first relay of lowest latency |
| Ranking.FirstMax | mulping.py:469 | `max` gives the first relay of highest latency |
| Ranking.LowestAndHighest | mulping.py:468-469 | the lowest latency is at most the highest, and they are the two ends of the descending order |
| Ranking.RandomPool | mulping.py:486 | the pool of the random choice: all relays without pinging; with pinging only relays with a round-trip time that is not `None` |
| Ranking.RandomChoice | mulping.py:487 | an index `randint` can give picks a relay of the pool |
| Ranking.RandomChoiceReachable | mulping.py:486-487 | with pinging, the random choice never falls on an unreachable relay |
| Ranking.MeasureColumns | mulping.py:261-270 | `getSpacing` raises exactly when some displayed attribute other than the latency is missing from a relay, or is not a string where it is shown as it is; the error names the first such column and, in it, the first such relay |
| Ranking.FinalOperations | mulping.py:448-487 | with pinging and no reachable relay, "No relay could be reached"; otherwise the two partitions, the descending listing, the first lowest and highest latency relays (with pinging) and the random pool |
| Ranking.RankRelays | mulping.py:422-487 | every outcome, in the order the program meets them: no admitted relay gives "no relays"; then the first column `getSpacing` cannot measure (line 427); then the first relay lacking its host name or address or whose `ping` raises; then "No relay could be reached" with pinging; otherwise success with the annotated relays, the partitions, the listing, the extremes and a non-empty random pool |

## Left out

- Fetching the relay list over HTTP, the JSON cache file and `time()` (`fetchRelays`, lines 96-117). The cache is the decoded list, and the current time is a parameter of `LoadRelays` and `GetRelays`. A file that cannot be read or decoded is `None` in `GetRelays`. JSON values other than a list are not modelled.
- Running `ping` and `mullvad` as processes (lines 167-199). The result of each `ping` call is the parameter `probe(i)`, a `PingResult`. A non-zero exit code corresponds to the `None` triple (lines 181-182). Building the command line and converting the timeout (line 407) are not modelled.
- All printing: the boxes and lines of the live and final listings, the width values computed by `getSpacing`, float formatting, and the messages of `failure`. The listings themselves (`Ranking.DescendingView`) are modelled; printing them is not. The ways `getSpacing` can raise are modelled (`Ranking.MeasureColumns`). Once it has measured every column, the live `printLine` (lines 285-296) cannot raise, so it adds no error.
- The full grammar of Python's `float()`. `Decimal.ParseDecimal` accepts an optional sign, digits and at most one point. Exponents, `inf`, `nan`, underscores, surrounding white space and non-ASCII Unicode decimal digits are rejected, although `float()` accepts them.
- Detecting the operating system (lines 18-24). The platform is a parameter.
- `argparse` and `sys.exit`. The parsed options are the datatypes `Options` and `FilterArgs`, and every `failure(...)` is a `Failure` value.
- `randint` (line 487). The index it gives is a parameter of `RandomChoice` within the bounds `randint` guarantees.
- The `-d` listing is built on every successful run, and the lowest and highest relays are picked whenever pinging was requested. Only the printing is conditional in the source; `-u` and `-r` only act on these values.
- RelayFilter.Eval: Python's `True == 1` makes `eqAttr(OWNED)(True)` also accept an attribute equal to the number 1. Here values are compared by datatype equality, so `VBool(true) != VNum(1.0)`.
- RelayFilter.Eval: `geqAttr` on a string or `None` attribute makes Python compare it with a float and raise `TypeError`. Here `Geq` is simply false on it. A `bool` attribute is compared as 0 or 1, as in Python (`RelayFilter.GeqMeaning`).
- RelayCache.Timestamp: a JSON `true`/`false` in front of the cache is a Python `bool`, which `isinstance(x, (float, int))` accepts as 1 or 0. The model keeps this behaviour rather than rejecting booleans.
- PingParser.UnixSummary: the lemma covers summary lines of the form prefix, "= ", the numbers and an optional suffix starting with a space. Other shapes are covered only by the function `UnixStatistics` itself and by `UnixWithoutEquals`.
- PingExamples.UnixOutput and PingExamples.WindowsOutput: the lines printed before the summary line are a parameter, required only to hold no line break. The first two UNIX outputs of `tests.py` are not proved separately.
