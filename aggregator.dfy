/**
 * `main`: the listing built from the market-data aggregator's feed. Entries that
 * are delisted or deprecated are dropped; the rest are sorted by symbol, grouped
 * by symbol, sorted by id inside each group and named `CMC:<symbol>` (first of a
 * group) or `CMC:<symbol><id>`; decimals come from the chain, or are null.
 */
module Aggregator {
  import opened Wrappers
  import opened Strings
  import opened Sorting
  import opened Listing
  import Splice

  /** One record of the feed. */
  datatype FeedEntry = FeedEntry(id: int, symbol: string, name: string, address: string, status: string)

  predicate Listed(e: FeedEntry) {
    e.status != "delisted" && e.status != "deprecated"
  }

  /** The list comprehension that drops delisted and deprecated entries. */
  function Active(feed: seq<FeedEntry>): (r: seq<FeedEntry>)
    ensures forall e :: multiset(r)[e] == if Listed(e) then multiset(feed)[e] else 0
  {
    if feed == [] then []
    else
      assert feed == [feed[0]] + feed[1..];
      (if Listed(feed[0]) then [feed[0]] else []) + Active(feed[1..])
  }

  // ----------------------------------------------------- decimals oracle

  /** What one read-only contract call does: returns a value, fails to decode, or raises otherwise. */
  datatype Call = Value(n: int) | BadOutput | Failure

  /** The chain as seen through the provider: the `decimals()` and `DECIMALS()` calls per address. */
  datatype Chain = Chain(decimalsCall: string -> Call, upperCall: string -> Call)

  datatype CallError = BadFunctionCallOutput | OtherError

  /** `get_decimals`: `decimals()`, and only when its output is unusable, `DECIMALS()`. */
  function GetDecimals(chain: Chain, address: string): (r: Result<int, CallError>)
    ensures r.Ok? <==> chain.decimalsCall(address).Value? ||
                       (chain.decimalsCall(address).BadOutput? && chain.upperCall(address).Value?)
    ensures chain.decimalsCall(address).Value? ==> r == Ok(chain.decimalsCall(address).n)
    ensures chain.decimalsCall(address).BadOutput? && chain.upperCall(address).Value? ==>
            r == Ok(chain.upperCall(address).n)
    ensures r == Err(BadFunctionCallOutput) <==>
            chain.decimalsCall(address).BadOutput? && chain.upperCall(address).BadOutput?
  {
    match chain.decimalsCall(address)
    case Value(n) => Ok(n)
    case Failure => Err(OtherError)
    case BadOutput =>
      match chain.upperCall(address)
      case Value(n) => Ok(n)
      case BadOutput => Err(BadFunctionCallOutput)
      case Failure => Err(OtherError)
  }

  /** The `try: ... except: decimals = None` around it. */
  function ResolveDecimals(chain: Chain, address: string): (d: Option<int>)
    ensures d.Some? <==> GetDecimals(chain, address).Ok?
    ensures d.Some? ==> d.value == GetDecimals(chain, address).value
  {
    var got := GetDecimals(chain, address);
    if got.Ok? then Some(got.value) else None
  }

  /** `DECIMALS()` is consulted only when `decimals()` gave unusable output. */
  lemma FallbackOnlyOnBadOutput(address: string, decimalsCall: string -> Call, upper1: string -> Call, upper2: string -> Call)
    requires !decimalsCall(address).BadOutput?
    ensures ResolveDecimals(Chain(decimalsCall, upper1), address) == ResolveDecimals(Chain(decimalsCall, upper2), address)
  {
  }

  // ------------------------------------------------------------- ordering

  function BySymbol(a: FeedEntry, b: FeedEntry): bool {
    StrLe(a.symbol, b.symbol)
  }

  function ById(a: FeedEntry, b: FeedEntry): bool {
    a.id <= b.id
  }

  lemma BySymbolPreorder()
    ensures TotalPreorder(BySymbol)
  {
    forall a: FeedEntry, b: FeedEntry ensures BySymbol(a, b) || BySymbol(b, a) {
      StrLeTotal(a.symbol, b.symbol);
    }
    forall a: FeedEntry, b: FeedEntry, c: FeedEntry | BySymbol(a, b) && BySymbol(b, c)
      ensures BySymbol(a, c)
    {
      StrLeTransitive(a.symbol, b.symbol, c.symbol);
    }
  }

  lemma ByIdPreorder()
    ensures TotalPreorder(ById)
  {
  }

  /** The end of the run of `s[0].symbol` that is known to reach at least `j`. */
  function RunEnd(s: seq<FeedEntry>, j: nat): (n: nat)
    requires 0 < j <= |s|
    requires forall k :: 0 <= k < j ==> s[k].symbol == s[0].symbol
    ensures j <= n <= |s|
    ensures forall k :: 0 <= k < n ==> s[k].symbol == s[0].symbol
    ensures n < |s| ==> s[n].symbol != s[0].symbol
    decreases |s| - j
  {
    if j == |s| || s[j].symbol != s[0].symbol then j else RunEnd(s, j + 1)
  }

  /** `itertools.groupby(s, key=symbol)`: maximal runs of equal symbol, in order. */
  function GroupBySymbol(s: seq<FeedEntry>): (gs: seq<seq<FeedEntry>>)
    ensures Flatten(gs) == s
    ensures forall i :: 0 <= i < |gs| ==> gs[i] != []
    ensures forall i, j :: 0 <= i < |gs| && 0 <= j < |gs[i]| ==> gs[i][j].symbol == gs[i][0].symbol
    ensures forall i :: 0 <= i < |gs| - 1 ==> gs[i][0].symbol != gs[i + 1][0].symbol
    decreases |s|
  {
    if s == [] then []
    else
      var n := RunEnd(s, 1);
      var rest := GroupBySymbol(s[n..]);
      GroupCons(s, n, rest);
      [s[..n]] + rest
  }

  /** A maximal first run put in front of the groups of the rest gives the groups of the whole. */
  lemma GroupCons(s: seq<FeedEntry>, n: nat, rest: seq<seq<FeedEntry>>)
    requires 0 < n <= |s|
    requires forall k :: 0 <= k < n ==> s[k].symbol == s[0].symbol
    requires n < |s| ==> s[n].symbol != s[0].symbol
    requires Flatten(rest) == s[n..]
    requires forall i :: 0 <= i < |rest| ==> rest[i] != []
    requires forall i, j :: 0 <= i < |rest| && 0 <= j < |rest[i]| ==> rest[i][j].symbol == rest[i][0].symbol
    requires forall i :: 0 <= i < |rest| - 1 ==> rest[i][0].symbol != rest[i + 1][0].symbol
    ensures var gs := [s[..n]] + rest;
      Flatten(gs) == s &&
      (forall i :: 0 <= i < |gs| ==> gs[i] != []) &&
      (forall i, j :: 0 <= i < |gs| && 0 <= j < |gs[i]| ==> gs[i][j].symbol == gs[i][0].symbol) &&
      (forall i :: 0 <= i < |gs| - 1 ==> gs[i][0].symbol != gs[i + 1][0].symbol)
  {
    var gs := [s[..n]] + rest;
    assert s[..n] + s[n..] == s;
    assert gs[1..] == rest;
    assert forall i :: 0 < i < |gs| ==> gs[i] == rest[i - 1];
    assert rest != [] ==> rest[0][0] == Flatten(rest)[0] == s[n];
  }

  /** The groups of a sequence sorted by symbol come in strictly increasing symbol order. */
  lemma GroupsOfSorted(s: seq<FeedEntry>)
    requires SortedBy(s, BySymbol)
    ensures var gs := GroupBySymbol(s);
      forall i, j :: 0 <= i < j < |gs| ==>
        StrLe(gs[i][0].symbol, gs[j][0].symbol) && gs[i][0].symbol != gs[j][0].symbol
  {
    var gs: seq<seq<FeedEntry>> := GroupBySymbol(s);
    forall i: int, j: int | 0 <= i < j < |gs| ensures StrLe(gs[i][0].symbol, gs[j][0].symbol)
    {
      FlattenIndex(gs, i, 0);
      FlattenIndex(gs, j, 0);
      OffsetMonotone(gs, i, j);
    }
    forall i: int, j: int | 0 <= i < j < |gs| ensures gs[i][0].symbol != gs[j][0].symbol
    {
      if gs[i][0].symbol == gs[j][0].symbol && j > i + 1 {
        assert StrLe(gs[i][0].symbol, gs[i + 1][0].symbol);
        assert StrLe(gs[i + 1][0].symbol, gs[j][0].symbol);
        StrLeAntisymmetric(gs[i][0].symbol, gs[i + 1][0].symbol);
      }
    }
  }

  lemma OffsetMonotone<T>(ss: seq<seq<T>>, i: nat, j: nat)
    requires i < j <= |ss|
    ensures |Flatten(ss[..i])| + |ss[i]| <= |Flatten(ss[..j])|
  {
    assert ss[..j] == ss[..i] + ss[i..j];
    FlattenConcat(ss[..i], ss[i..j]);
    assert Flatten(ss[i..j]) == ss[i] + Flatten(ss[i..j][1..]);
  }

  /** The groups the two nested loops visit: by symbol, each one sorted by id. */
  function SortedGroups(feed: seq<FeedEntry>): (sg: seq<seq<FeedEntry>>)
    ensures |sg| == |GroupBySymbol(SortBySymbol(feed))|
  {
    var gs: seq<seq<FeedEntry>> := GroupBySymbol(SortBySymbol(feed));
    seq(|gs|, i requires 0 <= i < |gs| => SortById(gs[i]))
  }

  /** `sorted(tokens, key=symbol)`. */
  function SortTokens(tokens: seq<FeedEntry>): seq<FeedEntry> {
    BySymbolPreorder();
    Sort(tokens, BySymbol)
  }

  /** `sorted(group, key=id)`. */
  function SortById(g: seq<FeedEntry>): seq<FeedEntry> {
    ByIdPreorder();
    Sort(g, ById)
  }

  function SortBySymbol(feed: seq<FeedEntry>): seq<FeedEntry> {
    SortTokens(Active(feed))
  }

  /** The feed entries in the order the loops build records. */
  function Ordered(feed: seq<FeedEntry>): seq<FeedEntry> {
    Flatten(SortedGroups(feed))
  }

  /** Position `k` starts a run of its symbol. */
  predicate IsFirst(s: seq<FeedEntry>, k: nat)
    requires k < |s|
  {
    k == 0 || s[k - 1].symbol != s[k].symbol
  }

  // ------------------------------------------------------------- records

  /** `fmt_symbol`. */
  function FmtSymbol(e: FeedEntry): string {
    "CMC:" + e.symbol
  }

  /** `fmt_symbol_with_id`. */
  function FmtSymbolWithId(e: FeedEntry): string {
    "CMC:" + e.symbol + IntToString(e.id)
  }

  function MakeRecord(e: FeedEntry, first: bool, chain: Chain): ListingEntry {
    ListingEntry(Lower(e.address), if first then FmtSymbol(e) else FmtSymbolWithId(e), e.name,
                 ResolveDecimals(chain, e.address))
  }

  /** `MakeRecord` for a chain, as a function value. */
  function Record(chain: Chain): (FeedEntry, bool) -> ListingEntry {
    (e, first) => MakeRecord(e, first, chain)
  }

  /** The value of `outs` after the loops. */
  function CmcListing(feed: seq<FeedEntry>, chain: Chain): (outs: seq<ListingEntry>)
    ensures |outs| == |Ordered(feed)|
  {
    var sg := SortedGroups(feed);
    FlattenMapLength(sg, Record(chain));
    Flatten(MapGroups(sg, Record(chain)))
  }

  /** The inner loop of `main`: one record per entry of a group sorted by id. */
  method EmitGroup(grouper: seq<FeedEntry>, chain: Chain) returns (outs: seq<ListingEntry>)
    ensures outs == MapFirst(grouper, Record(chain))
  {
    ghost var recs := MapFirst(grouper, Record(chain));
    outs := [];
    var idx := 0;
    while idx < |grouper|
      invariant 0 <= idx <= |grouper|
      invariant outs == recs[..idx]
    {
      var entry := grouper[idx];
      var got := GetDecimals(chain, entry.address);
      var decimals := if got.Ok? then Some(got.value) else None;
      var name := if idx == 0 then FmtSymbol(entry) else FmtSymbolWithId(entry);
      var record := ListingEntry(Lower(entry.address), name, entry.name, decimals);
      assert record == recs[idx];
      ExtendTaken(recs, idx, record);
      outs := outs + [record];
      idx := idx + 1;
    }
    TakeAll(recs, idx);
  }

  /**
   * `main` without its I/O: the feed and the chain are inputs, `json.dumps` is
   * `dumps`, and the result is the new configuration text (or the splice's error).
   */
  method RunAggregator(feed: seq<FeedEntry>, chain: Chain, dumps: ListingEntry -> string, config: seq<string>)
    returns (r: Result<seq<string>, Splice.SpliceError>)
    ensures r == Splice.Spliced(config, Render(CmcListing(feed, chain), dumps))
  {
    var tokens := Active(feed);
    var groups := GroupBySymbol(SortTokens(tokens));
    ghost var sorted := SortedGroups(feed);
    ghost var recs := MapGroups(sorted, Record(chain));
    var outs: seq<ListingEntry> := [];
    var gi := 0;
    while gi < |groups|
      invariant 0 <= gi <= |groups| && |recs| == |groups| && |sorted| == |groups|
      invariant outs == Flatten(recs[..gi])
    {
      var grouper := SortById(groups[gi]);
      assert grouper == sorted[gi];
      var records := EmitGroup(grouper, chain);
      outs := outs + records;
      FlattenTakeStep(recs, gi);
      gi := gi + 1;
    }
    TakeAll(recs, gi);
    r := Splice.InjectTokens(config, Render(outs, dumps));
  }

  // ------------------------------------------------------------- properties

  lemma SortBySymbolSorted(feed: seq<FeedEntry>)
    ensures SortedBy(SortBySymbol(feed), BySymbol)
  {
    BySymbolPreorder();
  }

  lemma SortBySymbolPermutes(feed: seq<FeedEntry>)
    ensures multiset(SortBySymbol(feed)) == multiset(Active(feed))
  {
    BySymbolPreorder();
  }

  lemma GroupsOfFeed(feed: seq<FeedEntry>)
    ensures var gs := GroupBySymbol(SortBySymbol(feed));
      forall i, j :: 0 <= i < j < |gs| ==>
        StrLe(gs[i][0].symbol, gs[j][0].symbol) && gs[i][0].symbol != gs[j][0].symbol
  {
    SortBySymbolSorted(feed);
    GroupsOfSorted(SortBySymbol(feed));
  }

  /** Sorting one group by id keeps it non-empty, of one symbol, and makes it id-ordered. */
  lemma SortByIdFacts(g: seq<FeedEntry>)
    requires g != [] && forall j :: 0 <= j < |g| ==> g[j].symbol == g[0].symbol
    ensures var t := Sort(g, ById);
      t != [] && SortedBy(t, ById) && multiset(t) == multiset(g) &&
      forall j :: 0 <= j < |t| ==> t[j].symbol == g[0].symbol
  {
    ByIdPreorder();
    var t := Sort(g, ById);
    forall j | 0 <= j < |t| ensures t[j].symbol == g[0].symbol {
      assert t[j] in multiset(g);
    }
  }

  /** What holds of the groups the loops visit, for any sequence of groups. */
  predicate WellGrouped(sg: seq<seq<FeedEntry>>) {
    (forall i :: 0 <= i < |sg| ==> sg[i] != []) &&
    (forall i, j :: 0 <= i < |sg| && 0 <= j < |sg[i]| ==> sg[i][j].symbol == sg[i][0].symbol) &&
    (forall i :: 0 <= i < |sg| ==> SortedBy(sg[i], ById)) &&
    (forall i, j :: 0 <= i < j < |sg| ==>
       StrLe(sg[i][0].symbol, sg[j][0].symbol) && sg[i][0].symbol != sg[j][0].symbol)
  }

  /** Records ordered by symbol, then by id. */
  predicate RecordOrder(s: seq<FeedEntry>) {
    forall k, l :: 0 <= k < l < |s| ==>
      StrLe(s[k].symbol, s[l].symbol) && (s[k].symbol == s[l].symbol ==> s[k].id <= s[l].id)
  }

  /**
   * The groups the loops visit are non-empty runs of one symbol, each sorted by
   * id, in strictly increasing symbol order, and together they hold exactly the
   * listed entries.
   */
  lemma SortedGroupsShape(feed: seq<FeedEntry>)
    ensures WellGrouped(SortedGroups(feed))
    ensures multiset(Flatten(SortedGroups(feed))) == multiset(Active(feed))
  {
    SortedGroupsEach(feed);
    SortedGroupsOrdered(feed);
    WellGroupedOf(SortedGroups(feed), GroupBySymbol(SortBySymbol(feed)));
    SortedGroupsPermute(feed);
  }

  /** Groups sorted one by one from runs of one symbol, in increasing symbol order, are well grouped. */
  lemma WellGroupedOf(sg: seq<seq<FeedEntry>>, gs: seq<seq<FeedEntry>>)
    requires |sg| <= |gs| && forall i :: 0 <= i < |gs| ==> gs[i] != []
    requires forall i :: 0 <= i < |sg| ==>
      sg[i] != [] && SortedBy(sg[i], ById) &&
      forall j :: 0 <= j < |sg[i]| ==> sg[i][j].symbol == gs[i][0].symbol
    requires forall i, j :: 0 <= i < j < |sg| ==>
      sg[i] != [] && sg[j] != [] &&
      StrLe(sg[i][0].symbol, sg[j][0].symbol) && sg[i][0].symbol != sg[j][0].symbol
    ensures WellGrouped(sg)
  {
    forall i, j | 0 <= i < |sg| && 0 <= j < |sg[i]|
      ensures sg[i][j].symbol == sg[i][0].symbol
    {
      assert sg[i][j].symbol == gs[i][0].symbol && sg[i][0].symbol == gs[i][0].symbol;
    }
  }

  lemma SortedGroupsEach(feed: seq<FeedEntry>)
    ensures var sg, gs := SortedGroups(feed), GroupBySymbol(SortBySymbol(feed));
      forall i :: 0 <= i < |sg| ==>
        sg[i] != [] && SortedBy(sg[i], ById) && multiset(sg[i]) == multiset(gs[i]) &&
        forall j :: 0 <= j < |sg[i]| ==> sg[i][j].symbol == gs[i][0].symbol
  {
    var sg: seq<seq<FeedEntry>> := SortedGroups(feed);
    var gs: seq<seq<FeedEntry>> := GroupBySymbol(SortBySymbol(feed));
    forall i: int | 0 <= i < |sg|
      ensures sg[i] != [] && SortedBy(sg[i], ById) && multiset(sg[i]) == multiset(gs[i])
      ensures forall j :: 0 <= j < |sg[i]| ==> sg[i][j].symbol == gs[i][0].symbol
    {
      assert sg[i] == Sort(gs[i], ById);
      SortByIdFacts(gs[i]);
    }
  }

  lemma SortedGroupsOrdered(feed: seq<FeedEntry>)
    ensures var sg := SortedGroups(feed);
      forall i, j :: 0 <= i < j < |sg| ==>
        sg[i] != [] && sg[j] != [] &&
        StrLe(sg[i][0].symbol, sg[j][0].symbol) && sg[i][0].symbol != sg[j][0].symbol
  {
    var sg: seq<seq<FeedEntry>> := SortedGroups(feed);
    var gs: seq<seq<FeedEntry>> := GroupBySymbol(SortBySymbol(feed));
    SortedGroupsHeads(feed);
    GroupsOfFeed(feed);
    forall i: int, j: int | 0 <= i < j < |sg|
      ensures sg[i] != [] && sg[j] != []
      ensures StrLe(sg[i][0].symbol, sg[j][0].symbol) && sg[i][0].symbol != sg[j][0].symbol
    {
      assert sg[i][0].symbol == gs[i][0].symbol && sg[j][0].symbol == gs[j][0].symbol;
    }
  }

  lemma SortedGroupsHeads(feed: seq<FeedEntry>)
    ensures var sg, gs := SortedGroups(feed), GroupBySymbol(SortBySymbol(feed));
      forall i :: 0 <= i < |sg| ==> sg[i] != [] && sg[i][0].symbol == gs[i][0].symbol
  {
    SortedGroupsEach(feed);
  }

  lemma SortedGroupsPermute(feed: seq<FeedEntry>)
    ensures multiset(Flatten(SortedGroups(feed))) == multiset(Active(feed))
  {
    var sg: seq<seq<FeedEntry>> := SortedGroups(feed);
    var gs: seq<seq<FeedEntry>> := GroupBySymbol(SortBySymbol(feed));
    SortedGroupsEach(feed);
    SortBySymbolPermutes(feed);
    FlattenMultiset(sg, gs);
  }

  /** In well-formed groups, the first element of a group is exactly the start of a symbol run. */
  lemma FlatFirst(sg: seq<seq<FeedEntry>>, gi: nat, idx: nat)
    requires WellGrouped(sg) && gi < |sg| && idx < |sg[gi]|
    ensures var s, k := Flatten(sg), |Flatten(sg[..gi])| + idx;
      k < |s| && s[k] == sg[gi][idx] && (IsFirst(s, k) <==> idx == 0)
  {
    var s := Flatten(sg);
    FlattenIndex(sg, gi, idx);
    if idx > 0 {
      FlattenIndex(sg, gi, idx - 1);
      assert sg[gi][idx].symbol == sg[gi][0].symbol == sg[gi][idx - 1].symbol;
    } else if gi > 0 {
      var prev := |sg[gi - 1]| - 1;
      FlattenIndex(sg, gi - 1, prev);
      assert sg[..gi] == sg[..gi - 1] + [sg[gi - 1]];
      FlattenSnoc(sg[..gi - 1], sg[gi - 1]);
      assert sg[gi - 1][prev].symbol == sg[gi - 1][0].symbol != sg[gi][0].symbol;
    }
  }

  /** Flattening well-formed groups gives records ordered by symbol, then by id. */
  lemma FlatSorted(sg: seq<seq<FeedEntry>>)
    requires WellGrouped(sg)
    ensures RecordOrder(Flatten(sg))
  {
    var s := Flatten(sg);
    forall k, l | 0 <= k < l < |s|
      ensures StrLe(s[k].symbol, s[l].symbol) && (s[k].symbol == s[l].symbol ==> s[k].id <= s[l].id)
    {
      FlatPairOrdered(sg, k, l);
    }
  }

  lemma FlatPairOrdered(sg: seq<seq<FeedEntry>>, k: nat, l: nat)
    requires WellGrouped(sg) && k < l < |Flatten(sg)|
    ensures var s := Flatten(sg);
      StrLe(s[k].symbol, s[l].symbol) && (s[k].symbol == s[l].symbol ==> s[k].id <= s[l].id)
  {
    var s := Flatten(sg);
    var gk, ik := FlattenLocate(sg, k);
    var gl, il := FlattenLocate(sg, l);
    FlattenIndex(sg, gk, ik);
    FlattenIndex(sg, gl, il);
    assert s[k].symbol == sg[gk][0].symbol && s[l].symbol == sg[gl][0].symbol;
    if gl < gk {
      OffsetMonotone(sg, gl, gk);
      assert false;
    }
    if gk == gl {
      StrLeTotal(s[k].symbol, s[l].symbol);
      assert ById(sg[gk][ik], sg[gk][il]);
    } else {
      OffsetMonotone(sg, gk, gl);
    }
  }

  /** In records ordered by symbol, a record starts its run exactly when no earlier record has its symbol. */
  lemma FirstIffNew(s: seq<FeedEntry>, k: nat)
    requires RecordOrder(s) && k < |s|
    ensures IsFirst(s, k) <==> forall l :: 0 <= l < k ==> s[l].symbol != s[k].symbol
  {
    if IsFirst(s, k) {
      forall l | 0 <= l < k ensures s[l].symbol != s[k].symbol {
        if l < k - 1 && s[l].symbol == s[k].symbol {
          assert StrLe(s[l].symbol, s[k - 1].symbol);
          StrLeAntisymmetric(s[k - 1].symbol, s[k].symbol);
        }
      }
    }
  }

  /** Mapping well-formed groups with `f`, output `k` is `f` of entry `k` and whether it starts its run. */
  lemma RecordsAt<U>(sg: seq<seq<FeedEntry>>, f: (FeedEntry, bool) -> U, k: nat)
    requires WellGrouped(sg) && k < |Flatten(sg)|
    ensures var rs, s := Flatten(MapGroups(sg, f)), Flatten(sg);
      k < |rs| && rs[k] == f(s[k], IsFirst(s, k))
  {
    var gi, idx := FlattenLocate(sg, k);
    FlatFirst(sg, gi, idx);
    FlattenMapIndex(sg, f, gi, idx);
  }

  /** Inside the loops, the first element of a group is exactly the start of a symbol run. */
  lemma FirstInGroup(feed: seq<FeedEntry>, gi: nat, idx: nat)
    requires gi < |SortedGroups(feed)| && idx < |SortedGroups(feed)[gi]|
    ensures var sg, s := SortedGroups(feed), Ordered(feed);
      var k := |Flatten(sg[..gi])| + idx;
      k < |s| && s[k] == sg[gi][idx] && (IsFirst(s, k) <==> idx == 0)
  {
    SortedGroupsShape(feed);
    FlatFirst(SortedGroups(feed), gi, idx);
  }

  /** Exactly one record per remaining entry: the order is a permutation of the listed entries. */
  lemma OrderedCounts(feed: seq<FeedEntry>)
    ensures forall e :: multiset(Ordered(feed))[e] == if Listed(e) then multiset(feed)[e] else 0
  {
    SortedGroupsShape(feed);
  }

  /** No delisted or deprecated entry is listed, and every listed entry is. */
  lemma OrderedMembers(feed: seq<FeedEntry>, e: FeedEntry)
    ensures e in Ordered(feed) <==> e in feed && Listed(e)
  {
    OrderedCounts(feed);
    assert e in Ordered(feed) <==> multiset(Ordered(feed))[e] > 0;
    assert e in feed <==> multiset(feed)[e] > 0;
  }

  /** The records are ordered by symbol, then by id. */
  lemma OrderedSorted(feed: seq<FeedEntry>)
    ensures var s := Ordered(feed);
      forall k, l :: 0 <= k < l < |s| ==>
        StrLe(s[k].symbol, s[l].symbol) && (s[k].symbol == s[l].symbol ==> s[k].id <= s[l].id)
  {
    SortedGroupsShape(feed);
    FlatSorted(SortedGroups(feed));
  }

  /** A record is the first of its symbol run exactly when no earlier record has its symbol. */
  lemma FirstIffNewSymbol(feed: seq<FeedEntry>, k: nat)
    requires k < |Ordered(feed)|
    ensures var s := Ordered(feed);
      IsFirst(s, k) <==> forall l :: 0 <= l < k ==> s[l].symbol != s[k].symbol
  {
    OrderedSorted(feed);
    FirstIffNew(Ordered(feed), k);
  }

  /** The first record of a symbol has the lowest id among the records with that symbol. */
  lemma FirstHasLowestId(feed: seq<FeedEntry>, k: nat)
    requires k < |Ordered(feed)| && IsFirst(Ordered(feed), k)
    ensures var s := Ordered(feed);
      forall l :: 0 <= l < |s| && s[l].symbol == s[k].symbol ==> s[k].id <= s[l].id
  {
    OrderedSorted(feed);
    FirstLowest(Ordered(feed), k);
  }

  /** In record order, the first of a run has the lowest id of its symbol. */
  lemma FirstLowest(s: seq<FeedEntry>, k: nat)
    requires RecordOrder(s) && k < |s| && IsFirst(s, k)
    ensures forall l :: 0 <= l < |s| && s[l].symbol == s[k].symbol ==> s[k].id <= s[l].id
  {
    FirstIffNew(s, k);
    forall l | 0 <= l < |s| && s[l].symbol == s[k].symbol
      ensures s[k].id <= s[l].id
    {
      if l < k {
        assert false;  // no earlier record has the symbol of a first one
      } else if k < l {
        assert s[k].symbol == s[l].symbol ==> s[k].id <= s[l].id;
      }
    }
  }

  /** The records' addresses, full names and decimals, position by position. */
  lemma CmcListingFields(feed: seq<FeedEntry>, chain: Chain, k: nat)
    requires k < |CmcListing(feed, chain)|
    ensures var s, r := Ordered(feed), CmcListing(feed, chain)[k];
      r.addr == Lower(s[k].address) && r.fullName == s[k].name &&
      r.decimals == ResolveDecimals(chain, s[k].address) &&
      (r.name == "CMC:" + s[k].symbol <==> IsFirst(s, k)) &&
      (!IsFirst(s, k) ==> r.name == "CMC:" + s[k].symbol + IntToString(s[k].id))
  {
    var s := Ordered(feed);
    SortedGroupsShape(feed);
    RecordsAt(SortedGroups(feed), Record(chain), k);
    var bare := "CMC:" + s[k].symbol;
    var withId := bare + IntToString(s[k].id);
    assert |withId| > |bare|;
  }

  /** Within one symbol, records with different ids get different names. */
  lemma NamesDistinctWithinSymbol(feed: seq<FeedEntry>, chain: Chain, k: nat, l: nat)
    requires k < l < |CmcListing(feed, chain)|
    requires Ordered(feed)[k].symbol == Ordered(feed)[l].symbol
    requires Ordered(feed)[k].id != Ordered(feed)[l].id
    ensures CmcListing(feed, chain)[k].name != CmcListing(feed, chain)[l].name
  {
    var s := Ordered(feed);
    var listing := CmcListing(feed, chain);
    FirstIffNewSymbol(feed, l);
    CmcListingFields(feed, chain, k);
    CmcListingFields(feed, chain, l);
    assert !IsFirst(s, l);
    var prefix := "CMC:" + s[k].symbol;
    if !IsFirst(s, k) && listing[k].name == listing[l].name {
      assert listing[k].name == prefix + IntToString(s[k].id);
      assert listing[l].name == prefix + IntToString(s[l].id);
      assert IntToString(s[k].id) == listing[k].name[|prefix|..] == listing[l].name[|prefix|..] == IntToString(s[l].id);
      IntToStringInjective(s[k].id, s[l].id);
    }
  }

  /** Names are only distinct within a symbol: symbol "AB" with id 3 collides with symbol "AB3". */
  lemma NamesMayCollideAcrossSymbols(name: string, address: string, status: string)
    ensures FmtSymbolWithId(FeedEntry(3, "AB", name, address, status)) ==
            FmtSymbol(FeedEntry(1, "AB3", name, address, status))
  {
    assert IntToString(3) == "3";
  }
}
