/**
 * `hum`: the listing built from a local token database, one YAML definition per
 * file. File names are filtered (`0x…` and `….yaml`), lowercased and sorted;
 * the definitions are walked in that order, a set of symbols seen so far
 * rejects a duplicate, each definition becomes a listing record, and a guide
 * file is written for every definition that has something to say.
 */
module LocalDb {
  import opened Wrappers
  import opened Strings
  import opened Sorting
  import opened Listing
  import Splice

  // ------------------------------------------------------------ file names

  /** `set("eth")`: the three one-letter strings, not the string "eth". */
  const Seed: set<string> := {"e", "t", "h"}

  /** `token_file_filter`. */
  predicate IsTokenFileName(f: string) {
    StartsWith(f, "0x") && EndsWith(f, ".yaml")
  }

  /** `filter(token_file_filter, names)`. */
  function KeepTokenFiles(names: seq<string>): (r: seq<string>)
    ensures forall f :: multiset(r)[f] == if IsTokenFileName(f) then multiset(names)[f] else 0
  {
    if names == [] then []
    else
      assert names == [names[0]] + names[1..];
      (if IsTokenFileName(names[0]) then [names[0]] else []) + KeepTokenFiles(names[1..])
  }

  function LowerAll(names: seq<string>): seq<string> {
    seq(|names|, i requires 0 <= i < |names| => Lower(names[i]))
  }

  function ByString(a: string, b: string): bool {
    StrLe(a, b)
  }

  lemma ByStringPreorder()
    ensures TotalPreorder(ByString)
  {
    forall a: string, b: string ensures ByString(a, b) || ByString(b, a) {
      StrLeTotal(a, b);
    }
    forall a: string, b: string, c: string | ByString(a, b) && ByString(b, c)
      ensures ByString(a, c)
    {
      StrLeTransitive(a, b, c);
    }
  }

  /** `sorted(map(lower, filter(token_file_filter, listing)))`. */
  function TokenFiles(listing: seq<string>): seq<string> {
    ByStringPreorder();
    Sort(LowerAll(KeepTokenFiles(listing)), ByString)
  }

  /** The names kept are exactly the listed names that pass the filter. */
  lemma KeepTokenFilesMembers(names: seq<string>)
    ensures forall g :: g in KeepTokenFiles(names) <==> g in names && IsTokenFileName(g)
  {
    var kept := KeepTokenFiles(names);
    forall g ensures g in kept <==> g in names && IsTokenFileName(g) {
      assert g in kept <==> g in multiset(kept);
      assert g in names <==> g in multiset(names);
    }
  }

  /** The lowercased names are exactly the lowercase forms of the names. */
  lemma LowerAllMembers(names: seq<string>)
    ensures forall f :: f in LowerAll(names) <==> exists g :: g in names && Lower(g) == f
  {
    var lowered := LowerAll(names);
    forall f ensures f in lowered <==> exists g :: g in names && Lower(g) == f {
      if f in lowered {
        var i :| 0 <= i < |lowered| && lowered[i] == f;
        assert names[i] in names;
      }
      if exists g :: g in names && Lower(g) == f {
        var g :| g in names && Lower(g) == f;
        var i :| 0 <= i < |names| && names[i] == g;
        assert lowered[i] == f;
      }
    }
  }

  /**
   * The files walked are the lowercased names of the listed token files, each as
   * often as it is listed, in sorted order; the filter looks at the names as
   * listed, before lowercasing.
   */
  lemma TokenFilesSpec(listing: seq<string>)
    ensures var files := TokenFiles(listing);
      SortedBy(files, ByString) &&
      multiset(files) == multiset(LowerAll(KeepTokenFiles(listing))) &&
      forall f :: f in files <==> exists g :: g in listing && IsTokenFileName(g) && Lower(g) == f
  {
    ByStringPreorder();
    var kept := KeepTokenFiles(listing);
    var lowered := LowerAll(kept);
    var files := TokenFiles(listing);
    KeepTokenFilesMembers(listing);
    LowerAllMembers(kept);
    forall f ensures f in files <==> exists g :: g in listing && IsTokenFileName(g) && Lower(g) == f {
      assert f in files <==> f in multiset(files);
      assert f in lowered <==> f in multiset(lowered);
    }
  }

  /** The filter runs before lowercasing: "0X1.yaml" is dropped although its lowercase form would pass. */
  lemma FilterBeforeLower()
    ensures !IsTokenFileName("0X1.yaml") && IsTokenFileName(Lower("0X1.yaml"))
  {
    var s := "0X1.yaml";
    var t := Lower(s);
    assert s[..2][1] != "0x"[1];
    LowerAt(s, 1);
    assert t[..2] == "0x";
    assert t[|t| - 5..] == ".yaml";
  }

  // ----------------------------------------------------------------- scan

  /** A guide file written by the scan: `tokenGuides/<name>.ejs` and its HTML. */
  datatype GuideFile = GuideFile(path: string, html: string)

  function GuidePath(name: string): string {
    "tokenGuides/" + name + ".ejs"
  }

  /** The guide file written for a definition that loads: none when its guide is empty. */
  function GuideOf(defn: Definition): seq<GuideFile>
    requires MakeListingEntry(defn).Ok? && defn.links.Some?
  {
    var guide := MakeDescriptionHtml(defn).value;
    if guide != "" then [GuideFile(GuidePath(MakeListingEntry(defn).value.name), guide)] else []
  }

  /** Why `hum` stops without writing the configuration. */
  datatype HumError =
    | LoadFailed(file: string)               // the file cannot be opened or is not a YAML mapping
    | MissingKey(key: string)                // a KeyError from the listing record or the guide
    | DuplicateSymbol(name: string, addr: string) // `exit(2)`
    | EmptyListing                           // `inject_tokens` on no tokens (IndexError)
    | NameError(name: string)                // a call of an undefined name

  /** The loop's variables: still scanning, or stopped with the guides already written. */
  datatype ScanState =
    | Scanning(symbols: set<string>, tokens: seq<ListingEntry>, guides: seq<GuideFile>)
    | Stopped(guides: seq<GuideFile>, error: HumError)

  /** One iteration of the loop on file `fname`; a stopped scan stays stopped. */
  function Step(st: ScanState, read: string -> Option<Definition>, fname: string): (r: ScanState)
    ensures st.Stopped? ==> r == st
  {
    match st
    case Stopped(_, _) => st
    case Scanning(symbols, tokens, guides) => Visit(symbols, tokens, guides, read, fname)
  }

  /** The loop body on file `fname`, with the loop's variables as they are. */
  function Visit(symbols: set<string>, tokens: seq<ListingEntry>, guides: seq<GuideFile>,
                 read: string -> Option<Definition>, fname: string): (r: ScanState)
    ensures read(fname).None? ==> r == Stopped(guides, LoadFailed(fname))
    ensures read(fname).Some? && MakeListingEntry(read(fname).value).Err? ==>
      r == Stopped(guides, MissingKey(FirstMissingKey(read(fname).value)))
    ensures read(fname).Some? && MakeListingEntry(read(fname).value).Ok? ==>
      var entry := MakeListingEntry(read(fname).value).value;
      (entry.name in symbols ==> r == Stopped(guides, DuplicateSymbol(entry.name, entry.addr))) &&
      (entry.name !in symbols && read(fname).value.links.None? ==> r == Stopped(guides, MissingKey("links")))
    ensures r.Scanning? ==>
      read(fname).Some? && MakeListingEntry(read(fname).value).Ok? && read(fname).value.links.Some? &&
      var entry := MakeListingEntry(read(fname).value).value;
      entry.name !in symbols && r.symbols == symbols + {Lower(entry.name)} &&
      r.tokens == tokens + [entry] && r.guides == guides + GuideOf(read(fname).value)
    ensures r.Stopped? ==> r.guides == guides
  {
    match read(fname)
    case None => Stopped(guides, LoadFailed(fname))
    case Some(defn) =>
      match MakeListingEntry(defn)
      case Err(e) => Stopped(guides, MissingKey(e.key))
      case Ok(entry) =>
        if entry.name in symbols then Stopped(guides, DuplicateSymbol(entry.name, entry.addr))
        else
          match MakeDescriptionHtml(defn)
          case Err(e) => Stopped(guides, MissingKey(e.key))
          case Ok(guide) =>
            Scanning(symbols + {Lower(entry.name)}, tokens + [entry],
                     if guide != "" then guides + [GuideFile(GuidePath(entry.name), guide)] else guides)
  }

  /** The states of a loop whose body is `step`, from `init`, after the first `n` files. */
  function Fold(step: (ScanState, string) -> ScanState, init: ScanState, files: seq<string>, n: nat): ScanState
    requires n <= |files|
  {
    if n == 0 then init else step(Fold(step, init, files, n - 1), files[n - 1])
  }

  /** Once a loop whose body leaves a stopped state alone has stopped, it stays where it stopped. */
  lemma {:induction false} FoldStops(step: (ScanState, string) -> ScanState, init: ScanState,
                                     files: seq<string>, i: nat, j: nat)
    requires forall st: ScanState, f: string :: st.Stopped? ==> step(st, f) == st
    requires i <= j <= |files| && Fold(step, init, files, i).Stopped?
    ensures Fold(step, init, files, j) == Fold(step, init, files, i)
  {
    if j > i {
      FoldStops(step, init, files, i, j - 1);
    }
  }

  function StepOn(read: string -> Option<Definition>): (step: (ScanState, string) -> ScanState)
    ensures forall st: ScanState, f: string :: step(st, f) == Step(st, read, f)
  {
    (st, f) => Step(st, read, f)
  }

  /** The loop's state after the first `n` files. */
  function Run(files: seq<string>, read: string -> Option<Definition>, n: nat): (st: ScanState)
    requires n <= |files|
    ensures n > 0 ==> st == Step(Run(files, read, n - 1), read, files[n - 1])
  {
    Fold(StepOn(read), Scanning(Seed, [], []), files, n)
  }

  /** A scan that has stopped stays stopped with the same guides and error. */
  lemma StoppedStays(files: seq<string>, read: string -> Option<Definition>, i: nat, j: nat)
    requires i <= j <= |files| && Run(files, read, i).Stopped?
    ensures Run(files, read, j) == Run(files, read, i)
  {
    FoldStops(StepOn(read), Scanning(Seed, [], []), files, i, j);
  }

  /** What `hum` leaves behind: the guide files it wrote and the new configuration, or why it stopped. */
  datatype Outcome = Outcome(guides: seq<GuideFile>, result: Result<seq<string>, HumError>)

  /** `hum` with `make_listing_entry` read as `__make_listing_entry`. */
  function HumRun(listing: seq<string>, read: string -> Option<Definition>,
                  dumps: ListingEntry -> string, config: seq<string>): Outcome
  {
    var files := TokenFiles(listing);
    match Run(files, read, |files|)
    case Stopped(guides, e) => Outcome(guides, Err(e))
    case Scanning(_, tokens, guides) =>
      match Splice.Spliced(config, Render(tokens, dumps))
      case Ok(lines) => Outcome(guides, Ok(lines))
      case Err(_) => Outcome(guides, Err(EmptyListing))
  }

  /**
   * `hum` without its I/O: `listing` is the directory listing, `read` opens and
   * parses a file, `dumps` is `json.dumps` and `config` the current
   * configuration. Writing a guide file appends it to `guides`; the new
   * configuration is the result.
   */
  method Hum(listing: seq<string>, read: string -> Option<Definition>,
             dumps: ListingEntry -> string, config: seq<string>)
    returns (guides: seq<GuideFile>, r: Result<seq<string>, HumError>)
    ensures Outcome(guides, r) == HumRun(listing, read, dumps, config)
  {
    var files := TokenFiles(listing);
    var symbols := Seed;
    var tokens: seq<ListingEntry> := [];
    guides := [];
    var i := 0;
    while i < |files|
      invariant 0 <= i <= |files|
      invariant Run(files, read, i) == Scanning(symbols, tokens, guides)
    {
      var fname := files[i];
      var loaded := read(fname);
      if loaded.None? {
        StoppedStays(files, read, i + 1, |files|);
        return guides, Err(LoadFailed(fname));
      }
      var defn := loaded.value;
      var made := MakeListingEntry(defn);
      if made.Err? {
        StoppedStays(files, read, i + 1, |files|);
        return guides, Err(MissingKey(made.error.key));
      }
      var entry := made.value;
      if entry.name in symbols {
        StoppedStays(files, read, i + 1, |files|);
        return guides, Err(DuplicateSymbol(entry.name, entry.addr));
      }
      symbols := symbols + {Lower(entry.name)};
      tokens := tokens + [entry];
      var guide := MakeDescriptionHtml(defn);
      if guide.Err? {
        StoppedStays(files, read, i + 1, |files|);
        return guides, Err(MissingKey(guide.error.key));
      }
      if guide.value != "" {
        guides := guides + [GuideFile(GuidePath(entry.name), guide.value)];
      }
      i := i + 1;
    }
    var spliced := Splice.InjectTokens(config, Render(tokens, dumps));
    r := if spliced.Ok? then Ok(spliced.value) else Err(EmptyListing);
  }

  // ------------------------------------------------------ duplicate scan

  /** The set after the names `ns` were added: the seed and every name lowercased. */
  function Seen(ns: seq<string>): set<string> {
    Seed + set i | 0 <= i < |ns| :: Lower(ns[i])
  }

  /** Name `j` is rejected: its raw form is in the set built from the names before it. */
  predicate Clash(ns: seq<string>, j: nat)
    requires j < |ns|
  {
    ns[j] in Seen(ns[..j])
  }

  /** The first rejected name, if any. */
  function FirstClash(ns: seq<string>): (r: Option<nat>)
    ensures r.Some? ==> r.value < |ns| && Clash(ns, r.value) &&
                        forall k :: 0 <= k < r.value ==> !Clash(ns, k)
    ensures r.None? ==> forall k :: 0 <= k < |ns| ==> !Clash(ns, k)
  {
    if ns == [] then None
    else
      var init := ns[..|ns| - 1];
      var prev := FirstClash(init);
      assert forall k :: 0 <= k < |init| ==> init[..k] == ns[..k] && init[k] == ns[k];
      assert forall k :: 0 <= k < |init| ==> (Clash(init, k) <==> Clash(ns, k));
      if prev.Some? then prev
      else if Clash(ns, |ns| - 1) then Some(|ns| - 1)
      else None
  }

  /** A file that opens as a mapping with the four record keys and `links`. */
  predicate Loads(read: string -> Option<Definition>, f: string) {
    read(f).Some? && MakeListingEntry(read(f).value).Ok? && read(f).value.links.Some?
  }

  function Entries(files: seq<string>, read: string -> Option<Definition>, n: nat): (es: seq<ListingEntry>)
    requires n <= |files| && forall i :: 0 <= i < n ==> Loads(read, files[i])
    ensures |es| == n
  {
    seq(n, i requires 0 <= i < n && Loads(read, files[i]) => MakeListingEntry(read(files[i]).value).value)
  }

  function Names(es: seq<ListingEntry>): (ns: seq<string>)
    ensures |ns| == |es|
  {
    seq(|es|, i requires 0 <= i < |es| => es[i].name)
  }

  lemma SeenSnoc(ns: seq<string>, x: string)
    ensures Seen(ns + [x]) == Seen(ns) + {Lower(x)}
  {
    var ms := ns + [x];
    assert forall i :: 0 <= i < |ns| ==> ms[i] == ns[i];
    assert ms[|ns|] == x;
  }

  /** The raw names of the first `n` files, when they all load. */
  function NamesOf(files: seq<string>, read: string -> Option<Definition>, n: nat): (ns: seq<string>)
    requires n <= |files| && forall i :: 0 <= i < n ==> Loads(read, files[i])
    ensures |ns| == n
  {
    Names(Entries(files, read, n))
  }

  /** The non-empty guides of the first `n` files, in file order, when they all load. */
  function GuidesOf(files: seq<string>, read: string -> Option<Definition>, n: nat): seq<GuideFile>
    requires n <= |files| && forall i :: 0 <= i < n ==> Loads(read, files[i])
  {
    if n == 0 then []
    else
      assert Loads(read, files[n - 1]);
      GuidesOf(files, read, n - 1) + GuideOf(read(files[n - 1]).value)
  }

  /**
   * When every file loads and no name is rejected, the scan keeps every entry in
   * order, the set holds the seed and every lowercased name, and a guide file is
   * written for every entry whose guide is not empty, in file order.
   */
  lemma {:induction false} ScanKeepsAll(files: seq<string>, read: string -> Option<Definition>, n: nat)
    requires n <= |files| && forall i :: 0 <= i < n ==> Loads(read, files[i])
    requires FirstClash(NamesOf(files, read, n)).None?
    ensures Run(files, read, n).Scanning?
    ensures Run(files, read, n).tokens == Entries(files, read, n)
    ensures Run(files, read, n).symbols == Seen(NamesOf(files, read, n))
    ensures Run(files, read, n).guides == GuidesOf(files, read, n)
  {
    if n > 0 {
      var e := EntriesSnoc(files, read, n);
      FirstClashSnoc(NamesOf(files, read, n - 1), e.name);
      ScanKeepsAll(files, read, n - 1);
      SeenSnoc(NamesOf(files, read, n - 1), e.name);
      var st := Run(files, read, n - 1);
      assert Run(files, read, n) == Step(st, read, files[n - 1]);
      StepLoaded(st, read, files[n - 1]);
    }
  }

  /**
   * When every file loads, the scan stops at the first entry whose raw name is
   * in the seed or among the lowercased names before it, and reports that entry.
   */
  lemma {:induction false} ScanStopsAtFirstClash(files: seq<string>, read: string -> Option<Definition>, n: nat)
    requires n <= |files| && forall i :: 0 <= i < n ==> Loads(read, files[i])
    requires FirstClash(NamesOf(files, read, n)).Some?
    ensures var j := FirstClash(NamesOf(files, read, n)).value;
      Run(files, read, n).Stopped? &&
      Run(files, read, n).error == DuplicateSymbol(NamesOf(files, read, n)[j], Entries(files, read, n)[j].addr)
  {
    FirstClashGrows(files, read, n);
    if FirstClash(NamesOf(files, read, n - 1)).Some? {
      ScanStopsAtFirstClash(files, read, n - 1);
      EntriesPrefix(files, read, n, FirstClash(NamesOf(files, read, n - 1)).value);
      StoppedStays(files, read, n - 1, n);
    } else {
      ClashAtLast(files, read, n);
    }
  }

  /** The first clash among the names of `n` files, from that among the first `n - 1`. */
  lemma FirstClashGrows(files: seq<string>, read: string -> Option<Definition>, n: nat)
    requires 0 < n <= |files| && forall i :: 0 <= i < n ==> Loads(read, files[i])
    ensures var ns, ns' := NamesOf(files, read, n), NamesOf(files, read, n - 1);
      FirstClash(ns) ==
        if FirstClash(ns').Some? then FirstClash(ns')
        else if ns[n - 1] in Seen(ns') then Some(n - 1) else None
  {
    var e := EntriesSnoc(files, read, n);
    var ns' := NamesOf(files, read, n - 1);
    assert NamesOf(files, read, n) == ns' + [e.name];
    FirstClashSnoc(ns', e.name);
  }

  /** No earlier name was rejected and the last one is: the scan stops on the last file. */
  lemma ClashAtLast(files: seq<string>, read: string -> Option<Definition>, n: nat)
    requires 0 < n <= |files| && forall i :: 0 <= i < n ==> Loads(read, files[i])
    requires FirstClash(NamesOf(files, read, n - 1)).None?
    requires NamesOf(files, read, n)[n - 1] in Seen(NamesOf(files, read, n - 1))
    ensures Run(files, read, n).Stopped?
    ensures Run(files, read, n).error == DuplicateSymbol(NamesOf(files, read, n)[n - 1], Entries(files, read, n)[n - 1].addr)
  {
    var e := EntriesSnoc(files, read, n);
    ScanKeepsAll(files, read, n - 1);
    StepLoaded(Run(files, read, n - 1), read, files[n - 1]);
  }

  /** The entries and names of the first `n - 1` files are those of the first `n`. */
  lemma EntriesPrefix(files: seq<string>, read: string -> Option<Definition>, n: nat, j: nat)
    requires 0 < n <= |files| && forall i :: 0 <= i < n ==> Loads(read, files[i])
    requires j < n - 1
    ensures Entries(files, read, n)[j] == Entries(files, read, n - 1)[j]
    ensures NamesOf(files, read, n)[j] == NamesOf(files, read, n - 1)[j]
  {
  }

  /** One iteration on a file that loads: it stops exactly on a raw name already in the set. */
  lemma StepLoaded(st: ScanState, read: string -> Option<Definition>, f: string)
    requires st.Scanning? && Loads(read, f)
    ensures var e, r := MakeListingEntry(read(f).value).value, Step(st, read, f);
      (e.name in st.symbols ==> r == Stopped(st.guides, DuplicateSymbol(e.name, e.addr))) &&
      (e.name !in st.symbols ==>
         r.Scanning? && r.symbols == st.symbols + {Lower(e.name)} && r.tokens == st.tokens + [e] &&
         r.guides == st.guides + GuideOf(read(f).value))
  {
  }

  /** One more file adds its entry to the entries and its name to the names. */
  lemma EntriesSnoc(files: seq<string>, read: string -> Option<Definition>, n: nat) returns (e: ListingEntry)
    requires 0 < n <= |files| && forall i :: 0 <= i < n ==> Loads(read, files[i])
    ensures Loads(read, files[n - 1]) && e == MakeListingEntry(read(files[n - 1]).value).value
    ensures Entries(files, read, n) == Entries(files, read, n - 1) + [e]
    ensures Names(Entries(files, read, n)) == Names(Entries(files, read, n - 1)) + [e.name]
  {
    assert Loads(read, files[n - 1]);
    e := MakeListingEntry(read(files[n - 1]).value).value;
    assert Entries(files, read, n) == Entries(files, read, n - 1) + [e];
  }

  /** The first clash of a longer sequence of names. */
  lemma FirstClashSnoc(ns: seq<string>, x: string)
    ensures FirstClash(ns + [x]) ==
      if FirstClash(ns).Some? then FirstClash(ns)
      else if x in Seen(ns) then Some(|ns|) else None
  {
    assert (ns + [x])[..|ns|] == ns;
  }

  /** When every file loads and no name is rejected, the configuration is written exactly when some file was listed. */
  lemma HumSucceeds(listing: seq<string>, read: string -> Option<Definition>,
                    dumps: ListingEntry -> string, config: seq<string>)
    requires var files := TokenFiles(listing); forall i :: 0 <= i < |files| ==> Loads(read, files[i])
    requires var files := TokenFiles(listing); FirstClash(NamesOf(files, read, |files|)).None?
    ensures var files := TokenFiles(listing);
      HumRun(listing, read, dumps, config).result ==
        if files == [] then Err(EmptyListing)
        else Ok(Splice.Spliced(config, Render(Entries(files, read, |files|), dumps)).value)
    ensures var files := TokenFiles(listing);
      HumRun(listing, read, dumps, config).guides == GuidesOf(files, read, |files|)
  {
    var files := TokenFiles(listing);
    ScanKeepsAll(files, read, |files|);
  }

  /** The seed holds single letters: a token named "e" is rejected, one named "eth" is not. */
  lemma SeedIsLetters()
    ensures Clash(["e"], 0)
    ensures !Clash(["eth"], 0)
  {
    assert ["e"][..0] == [] && ["eth"][..0] == [];
    assert Seen([]) == Seed;
  }

  /**
   * Membership is tested on the raw name while the set holds lowercased names:
   * "abc" after "ABC" is rejected, "ABC" after "abc" is not.
   */
  lemma RawNameAgainstLowered()
    ensures Clash(["ABC", "abc"], 1)
    ensures !Clash(["abc", "ABC"], 1)
  {
    assert Lower("ABC") == [LowerChar('A')] + Lower("BC");
    assert Lower("BC") == [LowerChar('B')] + Lower("C");
    assert Lower("C") == [LowerChar('C')] + Lower("");
    assert Lower("ABC") == "abc";
    assert ["ABC", "abc"][..1] == ["ABC"];
    assert Seen(["ABC"]) == Seed + {"abc"} by {
      SeenSnoc([], "ABC");
      assert [] + ["ABC"] == ["ABC"];
    }
    assert Lower("abc") == [LowerChar('a')] + Lower("bc");
    assert Lower("bc") == [LowerChar('b')] + Lower("c");
    assert Lower("c") == [LowerChar('c')] + Lower("");
    assert Lower("abc") == "abc";
    assert ["abc", "ABC"][..1] == ["abc"];
    assert Seen(["abc"]) == Seed + {"abc"} by {
      SeenSnoc([], "abc");
      assert [] + ["abc"] == ["abc"];
    }
  }

  // ------------------------------------------------------------- as written

  /**
   * `hum` as written: its loop calls `make_listing_entry`, a name the module
   * never defines (the record builder is `__make_listing_entry`, which is not
   * name-mangled at module level), so the first file that loads raises
   * NameError; with no token files the splice fails on the empty listing.
   */
  function HumAsWritten(listing: seq<string>, read: string -> Option<Definition>,
                        dumps: ListingEntry -> string, config: seq<string>): (o: Outcome)
    ensures o.guides == []
  {
    var files := TokenFiles(listing);
    // with no records, `inject_tokens` indexes `formatted_tokens[-1]` of an empty list
    // (scripts/build_tokens_cmc.py, line 91)
    if files == [] then Outcome([], Err(EmptyListing))
    else if read(files[0]).None? then Outcome([], Err(LoadFailed(files[0])))
    else Outcome([], Err(NameError("make_listing_entry")))
  }

  /** As written, `hum` never writes a configuration or a guide, whatever the database holds. */
  lemma HumAsWrittenNeverSucceeds(listing: seq<string>, read: string -> Option<Definition>,
                                  dumps: ListingEntry -> string, config: seq<string>)
    ensures HumAsWritten(listing, read, dumps, config).result.Err?
    ensures var files := TokenFiles(listing);
      files != [] && read(files[0]).Some? ==>
        HumAsWritten(listing, read, dumps, config).result == Err(NameError("make_listing_entry"))
  {
  }

  /** Where the intended scan writes the configuration, the code as written stops with NameError. */
  lemma HumAsWrittenDiffers(listing: seq<string>, read: string -> Option<Definition>,
                            dumps: ListingEntry -> string, config: seq<string>)
    requires var files := TokenFiles(listing); files != [] && forall i :: 0 <= i < |files| ==> Loads(read, files[i])
    requires var files := TokenFiles(listing); FirstClash(NamesOf(files, read, |files|)).None?
    ensures HumRun(listing, read, dumps, config).result.Ok?
    ensures HumAsWritten(listing, read, dumps, config).result == Err(NameError("make_listing_entry"))
  {
    HumSucceeds(listing, read, dumps, config);
  }
}
