# Token listing builder, modelled in Dafny

`scripts/build_tokens_cmc.py` builds the `"tokens"` array of the exchange's
configuration file `config/main.json`. It has two pipelines.

- `main` reads the market-data aggregator's feed. It drops delisted and
  deprecated entries, sorts the rest by symbol and groups them by symbol, then
  sorts each group by id. The first entry of a group is named `CMC:<symbol>` and
  every later one `CMC:<symbol><id>`. Decimals are read from the chain through
  `decimals()`, with `DECIMALS()` as the fallback, and are null when the reads
  fail.
- `hum` walks a local token database, one YAML file per token. It rejects
  duplicate symbols, is meant to build one record per file with
  `__make_listing_entry`, and writes an HTML guide per token with
  `make_description_html`. As written it calls the undefined name
  `make_listing_entry` instead, so it stops at the first file that opens (see
  "## Findings"). `LocalDb.Hum` models the intended scan and
  `LocalDb.HumAsWritten` the code as written.

Both pipelines end in `inject_tokens`. It keeps the lines of the configuration up
to and including the opening marker, drops the old body, puts one padded JSON
line per record in its place, and keeps everything from the closing marker on.

The model has one module per part of the script:

| file | module | models |
|---|---|---|
| `splice.dfy` | `Splice` | `inject_tokens`, as a method whose two loops and formatting step are methods of their own, proved equal to the function `Spliced` |
| `listing.dfy` | `Listing` | `__make_listing_entry`, `make_description_html`, the rendering of records |
| `aggregator.dfy` | `Aggregator` | `get_decimals` and the loops of `main`, as the methods `RunAggregator` and `EmitGroup` |
| `localdb.dfy` | `LocalDb` | `hum`: the file filter, the scan loop (method `Hum`, function `HumRun`), the duplicate test, and `hum` as written |
| `strings.dfy`, `sorting.dfy`, `wrappers.dfy` | `Strings`, `Sorting`, `Wrappers` | `str.lower`, `split`/`join`/`replace`/`rstrip`, decimal formatting, stable `sorted`, the flattening of `groupby` groups, `Option`/`Result` |

The outside world is passed in as parameters:

- the feed is a `seq<FeedEntry>`;
- the chain is a `Chain` of two call oracles per address;
- `json.dumps` is a function `dumps`;
- the database directory listing is a `seq<string>`;
- opening and parsing a YAML file is a function `read`;
- the current configuration is its `seq` of lines.

The new configuration and the guide files are returned, not written.

## Where the evident intent and the code differ

The model follows the code in each case below. Each bullet names the code that
suggests the intent.

- **Empty listing.** The splice always writes the last record line specially
  (`scripts/build_tokens_cmc.py:91`), which suggests a listing is never
  expected to be empty. With no records, the code indexes `formatted_tokens[-1]`
  and raises IndexError. `Splice.Spliced` returns `Err(IndexError)` exactly when
  there are no records.
- **File filter.** The file names are lowercased before they are opened
  (`scripts/build_tokens_cmc.py:163`), which suggests they are meant to be
  treated case-insensitively. The filter at line 158 runs on the names as
  listed, before lowercasing, so `0X1.yaml` is skipped
  (`LocalDb.FilterBeforeLower`).
- **Seed of the symbol set.** `set("eth")` at line 160 evidently reserves the
  native asset's symbol `ETH`, the name of `ETH_TOKEN` at line 100. It is the
  three one-letter strings "e", "t" and "h" (`LocalDb.SeedIsLetters`).
- **Case of the duplicate test.** The set stores lowercased names (line 178),
  and the lookup of the earlier record compares against the lowercased name
  (line 171). Both suggest a case-insensitive test. Line 170 tests the raw name,
  so "abc" after "ABC" is rejected but "ABC" after "abc" is not
  (`LocalDb.RawNameAgainstLowered`).
- **Unique names.** Appending the id to every entry after the first of a symbol
  (lines 131-137) keeps names apart only within one symbol. Symbol `AB` with id
  3 and symbol `AB3` both give `CMC:AB3`
  (`Aggregator.NamesMayCollideAcrossSymbols`).

## Model

| member | source | states |
|---|---|---|
| Splice.Spliced | scripts/build_tokens_cmc.py:64-93 | fails (IndexError) exactly when there are no records; otherwise the output is the prefix verbatim, then the token lines, then the suffix verbatim |
| Splice.TokenLines | scripts/build_tokens_cmc.py:84-91 | one line per record; every line but the last has its trailing comma, and the last line is stripped |
| Splice.InjectTokens | scripts/build_tokens_cmc.py:64-93 | the two passes over one line iterator, then the formatting and the last-line strip, give exactly `Spliced` for every file and record list |
| Splice.ReadPrefix | scripts/build_tokens_cmc.py:68-74 | the first loop copies exactly the prefix and leaves the iterator just after the opening marker, or at the end when there is none |
| Splice.ReadSuffix | scripts/build_tokens_cmc.py:76-82 | the second loop, continuing from there, keeps exactly the suffix |
| Splice.FormatTokens | scripts/build_tokens_cmc.py:84-91 | the formatting fails (IndexError) exactly when there are no records; otherwise it gives exactly the token lines |
| Splice.PrefixIsHead | scripts/build_tokens_cmc.py:68-74 | the prefix is the head of the file and ends at the first opening marker, which it contains once; with no marker the whole file is prefix and the suffix is empty |
| Splice.SuffixIsTail | scripts/build_tokens_cmc.py:76-82 | the suffix is the tail of the file from the first closing marker after the prefix; the dropped lines hold no closing marker; a closing marker after the prefix means a non-empty suffix |
| Splice.PadBracesSpacing | scripts/build_tokens_cmc.py:85 | padding adds one character per brace, a space after every `{` and a space before every `}` |
| Splice.PadBracesRoundTrip | scripts/build_tokens_cmc.py:85 | removing the inserted spaces gives back the `json.dumps` text, so padding loses nothing |
| Splice.TokenLineShape | scripts/build_tokens_cmc.py:88-91 | for a JSON object, every line is `    { … },\n`, and the last one is `    { … }\n`: only its trailing comma is gone |
| Splice.LastTokenLineShape | scripts/build_tokens_cmc.py:91 | the last line is the indent, then the padded record with trailing newlines and commas stripped, then a newline |
| Listing.Render | scripts/build_tokens_cmc.py:84-87 | one `json.dumps` text per record, in record order |
| Listing.MakeListingEntry | scripts/build_tokens_cmc.py:8-23 | succeeds exactly when addr, symbol, name and decimals are present; then it renames them to addr/name/fullName/decimals and the custom symbol, if any, overrides the name; otherwise the KeyError names the first missing key in mapping order |
| Listing.ListingEntryIgnoresGuideKeys | scripts/build_tokens_cmc.py:16-23 | description, links and notice play no part in the record |
| Listing.MakeDescriptionHtml | scripts/build_tokens_cmc.py:39-61 | fails exactly when `links` is missing, whatever the other keys, and the KeyError then names `links` |
| Listing.LastWebsiteWins | scripts/build_tokens_cmc.py:43-44 | the website is the `Website` value of the last link that has one, and "" when no link has one |
| Listing.DescriptionHtmlShape | scripts/build_tokens_cmc.py:39-61 | with links, the guide is "" exactly when the description is empty and there is no website; otherwise it is the notice block (present exactly when `notice` is), the quote with every newline turned into the paragraph joiner, and the footer with the anchor when there is a website |
| Listing.DescriptionParagraphs | scripts/build_tokens_cmc.py:40-41 | splitting on newlines gives one paragraph more than the description has newlines, and joining them equals replacing every newline by the joiner |
| Strings.Lower | scripts/build_tokens_cmc.py:144 | same length; every ASCII capital becomes its lower-case letter, and every other character is kept |
| Strings.JoinSplit | scripts/build_tokens_cmc.py:41 | `joiner.join(s.split(sep))` equals replacing every `sep` in `s` by `joiner` |
| Strings.SplitJoinRoundTrip | scripts/build_tokens_cmc.py:41 | joining the parts of a split with the separator gives back the string |
| Strings.RStrip | scripts/build_tokens_cmc.py:91 | the result is a prefix of the input; what was removed consists only of the given characters; the result does not end in one of them |
| Strings.IntToStringInjective | scripts/build_tokens_cmc.py:132 | different ids are formatted as different digit strings |
| Strings.StrLeTotal | scripts/build_tokens_cmc.py:135 | any two strings are comparable in the order `sorted` uses |
| Strings.StrLeTransitive | scripts/build_tokens_cmc.py:135 | that order is transitive |
| Sorting.Sort | scripts/build_tokens_cmc.py:135-136 | `sorted` returns a permutation of its input, sorted by the key |
| Sorting.SortedElementsIn | scripts/build_tokens_cmc.py:162-164 | sorting neither adds nor loses an element |
| Aggregator.Active | scripts/build_tokens_cmc.py:127-128 | every listed entry is kept as often as the feed has it, and no delisted or deprecated one is kept |
| Aggregator.GetDecimals | scripts/build_tokens_cmc.py:112-123 | a value from `decimals()` is returned as is; `DECIMALS()` is tried only when `decimals()` gave unusable output, and its value is then returned; when both give unusable output, the first error is re-raised |
| Aggregator.ResolveDecimals | scripts/build_tokens_cmc.py:138-141 | decimals are known exactly when `get_decimals` returns; any exception gives null |
| Aggregator.FallbackOnlyOnBadOutput | scripts/build_tokens_cmc.py:115-122 | when `decimals()` does not fail to decode, what `DECIMALS()` would answer has no effect |
| Aggregator.GroupBySymbol | scripts/build_tokens_cmc.py:135 | `groupby`: non-empty groups whose concatenation is the input, each of one symbol, no two neighbours of the same symbol |
| Aggregator.GroupCons | scripts/build_tokens_cmc.py:135 | a maximal run of one symbol put in front of the groups of the rest of the input keeps all four properties of `groupby`'s groups |
| Aggregator.SortedGroupsShape | scripts/build_tokens_cmc.py:135-136 | the groups the loops visit are non-empty, of one symbol, sorted by id, in strictly increasing symbol order, and together a permutation of the listed entries |
| Aggregator.CmcListing | scripts/build_tokens_cmc.py:129-148 | one record per entry the loops visit |
| Aggregator.EmitGroup | scripts/build_tokens_cmc.py:136-148 | the inner loop appends one record per entry of the group, and only the first is named without its id |
| Aggregator.RunAggregator | scripts/build_tokens_cmc.py:125-150 | `main` writes the splice of the rendered `CmcListing` into the configuration |
| Aggregator.FirstInGroup | scripts/build_tokens_cmc.py:136-137 | in the loop order, an entry starts a run of its symbol exactly when it is the first entry of its group |
| Aggregator.OrderedCounts | scripts/build_tokens_cmc.py:127-136 | the loops visit every listed entry exactly as often as the feed has it, and no other |
| Aggregator.OrderedMembers | scripts/build_tokens_cmc.py:127-136 | an entry gets a record exactly when it is in the feed and is neither delisted nor deprecated |
| Aggregator.OrderedSorted | scripts/build_tokens_cmc.py:135-136 | the records are ordered by symbol, and by id within a symbol |
| Aggregator.FirstIffNewSymbol | scripts/build_tokens_cmc.py:135-137 | a record is the first of its symbol exactly when no earlier record has that symbol |
| Aggregator.FirstHasLowestId | scripts/build_tokens_cmc.py:136-137 | the record named without an id has the lowest id of its symbol |
| Aggregator.FirstLowest | scripts/build_tokens_cmc.py:135-137 | in any sequence ordered by symbol and then by id, the first of a run has the lowest id of its symbol |
| Aggregator.CmcListingFields | scripts/build_tokens_cmc.py:131-148 | record k has the lowercased address, the feed's name, and the resolved decimals of entry k; it is named `CMC:<symbol>` exactly when it is the first of its symbol, and `CMC:<symbol><id>` otherwise |
| Aggregator.NamesDistinctWithinSymbol | scripts/build_tokens_cmc.py:131-137 | two records of one symbol with different ids have different names |
| Aggregator.NamesMayCollideAcrossSymbols | scripts/build_tokens_cmc.py:131-132 | symbol `AB` with id 3 and symbol `AB3` get the same name |
| LocalDb.KeepTokenFiles | scripts/build_tokens_cmc.py:158 | keeps each listed name that starts with `0x` and ends with `.yaml`, as often as listed, and no other name |
| LocalDb.KeepTokenFilesMembers | scripts/build_tokens_cmc.py:158-164 | a name is kept exactly when it is listed and passes the filter |
| LocalDb.LowerAllMembers | scripts/build_tokens_cmc.py:163 | the lowercased names are exactly the lowercase forms of the kept names |
| LocalDb.TokenFilesSpec | scripts/build_tokens_cmc.py:162-164 | the files walked are sorted, are the lowercased kept names with multiplicity, and are exactly the lowercase forms of the listed names that pass the filter as listed |
| LocalDb.FilterBeforeLower | scripts/build_tokens_cmc.py:158-164 | `0X1.yaml` is dropped although its lowercase form would pass the filter |
| LocalDb.Step | scripts/build_tokens_cmc.py:162-187 | once the loop has stopped, later files change nothing |
| LocalDb.Visit | scripts/build_tokens_cmc.py:165-187 | one iteration stops with `LoadFailed` when the file does not load, with the KeyError of the first missing record key, with `DuplicateSymbol` (the raw name and the address) when the raw name is in the set, and with the KeyError for `links` when the guide has no links; otherwise it adds the lowercased name to the set, the record to the tokens, and the guide file, when the guide is not empty, to the guides. Whenever it stops, the guides written so far are kept and nothing is added |
| LocalDb.FoldStops | scripts/build_tokens_cmc.py:162-176 | in a loop whose body leaves a stopped state alone, the state reached at the stop is the final one |
| LocalDb.StoppedStays | scripts/build_tokens_cmc.py:162-176 | a scan that stopped at a file ends in exactly that state |
| LocalDb.Hum | scripts/build_tokens_cmc.py:156-191 | `hum` with the intended record builder returns exactly `HumRun`: the guides written, then the new configuration or the reason it stopped |
| LocalDb.FirstClash | scripts/build_tokens_cmc.py:170 | finds the first name that is rejected, and none is rejected before it; with no result, no name is rejected |
| LocalDb.SeenSnoc | scripts/build_tokens_cmc.py:178 | accepting a name adds just its lowercase form to the set |
| LocalDb.StepLoaded | scripts/build_tokens_cmc.py:169-187 | on a file that loads, the loop stops with the duplicate error exactly when the raw name is already in the set, and otherwise records the entry, its lowercased name, and its guide file when the guide is not empty |
| LocalDb.ScanKeepsAll | scripts/build_tokens_cmc.py:160-187 | when every file loads and no name is rejected, the scan keeps every record in file order, the set is the seed plus every lowercased name, and the guides are the non-empty guides of the files in file order |
| LocalDb.FirstClashGrows | scripts/build_tokens_cmc.py:170-178 | one more file keeps an earlier first rejection; without one, the new name is the first rejected exactly when its raw form is in the set built so far |
| LocalDb.ScanStopsAtFirstClash | scripts/build_tokens_cmc.py:170-176 | when every file loads, the scan stops at the first rejected name and reports that entry's name and address |
| LocalDb.ClashAtLast | scripts/build_tokens_cmc.py:170-176 | when no earlier name was rejected and the last one is, the scan stops on the last file and reports it |
| LocalDb.HumSucceeds | scripts/build_tokens_cmc.py:156-191 | when every file loads and no name is rejected, the configuration is written exactly when some token file was listed, and it is the splice of all the records in file order; the guides written are the non-empty guides of all the files, in file order |
| LocalDb.SeedIsLetters | scripts/build_tokens_cmc.py:160 | a token named `e` is rejected at once; one named `eth` is not |
| LocalDb.RawNameAgainstLowered | scripts/build_tokens_cmc.py:170-178 | `abc` after `ABC` is rejected; `ABC` after `abc` is not |
| LocalDb.HumAsWritten | scripts/build_tokens_cmc.py:156-191 | as written, `hum` never writes a guide, because the undefined name stops it before the first guide |
| LocalDb.HumAsWrittenNeverSucceeds | scripts/build_tokens_cmc.py:169 | as written, `hum` never writes a configuration; it stops with NameError at the first file that opens |
| LocalDb.HumAsWrittenDiffers | scripts/build_tokens_cmc.py:169 | on any database where the intended scan writes the configuration, the code as written stops with NameError |

## Left out

- Network, chain and file I/O are left out. The feed download, the web3 provider, directory listing, file opening, YAML parsing and writing files are replaced by the parameters described above. The `print` calls are left out.
- The erc20 ABI file and the contract construction are left out. A failure to build the contract is folded into the `Failure` outcome of the first call.
- `json.dumps` is the parameter `dumps`; its output format is not modelled.
- Strings.Lower: lowercases ASCII letters only. Python's `str.lower` also maps non-ASCII letters, which the model does not capture.
- Sorting.Sort: is stable by construction (an element goes before the first element it does not exceed), but stability is not stated as a contract.
- The chain gives one fixed answer per address, so two feed entries with the same address always get the same decimals. The source makes a separate network call for each entry (line 139), and two such calls can answer differently.
- The feed's records are assumed to carry `id`, `symbol`, `name`, `address` and `status`; a missing key (a KeyError in `main`) is not modelled.
- A YAML key that is present with a null value is treated like a missing key, because each key of `Definition` is an `Option`. The source tells the two apart in five places:
  - `notice: ~` makes line 54 write a notice block reading `None`; the model writes no notice block.
  - `decimals: ~` (or a null addr, symbol or name) is copied into the record as null by line 18; `MakeListingEntry` reports a KeyError instead.
  - `description: ~` makes `.split` at line 41 raise AttributeError; the model renders the description as "".
  - `links: ~` makes the loop at line 43 iterate over None and raise TypeError; the model reports a KeyError for `links`.
  - `__FORKDELTA_CUSTOM_SYMBOL: ~` makes line 22 set the record's name to None, and `hum` then raises AttributeError at line 178 on `None.lower()`; the model keeps the symbol as the name and carries on.
- `exit(2)` on a duplicate symbol becomes the `DuplicateSymbol` result.
- The lookup of the previously assigned record in the duplicate message is left out. The record is found by comparing against the lowercased name, and it can be None (a TypeError before `exit`). Both end as `DuplicateSymbol`.
- `read` returns None both for a file that cannot be opened and for YAML that is not a mapping. The source would fail at different points for the second case.
- HumAsWritten: for a file whose YAML is not a mapping, it reports `LoadFailed` where the source still raises the NameError; the model's `read` cannot tell the two apart.
- The inner loop of `main` is split out as the method `Aggregator.EmitGroup`. The outer loop calls it once per group, which is the same order of records.

## Findings

| source | as written | input that shows it | evidently intended | confidence | as-written member | corrected member |
|---|---|---|---|---|---|---|
| scripts/build_tokens_cmc.py:169 | `hum` calls `make_listing_entry`, a name the module never defines | any database with a token file that opens, e.g. only `0x1.yaml` with addr, symbol, name, decimals and links | build the record with `__make_listing_entry` (line 16; a leading double underscore is not mangled at module level) | high, not executed | LocalDb.HumAsWritten | LocalDb.Hum |
