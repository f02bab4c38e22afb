/**
 * The listing record written into the configuration, `__make_listing_entry`
 * (one record from a token definition) and `make_description_html` (the
 * optional HTML guide of a token).
 */
module Listing {
  import opened Wrappers
  import opened Strings

  /**
   * A token definition as loaded from its YAML file. Every key may be missing
   * (None); `customSymbol` is the `__FORKDELTA_CUSTOM_SYMBOL` key, `links` the
   * ordered list of one-key mappings such as `{Website: url}`.
   */
  datatype Definition = Definition(
    addr: Option<string>,
    symbol: Option<string>,
    name: Option<string>,
    decimals: Option<int>,
    customSymbol: Option<string>,
    description: Option<string>,
    links: Option<seq<map<string, string>>>,
    notice: Option<string>)

  /** The four keys of a listing record; `decimals` is None where it is unknown (JSON null). */
  datatype ListingEntry = ListingEntry(addr: string, name: string, fullName: string, decimals: Option<int>)

  /** The records as `json.dumps` renders them; the serialiser itself is a parameter. */
  function Render(entries: seq<ListingEntry>, dumps: ListingEntry -> string): (jsons: seq<string>)
    ensures |jsons| == |entries|
    ensures forall i :: 0 <= i < |entries| ==> jsons[i] == dumps(entries[i])
  {
    seq(|entries|, i requires 0 <= i < |entries| => dumps(entries[i]))
  }

  /** Python's KeyError for a missing mapping key. */
  datatype KeyError = KeyError(key: string)

  /** `__make_listing_entry`: renames addr/symbol/name/decimals, then applies the custom symbol. */
  function MakeListingEntry(defn: Definition): (r: Result<ListingEntry, KeyError>)
    ensures r.Ok? <==> defn.addr.Some? && defn.symbol.Some? && defn.name.Some? && defn.decimals.Some?
    ensures r.Ok? ==>
      r.value.addr == defn.addr.value &&
      r.value.name == (if defn.customSymbol.Some? then defn.customSymbol.value else defn.symbol.value) &&
      r.value.fullName == defn.name.value &&
      r.value.decimals == Some(defn.decimals.value)
    ensures r.Err? ==> r.error.key == FirstMissingKey(defn)
  {
    if defn.addr.None? then Err(KeyError("addr"))
    else if defn.symbol.None? then Err(KeyError("symbol"))
    else if defn.name.None? then Err(KeyError("name"))
    else if defn.decimals.None? then Err(KeyError("decimals"))
    else
      var token := ListingEntry(defn.addr.value, defn.symbol.value, defn.name.value, Some(defn.decimals.value));
      Ok(if defn.customSymbol.Some? then token.(name := defn.customSymbol.value) else token)
  }

  /** The mapping `TOKEN_KEYS_MAPPING` is walked in the order addr, symbol, name, decimals. */
  function FirstMissingKey(defn: Definition): string {
    if defn.addr.None? then "addr"
    else if defn.symbol.None? then "symbol"
    else if defn.name.None? then "name"
    else "decimals"
  }

  /** The guide keys play no part in the listing record. */
  lemma ListingEntryIgnoresGuideKeys(defn: Definition, description: Option<string>,
                                     links: Option<seq<map<string, string>>>, notice: Option<string>)
    ensures MakeListingEntry(defn.(description := description, links := links, notice := notice)) ==
            MakeListingEntry(defn)
  {
  }

  // ------------------------------------------------------------------ guide

  const DescriptionJoiner: string := "</p>\n  <p>"

  function NoticeHtml(notice: string): string {
    "<p class=\"alert alert-warning\">\n" + notice + "\n</p>\n"
  }

  function WebsiteHref(url: string): string {
    "<a href=\"" + url + "\" target=\"_blank\">" + url + "</a>"
  }

  function GuideHtml(noticeHtml: string, descriptionHtml: string, websiteHref: string): string {
    noticeHtml + "<blockquote>\n  <p>" + descriptionHtml + "</p>\n  <footer>" + websiteHref + "</footer>\n</blockquote>\n"
  }

  /** `dict([(key, d[key]) for d in links for key in d])`: later keys override earlier ones. */
  function LinksDict(links: seq<map<string, string>>): map<string, string> {
    if links == [] then map[] else LinksDict(links[..|links| - 1]) + links[|links| - 1]
  }

  function Website(links: seq<map<string, string>>): string {
    var d := LinksDict(links);
    if "Website" in d then d["Website"] else ""
  }

  /** `make_description_html`: "" when there is nothing to write; KeyError when `links` is missing. */
  function MakeDescriptionHtml(defn: Definition): (r: Result<string, KeyError>)
    ensures r.Err? <==> defn.links.None?
    ensures r.Err? ==> r.error.key == "links"
  {
    var description := if defn.description.Some? then defn.description.value else "";
    var descriptionHtml := Join(DescriptionJoiner, Split(description, '\n'));
    if defn.links.None? then Err(KeyError("links"))
    else
      var website := Website(defn.links.value);
      var websiteHref := if website != "" then WebsiteHref(website) else "";
      if descriptionHtml == "" && websiteHref == "" then Ok("")
      else
        var noticeHtml := if defn.notice.Some? then NoticeHtml(defn.notice.value) else "";
        Ok(GuideHtml(noticeHtml, descriptionHtml, websiteHref))
  }

  function DescriptionOf(defn: Definition): string {
    if defn.description.Some? then defn.description.value else ""
  }

  /** The last link that has a `Website` key decides the website; none, and it is "". */
  lemma {:induction false} LastWebsiteWins(links: seq<map<string, string>>)
    ensures (forall k :: 0 <= k < |links| ==> "Website" !in links[k]) ==> Website(links) == ""
    ensures forall k :: 0 <= k < |links| && "Website" in links[k] &&
                        (forall j :: k < j < |links| ==> "Website" !in links[j]) ==>
                        Website(links) == links[k]["Website"]
  {
    if links != [] {
      var init, last := links[..|links| - 1], links[|links| - 1];
      LastWebsiteWins(init);
      WebsiteSnoc(init, last);
      assert links == init + [last];
      assert forall k :: 0 <= k < |init| ==> init[k] == links[k];
      forall k | 0 <= k < |links| && "Website" in links[k] &&
                 (forall j :: k < j < |links| ==> "Website" !in links[j])
        ensures Website(links) == links[k]["Website"]
      {
        if k < |links| - 1 {
          assert "Website" !in last;
          assert forall j :: k < j < |init| ==> "Website" !in init[j];
        }
      }
    }
  }

  /** One more link: its `Website`, if it has one, replaces the earlier one. */
  lemma WebsiteSnoc(init: seq<map<string, string>>, last: map<string, string>)
    ensures "Website" in last ==> Website(init + [last]) == last["Website"]
    ensures "Website" !in last ==> Website(init + [last]) == Website(init)
  {
    var links := init + [last];
    assert links[..|links| - 1] == init;
    var d := LinksDict(init);
    assert LinksDict(links) == d + last;
  }

  /**
   * The guide of a definition that has `links`: empty exactly when the description
   * is empty and there is no website; otherwise the notice block (present exactly
   * when `notice` is), then the quote whose paragraphs are the description with every
   * newline turned into the paragraph joiner, then the footer.
   */
  lemma DescriptionHtmlShape(defn: Definition)
    requires defn.links.Some?
    ensures var r := MakeDescriptionHtml(defn);
      r.Ok? &&
      (r.value == "" <==> DescriptionOf(defn) == "" && Website(defn.links.value) == "") &&
      (r.value != "" ==>
        r.value == (if defn.notice.Some? then NoticeHtml(defn.notice.value) else "") +
                   "<blockquote>\n  <p>" + ReplaceChar(DescriptionOf(defn), '\n', DescriptionJoiner) +
                   "</p>\n  <footer>" +
                   (if Website(defn.links.value) != "" then WebsiteHref(Website(defn.links.value)) else "") +
                   "</footer>\n</blockquote>\n")
  {
    var description := DescriptionOf(defn);
    JoinSplit(description, '\n', DescriptionJoiner);
    ReplaceCharEmpty(description, '\n', DescriptionJoiner);
  }

  /** One paragraph per newline-separated line of the description. */
  lemma DescriptionParagraphs(description: string)
    ensures |Split(description, '\n')| == Count(description, '\n') + 1
    ensures Join(DescriptionJoiner, Split(description, '\n')) == ReplaceChar(description, '\n', DescriptionJoiner)
  {
    JoinSplit(description, '\n', DescriptionJoiner);
  }
}
