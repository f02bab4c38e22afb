/**
 * `inject_tokens`: the text-level splice that replaces the body of the
 * `"tokens"` array of the configuration file, line by line, while every other
 * line is kept as it was. Lines are strings that still carry their `\n`.
 */
module Splice {
  import opened Wrappers
  import opened Strings

  /** The line that opens the machine-owned region (kept). */
  const OpenMarker: string := "  \"tokens\": [\n"
  /** The line that closes it (kept, with everything after it). */
  const CloseMarker: string := "  ],\n"

  /** Indexing `formatted_tokens[-1]` of an empty list. */
  datatype SpliceError = IndexError

  /** The first `k >= from` with `lines[k] == x`, or `|lines|` when there is none. */
  function FirstIndex(lines: seq<string>, x: string, from: nat): (k: nat)
    requires from <= |lines|
    ensures from <= k <= |lines|
    ensures k < |lines| ==> lines[k] == x
    ensures forall j :: from <= j < k ==> lines[j] != x
    decreases |lines| - from
  {
    if from == |lines| then from
    else if lines[from] == x then from
    else FirstIndex(lines, x, from + 1)
  }

  /** Number of lines the first loop copies: up to and including the first opening marker. */
  function PrefixEnd(config: seq<string>): (n: nat)
    ensures n <= |config|
  {
    var k := FirstIndex(config, OpenMarker, 0);
    if k < |config| then k + 1 else |config|
  }

  function Prefix(config: seq<string>): seq<string> {
    config[..PrefixEnd(config)]
  }

  /** Where the second loop starts copying: the first closing marker after the prefix. */
  function SuffixStart(config: seq<string>): (q: nat)
    ensures PrefixEnd(config) <= q <= |config|
  {
    FirstIndex(config, CloseMarker, PrefixEnd(config))
  }

  function Suffix(config: seq<string>): seq<string> {
    config[SuffixStart(config)..]
  }

  /** `.replace('{', '{ ').replace('}', ' }')` applied to one `json.dumps` result. */
  function PadBraces(json: string): string {
    ReplaceChar(ReplaceChar(json, '{', "{ "), '}', " }")
  }

  /** `"    {},\n".format(json_token)`. */
  function TokenLine(json: string): string {
    "    " + PadBraces(json) + ",\n"
  }

  const TrailingChars: set<char> := {'\n', ','}

  /** The last token line after `.rstrip("\n,") + "\n"`. */
  function LastTokenLine(json: string): string {
    RStrip(TokenLine(json), TrailingChars) + "\n"
  }

  /** One line per record; every line but the last keeps its trailing comma. */
  function TokenLines(jsons: seq<string>): (lines: seq<string>)
    ensures |lines| == |jsons|
    ensures forall k :: 0 <= k < |jsons| - 1 ==> lines[k] == TokenLine(jsons[k])
    ensures jsons != [] ==> lines[|jsons| - 1] == LastTokenLine(jsons[|jsons| - 1])
  {
    seq(|jsons|, k requires 0 <= k < |jsons| =>
      if k < |jsons| - 1 then TokenLine(jsons[k]) else LastTokenLine(jsons[k]))
  }

  /** What `inject_tokens` returns for the file's lines and the rendered records. */
  function Spliced(config: seq<string>, jsons: seq<string>): (r: Result<seq<string>, SpliceError>)
    ensures r.Err? <==> jsons == []
    ensures r.Ok? ==> |r.value| == |Prefix(config)| + |jsons| + |Suffix(config)|
    ensures r.Ok? ==> r.value[..|Prefix(config)|] == Prefix(config)
    ensures r.Ok? ==> r.value[|Prefix(config)|..|Prefix(config)| + |jsons|] == TokenLines(jsons)
    ensures r.Ok? ==> r.value[|Prefix(config)| + |jsons|..] == Suffix(config)
  {
    if jsons == [] then Err(IndexError)
    else
      var out := Prefix(config) + TokenLines(jsons) + Suffix(config);
      assert out[..|Prefix(config)|] == Prefix(config);
      assert out[|Prefix(config)| + |jsons|..] == Suffix(config);
      assert out[|Prefix(config)|..|Prefix(config)| + |jsons|] == TokenLines(jsons);
      Ok(out)
  }

  /** The splice as the source performs it: two passes over one line iterator. */
  method InjectTokens(config: seq<string>, jsons: seq<string>) returns (r: Result<seq<string>, SpliceError>)
    ensures r == Spliced(config, jsons)
  {
    var prefix, i := ReadPrefix(config);
    var suffix := ReadSuffix(config, i);
    var formatted := FormatTokens(jsons);
    if formatted.Err? {
      return Err(IndexError);
    }
    r := Ok(prefix + formatted.value + suffix);
  }

  /** The first loop: copies lines up to and including the opening marker; `i` is where the iterator stops. */
  method ReadPrefix(config: seq<string>) returns (prefix: seq<string>, i: nat)
    ensures prefix == Prefix(config) && i == PrefixEnd(config)
  {
    i := 0;
    prefix := [];
    while i < |config|
      invariant 0 <= i <= |config|
      invariant prefix == config[..i]
      invariant forall j :: 0 <= j < i ==> config[j] != OpenMarker
    {
      var line := config[i];
      if line == OpenMarker {
        prefix := prefix + [line];
        i := i + 1;
        break;
      }
      prefix := prefix + [line];
      i := i + 1;
    }
  }

  /** The second loop, from where the first one stopped: keeps the lines from the first closing marker on. */
  method ReadSuffix(config: seq<string>, from: nat) returns (suffix: seq<string>)
    requires from == PrefixEnd(config)
    ensures suffix == Suffix(config)
  {
    ghost var start := SuffixStart(config);
    var i := from;
    suffix := [];
    var suffixStarted := false;
    while i < |config|
      invariant from <= i <= |config|
      invariant !suffixStarted ==> suffix == [] && i <= start
      invariant suffixStarted ==> start < i && suffix == config[start..i]
      invariant !suffixStarted ==> forall j :: from <= j < i ==> config[j] != CloseMarker
    {
      var line := config[i];
      if line == CloseMarker {
        suffixStarted := true;
      }
      if suffixStarted {
        assert start <= i;
        suffix := suffix + [line];
        assert config[start..i + 1] == config[start..i] + [line];
      }
      i := i + 1;
    }
    assert !suffixStarted ==> i == start;
  }

  /** The two comprehensions and the strip of the last line; indexing the last line of none fails. */
  method FormatTokens(jsons: seq<string>) returns (r: Result<seq<string>, SpliceError>)
    ensures r.Err? <==> jsons == []
    ensures r.Ok? ==> r.value == TokenLines(jsons)
  {
    var jsonTokens := seq(|jsons|, k requires 0 <= k < |jsons| => PadBraces(jsons[k]));
    var formatted := seq(|jsonTokens|, k requires 0 <= k < |jsonTokens| => "    " + jsonTokens[k] + ",\n");
    if |formatted| == 0 {
      return Err(IndexError);
    }
    var last := |formatted| - 1;
    ghost var unstripped := formatted;
    formatted := formatted[last := RStrip(formatted[last], TrailingChars) + "\n"];
    forall k | 0 <= k < |jsons|
      ensures formatted[k] == TokenLines(jsons)[k]
    {
      assert unstripped[k] == TokenLine(jsons[k]);
    }
    assert formatted == TokenLines(jsons);
    r := Ok(formatted);
  }

  // ------------------------------------------------------------- properties

  /** The prefix is the head of the file, ending at the first opening marker if there is one. */
  lemma PrefixIsHead(config: seq<string>)
    ensures Prefix(config) == config[..|Prefix(config)|]
    ensures OpenMarker in config ==>
      Prefix(config) != [] && Prefix(config)[|Prefix(config)| - 1] == OpenMarker &&
      OpenMarker !in Prefix(config)[..|Prefix(config)| - 1]
    ensures OpenMarker !in config ==> Prefix(config) == config && Suffix(config) == []
  {
    var k := FirstIndex(config, OpenMarker, 0);
    if OpenMarker in config {
      var j :| 0 <= j < |config| && config[j] == OpenMarker;
      assert k <= j;
      assert Prefix(config)[..|Prefix(config)| - 1] == config[..k];
    } else {
      assert k == |config|;
    }
  }

  /**
   * The suffix is the tail of the file from the first closing marker after the
   * prefix; the lines between them are exactly the dropped ones, none a closing marker.
   */
  lemma SuffixIsTail(config: seq<string>)
    ensures Suffix(config) == config[|config| - |Suffix(config)|..]
    ensures |Prefix(config)| + |Suffix(config)| <= |config|
    ensures Suffix(config) != [] ==> Suffix(config)[0] == CloseMarker
    ensures CloseMarker !in config[|Prefix(config)|..|config| - |Suffix(config)|]
    ensures CloseMarker in config[|Prefix(config)|..] ==> Suffix(config) != []
  {
    var p, q := PrefixEnd(config), SuffixStart(config);
    assert |config| - |Suffix(config)| == q;
    if CloseMarker in config[p..] {
      var j :| p <= j < |config| && config[j] == CloseMarker;
      assert q <= j;
    }
  }

  /** Brace padding: one extra character per brace, a space after every `{` and before every `}`. */
  lemma PadBracesSpacing(json: string)
    ensures |PadBraces(json)| == |json| + Count(json, '{') + Count(json, '}')
    ensures forall i :: 0 <= i < |PadBraces(json)| && PadBraces(json)[i] == '{' ==>
      i + 1 < |PadBraces(json)| && PadBraces(json)[i + 1] == ' '
    ensures forall i :: 0 <= i < |PadBraces(json)| && PadBraces(json)[i] == '}' ==>
      0 < i && PadBraces(json)[i - 1] == ' '
  {
    PadBracesIsExpand(json);
    ExpandCount(json);
    ExpandSpacing(json);
  }

  /** Brace padding changes nothing else: removing the inserted spaces gives the input back. */
  lemma PadBracesRoundTrip(json: string)
    ensures Unpad(PadBraces(json)) == json
  {
    PadBracesIsExpand(json);
    UnpadExpand(json);
  }

  /** With a JSON object (starts with `{`, ends with `}`) each line has `{ ` after the indent and ` }` at the end. */
  lemma TokenLineShape(json: string)
    requires |json| >= 2 && json[0] == '{' && json[|json| - 1] == '}'
    ensures StartsWith(TokenLine(json), "    { ")
    ensures EndsWith(TokenLine(json), " },\n")
    ensures LastTokenLine(json) == "    " + PadBraces(json) + "\n"
    ensures EndsWith(LastTokenLine(json), " }\n")
  {
    var p := PadBraces(json);
    PaddedObjectShape(json);
    LastTokenLineShape(json);
    RStripKeepsHead(p, [], TrailingChars);
    assert p + [] == p;
    var line := TokenLine(json);
    assert line[..6] == "    " + p[..2];
    assert line[|line| - 4..] == p[|p| - 2..] + ",\n";
    var last := LastTokenLine(json);
    assert last[|last| - 3..] == p[|p| - 2..] + "\n";
  }

  lemma PaddedObjectShape(json: string)
    requires |json| >= 2 && json[0] == '{' && json[|json| - 1] == '}'
    ensures |PadBraces(json)| >= 4
    ensures PadBraces(json)[..2] == "{ "
    ensures PadBraces(json)[|PadBraces(json)| - 2..] == " }"
  {
    PadBracesIsExpand(json);
    var mid := json[1..|json| - 1];
    assert json == ['{'] + mid + ['}'];
    ExpandConcat(['{'] + mid, ['}']);
    ExpandConcat(['{'], mid);
    assert Expand(['{']) == "{ " + Expand([]);
    assert Expand(['}']) == " }" + Expand([]);
    assert Expand(json) == "{ " + Expand(mid) + " }";
  }

  /** The last line loses its comma, and only characters the padded record itself ends with. */
  lemma LastTokenLineShape(json: string)
    ensures LastTokenLine(json) == "    " + RStrip(PadBraces(json), TrailingChars) + "\n"
  {
    var p := PadBraces(json);
    RStripKeepsHead("    ", p + ",\n", TrailingChars);
    assert TokenLine(json) == "    " + (p + ",\n");
    RStripTrailing(p, ",\n");
  }

  lemma RStripTrailing(p: string, tail: string)
    requires forall i :: 0 <= i < |tail| ==> tail[i] in TrailingChars
    ensures RStrip(p + tail, TrailingChars) == RStrip(p, TrailingChars)
    decreases |tail|
  {
    if tail != [] {
      var t := tail[..|tail| - 1];
      assert (p + tail)[..|p + tail| - 1] == p + t;
      RStripTrailing(p, t);
    } else {
      assert p + tail == p;
    }
  }

  // --------------------------------------------- one-pass view of the padding

  function ExpandChar(c: char): string {
    if c == '{' then "{ " else if c == '}' then " }" else [c]
  }

  /** The two `replace` calls as a single pass: each brace becomes two characters. */
  function Expand(s: string): string {
    if s == [] then [] else ExpandChar(s[0]) + Expand(s[1..])
  }

  /** Removes the space after each `{` and before each `}`: the inverse of the padding. */
  function Unpad(s: string): string {
    if |s| >= 2 && s[0] == '{' && s[1] == ' ' then "{" + Unpad(s[2..])
    else if |s| >= 2 && s[0] == ' ' && s[1] == '}' then "}" + Unpad(s[2..])
    else if s == [] then []
    else [s[0]] + Unpad(s[1..])
  }

  lemma {:induction false} ExpandConcat(a: string, b: string)
    ensures Expand(a + b) == Expand(a) + Expand(b)
  {
    if a == [] {
      assert a + b == b;
    } else {
      assert (a + b)[1..] == a[1..] + b;
      ExpandConcat(a[1..], b);
    }
  }

  lemma {:induction false} PadBracesIsExpand(s: string)
    ensures PadBraces(s) == Expand(s)
  {
    if s != [] {
      PadBracesIsExpand(s[1..]);
      var first := if s[0] == '{' then "{ " else [s[0]];
      assert ReplaceChar(s, '{', "{ ") == first + ReplaceChar(s[1..], '{', "{ ");
      ReplaceCharConcat(first, ReplaceChar(s[1..], '{', "{ "), '}', " }");
      if s[0] == '{' {
        assert ReplaceChar(first, '}', " }") == "{ " by {
          ReplaceCharAbsent(first, '}', " }");
        }
      } else if s[0] == '}' {
        assert ReplaceChar(first, '}', " }") == " }" + ReplaceChar([], '}', " }");
      } else {
        assert ReplaceChar(first, '}', " }") == first + ReplaceChar([], '}', " }");
      }
    }
  }

  lemma {:induction false} ExpandCount(s: string)
    ensures |Expand(s)| == |s| + Count(s, '{') + Count(s, '}')
  {
    if s != [] {
      ExpandCount(s[1..]);
    }
  }

  lemma {:induction false} ExpandHead(s: string)
    ensures Expand(s) != [] ==> Expand(s)[0] != '}'
  {
  }

  lemma {:induction false} ExpandSpacing(s: string)
    ensures forall i :: 0 <= i < |Expand(s)| && Expand(s)[i] == '{' ==>
      i + 1 < |Expand(s)| && Expand(s)[i + 1] == ' '
    ensures forall i :: 0 <= i < |Expand(s)| && Expand(s)[i] == '}' ==>
      0 < i && Expand(s)[i - 1] == ' '
  {
    if s != [] {
      ExpandSpacing(s[1..]);
      ExpandHead(s[1..]);
      var head, rest := ExpandChar(s[0]), Expand(s[1..]);
      assert Expand(s) == head + rest;
      forall i | 0 <= i < |Expand(s)| && Expand(s)[i] == '{'
        ensures i + 1 < |Expand(s)| && Expand(s)[i + 1] == ' '
      {
        if i >= |head| {
          assert rest[i - |head|] == '{';
        }
      }
      forall i | 0 <= i < |Expand(s)| && Expand(s)[i] == '}'
        ensures 0 < i && Expand(s)[i - 1] == ' '
      {
        if i > |head| {
          assert rest[i - |head|] == '}';
        }
      }
    }
  }

  lemma {:induction false} UnpadExpand(s: string)
    ensures Unpad(Expand(s)) == s
  {
    if s != [] {
      UnpadExpand(s[1..]);
      ExpandHead(s[1..]);
      var rest := Expand(s[1..]);
      var e := Expand(s);
      assert e == ExpandChar(s[0]) + rest;
      if s[0] == '{' {
        assert e[2..] == rest;
      } else if s[0] == '}' {
        assert e[2..] == rest;
      } else {
        assert e[1..] == rest;
        assert !(|e| >= 2 && e[0] == ' ' && e[1] == '}');
      }
      assert s == [s[0]] + s[1..];
    }
  }
}
