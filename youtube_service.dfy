/** The search client (services/youtubeService.ts): the API-key guard, the
    choice of error message, and the mapping of each search hit to a
    `VideoItem`. The HTTP round trip itself is not modelled: the request is
    a value the client would send, and the response is a parameter. */
module YouTubeService {
  import opened Wrappers
  import opened Types

  // ---------------------------------------------------------------------
  // The shape of a search response, as far as the mapper reads it.

  datatype Thumbnail = Thumbnail(url: string)

  /** `high` and `medium` are read with `?.`, so either may be absent. */
  datatype Thumbnails = Thumbnails(high: Option<Thumbnail>, medium: Option<Thumbnail>)

  datatype Snippet = Snippet(title: string, channelTitle: string, thumbnails: Thumbnails)

  datatype ItemId = ItemId(videoId: string)

  datatype SearchItem = SearchItem(id: ItemId, snippet: Snippet)

  /** What `fetch` delivered: a successful response with its parsed items,
      or a failed one with the `error.message` of its body, if any. */
  datatype Response = Ok(items: seq<SearchItem>) | NotOk(errorMessage: Option<string>)

  /** The request the client sends once the key check has passed. */
  datatype Request = Request(query: string, apiKey: string)

  const MissingKeyMessage: string := "API Key is missing"
  const FetchFailedMessage: string := "Failed to fetch from YouTube"

  // ---------------------------------------------------------------------
  // Global literal replacement, as `s.replace(/pat/g, rep)` does it.

  /** Scans `s` left to right; wherever `pat` starts, emits `rep` and resumes
      after the match, so matches never overlap and replaced text is never
      scanned again. */
  function ReplaceAll(s: string, pat: string, rep: string): string
    requires |pat| > 0
    decreases |s|
  {
    if |s| == 0 then []
    else if pat <= s then rep + ReplaceAll(s[|pat|..], pat, rep)
    else [s[0]] + ReplaceAll(s[1..], pat, rep)
  }

  /** `pat` occurs in `s` at offset `k`. */
  predicate OccursAt(s: string, pat: string, k: nat) {
    k + |pat| <= |s| && s[k..k + |pat|] == pat
  }

  predicate Occurs(s: string, pat: string) {
    exists k: nat | k <= |s| :: OccursAt(s, pat, k)
  }

  /** A prefix of `x + y` that starts nowhere in `x` lets the scan copy `x`
      verbatim. */
  lemma {:induction false} ReplaceAllCopies(x: string, y: string, pat: string, rep: string)
    requires |pat| > 0
    requires forall k :: 0 <= k < |x| ==> !(pat <= x[k..] + y)
    ensures ReplaceAll(x + y, pat, rep) == x + ReplaceAll(y, pat, rep)
  {
    if |x| > 0 {
      assert x[0..] == x;
      assert (x + y)[1..] == x[1..] + y;
      forall k | 0 <= k < |x[1..]| ensures !(pat <= x[1..][k..] + y) {
        assert x[1..][k..] == x[k + 1..];
      }
      ReplaceAllCopies(x[1..], y, pat, rep);
    } else {
      assert x + y == y;
    }
  }

  /** A string in which the first character of `pat` never appears is left
      unchanged. */
  lemma {:induction false} ReplaceAllAbsent(s: string, pat: string, rep: string)
    requires |pat| > 0
    requires forall i :: 0 <= i < |s| ==> s[i] != pat[0]
    ensures ReplaceAll(s, pat, rep) == s
    decreases |s|
  {
    if |s| > 0 {
      ReplaceAllAbsent(s[1..], pat, rep);
      assert s == [s[0]] + s[1..];
    }
  }

  /** A match at the front is replaced and the scan resumes after it. */
  lemma ReplaceAllMatch(y: string, pat: string, rep: string)
    requires |pat| > 0
    ensures ReplaceAll(pat + y, pat, rep) == rep + ReplaceAll(y, pat, rep)
  {
  }

  /** Replacing with something no longer than the pattern never lengthens. */
  lemma {:induction false} ReplaceAllShrinks(s: string, pat: string, rep: string)
    requires |pat| > 0 && |rep| <= |pat|
    ensures |ReplaceAll(s, pat, rep)| <= |s|
    decreases |s|
  {
    if |s| > 0 {
      if pat <= s {
        ReplaceAllShrinks(s[|pat|..], pat, rep);
      } else {
        ReplaceAllShrinks(s[1..], pat, rep);
      }
    }
  }

  /** If the output of the scan starts with `w`, and `w` never contains the
      first character of `rep`, then the input already started with `w`. */
  lemma {:induction false} ReplaceAllPrefixBack(t: string, w: string, pat: string, rep: string)
    requires |pat| > 0 && |rep| > 0
    requires forall i :: 0 <= i < |w| ==> w[i] != rep[0]
    requires w <= ReplaceAll(t, pat, rep)
    ensures w <= t
    decreases |w|
  {
    if |w| > 0 {
      var r := ReplaceAll(t, pat, rep);
      assert |t| > 0;
      ReplaceAllHead(t, pat, rep);
      var r' := ReplaceAll(t[1..], pat, rep);
      assert r == [t[0]] + r';
      assert w[1..] <= r';
      ReplaceAllPrefixBack(t[1..], w[1..], pat, rep);
      PrefixByHead(t, w);
    }
  }

  /** The first character the scan emits. */
  lemma ReplaceAllHead(t: string, pat: string, rep: string)
    requires |pat| > 0 && |rep| > 0 && |t| > 0
    ensures |ReplaceAll(t, pat, rep)| > 0
    ensures ReplaceAll(t, pat, rep)[0] == if pat <= t then rep[0] else t[0]
  {
  }

  /** A string starts with `pat` when its head and its tail line up with
      the head and the tail of `pat`. */
  lemma PrefixByHead(s: string, pat: string)
    requires |pat| > 0 && |s| > 0
    requires s[0] == pat[0] && pat[1..] <= s[1..]
    ensures pat <= s
  {
  }

  /** The replacement is exhaustive: when `rep` cannot start a new match
      (it lacks the pattern's first character, and the pattern's tail lacks
      `rep`'s first character), no occurrence of `pat` survives. */
  lemma {:induction false} ReplaceAllLeavesNone(s: string, pat: string, rep: string)
    requires |pat| > 0 && |rep| > 0
    requires forall i :: 0 <= i < |rep| ==> rep[i] != pat[0]
    requires forall i :: 1 <= i < |pat| ==> pat[i] != rep[0]
    ensures !Occurs(ReplaceAll(s, pat, rep), pat)
    decreases |s|
  {
    var r := ReplaceAll(s, pat, rep);
    if pat <= s {
      var r' := ReplaceAll(s[|pat|..], pat, rep);
      ReplaceAllLeavesNone(s[|pat|..], pat, rep);
      assert r == rep + r';
      forall k: nat ensures !OccursAt(r, pat, k) {
        if k + |pat| <= |r| {
          if k < |rep| {
            assert r[k..k + |pat|][0] == rep[k];
          } else {
            assert r[k..k + |pat|] == r'[k - |rep|..k - |rep| + |pat|];
            assert !OccursAt(r', pat, k - |rep|);
          }
        }
      }
    } else if |s| > 0 {
      var r' := ReplaceAll(s[1..], pat, rep);
      ReplaceAllLeavesNone(s[1..], pat, rep);
      assert r == [s[0]] + r';
      if pat[1..] <= r' {
        ReplaceAllPrefixBack(s[1..], pat[1..], pat, rep);
        if s[0] == pat[0] {
          PrefixByHead(s, pat);
        }
      }
      forall k: nat ensures !OccursAt(r, pat, k) {
        if k + |pat| <= |r| {
          if k == 0 {
            assert r[..|pat|][0] == s[0];
            assert r[..|pat|][1..] == r'[..|pat| - 1];
          } else {
            assert r[k..k + |pat|] == r'[k - 1..k - 1 + |pat|];
            assert !OccursAt(r', pat, k - 1);
          }
        }
      }
    }
  }

  // ---------------------------------------------------------------------
  // Title decoding.

  /** The three chained replacements applied to every title, in source
      order: `&quot;`, then `&#39;`, then `&amp;`. */
  function DecodeTitle(title: string): string {
    ReplaceAll(ReplaceAll(ReplaceAll(title, "&quot;", "\""), "&#39;", "'"), "&amp;", "&")
  }

  /** HTML escaping of the three characters the decoder knows, as the
      search API applies it to titles; `quot` and `apos` switch the escaping
      of `"` and `'` off for the intermediate stages of the decoder. */
  function EscapeChar(c: char, quot: bool, apos: bool): string {
    if c == '&' then "&amp;"
    else if c == '"' && quot then "&quot;"
    else if c == '\'' && apos then "&#39;"
    else [c]
  }

  function EscapeWith(t: string, quot: bool, apos: bool): string {
    if t == [] then [] else EscapeChar(t[0], quot, apos) + EscapeWith(t[1..], quot, apos)
  }

  function EscapeHtml(t: string): string {
    EscapeWith(t, true, true)
  }

  lemma {:induction false} DecodeQuotStage(t: string, apos: bool)
    ensures ReplaceAll(EscapeWith(t, true, apos), "&quot;", "\"") == EscapeWith(t, false, apos)
  {
    if t != [] {
      var c, y := t[0], EscapeWith(t[1..], true, apos);
      DecodeQuotStage(t[1..], apos);
      var x := EscapeChar(c, true, apos);
      if c == '"' {
        ReplaceAllMatch(y, "&quot;", "\"");
      } else {
        forall k | 0 <= k < |x| ensures !("&quot;" <= x[k..] + y) {
          assert (x[k..] + y)[0] == x[k];
          if k == 0 && |x| > 1 { assert (x[k..] + y)[1] == x[1]; }
        }
        ReplaceAllCopies(x, y, "&quot;", "\"");
      }
    }
  }

  lemma {:induction false} DecodeAposStage(t: string)
    ensures ReplaceAll(EscapeWith(t, false, true), "&#39;", "'") == EscapeWith(t, false, false)
  {
    if t != [] {
      var c, y := t[0], EscapeWith(t[1..], false, true);
      DecodeAposStage(t[1..]);
      var x := EscapeChar(c, false, true);
      if c == '\'' {
        ReplaceAllMatch(y, "&#39;", "'");
      } else {
        forall k | 0 <= k < |x| ensures !("&#39;" <= x[k..] + y) {
          assert (x[k..] + y)[0] == x[k];
          if k == 0 && |x| > 1 { assert (x[k..] + y)[1] == x[1]; }
        }
        ReplaceAllCopies(x, y, "&#39;", "'");
      }
    }
  }

  lemma {:induction false} DecodeAmpStage(t: string)
    ensures ReplaceAll(EscapeWith(t, false, false), "&amp;", "&") == t
  {
    if t != [] {
      var c, y := t[0], EscapeWith(t[1..], false, false);
      DecodeAmpStage(t[1..]);
      var x := EscapeChar(c, false, false);
      if c == '&' {
        ReplaceAllMatch(y, "&amp;", "&");
      } else {
        assert x == [c];
        forall k | 0 <= k < |x| ensures !("&amp;" <= x[k..] + y) {
          assert (x[k..] + y)[0] == x[k];
        }
        ReplaceAllCopies(x, y, "&amp;", "&");
      }
      assert t == [c] + t[1..];
    }
  }

  /** Decoding undoes HTML escaping of `"`, `'` and `&`: every title is
      recovered exactly, and an escaped `&` comes back as a literal `&`. */
  lemma DecodeEscapeRoundTrip(t: string)
    ensures DecodeTitle(EscapeHtml(t)) == t
  {
    DecodeQuotStage(t, true);
    DecodeAposStage(t);
    DecodeAmpStage(t);
  }

  /** Because `&amp;` is decoded last, text is decoded once only: an
      escaped ampersand comes back as a literal `&` in front of whatever the
      rest decodes to, and never joins that rest to form another entity
      (`&amp;quot;` decodes to `&quot;`, not to `"`). */
  lemma NoDoubleDecoding(t: string)
    ensures DecodeTitle("&amp;" + t) == "&" + DecodeTitle(t)
  {
    var x := "&amp;";
    forall k | 0 <= k < |x| ensures !("&quot;" <= x[k..] + t) {
      assert (x[k..] + t)[0] == x[k];
      if k == 0 { assert (x[k..] + t)[1] == x[1]; }
    }
    ReplaceAllCopies(x, t, "&quot;", "\"");
    var s1 := ReplaceAll(t, "&quot;", "\"");
    forall k | 0 <= k < |x| ensures !("&#39;" <= x[k..] + s1) {
      assert (x[k..] + s1)[0] == x[k];
      if k == 0 { assert (x[k..] + s1)[1] == x[1]; }
    }
    ReplaceAllCopies(x, s1, "&#39;", "'");
    ReplaceAllMatch(ReplaceAll(s1, "&#39;", "'"), "&amp;", "&");
  }

  /** The example itself: `&amp;quot;` decodes to `&quot;`. */
  lemma AmpQuotDecodesOnce(title: string)
    requires title == "&amp;quot;"
    ensures DecodeTitle(title) == "&quot;"
  {
    var rest := "quot;";
    NoDoubleDecoding(rest);
    DecodeTitleBounds(rest);
    assert title == "&amp;" + rest;
    assert "&" + rest == "&quot;";
  }

  /** The first two stages are exhaustive: after them no `&quot;` and no
      `&#39;` is left that was in the raw title. */
  lemma DecodeStagesExhaustive(title: string)
    ensures !Occurs(ReplaceAll(title, "&quot;", "\""), "&quot;")
    ensures !Occurs(ReplaceAll(ReplaceAll(title, "&quot;", "\""), "&#39;", "'"), "&#39;")
  {
    ReplaceAllLeavesNone(title, "&quot;", "\"");
    ReplaceAllLeavesNone(ReplaceAll(title, "&quot;", "\""), "&#39;", "'");
  }

  /** A title without `&` is returned unchanged, and no decoded title is
      longer than its input. */
  lemma DecodeTitleBounds(title: string)
    ensures (forall i :: 0 <= i < |title| ==> title[i] != '&') ==> DecodeTitle(title) == title
    ensures |DecodeTitle(title)| <= |title|
  {
    var s1 := ReplaceAll(title, "&quot;", "\"");
    var s2 := ReplaceAll(s1, "&#39;", "'");
    ReplaceAllShrinks(title, "&quot;", "\"");
    ReplaceAllShrinks(s1, "&#39;", "'");
    ReplaceAllShrinks(s2, "&amp;", "&");
    if forall i :: 0 <= i < |title| ==> title[i] != '&' {
      ReplaceAllAbsent(title, "&quot;", "\"");
      ReplaceAllAbsent(s1, "&#39;", "'");
      ReplaceAllAbsent(s2, "&amp;", "&");
    }
  }

  // ---------------------------------------------------------------------
  // Mapping one search hit.

  /** `high?.url || medium?.url`: an absent or empty high URL falls through
      to the medium one, which is taken as it is (possibly absent). */
  function PickThumbnail(t: Thumbnails): (r: Option<string>)
    ensures t.high.Some? && t.high.value.url != "" ==> r == Some(t.high.value.url)
    ensures (t.high.None? || t.high.value.url == "") && t.medium.Some? ==> r == Some(t.medium.value.url)
    ensures r.None? <==> (t.high.None? || t.high.value.url == "") && t.medium.None?
  {
    if t.high.Some? && t.high.value.url != "" then Some(t.high.value.url)
    else if t.medium.Some? then Some(t.medium.value.url)
    else None
  }

  function MapItem(item: SearchItem): VideoItem {
    VideoItem(item.id.videoId, DecodeTitle(item.snippet.title), item.snippet.channelTitle,
              PickThumbnail(item.snippet.thumbnails), None)
  }

  /** `data.items.map(...)`: one record per item, in the same order. */
  function MapItems(items: seq<SearchItem>): (r: seq<VideoItem>)
    ensures |r| == |items|
    ensures forall i :: 0 <= i < |items| ==>
      && r[i].id == items[i].id.videoId
      && r[i].title == DecodeTitle(items[i].snippet.title)
      && r[i].channelTitle == items[i].snippet.channelTitle
      && r[i].thumbnailUrl == PickThumbnail(items[i].snippet.thumbnails)
      && r[i].kind.None?
  {
    seq(|items|, i requires 0 <= i < |items| => MapItem(items[i]))
  }

  // ---------------------------------------------------------------------
  // searchYouTube.

  /** The key check that precedes any request. */
  function SearchRequest(query: string, apiKey: string): (r: Result<Request, string>)
    ensures r.Failure? <==> apiKey == ""
    ensures r.Failure? ==> r.error == MissingKeyMessage
    ensures r.Success? ==> r.value.query == query && r.value.apiKey == apiKey
  {
    if apiKey == "" then Failure(MissingKeyMessage) else Success(Request(query, apiKey))
  }

  /** `errorData.error?.message || "Failed to fetch from YouTube"`. */
  function ErrorMessage(message: Option<string>): (r: string)
    ensures r != ""
    ensures message.Some? && message.value != "" ==> r == message.value
    ensures message.None? || message.value == "" ==> r == FetchFailedMessage
  {
    if message.Some? && message.value != "" then message.value else FetchFailedMessage
  }

  /** What the client makes of the response to its request. */
  function SearchResponse(response: Response): (r: Result<seq<VideoItem>, string>)
    ensures response.Ok? ==> r.Success? && r.value == MapItems(response.items)
    ensures response.NotOk? ==> r.Failure? && r.error == ErrorMessage(response.errorMessage)
  {
    match response
    case Ok(items) => Success(MapItems(items))
    case NotOk(message) => Failure(ErrorMessage(message))
  }

  /** `searchYouTube(query, apiKey)`, with the response that `fetch` would
      deliver passed in. A missing key fails before the response is looked
      at, so whatever the network would have said plays no part. */
  function Search(query: string, apiKey: string, response: Response): (r: Result<seq<VideoItem>, string>)
    ensures apiKey == "" ==> r == Failure(MissingKeyMessage)
    ensures apiKey != "" ==> r == SearchResponse(response)
    ensures apiKey != "" && response.Ok? ==>
      r.Success? && |r.value| == |response.items|
    ensures apiKey != "" && response.NotOk? ==>
      r == Failure(ErrorMessage(response.errorMessage))
  {
    match SearchRequest(query, apiKey)
    case Failure(e) => Failure(e)
    case Success(_) => SearchResponse(response)
  }
}
