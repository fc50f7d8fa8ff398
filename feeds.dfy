/** The record extraction of `fetch_youtube` and `fetch_news`, over responses that the JSON and
    XML libraries have already parsed. */
module Feeds {
  import opened Wrappers
  import opened Text
  import opened Decimal

  /** The `snippet` object of one video of the "most popular" listing. */
  datatype Snippet = Snippet(title: Option<string>, channelTitle: Option<string>)

  /** The `statistics` object; the API sends `viewCount` as a decimal string. */
  datatype Statistics = Statistics(viewCount: Option<string>)

  /** One element of the response's `items` array. `id` and `snippet` are read with `v[...]`, so
      they are always there; `statistics` is read with `.get` and may be missing. */
  datatype ApiVideo = ApiVideo(id: string, snippet: Snippet, statistics: Option<Statistics>)

  /** The record `fetch_youtube` builds for one video. */
  datatype Video = Video(
    title: Option<string>,
    channel: Option<string>,
    views: Option<nat>,
    embed: string,
    href: string)

  /** One `<item>` of the RSS channel: `findtext` gives `None` for a missing child element and
      `""` for an empty one. */
  datatype FeedItem = FeedItem(title: Option<string>, link: Option<string>)

  /** The record `fetch_news` builds for one headline. */
  datatype Headline = Headline(title: string, href: string)

  const EmbedPrefix: string := "https://www.youtube.com/embed/"
  const WatchPrefix: string := "https://www.youtube.com/watch?v="

  /** `x or ""` on a value that is a string or `None`. */
  function OrEmpty(x: Option<string>): (r: string)
    ensures x.Some? ==> r == x.value
    ensures x.None? ==> r == ""
  {
    match x
    case None => ""
    case Some(s) => s
  }

  /** `r.json().get("items", [])`: a response without `items` lists no videos. */
  function Listed(items: Option<seq<ApiVideo>>): seq<ApiVideo>
  {
    match items
    case None => []
    case Some(vs) => vs
  }

  /** `v.get("statistics", {}).get("viewCount")`. */
  function ViewCountOf(v: ApiVideo): Option<string>
  {
    match v.statistics
    case None => None
    case Some(st) => st.viewCount
  }

  /** The view count, when present, is a string of decimal digits (possibly empty). */
  predicate CountIsDecimal(v: ApiVideo)
  {
    ViewCountOf(v).Some? ==> AllDigits(ViewCountOf(v).value)
  }

  /** `int(st.get("viewCount", 0)) if st.get("viewCount") else None`: an absent or empty count is
      unknown rather than zero; a present one is its decimal value, so "0" gives 0. */
  function ViewsOf(v: ApiVideo): (r: Option<nat>)
    requires CountIsDecimal(v)
    ensures r.None? <==> ViewCountOf(v) == None || ViewCountOf(v) == Some("")
  {
    match ViewCountOf(v)
    case None => None
    case Some(s) => if s == "" then None else Some(DigitsValue(s))
  }

  /** A view count the API sends in canonical decimal form is kept exactly: printing the parsed
      value gives back the API's digits (in particular "0" gives 0, not `None`). */
  lemma ViewsMatchCount(v: ApiVideo)
    requires ViewCountOf(v).Some? && Canonical(ViewCountOf(v).value)
    ensures CountIsDecimal(v)
    ensures ViewsOf(v).Some? && ToDecimal(ViewsOf(v).value) == ViewCountOf(v).value
  {
    DecimalOfValue(ViewCountOf(v).value);
  }

  /** A count of "0" is a known count of zero, not an unknown one. */
  lemma ZeroCount(v: ApiVideo)
    requires ViewCountOf(v) == Some("0")
    ensures CountIsDecimal(v) && ViewsOf(v) == Some(0)
  {
    assert "0"[..0] == [];
  }

  /** The record for one listed video. */
  function VideoOf(v: ApiVideo): (r: Video)
    requires CountIsDecimal(v)
    ensures r.title == v.snippet.title && r.channel == v.snippet.channelTitle
    ensures r.views == ViewsOf(v)
    ensures EmbedPrefix <= r.embed && r.embed[|EmbedPrefix|..] == v.id
    ensures WatchPrefix <= r.href && r.href[|WatchPrefix|..] == v.id
  {
    Video(v.snippet.title, v.snippet.channelTitle, ViewsOf(v), EmbedPrefix + v.id, WatchPrefix + v.id)
  }

  /** The item loop of `fetch_youtube`: one record per listed video, in the listing's order, with
      no truncation on this side. */
  method FetchYoutube(response: Option<seq<ApiVideo>>) returns (videos: seq<Video>)
    requires forall v | v in Listed(response) :: CountIsDecimal(v)
    ensures |videos| == |Listed(response)|
    ensures forall i | 0 <= i < |videos| :: videos[i] == VideoOf(Listed(response)[i])
  {
    var listed := Listed(response);
    videos := [];
    for i := 0 to |listed|
      invariant |videos| == i
      invariant forall k | 0 <= k < i :: videos[k] == VideoOf(listed[k])
    {
      var v := listed[i];
      assert v in listed;
      var views: Option<nat>;
      var count := ViewCountOf(v);
      if count.Some? && count.value != "" {
        views := Some(DigitsValue(count.value));
      } else {
        views := None;
      }
      videos := videos + [Video(v.snippet.title, v.snippet.channelTitle, views,
                                EmbedPrefix + v.id, WatchPrefix + v.id)];
    }
  }

  /** `items[:k]` with Python's slice semantics: a negative `k` counts from the end. */
  function SliceTo<T>(items: seq<T>, k: int): (r: seq<T>)
    ensures r <= items
    ensures |r| == if k >= 0 then (if k < |items| then k else |items|)
                   else (if |items| + k > 0 then |items| + k else 0)
  {
    var n := if k >= 0 then k else |items| + k;
    if n <= 0 then [] else if n < |items| then items[..n] else items
  }

  /** The item loop of `fetch_news`: the first `maxItems` feed items in feed order, a missing or
      empty title or link read as the empty string. */
  method FetchNews(entries: seq<FeedItem>, maxItems: int) returns (news: seq<Headline>)
    ensures |news| == |SliceTo(entries, maxItems)|
    ensures maxItems >= 0 ==> |news| == if maxItems < |entries| then maxItems else |entries|
    ensures forall i | 0 <= i < |news| ::
              news[i].title == OrEmpty(entries[i].title) && news[i].href == OrEmpty(entries[i].link)
  {
    var kept := SliceTo(entries, maxItems);
    news := [];
    for i := 0 to |kept|
      invariant |news| == i
      invariant forall k | 0 <= k < i ::
                  news[k].title == OrEmpty(entries[k].title) && news[k].href == OrEmpty(entries[k].link)
    {
      var item := kept[i];
      var title := if item.title.Some? then item.title.value else "";
      var link := if item.link.Some? then item.link.value else "";
      news := news + [Headline(title, link)];
    }
  }
}
