/** `render_html`: one card per video and one list item per headline, inside the page template.
    The generation time is a parameter, already formatted as `%Y-%m-%d %H:%M`. */
module Render {
  import opened Wrappers
  import opened Text
  import opened Format
  import opened Html
  import opened Feeds
  import opened Template

  /** Placeholder shown when a video's view count is unknown (an em dash). */
  const NoViews: string := "\U{2014}"

  /** `f'{fmt_int(n)} views'` for a known count, the placeholder for an unknown one. */
  function ViewsLabel(views: Option<nat>): string
  {
    match views
    case None => NoViews
    case Some(n) => FmtInt(n) + ViewsSuffix
  }

  /** The card of one video: escaped title, escaped channel and the views label in the meta line,
      the embed URL in the frame and the watch URL in the link, both as they are. */
  function Card(v: Video): string
  {
    CardText(Escape(OrEmpty(v.title)), MetaText(Escape(OrEmpty(v.channel)), ViewsLabel(v.views)), v.embed, v.href)
  }

  /** The list item of one headline: the link as it is, the title escaped. */
  function NewsItem(h: Headline): string
  {
    ItemText(h.href, Escape(h.title))
  }

  /** The first loop of `render_html`: one card per video, in input order. */
  method VideoCards(videos: seq<Video>) returns (cards: seq<string>)
    ensures cards == Map(Card, videos)
  {
    cards := [];
    for i := 0 to |videos|
      invariant cards == Map(Card, videos[..i])
    {
      var it := videos[i];
      var title := Escape(OrEmpty(it.title));
      var channel := Escape(OrEmpty(it.channel));
      var views := ViewsLabel(it.views);
      cards := cards + [CardText(title, MetaText(channel, views), it.embed, it.href)];
      MapPrefix(Card, videos, i);
    }
    assert videos[..|videos|] == videos;
  }

  /** The second loop of `render_html`: one list item per headline, in input order. */
  method NewsList(news: seq<Headline>) returns (items: seq<string>)
    ensures items == Map(NewsItem, news)
  {
    items := [];
    for i := 0 to |news|
      invariant items == Map(NewsItem, news[..i])
    {
      var n := news[i];
      var t := Escape(n.title);
      items := items + [ItemText(n.href, t)];
      MapPrefix(NewsItem, news, i);
    }
    assert news[..|news|] == news;
  }

  /** `render_html`: the page holds, in input order, exactly the cards of `videos` joined and
      the list items of `news` joined. */
  method RenderHtml(videos: seq<Video>, news: seq<Headline>, now: string) returns (page: string)
    ensures page == Page(now, Concat(Map(Card, videos)), Concat(Map(NewsItem, news)))
  {
    var cards := VideoCards(videos);
    var items := NewsList(news);
    page := Page(now, Concat(cards), Concat(items));
  }

  /** With no videos and no headlines the page is the bare template: empty grid, empty list. */
  lemma RenderEmpty(videos: seq<Video>, news: seq<Headline>)
    ensures videos == [] ==> Concat(Map(Card, videos)) == ""
    ensures news == [] ==> Concat(Map(NewsItem, news)) == ""
  {
  }

  /** The views label tells an unknown count from every known one. */
  lemma ViewsLabelDistinct(n: nat)
    ensures ViewsLabel(Some(n)) != ViewsLabel(None)
  {
    assert |ViewsLabel(Some(n))| > 1;
  }

  /** A count of zero is shown as a count, not as the placeholder. */
  lemma ZeroViews()
    ensures ViewsLabel(Some(0)) == "0 views"
  {
    FmtIntZero();
    assert ViewsLabel(Some(0)) == "0" + ViewsSuffix;
  }
}
