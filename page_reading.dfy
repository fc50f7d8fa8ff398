/** Reading the two rendered fragments back: the card grid gives back, in order, what each card
    shows of its video, and the headline list gives back the headlines themselves. */
module PageReading {
  import opened Wrappers
  import opened Text
  import opened Decimal
  import opened Format
  import opened Html
  import opened HtmlSafety
  import opened Feeds
  import opened Template
  import opened Render
  import opened Reading

  /** The views label read back: the placeholder as an unknown count, a grouped number followed
      by " views" as that number. */
  function ReadViewsLabel(l: string): Option<Option<nat>>
  {
    if l == NoViews then Some(None)
    else if |l| > |ViewsSuffix| && l[|l| - |ViewsSuffix|..] == ViewsSuffix
         && AllDigits(Remove(l[..|l| - |ViewsSuffix|], ' '))
    then Some(Some(DigitsValue(Remove(l[..|l| - |ViewsSuffix|], ' '))))
    else None
  }

  /** The views label loses nothing: it reads back as the count it was made from, and the
      placeholder as an unknown count. */
  lemma ViewsLabelRoundTrip(views: Option<nat>)
    ensures ReadViewsLabel(ViewsLabel(views)) == Some(views)
  {
    if views.Some? {
      var n := views.value;
      var l, f := ViewsLabel(views), FmtInt(n);
      FmtIntGrouped(n);
      assert l[..|l| - |ViewsSuffix|] == f && l[|l| - |ViewsSuffix|..] == ViewsSuffix;
      assert l != NoViews by { assert |l| > 1; }
      FmtIntRoundTrip(n);
    }
  }

  /** The views label holds no `<` and no bullet. */
  lemma ViewsLabelPlain(views: Option<nat>)
    ensures '<' !in ViewsLabel(views) && Bullet !in ViewsLabel(views)
  {
    if views.Some? {
      var f := FmtInt(views.value);
      FmtIntGrouped(views.value);
      assert forall i | 0 <= i < |f| :: f[i] == ' ' || IsDigit(f[i]);
      assert ViewsSuffix == [' ', 'v', 'i', 'e', 'w', 's'];
      assert ViewsLabel(views) == f + ViewsSuffix;
    } else {
      assert NoViews == ['\U{2014}'];
    }
  }

  /** The position of the last `c` in `s`. */
  function LastIndexOf(s: string, c: char): (r: Option<nat>)
    ensures r.Some? ==> r.value < |s| && s[r.value] == c && c !in s[r.value + 1..]
    ensures r.None? ==> c !in s
  {
    if s == [] then None
    else if s[|s| - 1] == c then Some(|s| - 1)
    else
      var r := LastIndexOf(s[..|s| - 1], c);
      assert r.Some? ==> s[r.value + 1..] == s[..|s| - 1][r.value + 1..] + [s[|s| - 1]];
      r
  }

  lemma {:induction false} LastIndexAfter(a: string, c: char, b: string)
    requires c !in b
    ensures LastIndexOf(a + [c] + b, c) == Some(|a|)
  {
    var s := a + [c] + b;
    if b != [] {
      assert s[..|s| - 1] == a + [c] + b[..|b| - 1];
      assert s[|s| - 1] == b[|b| - 1];
      LastIndexAfter(a, c, b[..|b| - 1]);
    }
  }

  /** The meta line read back: the text before the last bullet unescaped as the channel, the
      text after it as the views label. */
  function ReadMeta(m: string): Option<(string, Option<nat>)>
  {
    match LastIndexOf(m, Bullet)
    case None => None
    case Some(k) =>
      if 1 <= k && m[k - 1] == ' ' && k + 1 < |m| && m[k + 1] == ' ' then
        match ReadViewsLabel(m[k + 2..])
        case None => None
        case Some(views) => Some((Unescape(m[..k - 1]), views))
      else None
  }

  /** A meta line whose views part holds no bullet splits at the bullet between the two. */
  lemma ReadMetaParts(e: string, l: string)
    requires Bullet !in l
    ensures ReadMeta(MetaText(e, l))
         == if ReadViewsLabel(l).Some? then Some((Unescape(e), ReadViewsLabel(l).value)) else None
  {
    var m := MetaText(e, l);
    assert m == (e + [' ']) + [Bullet] + ([' '] + l);
    LastIndexAfter(e + [' '], Bullet, [' '] + l);
    var k := |e| + 1;
    assert m[k - 1] == ' ' && m[k + 1] == ' ';
    assert m[..k - 1] == e && m[k + 2..] == l;
  }

  lemma ReadMetaRoundTrip(channel: string, views: Option<nat>)
    ensures ReadMeta(MetaText(Escape(channel), ViewsLabel(views))) == Some((channel, views))
  {
    ViewsLabelPlain(views);
    ReadMetaParts(Escape(channel), ViewsLabel(views));
    EscapeRoundTrip(channel);
    ViewsLabelRoundTrip(views);
  }

  const CardLits: seq<string> := [CardOpen, CardAfterTitle, CardAfterMeta, CardAfterEmbed, CardClose]
  const CardStops: seq<char> := ['<', '<', '"', '"']

  /** The four fields of a card: escaped title, meta line, embed URL, watch URL. */
  function CardFields(v: Video): seq<string>
  {
    [Escape(OrEmpty(v.title)), MetaText(Escape(OrEmpty(v.channel)), ViewsLabel(v.views)), v.embed, v.href]
  }

  /** Each field of the two f-strings is ended by the first character of the piece after it. */
  lemma PieceStarts()
    ensures CardAfterTitle[0] == '<' && CardAfterMeta[0] == '<'
    ensures CardAfterEmbed[0] == '"' && CardClose[0] == '"'
    ensures ItemAfterHref[0] == '"' && ItemClose[0] == '<'
  {
  }

  lemma FillFive(l: seq<string>, f: seq<string>)
    requires |l| == 5 && |f| == 4
    ensures Fill(l, f) == l[0] + f[0] + l[1] + f[1] + l[2] + f[2] + l[3] + f[3] + l[4]
  {
    var l4, f3 := l[..4], f[..3];
    var l3, f2 := l4[..3], f3[..2];
    var l2, f1 := l3[..2], f2[..1];
    assert Fill(l2, f1) == l[0] + f[0] + l[1] by {
      assert Fill(l2[..1], f1[..0]) == l[0];
    }
    assert Fill(l3, f2) == Fill(l2, f1) + f[1] + l[2];
    assert Fill(l4, f3) == Fill(l3, f2) + f[2] + l[3];
  }

  lemma FillThree(l: seq<string>, f: seq<string>)
    requires |l| == 3 && |f| == 2
    ensures Fill(l, f) == l[0] + f[0] + l[1] + f[1] + l[2]
  {
    var l2, f1 := l[..2], f[..1];
    assert Fill(l2, f1) == l[0] + f[0] + l[1] by {
      assert Fill(l2[..1], f1[..0]) == l[0];
    }
  }

  lemma CardIsFill(v: Video)
    ensures Card(v) == Fill(CardLits, CardFields(v))
  {
    FillFive(CardLits, CardFields(v));
  }

  lemma EscapeHasNoTag(s: string)
    ensures '<' !in Escape(s)
  {
    var e := Escape(s);
    EscapeIsSafe(s);
    assert forall i | 0 <= i < |e| :: e[i] != '<';
  }

  lemma MetaHasNoTag(channel: string, views: Option<nat>)
    ensures '<' !in MetaText(Escape(channel), ViewsLabel(views))
  {
    EscapeHasNoTag(channel);
    ViewsLabelPlain(views);
    assert '<' !in MetaSeparator;
  }

  /** Four fields fit the card template when the first two hold no `<` and the last two no `"`. */
  lemma CardFieldsFit(f: seq<string>)
    requires |f| == 4 && '<' !in f[0] && '<' !in f[1] && '"' !in f[2] && '"' !in f[3]
    ensures Fits(CardLits, CardStops, f)
  {
    PieceStarts();
    forall i | 0 <= i < 4
      ensures CardStops[i] !in f[i] && CardLits[i + 1] != [] && CardLits[i + 1][0] == CardStops[i]
    {
      if i == 0 {
        assert CardLits[1] == CardAfterTitle;
      } else if i == 1 {
        assert CardLits[2] == CardAfterMeta;
      } else if i == 2 {
        assert CardLits[3] == CardAfterEmbed;
      } else {
        assert CardLits[4] == CardClose;
      }
    }
  }

  lemma CardFits(v: Video)
    requires '"' !in v.embed && '"' !in v.href
    ensures Fits(CardLits, CardStops, CardFields(v))
  {
    var f := CardFields(v);
    assert f[0] == Escape(OrEmpty(v.title)) && f[1] == MetaText(Escape(OrEmpty(v.channel)), ViewsLabel(v.views));
    EscapeHasNoTag(OrEmpty(v.title));
    MetaHasNoTag(OrEmpty(v.channel), v.views);
    CardFieldsFit(f);
  }

  /** What a card shows of a video: a missing title or channel shows as empty. */
  datatype Shown = Shown(title: string, channel: string, views: Option<nat>, embed: string, href: string)

  function ShownOf(v: Video): Shown
  {
    Shown(OrEmpty(v.title), OrEmpty(v.channel), v.views, v.embed, v.href)
  }

  function ReadCardRows(rows: seq<seq<string>>): Option<seq<Shown>>
  {
    if rows == [] then Some([])
    else if |rows[0]| != 4 then None
    else
      match ReadMeta(rows[0][1])
      case None => None
      case Some(meta) =>
        match ReadCardRows(rows[1..])
        case None => None
        case Some(rest) => Some([Shown(Unescape(rows[0][0]), meta.0, meta.1, rows[0][2], rows[0][3])] + rest)
  }

  /** Reads a card grid back into what each card shows, in order. */
  function ReadCards(s: string): Option<seq<Shown>>
  {
    match ReadAll(CardLits, CardStops, s)
    case None => None
    case Some(rows) => ReadCardRows(rows)
  }

  /** One card's fields read back as what the card shows of its video. */
  lemma ReadCardRow(v: Video)
    ensures ReadMeta(CardFields(v)[1]) == Some((OrEmpty(v.channel), v.views))
    ensures Unescape(CardFields(v)[0]) == OrEmpty(v.title)
  {
    ReadMetaRoundTrip(OrEmpty(v.channel), v.views);
    EscapeRoundTrip(OrEmpty(v.title));
  }

  /** Rows that each read back as one shown card read back as those cards, in order. */
  lemma {:induction false} ReadCardRowsOf(rows: seq<seq<string>>, shown: seq<Shown>)
    requires |rows| == |shown|
    requires forall k | 0 <= k < |rows| ::
      && |rows[k]| == 4
      && ReadMeta(rows[k][1]) == Some((shown[k].channel, shown[k].views))
      && shown[k] == Shown(Unescape(rows[k][0]), shown[k].channel, shown[k].views, rows[k][2], rows[k][3])
    ensures ReadCardRows(rows) == Some(shown)
  {
    if rows != [] {
      ReadCardRowsOf(rows[1..], shown[1..]);
      assert [shown[0]] + shown[1..] == shown;
    }
  }

  lemma ReadCardFields(videos: seq<Video>)
    ensures ReadCardRows(Map(CardFields, videos)) == Some(Map(ShownOf, videos))
  {
    var rows, shown := Map(CardFields, videos), Map(ShownOf, videos);
    forall k | 0 <= k < |rows|
      ensures && |rows[k]| == 4
              && ReadMeta(rows[k][1]) == Some((shown[k].channel, shown[k].views))
              && shown[k] == Shown(Unescape(rows[k][0]), shown[k].channel, shown[k].views, rows[k][2], rows[k][3])
    {
      MapAt(CardFields, videos, k);
      MapAt(ShownOf, videos, k);
      ReadCardRow(videos[k]);
    }
    ReadCardRowsOf(rows, shown);
  }

  /** Every card of the grid is the card template filled with fitting fields. */
  lemma CardRows(videos: seq<Video>)
    requires forall i | 0 <= i < |videos| :: '"' !in videos[i].embed && '"' !in videos[i].href
    ensures FilledRows(CardLits, CardStops, Map(CardFields, videos), Map(Card, videos))
  {
    forall k | 0 <= k < |videos|
      ensures Fits(CardLits, CardStops, Map(CardFields, videos)[k]) && Map(Card, videos)[k] == Fill(CardLits, Map(CardFields, videos)[k])
    {
      MapAt(CardFields, videos, k);
      MapAt(Card, videos, k);
      CardIsFill(videos[k]);
      CardFits(videos[k]);
    }
  }

  /** The card grid splits back into the fields of its cards, in order. */
  lemma CardsSplit(videos: seq<Video>)
    requires forall i | 0 <= i < |videos| :: '"' !in videos[i].embed && '"' !in videos[i].href
    ensures ReadAll(CardLits, CardStops, Concat(Map(Card, videos))) == Some(Map(CardFields, videos))
  {
    CardRows(videos);
    ReadAllConcat(CardLits, CardStops, Map(CardFields, videos), Map(Card, videos));
  }

  /** The card grid holds exactly one card per video, in input order, and each card reads back as
      what it shows of its video: title, channel (a missing one as empty), view count, embed URL
      and watch URL. */
  lemma CardsRoundTrip(videos: seq<Video>)
    requires forall i | 0 <= i < |videos| :: '"' !in videos[i].embed && '"' !in videos[i].href
    ensures ReadCards(Concat(Map(Card, videos))) == Some(Map(ShownOf, videos))
  {
    CardsSplit(videos);
    ReadCardFields(videos);
  }

  const ItemLits: seq<string> := [ItemOpen, ItemAfterHref, ItemClose]
  const ItemStops: seq<char> := ['"', '<']

  /** The two fields of a list item: link, escaped title. */
  function ItemFields(h: Headline): seq<string>
  {
    [h.href, Escape(h.title)]
  }

  function ReadItemRows(rows: seq<seq<string>>): Option<seq<Headline>>
  {
    if rows == [] then Some([])
    else if |rows[0]| != 2 then None
    else
      match ReadItemRows(rows[1..])
      case None => None
      case Some(rest) => Some([Headline(Unescape(rows[0][1]), rows[0][0])] + rest)
  }

  /** Reads a headline list back into headlines, in order. */
  function ReadNews(s: string): Option<seq<Headline>>
  {
    match ReadAll(ItemLits, ItemStops, s)
    case None => None
    case Some(rows) => ReadItemRows(rows)
  }

  /** One item's fields read back as its headline. */
  lemma ReadItemRow(h: Headline)
    ensures Headline(Unescape(ItemFields(h)[1]), ItemFields(h)[0]) == h
  {
    EscapeRoundTrip(h.title);
  }

  lemma {:induction false} ReadItemFields(news: seq<Headline>)
    ensures ReadItemRows(Map(ItemFields, news)) == Some(news)
  {
    if news != [] {
      MapFront(ItemFields, news);
      ReadItemRow(news[0]);
      ReadItemFields(news[1..]);
      assert [news[0]] + news[1..] == news;
    }
  }

  lemma ItemIsFill(h: Headline)
    requires '"' !in h.href
    ensures Fits(ItemLits, ItemStops, ItemFields(h))
    ensures NewsItem(h) == Fill(ItemLits, ItemFields(h))
  {
    EscapeHasNoTag(h.title);
    PieceStarts();
    FillThree(ItemLits, ItemFields(h));
  }

  /** The headline list holds exactly one item per headline, in input order, and reads back as
      the headlines themselves: titles escaped without loss, links as they are. */
  lemma NewsRoundTrip(news: seq<Headline>)
    requires forall i | 0 <= i < |news| :: '"' !in news[i].href
    ensures ReadNews(Concat(Map(NewsItem, news))) == Some(news)
  {
    var rows := Map(ItemFields, news);
    var items := Map(NewsItem, news);
    forall k | 0 <= k < |rows|
      ensures Fits(ItemLits, ItemStops, rows[k]) && items[k] == Fill(ItemLits, rows[k])
    {
      MapAt(ItemFields, news, k);
      MapAt(NewsItem, news, k);
      ItemIsFill(news[k]);
    }
    ReadAllConcat(ItemLits, ItemStops, rows, items);
    ReadItemFields(news);
  }
}
