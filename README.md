# top-videos-aggregator: the record building, count formatting and page rendering of `fetch.py`

The script builds a static `index.html` in three steps: it turns the "most popular videos"
listing of the YouTube Data API into video records, turns the Google News RSS feed into
headline records, and renders both into a two-column HTML page. This project models the pure
core of those steps in Dafny and proves what they promise:

- `fmt_int` (Python's `f"{n:,}"` with the commas turned into spaces): module `Format`. `Decimal`
  supplies `str(n)` and `int(s)` for natural numbers.
- The per-item mapping of `fetch_youtube`: module `Feeds`. It works on an already parsed response,
  and a `for` loop builds the list as the script does.
- The truncation and defaulting of `fetch_news`: module `Feeds`. It works on already parsed feed
  items and keeps Python's slice semantics for `[:max_items]`.
- `html.escape` with `quote=True`: modules `Html` and `HtmlSafety`. It is the same five
  `str.replace` calls in the same order, shown equal to a per-character table, safe, and
  reversible.
- `render_html`: modules `Template` and `Render`. Two loops build the cards and the list items,
  and the page template is kept in full, style sheet included. The generation time is a
  parameter.
- Reading the rendered fragments back: modules `Reading` and `PageReading`. The proof that each
  card and each list item keeps what it was made from goes through a reader for the two
  f-strings. Each card reads back as what it shows of its video: the title and the channel,
  with a missing one as empty, the view count and both URLs. The list reads back as exactly the
  headlines. Both keep one entry per card or item, in order.

## Model

| member | source | states |
|---|---|---|
| Decimal.ToDecimal | fetch.py:53 | `str(n)` of a natural number is non-empty, has only digits and has no leading zero unless it is `0`. It has one digit exactly when `n < 10`. |
| Decimal.DigitsValue | fetch.py:27 | `int(s)` on a string of decimal digits, read digit by digit from the left. Decimal.ValueOfDecimal and Decimal.DecimalOfValue prove it the inverse of `str` on canonical strings. |
| Decimal.ShortDecimal | fetch.py:53 | `str(n)` has at most three digits exactly when `n < 1000`. |
| Decimal.ValueOfDecimal | fetch.py:27 | `int(str(n)) == n`. |
| Decimal.DecimalOfValue | fetch.py:27 | A canonical decimal string `s` satisfies `str(int(s)) == s`. |
| Decimal.DecimalInjective | fetch.py:53 | Different numbers have different decimal forms. |
| Format.Group | fetch.py:53 | The `,` format spec on the decimal digits: groups of three from the right, separated by commas. Format.GroupUngroup and Format.GroupedSpaced carry its promises. |
| Format.FmtInt | fetch.py:52-53 | `fmt_int(n)`: the comma-grouped decimal form with every comma replaced by a space. Its promises are in Format.FmtIntUngroups, Format.FmtIntRoundTrip, Format.FmtIntGrouped, Format.FmtIntSpaceIff, Format.FmtIntInjective, Format.FmtIntZero and Format.FmtIntSplit. |
| Format.SpacedGroups | fetch.py:53 | The grouped form of a number longer than three digits is the grouped form of all but its last three digits, a space, and those three digits. |
| Format.GroupUngroup | fetch.py:53 | The comma-grouped form of a digit string holds no space, and deleting its commas gives the digit string back. |
| Format.UngroupDigits | fetch.py:53 | Deleting the spaces from the grouped form of a digit string, with spaces for commas, gives the digit string back. |
| Format.FmtIntUngroups | fetch.py:52-53 | Removing the spaces from `fmt_int(n)` gives exactly `str(n)`. |
| Format.FmtIntRoundTrip | fetch.py:52-53 | `fmt_int(n)` without its spaces is all digits and parses back to `n`. |
| Format.GroupedSpaced | fetch.py:53 | The grouped form of `d` is a grouped digit string of length `len(d) + (len(d) - 1) // 3`. |
| Format.FmtIntGrouped | fetch.py:52-53 | `fmt_int(n)` is groups of three digits counted from the right, separated by single spaces, with a leading group of one to three digits. |
| Format.FmtIntSpaceIff | fetch.py:52-53 | `fmt_int(n)` contains a space if and only if `n >= 1000`. |
| Format.FmtIntInjective | fetch.py:52-53 | Different counts are formatted differently. |
| Format.FmtIntZero | fetch.py:52-53 | `fmt_int(0) == "0"`. |
| Format.DecimalSplit | fetch.py:53 | For `m > 0` and `k < 1000`, `str(1000*m + k)` is `str(m)` followed by `k` as three digits with leading zeros. |
| Format.FmtIntSplit | fetch.py:52-53 | For `m > 0` and `k < 1000`, `fmt_int(1000*m + k)` is `fmt_int(m)`, a space, and `k` as three zero-padded digits. |
| Html.Escape | fetch.py:58-59 | `html.escape(s)` with `quote=True`: the five `str.replace` calls for `&`, `<`, `>`, `"` and `'`, in that order. Html.EscapeIsPerChar, HtmlSafety.EscapeIsSafe and HtmlSafety.EscapeRoundTrip carry its promises. |
| Html.EscapeAppend | fetch.py:58 | Escaping distributes over concatenation. |
| Html.EscapeOne | fetch.py:58 | One character escapes to its entry of the table: `&amp;`, `&lt;`, `&gt;`, `&quot;` or `&#x27;`, and any other character to itself. |
| Html.EscapeIsPerChar | fetch.py:58 | The five chained replacements equal replacing every character by its table entry once, so no entity is escaped twice. |
| HtmlSafety.EscapedAppend | fetch.py:58 | Concatenating two safe strings gives a safe string. |
| HtmlSafety.EscapeIsSafe | fetch.py:58-59 | `html.escape(s)` contains no `<`, `>`, `"` or `'`, and every `&` in it starts one of the five entities. |
| HtmlSafety.UnescapeEscapeEach | fetch.py:58 | Decoding the five entities undoes the per-character escape. |
| HtmlSafety.EscapeRoundTrip | fetch.py:71 | Escaping loses nothing: decoding the five entities gives the original text back. |
| Feeds.OrEmpty | fetch.py:44-45 | `x or ""`: a present string is kept and a missing one becomes `""`. |
| Feeds.Listed | fetch.py:20 | `.get("items", [])`: a response without `items` lists no videos. Feeds.FetchYoutube states the result. |
| Feeds.ViewsOf | fetch.py:27 | The view count is unknown if and only if `viewCount` is missing (no statistics, or no field) or empty. |
| Feeds.ViewsMatchCount | fetch.py:27 | A present, canonical `viewCount` is kept exactly: printing the parsed count gives the API's digits back. |
| Feeds.ZeroCount | fetch.py:27 | A `viewCount` of `"0"` is a known count of zero, not an unknown one. |
| Feeds.VideoOf | fetch.py:24-30 | The record keeps the snippet's title and channel title. Its views come from the count rule. Its embed and watch URLs are the two URL prefixes followed by exactly the video id. |
| Feeds.FetchYoutube | fetch.py:19-31 | There is one record per listed video, in listing order. A response without `items` gives no records. |
| Feeds.SliceTo | fetch.py:43 | `items[:k]` is a prefix of `items` of length `min(k, len)` for `k >= 0`, and of length `max(len + k, 0)` for negative `k`. |
| Feeds.FetchNews | fetch.py:42-50 | The result has the first `min(max_items, len)` feed items, in feed order. A missing or empty title or link becomes `""`. |
| Render.ViewsLabel | fetch.py:60 | The views label: `fmt_int(n)` followed by ` views` for a known count, the em dash for an unknown one. Render.ViewsLabelDistinct, Render.ZeroViews, PageReading.ViewsLabelRoundTrip and PageReading.ViewsLabelPlain carry its promises. |
| Template.CardText | fetch.py:61-67 | The card f-string with its title, meta line, embed URL and watch URL. PageReading.CardIsFill and PageReading.CardFits carry its promises. |
| Render.Card | fetch.py:58-67 | The card of one video: the escaped title, the meta line of the escaped channel and the views label, and both URLs unescaped. PageReading.ReadCardFields and PageReading.CardsRoundTrip prove what it shows. |
| Template.ItemText | fetch.py:73 | The list-item f-string with its link and title. PageReading.ItemIsFill carries its promise. |
| Render.NewsItem | fetch.py:71-73 | The list item of one headline: the link unescaped and the title escaped. PageReading.ReadItemFields and PageReading.NewsRoundTrip prove it keeps the headline. |
| Template.Page | fetch.py:76-128 | The page template around the generation time, the joined cards and the joined list items, style sheet included. Render.RenderHtml states the page it yields. |
| Render.VideoCards | fetch.py:56-67 | The first loop yields exactly one card per video, in input order. |
| Render.NewsList | fetch.py:69-73 | The second loop yields exactly one list item per headline, in input order. |
| Render.RenderHtml | fetch.py:55-128 | The page is the template with the time, the joined cards and the joined list items inserted, in that order. |
| Render.RenderEmpty | fetch.py:112-119 | No videos give an empty grid and no headlines give an empty list. |
| Render.ViewsLabelDistinct | fetch.py:60 | The placeholder for an unknown count differs from the label of every known count. |
| Render.ZeroViews | fetch.py:60 | A count of zero is shown as `"0 views"`, not as the placeholder. |
| PageReading.ViewsLabelRoundTrip | fetch.py:60 | The views label reads back as the count it was made from, and the placeholder reads back as an unknown count. |
| PageReading.ViewsLabelPlain | fetch.py:60 | The views label contains no `<` and no bullet. |
| PageReading.ReadMetaRoundTrip | fetch.py:64 | The meta line `channel • views` reads back as the unescaped channel and the count. |
| PageReading.CardFits | fetch.py:61-67 | When the URLs hold no `"`, no field of a card holds the character that ends it. |
| PageReading.CardIsFill | fetch.py:61-67 | A card is the card f-string filled with its title, meta line, embed URL and watch URL. |
| PageReading.CardsSplit | fetch.py:112 | The joined cards split back into the fields of each card, in order. |
| PageReading.ReadCardFields | fetch.py:58-60 | Each card's fields read back as the video's title, channel, count and URLs. A missing title or channel reads back as empty. |
| PageReading.CardsRoundTrip | fetch.py:56-67 | The grid holds one card per video, in order, and each card shows its video's title, channel, view count, embed URL and watch URL. |
| PageReading.ItemIsFill | fetch.py:73 | A list item is the item f-string filled with the link and the escaped title, and those fields fit it. |
| PageReading.ReadItemFields | fetch.py:71-73 | Each item's fields read back as its headline. |
| PageReading.NewsRoundTrip | fetch.py:69-73 | The list holds one item per headline, in order, and reads back as the headlines themselves. |

## Left out

- Network I/O is not modelled: the two `requests.get` calls, `raise_for_status` and its `RequestError` abort. The adapters start from the parsed response.
- The JSON and XML parsers are not modelled: `r.json()` and `ElementTree.fromstring`/`findall`. The response is a sequence of `ApiVideo` values, the feed a sequence of `FeedItem` values.
- A `KeyError` for an API item without `id` or `snippet` is not modelled, because the datatype always has both fields.
- The query parameters are not modelled: `region`, `max_results`, the API key and the feed URL only shape the request.
- Feeds.FetchYoutube, Feeds.VideoOf and Feeds.ViewsOf: only `viewCount` strings of ASCII decimal digits are modelled, as the API sends them (the `requires CountIsDecimal`). `int()` also accepts signs, surrounding whitespace, underscores and non-ASCII Unicode digits. On other text it raises `ValueError`, which the script does not catch. A count that is not a string (a JSON number) is not modelled either.
- A `"statistics": null` in the response is not modelled: `st.get` would raise `AttributeError`, while the model's `None` for statistics stands for a missing key, which the script reads as no count.
- `datetime.now().strftime(...)` is not modelled: the formatted time is the `now` parameter of `Render.RenderHtml`.
- `main` is not modelled: the environment variable, the `SystemExit` message and writing `index.html`.
- `fmt_int` on negative numbers is not modelled: counts are natural numbers.
- PageReading.CardsRoundTrip and PageReading.NewsRoundTrip require URLs without `"`. `render_html` inserts the embed URL, watch URL and news link unescaped. A `"` in one of them would end the attribute early, so the text could not be read back.
- The site title is inserted into the page unescaped, as the script does. It is a constant, so nothing is proved about it.
