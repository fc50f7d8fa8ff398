/** The text of the page template and of the two f-strings that `render_html` fills. */
module Template {

  const SiteTitle: string := "Top Videos & News"

  const ViewsSuffix: string := " views"

  // The pieces of the card f-string. A piece that follows a field starts with the character that
  // ends the field; that character is kept as a literal of its own.
  const CardOpen: string := "\n        <article class=\"card\">\n          <h3>"
  const CardAfterTitle: string := "</h3>\n          <p class=\"meta\">"
  /** The bullet between the channel and the views label. */
  const Bullet: char := '\U{2022}'
  const MetaSeparator: string := [' ', Bullet, ' ']
  const CardAfterMeta: string := "</p>" + "\n          <div class=\"frame\"><iframe src=\""
  const CardAfterEmbed: string :=
    "\"" + " loading=\"lazy\" allowfullscreen></iframe></div>\n          <a class=\"link\" href=\""
  const CardClose: string :=
    "\"" + " target=\"_blank\" rel=\"noopener\">Deschide pe YouTube</a>\n        </article>"

  /** The meta line of a card: channel, bullet, views label. */
  function MetaText(channel: string, views: string): string
  {
    channel + MetaSeparator + views
  }

  /** The f-string of a card, filled with its already prepared pieces. */
  function CardText(title: string, meta: string, embed: string, href: string): string
  {
    CardOpen + title + CardAfterTitle + meta + CardAfterMeta + embed + CardAfterEmbed + href + CardClose
  }

  const ItemOpen: string := "<li><a href=\""
  const ItemAfterHref: string := "\" target=\"_blank\" rel=\"noopener\">"
  const ItemClose: string := "</a></li>"

  /** The f-string of a list item, filled with the link and the escaped title. */
  function ItemText(href: string, title: string): string
  {
    ItemOpen + href + ItemAfterHref + title + ItemClose
  }

  const StyleSheet: string :=
    "  :root{--bg:#fafafa;--fg:#111;--muted:#666;--card:#fff;--border:#eee;--link:#0366d6}\n"
    + "  body{font-family:system-ui,-apple-system,Segoe UI,Roboto,Ubuntu,Helvetica,Arial,sans-serif;margin:0;background:var(--bg);color:var(--fg)}\n"
    + "  header{position:sticky;top:0;background:#fff;border-bottom:1px solid var(--border);padding:12px 16px}\n"
    + "  header h1{font-size:18px;margin:0}\n"
    + "  header .sub{color:var(--muted);font-size:12px}\n"
    + "  main{max-width:1200px;margin:0 auto;padding:16px;display:grid;grid-template-columns:2fr 1fr;gap:20px}\n"
    + "  .grid{display:grid;grid-template-columns:repeat(auto-fill,minmax(300px,1fr));gap:16px}\n"
    + "  .card{background:var(--card);border:1px solid var(--border);border-radius:16px;padding:12px;box-shadow:0 1px 2px rgba(0,0,0,.04)}\n"
    + "  .card h3{font-size:16px;margin:0 0 8px}\n"
    + "  .meta{color:var(--muted);font-size:12px;margin:0 0 10px}\n"
    + "  .frame{position:relative;padding-bottom:56.25%;height:0;overflow:hidden;border-radius:12px;border:1px solid var(--border)}\n"
    + "  .frame iframe{position:absolute;top:0;left:0;width:100%;height:100%;border:0}\n"
    + "  .link{display:inline-block;margin-top:8px;font-size:12px;color:var(--link);text-decoration:none}\n"
    + "  aside .card{padding:16px}\n"
    + "  aside h2{font-size:16px;margin:0 0 8px}\n"
    + "  aside ul{list-style:disc;padding-left:18px;margin:0}\n"
    + "  aside li{margin:8px 0}\n"
    + "  footer{text-align:center;color:var(--muted);font-size:12px;padding:24px}\n"
    + "  @media (max-width:900px){ main{grid-template-columns:1fr} }\n"

  /** The template up to the generation time. The site title is inserted without escaping. */
  const PageOpen: string :=
    "<!doctype html>\n<html lang=\"ro\">\n<head>\n<meta charset=\"utf-8\">\n"
    + "<meta name=\"viewport\" content=\"width=device-width,initial-scale=1\">\n"
    + "<title>" + SiteTitle + "</title>\n<style>\n" + StyleSheet + "</style>\n</head>\n<body>\n"
    + "<header>\n  <h1>" + SiteTitle + "</h1>\n  <div class=\"sub\">Auto-actualizat \U{2022} "
  const PageAfterTime: string :=
    "</div>\n</header>\n<main>\n  <section>\n    <div class=\"grid\">\n      "
  const PageAfterCards: string :=
    "\n    </div>\n  </section>\n  <aside>\n    <div class=\"card\">\n"
    + "      <h2>\U{0218}tiri populare</h2>\n      <ul>\n        "
  const PageClose: string :=
    "\n      </ul>\n    </div>\n  </aside>\n</main>\n<footer>\n"
    + "  Folose\U{0219}te doar API-uri/embeds oficiale. Adaug\U{0103} descrieri & categorii pentru SEO/monetizare.\n"
    + "</footer>\n</body>\n</html>"

  /** The whole document around the two joined fragments. */
  function Page(now: string, cards: string, items: string): string
  {
    PageOpen + now + PageAfterTime + cards + PageAfterCards + items + PageClose
  }
}
