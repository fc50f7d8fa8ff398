module HtmlSafety {
  import opened Text
  import opened Html

  /** One of the five entities that `html.escape` writes starts at position `i` of `r`. */
  predicate EntityAt(r: string, i: nat)
    requires i <= |r|
  {
    var t := r[i..];
    "&amp;" <= t || "&lt;" <= t || "&gt;" <= t || "&quot;" <= t || "&#x27;" <= t
  }

  /** Text that is safe between tags and inside a quoted attribute: no raw `<`, `>`, `"` or `'`,
      and every `&` begins an entity. */
  predicate Escaped(r: string)
  {
    forall i | 0 <= i < |r| ::
      && r[i] != '<' && r[i] != '>' && r[i] != '"' && r[i] != '\''
      && (r[i] == '&' ==> EntityAt(r, i))
  }

  lemma EscapedAppend(a: string, b: string)
    requires Escaped(a) && Escaped(b)
    ensures Escaped(a + b)
  {
    var r := a + b;
    forall i | 0 <= i < |r| && r[i] == '&'
      ensures EntityAt(r, i)
    {
      if i < |a| {
        assert EntityAt(a, i);
        assert r[i..] == a[i..] + b;
      } else {
        assert EntityAt(b, i - |a|);
        assert r[i..] == b[i - |a|..];
      }
    }
    assert forall i | 0 <= i < |r| :: r[i] == if i < |a| then a[i] else b[i - |a|];
  }

  /** An entity is escaped text: its `&` begins itself and its other characters are plain. */
  lemma EntityEscaped(e: string)
    requires e == "&amp;" || e == "&lt;" || e == "&gt;" || e == "&quot;" || e == "&#x27;"
    ensures Escaped(e)
  {
    assert EntityAt(e, 0) by { assert e[0..] == e; }
    forall i | 0 <= i < |e|
      ensures e[i] != '<' && e[i] != '>' && e[i] != '"' && e[i] != '\''
      ensures e[i] == '&' ==> i == 0
    {
      if e == "&amp;" {
        assert e == ['&', 'a', 'm', 'p', ';'];
      } else if e == "&lt;" {
        assert e == ['&', 'l', 't', ';'];
      } else if e == "&gt;" {
        assert e == ['&', 'g', 't', ';'];
      } else if e == "&quot;" {
        assert e == ['&', 'q', 'u', 'o', 't', ';'];
      } else {
        assert e == ['&', '#', 'x', '2', '7', ';'];
      }
    }
  }

  lemma EscapeCharEscaped(x: char)
    ensures Escaped(EscapeChar(x))
  {
    if x == '&' || x == '<' || x == '>' || x == '"' || x == '\'' {
      EntityEscaped(EscapeChar(x));
    }
  }

  lemma {:induction false} EscapeEachEscaped(s: string)
    ensures Escaped(EscapeEach(s))
  {
    if s != [] {
      EscapeCharEscaped(s[0]);
      EscapeEachEscaped(s[1..]);
      EscapedAppend(EscapeChar(s[0]), EscapeEach(s[1..]));
    }
  }

  /** After `html.escape` a text holds no raw `<`, `>`, `"` or `'`, and each of its `&` begins
      one of `&amp;` `&lt;` `&gt;` `&quot;` `&#x27;`. */
  lemma EscapeIsSafe(s: string)
    ensures Escaped(Escape(s))
  {
    EscapeIsPerChar(s);
    EscapeEachEscaped(s);
  }

  /** Reads the five entities back; any other character stands for itself. */
  function Unescape(r: string): string
    decreases |r|
  {
    if r == [] then []
    else if "&amp;" <= r then "&" + Unescape(r[5..])
    else if "&lt;" <= r then "<" + Unescape(r[4..])
    else if "&gt;" <= r then ">" + Unescape(r[4..])
    else if "&quot;" <= r then "\"" + Unescape(r[6..])
    else if "&#x27;" <= r then "'" + Unescape(r[6..])
    else [r[0]] + Unescape(r[1..])
  }

  lemma UnescapeChar(x: char, rest: string)
    ensures Unescape(EscapeChar(x) + rest) == [x] + Unescape(rest)
  {
    var e := EscapeChar(x);
    var r := e + rest;
    assert r[..|e|] == e;
    assert r[|e|..] == rest;
    if x != '&' && x != '<' && x != '>' && x != '"' && x != '\'' {
      assert r[0] == x;
    } else {
      assert r[1] == e[1];
    }
  }

  lemma {:induction false} UnescapeEscapeEach(s: string)
    ensures Unescape(EscapeEach(s)) == s
  {
    if s != [] {
      UnescapeChar(s[0], EscapeEach(s[1..]));
      UnescapeEscapeEach(s[1..]);
    }
  }

  /** Escaping loses nothing: the escaped text reads back as the original. */
  lemma EscapeRoundTrip(s: string)
    ensures Unescape(Escape(s)) == s
  {
    EscapeIsPerChar(s);
    UnescapeEscapeEach(s);
  }
}
