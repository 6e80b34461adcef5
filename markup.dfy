/**
 * HTML escaping and URL linking. Both versions of the widget carry the
 * same `escapeHtml` (assign `textContent`, read back `innerHTML`) and the
 * same global replace of `/(https?:\/\/[^\s]+)/g` by an anchor element.
 */
module Markup {
  import opened JsText

  /**
   * How the HTML fragment serialisation algorithm writes one character of
   * a text node: `&`, `<`, `>` and U+00A0 become character references,
   * everything else (quotes included) is written as it is.
   */
  function EscapeChar(c: char): string {
    if c == '&' then "&amp;"
    else if c == '<' then "&lt;"
    else if c == '>' then "&gt;"
    else if c == '\U{00A0}' then "&nbsp;"
    else [c]
  }

  predicate IsEscaped(c: char) {
    c == '&' || c == '<' || c == '>' || c == '\U{00A0}'
  }

  /** `escapeHtml(text)`: the `innerHTML` of a `div` whose `textContent` is `text`. */
  function EscapeHtml(s: string): (r: string)
    ensures |r| >= |s|
    ensures forall i :: 0 <= i < |r| ==> r[i] != '<' && r[i] != '>'
  {
    if s == [] then [] else EscapeChar(s[0]) + EscapeHtml(s[1..])
  }

  predicate HasPrefix(s: string, p: string) {
    |p| <= |s| && s[..|p|] == p
  }

  /** Reads the four character references back; the inverse of `EscapeHtml`. */
  function UnescapeHtml(s: string): string
    decreases |s|
  {
    if s == [] then []
    else if s[0] != '&' then [s[0]] + UnescapeHtml(s[1..])
    else if HasPrefix(s, "&amp;") then "&" + UnescapeHtml(s[5..])
    else if HasPrefix(s, "&lt;") then "<" + UnescapeHtml(s[4..])
    else if HasPrefix(s, "&gt;") then ">" + UnescapeHtml(s[4..])
    else if HasPrefix(s, "&nbsp;") then "\U{00A0}" + UnescapeHtml(s[6..])
    else [s[0]] + UnescapeHtml(s[1..])
  }

  /** Reading back one escaped character. */
  lemma UnescapeHead(c: char, rest: string)
    ensures UnescapeHtml(EscapeChar(c) + rest) == [c] + UnescapeHtml(rest)
  {
    var e := EscapeChar(c) + rest;
    if c == '&' {
      assert e[..5] == "&amp;" && e[5..] == rest;
    } else if c == '<' {
      assert e[1] == 'l' && e[..4] == "&lt;" && e[4..] == rest;
      assert !HasPrefix(e, "&amp;") by { assert "&amp;"[1] == 'a'; }
    } else if c == '>' {
      assert e[1] == 'g' && e[..4] == "&gt;" && e[4..] == rest;
      assert !HasPrefix(e, "&amp;") by { assert "&amp;"[1] == 'a'; }
      assert !HasPrefix(e, "&lt;") by { assert "&lt;"[1] == 'l'; }
    } else if c == '\U{00A0}' {
      assert e[1] == 'n' && e[..6] == "&nbsp;" && e[6..] == rest;
      assert !HasPrefix(e, "&amp;") by { assert "&amp;"[1] == 'a'; }
      assert !HasPrefix(e, "&lt;") by { assert "&lt;"[1] == 'l'; }
      assert !HasPrefix(e, "&gt;") by { assert "&gt;"[1] == 'g'; }
    } else {
      assert e[0] == c && e[1..] == rest;
    }
  }

  /** Escaping loses nothing: the displayed text is exactly the text that was typed. */
  lemma {:induction false} UnescapeEscape(s: string)
    ensures UnescapeHtml(EscapeHtml(s)) == s
  {
    if s != [] {
      UnescapeHead(s[0], EscapeHtml(s[1..]));
      UnescapeEscape(s[1..]);
      assert s == [s[0]] + s[1..];
    }
  }

  /** When the escaped text starts with a word that has no `&`, the text itself starts with it. */
  lemma {:induction false} EscapePrefix(t: string, u: string)
    requires HasPrefix(EscapeHtml(t), u) && forall k :: 0 <= k < |u| ==> u[k] != '&'
    ensures HasPrefix(t, u)
    decreases |u|
  {
    if u != [] {
      var e := EscapeHtml(t);
      assert t != [];
      var head := EscapeChar(t[0]);
      assert e == head + EscapeHtml(t[1..]);
      assert e[0] == u[0];
      assert !IsEscaped(t[0]);
      assert e[1..] == EscapeHtml(t[1..]);
      assert EscapeHtml(t[1..])[..|u| - 1] == u[1..];
      EscapePrefix(t[1..], u[1..]);
      assert t[..|u|] == [t[0]] + t[1..][..|u| - 1];
    }
  }

  /** Characters that occur in the character references `EscapeChar` writes. */
  predicate InReference(c: char) {
    c in "&amp;lt;gt;nbsp;"
  }

  /**
   * Escaping never makes a word appear that was not in the text, when the
   * word has no `&` and starts with a letter that no character reference
   * contains (as `http://` and `https://` do).
   */
  lemma {:induction false} EscapeOccurrence(s: string, w: string, j: nat)
    requires j <= |EscapeHtml(s)| && HasPrefix(EscapeHtml(s)[j..], w)
    requires w != [] && !InReference(w[0]) && forall k :: 0 <= k < |w| ==> w[k] != '&'
    ensures exists i :: 0 <= i <= |s| && HasPrefix(s[i..], w)
    decreases |s|
  {
    var e := EscapeHtml(s);
    assert s != [];
    var head := EscapeChar(s[0]);
    var rest := EscapeHtml(s[1..]);
    assert e == head + rest;
    if j >= |head| {
      assert e[j..] == rest[j - |head|..];
      EscapeOccurrence(s[1..], w, j - |head|);
      var i :| 0 <= i <= |s[1..]| && HasPrefix(s[1..][i..], w);
      assert s[1..][i..] == s[i + 1..];
    } else if IsEscaped(s[0]) {
      assert false;
    } else {
      assert e[j..] == e;
      EscapePrefix(s, w);
      assert s[0..] == s;
    }
  }

  /** The length of the `https?://` at the start of `s` (8 or 7), or 0 when there is none. */
  function SchemeLength(s: string): (n: nat)
    ensures n == 0 || n == 7 || n == 8
  {
    if HasPrefix(s, "https://") then 8
    else if HasPrefix(s, "http://") then 7
    else 0
  }

  /** The regular expression `https?:\/\/[^\s]+` matches at the start of `s`. */
  predicate StartsWithUrl(s: string) {
    var n := SchemeLength(s);
    0 < n < |s| && !IsSpace(s[n])
  }

  /** No position of `s` starts a match of the URL pattern. */
  ghost predicate UrlFree(s: string) {
    forall i :: 0 <= i < |s| ==> !StartsWithUrl(s[i..])
  }

  /** The end of the run of non-white-space characters that starts at `i`. */
  function RunEnd(s: string, i: nat): (e: nat)
    requires i <= |s|
    ensures i <= e <= |s| && (e == |s| || IsSpace(s[e]))
    ensures forall k :: i <= k < e ==> !IsSpace(s[k])
    decreases |s| - i
  {
    if i == |s| || IsSpace(s[i]) then i else RunEnd(s, i + 1)
  }

  /**
   * The markup that the replace callback of `linkify` builds around one
   * matched URL, as written: the URL goes into the double-quoted `href`
   * attribute unchanged, so a `"` inside it closes the attribute.
   */
  function Anchor(url: string): (r: string)
    ensures HasPrefix(r, HREF_OPEN) && |r| > 2 * |url|
  {
    HREF_OPEN + url + "\"" + ANCHOR_REST + url + "</a>"
  }

  /** The start of every anchor, `<a href="`, and what follows the `href` value's closing quote. */
  const HREF_OPEN: string := "<a href=\""
  const ANCHOR_REST: string := " target=\"_blank\" rel=\"noopener noreferrer\">"

  /** A `"` written as the character reference `&quot;`, as attribute values require. */
  function QuoteEscape(s: string): (r: string)
    ensures |r| >= |s|
    ensures forall i :: 0 <= i < |r| ==> r[i] != '"'
  {
    if s == [] then []
    else (if s[0] == '"' then "&quot;" else [s[0]]) + QuoteEscape(s[1..])
  }

  /** The anchor with its `href` value quote-escaped; the text content is already escaped. */
  function SafeAnchor(url: string): (r: string)
    ensures HasPrefix(r, HREF_OPEN) && |r| > 2 * |url|
  {
    HREF_OPEN + QuoteEscape(url) + "\"" + ANCHOR_REST + url + "</a>"
  }

  /** The text before the first `"` of `s`, or all of `s` when it has none. */
  function UpToQuote(s: string): (r: string)
    ensures HasPrefix(s, r) && forall i :: 0 <= i < |r| ==> r[i] != '"'
    ensures |r| < |s| ==> s[|r|] == '"'
  {
    if s == [] || s[0] == '"' then [] else [s[0]] + UpToQuote(s[1..])
  }

  /** The `href` value an HTML parser reads from a tag that starts with `<a href="`: up to the next `"`. */
  function HrefValue(tag: string): string
    requires HasPrefix(tag, HREF_OPEN)
  {
    UpToQuote(tag[|HREF_OPEN|..])
  }

  /** A quote-free `v` followed by a quote is read up to that quote. */
  lemma {:induction false} UpToQuoteOf(v: string, rest: string)
    requires forall i :: 0 <= i < |v| ==> v[i] != '"'
    ensures UpToQuote(v + "\"" + rest) == v
  {
    if v != [] {
      assert (v + "\"" + rest)[1..] == v[1..] + "\"" + rest;
      UpToQuoteOf(v[1..], rest);
    }
  }

  /** Text with none of the four escaped characters is serialised unchanged. */
  lemma {:induction false} EscapeIdentity(s: string)
    requires forall i :: 0 <= i < |s| ==> !IsEscaped(s[i])
    ensures EscapeHtml(s) == s
  {
    if s != [] {
      EscapeIdentity(s[1..]);
    }
  }

  /** The `href` value of an anchor is read up to the first quote of the URL it was given. */
  lemma HrefValueOfAnchor(url: string, v: string, rest: string)
    requires url == v + "\"" + rest
    requires forall i :: 0 <= i < |v| ==> v[i] != '"'
    ensures HrefValue(Anchor(url)) == v
  {
    var tail := rest + "\"" + ANCHOR_REST + url + "</a>";
    assert Anchor(url) == HREF_OPEN + (v + "\"" + tail);
    assert Anchor(url)[|HREF_OPEN|..] == v + "\"" + tail;
    UpToQuoteOf(v, tail);
  }

  /** The sample message `http://x"onclick="alert(1)`: one URL with a quote in it. */
  const QUOTED_URL: string := "http://x" + "\"" + "onclick=\"alert(1)"

  lemma QuotedUrlIsOneMatch()
    ensures EscapeHtml(QUOTED_URL) == QUOTED_URL
    ensures StartsWithUrl(QUOTED_URL) && RunEnd(QUOTED_URL, SchemeLength(QUOTED_URL)) == |QUOTED_URL|
  {
    QuotedUrlHasNoEscapes();
    EscapeIdentity(QUOTED_URL);
    QuotedUrlScheme();
    QuotedUrlHasNoSpace();
  }

  lemma QuotedUrlHasNoEscapes()
    ensures forall i :: 0 <= i < |QUOTED_URL| ==> !IsEscaped(QUOTED_URL[i])
  {
  }

  lemma QuotedUrlHasNoSpace()
    ensures forall i :: 0 <= i < |QUOTED_URL| ==> !IsSpace(QUOTED_URL[i])
  {
  }

  lemma QuotedUrlScheme()
    ensures SchemeLength(QUOTED_URL) == 7
  {
    assert QUOTED_URL[..7] == "http://";
    assert QUOTED_URL[..8][4] == ':' != "https://"[4];
  }

  /** A message that is one whole URL match after escaping is rendered as the one anchor around it. */
  lemma WholeUrlRendersAsOneAnchor(content: string, quoteSafe: bool)
    requires EscapeHtml(content) == content
    requires StartsWithUrl(content) && RunEnd(content, SchemeLength(content)) == |content|
    ensures LinkifyUrls(EscapeHtml(content), quoteSafe) == LinkMarkup(content, quoteSafe)
  {
    var e := |content|;
    assert content[..e] == content && content[e..] == [];
  }

  /**
   * As written, that message passes `escapeHtml` unchanged, is matched
   * whole by the URL pattern, and is rendered as one anchor whose `href`
   * stops at the quote: the rest of the URL, `onclick="alert(1)`, becomes
   * a new attribute of the element, which runs script.
   */
  lemma QuoteEndsHrefEarly()
    ensures FormatMessageContent(QUOTED_URL) == Anchor(QUOTED_URL)
    ensures HrefValue(FormatMessageContent(QUOTED_URL)) == "http://x" != QUOTED_URL
  {
    QuotedUrlIsOneMatch();
    WholeUrlRendersAsOneAnchor(QUOTED_URL, false);
    HrefValueOfAnchor(QUOTED_URL, "http://x", "onclick=\"alert(1)");
  }

  /** Corrected, the same message is rendered as one anchor whose `href` holds the whole URL, its quotes escaped. */
  lemma SafeQuotedUrlKeepsHref()
    ensures SafeFormatMessageContent(QUOTED_URL) == SafeAnchor(QUOTED_URL)
    ensures HrefValue(SafeFormatMessageContent(QUOTED_URL)) == QuoteEscape(QUOTED_URL)
  {
    QuotedUrlIsOneMatch();
    WholeUrlRendersAsOneAnchor(QUOTED_URL, true);
    SafeHrefIsWholeUrl(QUOTED_URL);
  }

  /** With the quote escaped, the `href` value runs to the quote the anchor itself closes it with. */
  lemma SafeHrefIsWholeUrl(url: string)
    ensures HrefValue(SafeAnchor(url)) == QuoteEscape(url)
  {
    var q := QuoteEscape(url);
    var tail := ANCHOR_REST + url + "</a>";
    assert SafeAnchor(url) == HREF_OPEN + (q + "\"" + tail);
    assert SafeAnchor(url)[|HREF_OPEN|..] == q + "\"" + tail;
    UpToQuoteOf(q, tail);
  }

  /** The anchor built for one match: as written (`Anchor`) or with the `href` value quote-escaped (`SafeAnchor`). */
  function LinkMarkup(url: string, quoteSafe: bool): (r: string)
    ensures |r| > 2 * |url|
  {
    if quoteSafe then SafeAnchor(url) else Anchor(url)
  }

  /**
   * `text.replace(/(https?:\/\/[^\s]+)/g, url => anchor(url))`: scanning
   * left to right, each match (the scheme and the longest run of
   * non-white-space after it) is replaced and the scan resumes after it.
   * The source builds `Anchor`s (`quoteSafe` false); `quoteSafe` true is
   * the corrected replacement.
   */
  function LinkifyUrls(s: string, quoteSafe: bool): (r: string)
    ensures |r| >= |s|
    decreases |s|
  {
    if s == [] then []
    else if StartsWithUrl(s) then
      var e := RunEnd(s, SchemeLength(s));
      LinkMarkup(s[..e], quoteSafe) + LinkifyUrls(s[e..], quoteSafe)
    else [s[0]] + LinkifyUrls(s[1..], quoteSafe)
  }

  lemma UrlFreeTail(s: string)
    requires s != [] && UrlFree(s)
    ensures UrlFree(s[1..])
  {
    forall i | 0 <= i < |s[1..]|
      ensures !StartsWithUrl(s[1..][i..])
    {
      assert s[1..][i..] == s[i + 1..];
    }
  }

  /** Text without a URL is returned unchanged. */
  lemma {:induction false} LinkifyUrlFree(s: string, quoteSafe: bool)
    requires UrlFree(s)
    ensures LinkifyUrls(s, quoteSafe) == s
    decreases |s|
  {
    if s != [] {
      assert s[0..] == s;
      UrlFreeTail(s);
      LinkifyUrlFree(s[1..], quoteSafe);
    }
  }

  /** Linking lengthens the text as soon as there is a URL in it. */
  lemma {:induction false} LinkifyLength(s: string, quoteSafe: bool)
    ensures !UrlFree(s) ==> |LinkifyUrls(s, quoteSafe)| > |s|
    decreases |s|
  {
    if s != [] {
      if !StartsWithUrl(s) {
        LinkifyLength(s[1..], quoteSafe);
        if !UrlFree(s) {
          var i :| 0 <= i < |s| && StartsWithUrl(s[i..]);
          assert i != 0;
          assert s[1..][i - 1..] == s[i..];
        }
      }
    }
  }

  /** `linkify` changes the text exactly when some position starts a URL. */
  lemma LinkifyIdentityIff(s: string, quoteSafe: bool)
    ensures LinkifyUrls(s, quoteSafe) == s <==> UrlFree(s)
  {
    LinkifyLength(s, quoteSafe);
    if UrlFree(s) {
      LinkifyUrlFree(s, quoteSafe);
    }
  }

  /** Neither `http://` nor `https://` occurs anywhere in `s`. */
  ghost predicate NoScheme(s: string) {
    forall i :: 0 <= i <= |s| ==> !HasPrefix(s[i..], "http://") && !HasPrefix(s[i..], "https://")
  }

  /** Escaping a text that names no URL scheme gives a text with no URL in it. */
  lemma EscapeKeepsUrlFree(s: string)
    requires NoScheme(s)
    ensures UrlFree(EscapeHtml(s))
  {
    var e := EscapeHtml(s);
    forall j | 0 <= j < |e|
      ensures !StartsWithUrl(e[j..])
    {
      if HasPrefix(e[j..], "https://") {
        SchemeOccurrence(s, "https://", j);
      } else if HasPrefix(e[j..], "http://") {
        SchemeOccurrence(s, "http://", j);
      }
    }
  }

  /** A scheme found in the escaped text was already in the text. */
  lemma SchemeOccurrence(s: string, w: string, j: nat)
    requires w == "http://" || w == "https://"
    requires j <= |EscapeHtml(s)| && HasPrefix(EscapeHtml(s)[j..], w)
    ensures exists i :: 0 <= i <= |s| && HasPrefix(s[i..], w)
  {
    SchemeWord(w);
    EscapeOccurrence(s, w, j);
  }

  /** Neither scheme has an `&`, and both start with a letter no character reference contains. */
  lemma SchemeWord(w: string)
    requires w == "http://" || w == "https://"
    ensures w != [] && !InReference(w[0]) && forall k :: 0 <= k < |w| ==> w[k] != '&'
  {
    assert w[0] == 'h';
  }

  /** Every `<` of `r` opens an anchor (`<a href="`) or closes one (`</a>`): no other tag is in it. */
  ghost predicate OnlyAnchorTags(r: string) {
    forall i :: 0 <= i < |r| && r[i] == '<' ==> HasPrefix(r[i..], HREF_OPEN) || HasPrefix(r[i..], "</a>")
  }

  /** Text without `<` has no tag. */
  lemma NoLtOnlyAnchorTags(s: string)
    requires forall i :: 0 <= i < |s| ==> s[i] != '<'
    ensures OnlyAnchorTags(s)
  {
  }

  /** Tags are kept when two pieces are joined. */
  lemma OnlyAnchorTagsAppend(a: string, b: string)
    requires OnlyAnchorTags(a) && OnlyAnchorTags(b)
    ensures OnlyAnchorTags(a + b)
  {
    var r := a + b;
    forall i | 0 <= i < |r| && r[i] == '<'
      ensures HasPrefix(r[i..], HREF_OPEN) || HasPrefix(r[i..], "</a>")
    {
      if i < |a| {
        assert r[i..] == a[i..] + b;
        assert a[i] == '<';
        if HasPrefix(a[i..], HREF_OPEN) {
          assert r[i..][..|HREF_OPEN|] == a[i..][..|HREF_OPEN|];
        } else {
          assert r[i..][..4] == a[i..][..4];
        }
      } else {
        assert r[i..] == b[i - |a|..];
      }
    }
  }

  /** Quote-escaping adds no `<`. */
  lemma {:induction false} QuoteEscapeNoLt(s: string)
    requires forall i :: 0 <= i < |s| ==> s[i] != '<'
    ensures forall i :: 0 <= i < |QuoteEscape(s)| ==> QuoteEscape(s)[i] != '<'
  {
    if s != [] {
      QuoteEscapeNoLt(s[1..]);
      var h := if s[0] == '"' then "&quot;" else [s[0]];
      assert QuoteEscape(s) == h + QuoteEscape(s[1..]);
    }
  }

  /** An anchor around a URL without `<` has only its own two tags. */
  lemma LinkMarkupTags(url: string, quoteSafe: bool)
    requires forall i :: 0 <= i < |url| ==> url[i] != '<'
    ensures OnlyAnchorTags(LinkMarkup(url, quoteSafe))
  {
    var v := if quoteSafe then QuoteEscape(url) else url;
    QuoteEscapeNoLt(url);
    var rest := "\"" + ANCHOR_REST;
    OpenTagOnly();
    CloseTagOnly();
    AnchorRestOnly();
    NoLtOnlyAnchorTags(v);
    NoLtOnlyAnchorTags(url);
    OnlyAnchorTagsAppend(HREF_OPEN, v);
    OnlyAnchorTagsAppend(HREF_OPEN + v, rest);
    OnlyAnchorTagsAppend(HREF_OPEN + v + rest, url);
    OnlyAnchorTagsAppend(HREF_OPEN + v + rest + url, "</a>");
    assert LinkMarkup(url, quoteSafe) == HREF_OPEN + v + rest + url + "</a>";
  }

  lemma OpenTagOnly()
    ensures OnlyAnchorTags(HREF_OPEN)
  {
    assert HREF_OPEN[0..] == HREF_OPEN;
    assert forall i :: 0 < i < |HREF_OPEN| ==> HREF_OPEN[i] != '<';
  }

  lemma CloseTagOnly()
    ensures OnlyAnchorTags("</a>")
  {
    assert "</a>"[0..] == "</a>";
  }

  lemma AnchorRestOnly()
    ensures OnlyAnchorTags("\"" + ANCHOR_REST)
  {
    var rest := "\"" + ANCHOR_REST;
    assert '<' !in rest;
    NoLtOnlyAnchorTags(rest);
  }

  /** Linking text without `<` adds only anchor tags. */
  lemma {:induction false} LinkifyTags(s: string, quoteSafe: bool)
    requires forall i :: 0 <= i < |s| ==> s[i] != '<'
    ensures OnlyAnchorTags(LinkifyUrls(s, quoteSafe))
    decreases |s|
  {
    if s != [] {
      if StartsWithUrl(s) {
        var e := RunEnd(s, SchemeLength(s));
        LinkifyTags(s[e..], quoteSafe);
        LinkMarkupTags(s[..e], quoteSafe);
        OnlyAnchorTagsAppend(LinkMarkup(s[..e], quoteSafe), LinkifyUrls(s[e..], quoteSafe));
      } else {
        LinkifyTags(s[1..], quoteSafe);
        NoLtOnlyAnchorTags([s[0]]);
        OnlyAnchorTagsAppend([s[0]], LinkifyUrls(s[1..], quoteSafe));
      }
    }
  }

  /**
   * Whatever a message holds, its rendering, as written or corrected, has no
   * tag but the anchors the linking inserts: a typed `<img onerror=…>`
   * is shown as text.
   */
  lemma RenderedTagsAreAnchors(content: string)
    ensures OnlyAnchorTags(FormatMessageContent(content))
    ensures OnlyAnchorTags(SafeFormatMessageContent(content))
  {
    LinkifyTags(EscapeHtml(content), false);
    LinkifyTags(EscapeHtml(content), true);
  }

  /** How both versions render a chat message, as written: `linkify(escapeHtml(content))` (`formatMessageContent`). */
  function FormatMessageContent(content: string): (r: string)
    ensures |r| >= |content|
  {
    LinkifyUrls(EscapeHtml(content), false)
  }

  /** The corrected rendering: the same, with every `href` value quote-escaped. */
  function SafeFormatMessageContent(content: string): (r: string)
    ensures |r| >= |content|
  {
    LinkifyUrls(EscapeHtml(content), true)
  }

  /** A message that names no URL scheme is rendered as just its escaped text, by both renderings. */
  lemma FormatWithoutScheme(content: string)
    requires NoScheme(content)
    ensures FormatMessageContent(content) == EscapeHtml(content)
    ensures SafeFormatMessageContent(content) == EscapeHtml(content)
  {
    EscapeKeepsUrlFree(content);
    LinkifyUrlFree(EscapeHtml(content), false);
    LinkifyUrlFree(EscapeHtml(content), true);
  }
}
