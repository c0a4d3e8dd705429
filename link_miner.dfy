/**
 * `find_unsubscribe_links` of the current filter (gmail_spam_killer_backup.py):
 * the matches of the four unsubscribe patterns in the plain body, with
 * trailing punctuation removed, and the qualifying anchors of the raw HTML,
 * gathered in a set and returned as a list without repetitions.
 *
 * The regular-expression search is not modelled: its matches, all four
 * patterns' one after another, are the input `matches`. HTML parsing is not
 * modelled either: the anchors that carry an `href` are the input `html`,
 * `None` when there is no raw HTML (or its parse raised before any anchor).
 */
module LinkMiner {
  import opened Wrappers
  import opened Text
  import opened Mail

  /** An `<a href=…>` element: its `href` and its text. */
  datatype Anchor = Anchor(href: string, text: string)

  /** The characters of the class `[>)\].,;"'\n]` removed from the end of a match. */
  predicate IsTrailing(c: char)
  {
    c == '>' || c == ')' || c == ']' || c == '.' || c == ',' || c == ';' || c == '"' || c == '\'' || c == '\n'
  }

  /** `re.sub(r'[>)\].,;"\'\n]*$', '', match)`: the longest run of those
      characters at the end is removed, and nothing else. */
  function StripTrailing(s: string): (r: string)
    ensures |r| <= |s| && r == s[..|r|]
    ensures r == [] || !IsTrailing(r[|r| - 1])
    ensures forall i :: |r| <= i < |s| ==> IsTrailing(s[i])
  {
    if s != [] && IsTrailing(s[|s| - 1]) then StripTrailing(s[..|s| - 1]) else s
  }

  lemma StripTrailingIdempotent(s: string)
    ensures StripTrailing(StripTrailing(s)) == StripTrailing(s)
  {
  }

  /** What every match of the four patterns satisfies: they all begin with
      `https?://`, in any case, because the search ignores case. */
  predicate FromPattern(m: string)
  {
    StartsWith(ToLower(m), "http")
  }

  /** Stripping never reaches into the `http` of a match. */
  lemma StripKeepsScheme(m: string)
    requires FromPattern(m)
    ensures FromPattern(StripTrailing(m))
  {
    var r := StripTrailing(m);
    assert ToLower(m)[3] == "http"[3];
    assert !IsTrailing(m[3]);
    assert |r| >= 4;
    assert m[..4] == r[..4];
    assert ToLower(r)[..4] == ToLower(m)[..4];
  }

  const TextWords := ["unsubscribe", "opt out", "remove", "stop"]
  const HrefWords := ["unsubscribe", "opt-out", "optout", "remove"]

  /** An anchor whose href is added: it starts with `http`, and its
      lower-cased text or its lower-cased href holds a keyword. */
  predicate Qualifies(a: Anchor)
  {
    StartsWith(a.href, "http") && (TextHit(a) || HrefHit(a))
  }

  predicate TextHit(a: Anchor)
  {
    ContainsAny(ToLower(a.text), TextWords)
  }

  predicate HrefHit(a: Anchor)
  {
    ContainsAny(ToLower(a.href), HrefWords)
  }

  /** The links of the text scan. */
  function TextLinks(matches: seq<string>): set<string>
  {
    set m | m in matches :: StripTrailing(m)
  }

  /** The links of the HTML scan. */
  function AnchorLinks(anchors: seq<Anchor>): set<string>
  {
    set a | a in anchors && Qualifies(a) :: a.href
  }

  /** Every link the function can return. */
  function Links(matches: seq<string>, html: Option<seq<Anchor>>): set<string>
  {
    TextLinks(matches) + (if html.Some? then AnchorLinks(html.value) else {})
  }

  lemma TextLinksStep(matches: seq<string>, i: nat)
    requires i < |matches|
    ensures TextLinks(matches[..i + 1]) == TextLinks(matches[..i]) + {StripTrailing(matches[i])}
  {
    assert matches[..i + 1] == matches[..i] + [matches[i]];
  }

  lemma AnchorLinksStep(anchors: seq<Anchor>, j: nat)
    requires j < |anchors|
    ensures AnchorLinks(anchors[..j + 1])
            == AnchorLinks(anchors[..j]) + (if Qualifies(anchors[j]) then {anchors[j].href} else {})
  {
    assert anchors[..j + 1] == anchors[..j] + [anchors[j]];
  }

  predicate NoDuplicates(s: seq<string>)
  {
    forall i, j :: 0 <= i < j < |s| ==> s[i] != s[j]
  }

  /** `links` lists the set `s`: every element once, in some order. */
  predicate Lists(links: seq<string>, s: set<string>)
  {
    (set u | u in links) == s && NoDuplicates(links) && |links| == |s|
  }

  /** `list(unsubscribe_urls)`: every element once, in some order. */
  method ListOf(urls: set<string>) returns (r: seq<string>)
    ensures (set u | u in r) == urls
    ensures NoDuplicates(r)
    ensures |r| == |urls|
  {
    r := [];
    var rest := urls;
    while rest != {}
      invariant rest <= urls
      invariant (set u | u in r) + rest == urls
      invariant forall k :: 0 <= k < |r| ==> r[k] !in rest
      invariant NoDuplicates(r)
      invariant |r| + |rest| == |urls|
      decreases |rest|
    {
      var u :| u in rest;
      r := r + [u];
      rest := rest - {u};
    }
  }

  /** The first loop of `find_unsubscribe_links`: each match, stripped of
      its trailing punctuation, is added to the set. */
  method AddTextLinks(matches: seq<string>, urls0: set<string>) returns (urls: set<string>)
    ensures urls == urls0 + TextLinks(matches)
  {
    urls := urls0;
    var i := 0;
    while i < |matches|
      invariant i <= |matches|
      invariant urls == urls0 + TextLinks(matches[..i])
    {
      TextLinksStep(matches, i);
      var url := StripTrailing(matches[i]);
      urls := urls + {url};
      i := i + 1;
    }
    assert matches[..i] == matches;
  }

  /** One anchor of the second loop: its href is added by the text test or
      by the href test, each gated on the `http` prefix. */
  method AddAnchor(link: Anchor, urls0: set<string>) returns (urls: set<string>)
    ensures urls == urls0 + (if Qualifies(link) then {link.href} else {})
  {
    urls := urls0;
    var href := link.href;
    if TextHit(link) {
      if StartsWith(href, "http") {
        urls := urls + {href};
      }
    }
    if HrefHit(link) {
      if StartsWith(href, "http") {
        urls := urls + {href};
      }
    }
  }

  /** The second loop of `find_unsubscribe_links`, over the anchors. */
  method AddAnchorLinks(anchors: seq<Anchor>, urls0: set<string>) returns (urls: set<string>)
    ensures urls == urls0 + AnchorLinks(anchors)
  {
    urls := urls0;
    var j := 0;
    while j < |anchors|
      invariant j <= |anchors|
      invariant urls == urls0 + AnchorLinks(anchors[..j])
    {
      AnchorLinksStep(anchors, j);
      urls := AddAnchor(anchors[j], urls);
      j := j + 1;
    }
    assert anchors[..j] == anchors;
  }

  /** `find_unsubscribe_links`: the set filled by both loops, returned as a list. */
  method FindUnsubscribeLinks(matches: seq<string>, html: Option<seq<Anchor>>) returns (links: seq<string>)
    ensures Lists(links, Links(matches, html))
  {
    var urls: set<string> := {};
    urls := AddTextLinks(matches, urls);
    if html.Some? {
      urls := AddAnchorLinks(html.value, urls);
    }
    links := ListOf(urls);
  }

  /** The links `find_unsubscribe_links` can return for an email: the
      matches in its stored body and the anchors of its raw HTML, which
      `get_raw_email_html` fetches by id (`anchorsOf`). */
  function LinkSet(e: Email, matchesOf: string -> seq<string>, anchorsOf: string -> Option<seq<Anchor>>): set<string>
  {
    Links(matchesOf(e.body), anchorsOf(e.id))
  }

  /** `find_unsubscribe_links(email['body'], get_raw_email_html(email['id']))`. */
  method LinksOf(e: Email, matchesOf: string -> seq<string>, anchorsOf: string -> Option<seq<Anchor>>)
    returns (links: seq<string>)
    ensures Lists(links, LinkSet(e, matchesOf, anchorsOf))
  {
    links := FindUnsubscribeLinks(matchesOf(e.body), anchorsOf(e.id));
  }

  // ----- What the links look like -----

  /** Every link begins with `http`: anchors' links as written, the text
      scan's in any case (as the patterns match them). */
  lemma LinksStartWithHttp(matches: seq<string>, html: Option<seq<Anchor>>)
    requires forall k :: 0 <= k < |matches| ==> FromPattern(matches[k])
    ensures forall u | u in Links(matches, html) :: FromPattern(u)
    ensures html.Some? ==> forall u | u in AnchorLinks(html.value) :: StartsWith(u, "http")
  {
    forall u | u in Links(matches, html) ensures FromPattern(u) {
      if u in TextLinks(matches) {
        var m :| m in matches && u == StripTrailing(m);
        StripKeepsScheme(m);
      } else {
        var a :| a in html.value && Qualifies(a) && u == a.href;
        assert ToLower(u)[..4] == ToLower(u[..4]);
      }
    }
  }

  /** No link of the text scan ends with one of the stripped characters. */
  lemma TextLinksClean(matches: seq<string>)
    ensures forall u | u in TextLinks(matches) :: u == [] || !IsTrailing(u[|u| - 1])
  {
  }

  /** An anchor's href is among the links exactly when some anchor with
      that href qualifies. */
  lemma AnchorLinksIff(anchors: seq<Anchor>, href: string)
    ensures href in AnchorLinks(anchors) <==> exists k :: 0 <= k < |anchors| && anchors[k].href == href && Qualifies(anchors[k])
  {
    if href in AnchorLinks(anchors) {
      var a :| a in anchors && Qualifies(a) && href == a.href;
      var k :| 0 <= k < |anchors| && anchors[k] == a;
    }
  }
}
