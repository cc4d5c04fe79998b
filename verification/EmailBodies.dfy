/**
 The two bodies of an alert email, assembled side by side (buildBodies in
 internal/notifier/render.go), and a reader for the HTML one: it drops tags,
 breaks lines where a block ends, collects link targets and decodes entities. It
 may write a mark where emphasis begins or ends.
 */
module EmailBodies {
  import opened Basics
  import opened BoldMarkup

  // ---- reading HTML ----

  /** What a reader gets out of a page: its text, entities still encoded, and where its links lead. */
  datatype Page = Page(text: string, links: seq<string>)

  const BLANK := Page("", [])

  function Join(p: Page, q: Page): Page {
    Page(p.text + q.text, p.links + q.links)
  }

  /** A tag reaches to the next '>'. */
  function TagEnd(t: string): (n: nat)
    ensures n <= |t| && (t != "" ==> n > 0)
  {
    if t == "" then 0 else if t[0] == '>' then 1 else 1 + TagEnd(t[1..])
  }

  function UpToQuote(t: string): string {
    if t == "" || t[0] == '"' then "" else [t[0]] + UpToQuote(t[1..])
  }

  const HREF := "<a href=\""

  function TagPage(mark: string, tag: string): Page {
    if tag == "</p>" || tag == "</h2>" then Page("\n\n", [])
    else if tag == "<strong>" || tag == "</strong>" then Page(mark, [])
    else if HREF <= tag then Page("", [Unescape(UpToQuote(tag[|HREF|..]))])
    else BLANK
  }

  function View(mark: string, t: string): Page
    decreases |t|
  {
    if t == "" then BLANK
    else if t[0] == '<' then Join(TagPage(mark, t[..TagEnd(t)]), View(mark, t[TagEnd(t)..]))
    else Join(Page([t[0]], []), View(mark, t[1..]))
  }

  datatype Decoded = Decoded(c: char, len: nat)

  /** The five references that escaping writes. */
  function Entity(t: string): (d: Decoded)
    requires t != ""
    ensures 0 < d.len <= |t|
  {
    if "&amp;" <= t then Decoded('&', 5)
    else if "&lt;" <= t then Decoded('<', 4)
    else if "&gt;" <= t then Decoded('>', 4)
    else if "&#39;" <= t then Decoded('\'', 5)
    else if "&#34;" <= t then Decoded('"', 5)
    else Decoded(t[0], 1)
  }

  function Unescape(t: string): string
    decreases |t|
  {
    if t == "" then "" else [Entity(t).c] + Unescape(t[Entity(t).len..])
  }

  lemma EntityOfEscape(c: char, t: string)
    ensures Entity(EscapeChar(c) + t) == Decoded(c, |EscapeChar(c)|)
  {
    var u := EscapeChar(c) + t;
    assert u[0] == EscapeChar(c)[0];
    if c == '&' {
      assert "&amp;" <= u && u[1] == 'a';
    } else if c == '<' {
      assert "&lt;" <= u && u[1] == 'l';
    } else if c == '>' {
      assert "&gt;" <= u && u[1] == 'g';
    } else if c == '\'' {
      assert "&#39;" <= u && u[3] == '9';
    } else if c == '"' {
      assert "&#34;" <= u && u[3] == '4';
    }
  }

  /** Decoding once gives back exactly what was escaped. */
  lemma {:induction false} EscapeRoundTrip(s: string)
    ensures Unescape(Escape(s)) == s
  {
    if s != "" {
      EscapeRoundTrip(s[1..]);
      EntityOfEscape(s[0], Escape(s[1..]));
      assert Escape(s) == EscapeChar(s[0]) + Escape(s[1..]);
      assert Escape(s)[|EscapeChar(s[0])|..] == Escape(s[1..]);
    }
  }

  // ---- pieces of a page ----

  /** A piece of HTML that stands for p wherever it is followed by more. */
  ghost predicate Shows(mark: string, h: string, p: Page) {
    forall t :: View(mark, h + t) == Join(p, View(mark, t))
  }

  lemma ShowsNothing(mark: string)
    ensures Shows(mark, "", BLANK)
  {
    forall t ensures View(mark, "" + t) == Join(BLANK, View(mark, t)) {
      assert "" + t == t;
    }
  }

  lemma JoinAssoc(p: Page, q: Page, r: Page)
    ensures Join(p, Join(q, r)) == Join(Join(p, q), r)
  {
    Assoc(p.text, q.text, r.text);
    assert p.links + (q.links + r.links) == p.links + q.links + r.links;
  }

  lemma ShowsBoth(mark: string, h: string, p: Page, k: string, q: Page)
    requires Shows(mark, h, p) && Shows(mark, k, q)
    ensures Shows(mark, h + k, Join(p, q))
  {
    forall t ensures View(mark, h + k + t) == Join(Join(p, q), View(mark, t)) {
      Assoc(h, k, t);
      assert View(mark, h + (k + t)) == Join(p, View(mark, k + t));
      assert View(mark, k + t) == Join(q, View(mark, t));
      JoinAssoc(p, q, View(mark, t));
    }
  }

  lemma ShowsChar(mark: string, c: char)
    requires c != '<'
    ensures Shows(mark, [c], Page([c], []))
  {
    forall t ensures View(mark, [c] + t) == Join(Page([c], []), View(mark, t)) {
      assert ([c] + t)[1..] == t;
    }
  }

  lemma {:induction false} ShowsText(mark: string, w: string)
    requires '<' !in w
    ensures Shows(mark, w, Page(w, []))
  {
    if w == "" {
      ShowsNothing(mark);
    } else {
      ShowsText(mark, w[1..]);
      ShowsChar(mark, w[0]);
      ShowsBoth(mark, [w[0]], Page([w[0]], []), w[1..], Page(w[1..], []));
      assert [w[0]] + w[1..] == w;
    }
  }

  lemma {:induction false} TagEndsAt(w: string, t: string)
    requires '>' !in w
    ensures TagEnd(w + ">" + t) == |w| + 1
  {
    if w != "" {
      TagEndsAt(w[1..], t);
      assert (w + ">" + t)[1..] == w[1..] + ">" + t;
    }
  }

  lemma ShowsTag(mark: string, w: string)
    requires w != "" && w[0] == '<' && '>' !in w
    ensures Shows(mark, w + ">", TagPage(mark, w + ">"))
  {
    forall t ensures View(mark, w + ">" + t) == Join(TagPage(mark, w + ">"), View(mark, t)) {
      TagEndsAt(w, t);
      var u := w + ">" + t;
      assert u[..|w| + 1] == w + ">" && u[|w| + 1..] == t;
    }
  }

  /** A tag that neither ends a block nor links anywhere. */
  lemma ShowsSilentTag(mark: string, w: string)
    requires |w| >= 2 && w[0] == '<' && w[1] != '/' && w[1] != 'a' && w[1] != 's' && '>' !in w
    ensures Shows(mark, w + ">", BLANK)
  {
    ShowsTag(mark, w);
    assert (w + ">")[1] == w[1] && "</p>"[1] == "</h2>"[1] == "</strong>"[1] == '/' && HREF[1] == 'a' && "<strong>"[1] == 's';
  }

  lemma {:induction false} EscapeIsFree(s: string)
    ensures forall c :: c in {'<', '>', '"', '\''} ==> c !in Escape(s)
  {
    if s != "" {
      EscapeIsFree(s[1..]);
      assert Escape(s) == EscapeChar(s[0]) + Escape(s[1..]);
    }
  }

  // ---- one line ----

  const STRONG := "<strong>"
  const END_STRONG := "</strong>"

  lemma {:induction false} PrintLits(w: string, l: Line, open: string, close: string)
    ensures Print(Lits(w, l), open, close) == w + Print(l, open, close)
  {
    if w != "" {
      PrintLits(w[1..], l, open, close);
      assert w == [w[0]] + w[1..];
    }
  }

  /** The reader writes its mark at both ends of a bold stretch. */
  lemma ShowsStrong(mark: string)
    ensures Shows(mark, STRONG, Page(mark, [])) && Shows(mark, END_STRONG, Page(mark, []))
  {
    ShowsTag(mark, "<strong");
    ShowsTag(mark, "</strong");
    assert "<strong" + ">" == STRONG && "</strong" + ">" == END_STRONG;
    assert "</p>"[2] == 'p' && "</h2>"[2] == 'h' && END_STRONG[2] == 's' && STRONG[1] == 's';
  }

  lemma ShowsEscaped(mark: string, s: string)
    ensures Shows(mark, Escape(s), Page(Escape(s), []))
  {
    EscapeIsFree(s);
    ShowsText(mark, Escape(s));
  }

  lemma ShowsSilent(mark: string, h: string, k: string, p: Page)
    ensures Shows(mark, h, BLANK) && Shows(mark, k, p) ==> Shows(mark, h + k, p)
    ensures Shows(mark, h, p) && Shows(mark, k, BLANK) ==> Shows(mark, h + k, p)
  {
    assert Join(BLANK, p) == p && Join(p, BLANK) == p by {
      assert "" + p.text == p.text + "" == p.text && [] + p.links == p.links + [] == p.links;
    }
    if Shows(mark, h, BLANK) && Shows(mark, k, p) {
      ShowsBoth(mark, h, BLANK, k, p);
    }
    if Shows(mark, h, p) && Shows(mark, k, BLANK) {
      ShowsBoth(mark, h, p, k, BLANK);
    }
  }

  /** The escaped texts of two adjacent pieces make up the escaped text of both. */
  lemma ShowsNext(mark: string, h: string, x: string, k: string, y: string)
    requires Shows(mark, h, Page(Escape(x), [])) && Shows(mark, k, Page(Escape(y), []))
    ensures Shows(mark, h + k, Page(Escape(x + y), []))
  {
    ShowsBoth(mark, h, Page(Escape(x), []), k, Page(Escape(y), []));
    ExpandSplits(EscapeChar, x, y);
  }

  lemma EscapeOne(c: char)
    ensures Escape([c]) == EscapeChar(c)
  {
    ExpandCons(EscapeChar, c, "");
    assert [c] + "" == [c];
  }

  lemma ShowsBold(mark: string, content: string)
    requires Escape(mark) == mark
    ensures Shows(mark, STRONG + Escape(content) + END_STRONG, Page(Escape(mark + content + mark), []))
  {
    ShowsStrong(mark);
    ShowsEscaped(mark, content);
    ShowsNext(mark, STRONG, mark, Escape(content), content);
    ShowsNext(mark, STRONG + Escape(content), mark + content, END_STRONG, mark);
  }

  /** The printed form of the escaped line shows the line with marks for its tags, escaped. */
  ghost predicate ShowsMarked(mark: string, l: Line) {
    Shows(mark, Print(ExpandLine(EscapeChar, l), STRONG, END_STRONG), Page(Escape(Print(l, mark, mark)), []))
  }

  lemma ShowsLit(mark: string, c: char, rest: Line)
    requires ShowsMarked(mark, rest)
    ensures ShowsMarked(mark, Lit(c, rest))
  {
    PrintLits(EscapeChar(c), ExpandLine(EscapeChar, rest), STRONG, END_STRONG);
    EscapeOne(c);
    ShowsEscaped(mark, [c]);
    ShowsNext(mark, EscapeChar(c), [c], Print(ExpandLine(EscapeChar, rest), STRONG, END_STRONG), Print(rest, mark, mark));
  }

  lemma ShowsBoldThen(mark: string, content: string, rest: Line)
    requires ShowsMarked(mark, rest) && Escape(mark) == mark
    ensures ShowsMarked(mark, Bold(content, rest))
  {
    ShowsBold(mark, content);
    ShowsNext(mark, STRONG + Escape(content) + END_STRONG, mark + content + mark,
              Print(ExpandLine(EscapeChar, rest), STRONG, END_STRONG), Print(rest, mark, mark));
  }

  lemma {:induction false} ShowsPrinted(mark: string, l: Line)
    requires Escape(mark) == mark
    ensures ShowsMarked(mark, l)
  {
    match l
    case End => ShowsNothing(mark);
    case Lit(c, rest) =>
      ShowsPrinted(mark, rest);
      ShowsLit(mark, c, rest);
    case Bold(content, rest) =>
      ShowsPrinted(mark, rest);
      ShowsBoldThen(mark, content, rest);
  }

  lemma ShowsLine(mark: string, s: string)
    requires Escape(mark) == mark
    ensures Shows(mark, HtmlLine(s), Page(Escape(Marked(s, mark)), []))
  {
    EscapeIsTame();
    ExpandingKeepsTheCut(EscapeChar, s);
    ShowsPrinted(mark, Parse(s));
  }

  /** Every '<' opens a strong tag, or closes the one that is open, and none is left open. */
  predicate TagsAlternate(t: string, inside: bool) {
    if t == "" then !inside
    else if t[0] != '<' then TagsAlternate(t[1..], inside)
    else if inside then END_STRONG <= t && TagsAlternate(t[|END_STRONG|..], false)
    else STRONG <= t && TagsAlternate(t[|STRONG|..], true)
  }

  lemma {:induction false} TextAlternates(w: string, t: string, inside: bool)
    requires '<' !in w
    ensures TagsAlternate(w + t, inside) == TagsAlternate(t, inside)
  {
    if w == "" {
      assert w + t == t;
    } else {
      TextAlternates(w[1..], t, inside);
      assert (w + t)[1..] == w[1..] + t;
    }
  }

  lemma TagAlternates(t: string)
    ensures TagsAlternate(STRONG + t, false) == TagsAlternate(t, true)
    ensures TagsAlternate(END_STRONG + t, true) == TagsAlternate(t, false)
  {
    assert (STRONG + t)[|STRONG|..] == t && (END_STRONG + t)[|END_STRONG|..] == t;
    assert STRONG <= STRONG + t && END_STRONG <= END_STRONG + t;
  }

  lemma {:induction false} PrintedAlternates(l: Line)
    ensures TagsAlternate(Print(ExpandLine(EscapeChar, l), STRONG, END_STRONG), false)
  {
    match l
    case End =>
    case Lit(c, rest) =>
      PrintedAlternates(rest);
      PrintLits(EscapeChar(c), ExpandLine(EscapeChar, rest), STRONG, END_STRONG);
      assert '<' !in EscapeChar(c);
      TextAlternates(EscapeChar(c), Print(ExpandLine(EscapeChar, rest), STRONG, END_STRONG), false);
    case Bold(content, rest) =>
      PrintedAlternates(rest);
      BoldAlternates(content, Print(ExpandLine(EscapeChar, rest), STRONG, END_STRONG));
  }

  lemma Assoc4(a: string, b: string, c: string, d: string)
    ensures a + b + c + d == a + (b + (c + d))
  {
  }

  lemma BoldAlternates(content: string, t: string)
    ensures TagsAlternate(STRONG + Escape(content) + END_STRONG + t, false) == TagsAlternate(t, false)
  {
    EscapeIsFree(content);
    TagAlternates(t);
    TextAlternates(Escape(content), END_STRONG + t, true);
    TagAlternates(Escape(content) + (END_STRONG + t));
    Assoc4(STRONG, Escape(content), END_STRONG, t);
  }

  lemma MarksAreFree()
    ensures Escape("") == "" && Escape("**") == "**"
  {
    EscapeOne('*');
    ExpandCons(EscapeChar, '*', "*");
    assert "*" + "*" == "**" && ['*'] == "*";
  }

  /**
   Text and HTML of a line say the same: without its tags and decoded once, the
   HTML is the plain text, and every '<' in it is one of its own strong tags. With
   two asterisks for each of these tags it is the very line it was made from, so
   they stand exactly around its bold stretches.
   */
  lemma HtmlSaysThePlainText(s: string)
    ensures TagsAlternate(HtmlLine(s), false)
    ensures View("", HtmlLine(s)).links == [] && Unescape(View("", HtmlLine(s)).text) == Plain(s)
    ensures Unescape(View("**", HtmlLine(s)).text) == s
  {
    MarksAreFree();
    ShowsLine("", s);
    ShowsLine("**", s);
    MarkedIsSource(s);
    EscapeIsTame();
    ExpandingKeepsTheCut(EscapeChar, s);
    PrintedAlternates(Parse(s));
    ReadBack("", HtmlLine(s), Plain(s), []);
    ReadBack("**", HtmlLine(s), s, []);
  }

  lemma ShownWhole(mark: string, h: string, p: Page)
    requires Shows(mark, h, p)
    ensures View(mark, h) == p
  {
    assert h + "" == h;
    assert View(mark, h + "") == Join(p, View(mark, ""));
    assert p.text + "" == p.text && p.links + [] == p.links;
  }

  // ---- the whole email ----

  const BLOCK_END := "\n\n"
  const ARROW := " \U{2192}"

  /** A piece of HTML that says x, whatever follows it, and links nowhere. */
  ghost predicate Says(mark: string, h: string, x: string) {
    Shows(mark, h, Page(Escape(x), []))
  }

  lemma ShowsMarkup(mark: string)
    ensures Shows(mark, "<h2>", BLANK) && Shows(mark, "<p>", BLANK)
  {
    ShowsSilentTag(mark, "<h2");
    ShowsSilentTag(mark, "<p");
    assert "<h2" + ">" == "<h2>" && "<p" + ">" == "<p>";
  }

  lemma ShowsLinkEnd(mark: string)
    ensures Shows(mark, "</a>", BLANK)
  {
    ShowsTag(mark, "</a");
    assert "</a" + ">" == "</a>" && "</a>"[1] == '/' && HREF[1] == 'a' && "<strong>"[1] == 's';
  }

  lemma BlockEndIsPlain()
    ensures Escape(BLOCK_END) == BLOCK_END
  {
    EscapeOne('\n');
    ExpandCons(EscapeChar, '\n', "\n");
    assert "\n" + "\n" == BLOCK_END;
  }

  lemma SaysBlockEnd(mark: string)
    ensures Says(mark, "</p>", BLOCK_END) && Says(mark, "</h2>", BLOCK_END)
  {
    ShowsTag(mark, "</p");
    ShowsTag(mark, "</h2");
    BlockEndIsPlain();
    assert "</p" + ">" == "</p>" && "</h2" + ">" == "</h2>";
  }

  /** One block: an opening tag that shows nothing, a line, and a closing tag that ends the line. */
  lemma SaysBlock(mark: string, open: string, l: string, close: string)
    requires Shows(mark, open, BLANK) && Says(mark, close, BLOCK_END) && Escape(mark) == mark
    ensures Says(mark, open + HtmlLine(l) + close, Marked(l, mark) + BLOCK_END)
  {
    ShowsLine(mark, l);
    ShowsSilent(mark, open, HtmlLine(l), Page(Escape(Marked(l, mark)), []));
    ShowsNext(mark, open + HtmlLine(l), Marked(l, mark), close, BLOCK_END);
  }

  lemma {:induction false} QuoteEnds(w: string, t: string)
    requires '"' !in w
    ensures UpToQuote(w + "\"" + t) == w
  {
    if w != "" {
      QuoteEnds(w[1..], t);
      assert (w + "\"" + t)[1..] == w[1..] + "\"" + t;
    }
  }

  /** The link leads exactly where it was meant to, whatever characters the address holds. */
  lemma ShowsAnchor(mark: string, url: string)
    ensures Shows(mark, HREF + Escape(url) + "\">", Page("", [url]))
  {
    EscapeIsFree(url);
    var w := HREF + Escape(url) + "\"";
    assert '>' !in HREF && HREF[0] == '<';
    ShowsTag(mark, w);
    var tag := w + ">";
    assert tag == HREF + Escape(url) + "\">";
    assert tag[|HREF|..] == Escape(url) + "\"" + ">";
    QuoteEnds(Escape(url), ">");
    EscapeRoundTrip(url);
    assert HREF <= tag && tag[1] == 'a';
  }

  const NOTE_TAG := "<p style=\"color:#666;font-size:13px\""
  const NOTE_OPEN := NOTE_TAG + ">"

  lemma ShowsNoteOpen(mark: string)
    ensures Shows(mark, NOTE_OPEN, BLANK)
  {
    ShowsSilentTag(mark, NOTE_TAG);
  }

  /** The text of the link matches what the reader should do. */
  function CtaLabel(kind: string): string {
    if kind == "presale_open" then "Open the presale on Ticketmaster"
    else if kind == "public_open" || kind == "status_onsale" then "Buy tickets on Ticketmaster"
    else if kind == "sale_closed" then "Check for resale tickets on Ticketmaster"
    else if kind == "cancelled" || kind == "rescheduled" then "See the event page on Ticketmaster"
    else "View on Ticketmaster"
  }

  /** The arrow after the text is not escaped and needs no escaping. */
  lemma ShowsLink(mark: string, url: string, cta: string)
    ensures Shows(mark, "<p>" + (HREF + Escape(url) + "\">") + (Escape(cta) + ARROW) + "</a>" + "</p>",
                  Page(Escape(cta + ARROW + BLOCK_END), [url]))
  {
    ShowsMarkup(mark);
    ShowsLinkEnd(mark);
    SaysBlockEnd(mark);
    ShowsAnchor(mark, url);
    ShowsSilent(mark, "<p>", HREF + Escape(url) + "\">", Page("", [url]));
    ShowsEscaped(mark, cta);
    ArrowIsPlain();
    ShowsEscaped(mark, ARROW);
    ShowsNext(mark, Escape(cta), cta, ARROW, ARROW);
    ShowsSilent(mark, Escape(cta) + ARROW, "</a>", Page(Escape(cta + ARROW), []));
    ShowsNext(mark, Escape(cta) + ARROW + "</a>", cta + ARROW, "</p>", BLOCK_END);
    ShowsBoth(mark, "<p>" + (HREF + Escape(url) + "\">"), Page("", [url]),
              Escape(cta) + ARROW + "</a>" + "</p>", Page(Escape(cta + ARROW + BLOCK_END), []));
    JoinLink(url, Escape(cta + ARROW + BLOCK_END));
    LinkAssoc("<p>" + (HREF + Escape(url) + "\">"), Escape(cta) + ARROW);
  }

  lemma JoinLink(url: string, x: string)
    ensures Join(Page("", [url]), Page(x, [])) == Page(x, [url])
  {
  }

  lemma LinkAssoc(a: string, b: string)
    ensures a + (b + "</a>" + "</p>") == a + b + "</a>" + "</p>"
  {
  }

  lemma ArrowIsPlain()
    ensures Escape(ARROW) == ARROW
  {
    EscapeOne('\U{2192}');
    ExpandCons(EscapeChar, ' ', "\U{2192}");
    assert " " + "\U{2192}" == ARROW;
  }

  /** The lines, a blank line after each. */
  function Blocks(lines: seq<string>): string {
    if lines == [] then "" else Blocks(lines[..|lines| - 1]) + (lines[|lines| - 1] + BLOCK_END)
  }

  /** The same without their marks. */
  function Paragraphs(lines: seq<string>): string {
    if lines == [] then "" else Paragraphs(lines[..|lines| - 1]) + (Plain(lines[|lines| - 1]) + BLOCK_END)
  }

  lemma OneMoreParagraph(lines: seq<string>, i: nat)
    requires i < |lines|
    ensures Paragraphs(lines[..i + 1]) == Paragraphs(lines[..i]) + (Plain(lines[i]) + BLOCK_END)
    ensures Blocks(lines[..i + 1]) == Blocks(lines[..i]) + (lines[i] + BLOCK_END)
  {
    assert lines[..i + 1][..i] == lines[..i];
  }

  /** The venue as it follows the name, if there is one. */
  function AtVenue(venue: string): string {
    if venue == "" then "" else " @ " + venue
  }

  const NOTE_START := "Ticketmaster's public data doesn't "
  const NOTE_MORE := "include resale listings, so tickets may be "
  const NOTE_THEN := "available on the event page even when "
  const NOTE_REST := "the official sale hasn't opened "
  const NOTE_END := "or has closed."
  const RESALE_NOTE := NOTE_START + NOTE_MORE + (NOTE_THEN + NOTE_REST) + NOTE_END

  /** What follows the paragraphs and stands above the link. */
  function Note(showNote: bool): string {
    if showNote then RESALE_NOTE + BLOCK_END else ""
  }

  /** One more link at the end of a page that had none. */
  lemma LinkAppended(mark: string, h: string, x: string, k: string, y: string, url: string)
    requires Says(mark, h, x) && Shows(mark, k, Page(Escape(y), [url]))
    ensures Shows(mark, h + k, Page(Escape(x + y), [url]))
  {
    ShowsBoth(mark, h, Page(Escape(x), []), k, Page(Escape(y), [url]));
    ExpandSplits(EscapeChar, x, y);
    assert [] + [url] == [url];
  }

  lemma ReadBack(mark: string, h: string, x: string, links: seq<string>)
    requires Shows(mark, h, Page(Escape(x), links))
    ensures Unescape(View(mark, h).text) == x && View(mark, h).links == links
  {
    ShownWhole(mark, h, Page(Escape(x), links));
    EscapeRoundTrip(x);
  }

  /** The HTML so far says `plain` to a reader who drops its emphasis, and `source` to one who marks it. */
  ghost predicate Tells(h: string, plain: string, source: string) {
    Says("", h, plain) && Says("**", h, source)
  }

  /** The link at the end, as a reader of the HTML sees it. */
  function Link(kind: string, url: string): string {
    if url == "" then "" else CtaLabel(kind) + ARROW + BLOCK_END
  }

  /**
   Whatever the name, the venue and the address contain, a reader of the HTML body
   sees the text body, with a link in place of the address; and one who writes two
   asterisks where emphasis begins and ends sees name, venue and lines just as they
   were given.
   */
  method BuildBodies(name: string, venue: string, kind: string, url: string, lines: seq<string>, showNote: bool)
    returns (text: string, html: string)
    ensures text == Plain(name) + AtVenue(venue) + BLOCK_END + Paragraphs(lines) + Note(showNote)
                    + (if url == "" then "" else CtaLabel(kind) + ": " + url + "\n")
    ensures Unescape(View("", html).text)
         == Plain(name + AtVenue(venue)) + BLOCK_END + Paragraphs(lines) + Note(showNote) + Link(kind, url)
    ensures Unescape(View("**", html).text)
         == name + AtVenue(venue) + BLOCK_END + Blocks(lines) + Note(showNote) + Link(kind, url)
    ensures View("", html).links == View("**", html).links == if url == "" then [] else [url]
  {
    var at := if venue == "" then "" else " @ " + venue;
    text := Plain(name) + at + "\n\n";
    html := "<h2>" + HtmlLine(name + at) + "</h2>";
    ghost var plain, source := Plain(name + at) + BLOCK_END, name + at + BLOCK_END;
    TellsBlock("<h2>", name + at, "</h2>");
    text, html := AppendParagraphs(lines, plain, source, text, html);
    plain, source := plain + Paragraphs(lines), source + Blocks(lines);
    text, html := AppendNote(showNote, plain, source, text, html);
    plain, source := plain + Note(showNote), source + Note(showNote);
    text, html := AppendLink(kind, url, plain, source, text, html);
  }

  /** One block, to both readers. */
  lemma TellsBlock(open: string, l: string, close: string)
    requires open in ["<h2>", "<p>", NOTE_OPEN] && close in ["</h2>", "</p>"]
    ensures Tells(open + HtmlLine(l) + close, Plain(l) + BLOCK_END, l + BLOCK_END)
  {
    MarksAreFree();
    MarkedIsSource(l);
    forall mark | mark in ["", "**"] ensures Says(mark, open + HtmlLine(l) + close, Marked(l, mark) + BLOCK_END) {
      ShowsMarkup(mark);
      ShowsNoteOpen(mark);
      SaysBlockEnd(mark);
      SaysBlock(mark, open, l, close);
    }
    assert "" in ["", "**"] && "**" in ["", "**"];
  }

  lemma TellsNext(h: string, p: string, s: string, k: string, q: string, t: string)
    requires Tells(h, p, s) && Tells(k, q, t)
    ensures Tells(h + k, p + q, s + t)
  {
    ShowsNext("", h, p, k, q);
    ShowsNext("**", h, s, k, t);
  }

  method AppendParagraphs(lines: seq<string>, ghost plain: string, ghost source: string, textSoFar: string, htmlSoFar: string)
    returns (text: string, html: string)
    requires Tells(htmlSoFar, plain, source)
    ensures text == textSoFar + Paragraphs(lines)
    ensures Tells(html, plain + Paragraphs(lines), source + Blocks(lines))
  {
    text, html := textSoFar, htmlSoFar;
    assert textSoFar + "" == textSoFar && plain + "" == plain && source + "" == source;
    var i := 0;
    while i < |lines|
      invariant i <= |lines|
      invariant text == textSoFar + Paragraphs(lines[..i])
      invariant Tells(html, plain + Paragraphs(lines[..i]), source + Blocks(lines[..i]))
    {
      OneMoreParagraph(lines, i);
      TellsBlock("<p>", lines[i], "</p>");
      TellsNext(html, plain + Paragraphs(lines[..i]), source + Blocks(lines[..i]),
                "<p>" + HtmlLine(lines[i]) + "</p>", Plain(lines[i]) + BLOCK_END, lines[i] + BLOCK_END);
      Assoc(textSoFar, Paragraphs(lines[..i]), Plain(lines[i]) + BLOCK_END);
      Assoc(plain, Paragraphs(lines[..i]), Plain(lines[i]) + BLOCK_END);
      Assoc(source, Blocks(lines[..i]), lines[i] + BLOCK_END);
      text := text + (Plain(lines[i]) + "\n\n");
      html := html + ("<p>" + HtmlLine(lines[i]) + "</p>");
      i := i + 1;
    }
    assert lines[..i] == lines;
  }

  method AppendLink(kind: string, url: string, ghost plain: string, ghost source: string, textSoFar: string, htmlSoFar: string)
    returns (text: string, html: string)
    requires Tells(htmlSoFar, plain, source)
    ensures text == textSoFar + (if url == "" then "" else CtaLabel(kind) + ": " + url + "\n")
    ensures Unescape(View("", html).text) == plain + Link(kind, url)
    ensures Unescape(View("**", html).text) == source + Link(kind, url)
    ensures View("", html).links == View("**", html).links == if url == "" then [] else [url]
  {
    text, html := textSoFar, htmlSoFar;
    if url == "" {
      ReadBack("", html, plain, []);
      ReadBack("**", html, source, []);
    } else {
      var cta := CtaLabel(kind);
      var a := "<p>" + (HREF + Escape(url) + "\">") + (Escape(cta) + ARROW) + "</a>" + "</p>";
      LinkReadBack("", html, plain, url, cta);
      LinkReadBack("**", html, source, url, cta);
      text := text + (cta + ": " + url + "\n");
      html := html + a;
    }
  }

  lemma LinkReadBack(mark: string, h: string, said: string, url: string, cta: string)
    requires Says(mark, h, said)
    ensures var more := h + ("<p>" + (HREF + Escape(url) + "\">") + (Escape(cta) + ARROW) + "</a>" + "</p>");
            View(mark, more).links == [url] && Unescape(View(mark, more).text) == said + (cta + ARROW + BLOCK_END)
  {
    var a := "<p>" + (HREF + Escape(url) + "\">") + (Escape(cta) + ARROW) + "</a>" + "</p>";
    ShowsLink(mark, url, cta);
    LinkAppended(mark, h, said, a, cta + ARROW + BLOCK_END, url);
    ReadBack(mark, h + a, said + (cta + ARROW + BLOCK_END), [url]);
  }

  lemma NoteStartIsUnmarked()
    ensures '*' !in NOTE_START + NOTE_MORE
  {
    assert '*' !in NOTE_START;
    assert '*' !in NOTE_MORE;
  }

  lemma NoteRestIsUnmarked()
    ensures '*' !in NOTE_THEN + NOTE_REST && '*' !in NOTE_END
  {
    assert '*' !in NOTE_THEN;
    assert '*' !in NOTE_REST;
  }

  lemma NoteIsPlain()
    ensures Plain(RESALE_NOTE) == RESALE_NOTE
  {
    NoteStartIsUnmarked();
    NoteRestIsUnmarked();
    UnmarkedIsPlain(RESALE_NOTE);
  }

  method AppendNote(showNote: bool, ghost plain: string, ghost source: string, textSoFar: string, htmlSoFar: string)
    returns (text: string, html: string)
    requires Tells(htmlSoFar, plain, source)
    ensures text == textSoFar + Note(showNote)
    ensures Tells(html, plain + Note(showNote), source + Note(showNote))
  {
    text, html := textSoFar, htmlSoFar;
    if showNote {
      NoteIsPlain();
      TellsBlock(NOTE_OPEN, RESALE_NOTE, "</p>");
      TellsNext(html, plain, source, NOTE_OPEN + HtmlLine(RESALE_NOTE) + "</p>", RESALE_NOTE + BLOCK_END, RESALE_NOTE + BLOCK_END);
      text := text + (RESALE_NOTE + "\n\n");
      html := html + (NOTE_OPEN + HtmlLine(RESALE_NOTE) + "</p>");
    } else {
      assert plain + "" == plain && source + "" == source;
    }
  }

  // ---- where the two bodies differ ----

  /** How many bold stretches a line has. */
  function Bolds(l: Line): nat {
    match l
    case End => 0
    case Lit(_, rest) => Bolds(rest)
    case Bold(_, rest) => 1 + Bolds(rest)
  }

  /** Each bold stretch costs its four asterisks, and nothing else is lost. */
  lemma {:induction false} PlainLosesOnlyMarks(s: string)
    ensures |Plain(s)| + 4 * Bolds(Parse(s)) == |s|
    ensures Bolds(Parse(s)) == 0 ==> Plain(s) == s
    decreases |s|
  {
    if s != "" {
      MatchFits(s);
      if MatchAt(s).Some? {
        PlainLosesOnlyMarks(s[MatchAt(s).value..]);
      } else {
        PlainLosesOnlyMarks(s[1..]);
        assert s == [s[0]] + s[1..];
      }
    }
  }

  /** Text that follows does not disturb a match. */
  lemma MatchStays(n: string, v: string)
    requires MatchAt(n).Some?
    ensures MatchAt(n + v) == MatchAt(n)
  {
    var s, k := n + v, MatchAt(n).value;
    assert n[0..] == n && s[0..] == s;
    MatchIsShortest(n, 0);
    MatchIsShortest(s, 0);
    SpanWithin(n, v, k);
    var m := MatchAt(s).value;
    SpanWithin(n, v, m);
  }

  lemma SpanWithin(n: string, v: string, e: nat)
    ensures e <= |n| ==> (IsSpan(n, 0, e) <==> IsSpan(n + v, 0, e))
  {
    if 5 <= e <= |n| {
      assert (n + v)[2..e - 2] == n[2..e - 2];
    }
  }

  ghost predicate NoCloser(s: string) {
    forall j: nat :: 3 <= j ==> !IsMark(s, j)
  }

  lemma {:induction false} NothingBold(s: string)
    requires NoCloser(s)
    ensures Bolds(Parse(s)) == 0
    decreases |s|
  {
    if s != "" {
      assert s[0..] == s;
      MatchIsShortest(s, 0);
      if MatchAt(s).Some? {
        assert false;
      }
      forall j: nat | 3 <= j ensures !IsMark(s[1..], j) {
        assert !IsMark(s, j + 1);
      }
      NothingBold(s[1..]);
    }
  }

  /** A match that only the text that follows completes began where the string itself closes nothing. */
  lemma CompletedLate(n: string, v: string)
    requires MatchAt(n).None? && MatchAt(n + v).Some?
    ensures NoCloser(n)
  {
    var s, k := n + v, MatchAt(n + v).value;
    assert n[0..] == n && s[0..] == s;
    MatchIsShortest(n, 0);
    MatchIsShortest(s, 0);
    forall j: nat | 3 <= j ensures !IsMark(n, j) {
      if IsMark(n, j) {
        SpanWithin(n, v, j + 2);
        SpanWithin(n, v, k);
        CloserInside(s, j, k);
      }
    }
  }

  lemma CloserInside(s: string, j: nat, k: nat)
    requires 3 <= j && IsMark(s, j) && IsSpan(s, 0, k)
    ensures k <= j + 2 || IsSpan(s, 0, j + 2)
  {
    if j + 2 < k {
      assert forall p :: 0 <= p < |s[2..j]| ==> s[2..j][p] == s[2..k - 2][p];
    }
  }

  lemma PlainBold(s: string, k: nat)
    requires MatchAt(s) == Some(k) && 5 <= k <= |s|
    ensures Plain(s) == s[2..k - 2] + Plain(s[k..])
  {
    assert "" + s[2..k - 2] + "" == s[2..k - 2];
  }

  /** Following text adds no bold if and only if it is itself left as it is. */
  ghost predicate DiffersByBold(n: string, v: string) {
    && Bolds(Parse(n + v)) >= Bolds(Parse(n))
    && (Plain(n + v) == Plain(n) + v <==> Bolds(Parse(n + v)) == Bolds(Parse(n)))
  }

  lemma DiffersAfterBold(n: string, v: string, k: nat)
    requires MatchAt(n) == Some(k) && 5 <= k <= |n| && DiffersByBold(n[k..], v)
    ensures DiffersByBold(n, v)
  {
    var s := n + v;
    MatchStays(n, v);
    assert s[k..] == n[k..] + v && s[2..k - 2] == n[2..k - 2];
    PlainBold(n, k);
    PlainBold(s, k);
    SameStart(n[2..k - 2], Plain(n[k..]), v, Plain(n[k..] + v));
  }

  lemma DiffersAfterLit(n: string, v: string)
    requires n != "" && MatchAt(n).None? && MatchAt(n + v).None? && DiffersByBold(n[1..], v)
    ensures DiffersByBold(n, v)
  {
    assert (n + v)[1..] == n[1..] + v;
    SameStart([n[0]], Plain(n[1..]), v, Plain(n[1..] + v));
  }

  lemma DiffersWhenCompleted(n: string, v: string)
    requires MatchAt(n).None? && MatchAt(n + v).Some?
    ensures DiffersByBold(n, v)
  {
    CompletedLate(n, v);
    NothingBold(n);
    PlainLosesOnlyMarks(n);
    PlainLosesOnlyMarks(n + v);
  }

  lemma {:induction false} HeaderDiffers(n: string, v: string)
    ensures DiffersByBold(n, v)
    decreases |n|
  {
    if n == "" {
      assert n + v == v;
      PlainLosesOnlyMarks(v);
    } else if MatchAt(n).Some? {
      MatchFits(n);
      HeaderDiffers(n[MatchAt(n).value..], v);
      DiffersAfterBold(n, v, MatchAt(n).value);
    } else if MatchAt(n + v).None? {
      HeaderDiffers(n[1..], v);
      DiffersAfterLit(n, v);
    } else {
      DiffersWhenCompleted(n, v);
    }
  }

  lemma SameStart(a: string, p: string, v: string, q: string)
    ensures a + q == a + p + v <==> q == p + v
  {
    assert a + p + v == a + (p + v);
    assert (a + q)[|a|..] == q && (a + (p + v))[|a|..] == p + v;
  }

  lemma UnmarkedIsPlain(s: string)
    requires '*' !in s
    ensures Plain(s) == s
  {
    forall j: nat | 3 <= j ensures !IsMark(s, j) {
    }
    NothingBold(s);
    PlainLosesOnlyMarks(s);
  }

  /** What is left of a line behind its last bold stretch. */
  function Tail(s: string): string
    decreases |s|
  {
    if Bolds(Parse(s)) == 0 then s
    else match MatchAt(s)
         case Some(k) =>
           MatchFits(s);
           Tail(s[k..])
         case None => Tail(s[1..])
  }

  lemma SpanShifted(s: string, i: nat, e: nat)
    requires s != "" && i < e
    ensures IsSpan(s[1..], i, e) <==> IsSpan(s, i + 1, e + 1)
  {
    if i + 5 <= e < |s| {
      assert s[1..][i + 2..e - 2] == s[i + 3..e - 1];
    }
  }

  /** A line has no bold exactly when the expression accepts nothing anywhere in it. */
  lemma {:induction false} NoBoldExactly(s: string)
    ensures Bolds(Parse(s)) == 0 <==> NoneStarts(s, 0, |s|)
    decreases |s|
  {
    if s != "" {
      assert s[0..] == s;
      MatchIsShortest(s, 0);
      if MatchAt(s).Some? {
        assert IsSpan(s, 0, MatchAt(s).value);
      } else {
        NoBoldExactly(s[1..]);
        forall i: nat, e: nat | i < e ensures IsSpan(s[1..], i, e) <==> IsSpan(s, i + 1, e + 1) {
          SpanShifted(s, i, e);
        }
        assert NoneStarts(s[1..], 0, |s| - 1) ==> NoneStarts(s, 0, |s|) by {
          NoneShifted(s);
        }
      }
    }
  }

  lemma NoneShifted(s: string)
    requires s != "" && NoneStarts(s, 0, 1)
    ensures NoneStarts(s[1..], 0, |s| - 1) <==> NoneStarts(s, 0, |s|)
  {
    if NoneStarts(s[1..], 0, |s| - 1) {
      forall i: nat, e: nat | i < |s| ensures !IsSpan(s, i, e) {
        if i > 0 && i < e {
          SpanShifted(s, i - 1, e - 1);
        }
      }
    }
    if NoneStarts(s, 0, |s|) {
      forall i: nat, e: nat | i < |s| - 1 ensures !IsSpan(s[1..], i, e) {
        if i < e {
          SpanShifted(s, i, e);
        }
      }
    }
  }

  /** Following text adds bold to a line exactly when it adds bold to the line's tail. */
  ghost predicate DecidedByTail(n: string, v: string) {
    Bolds(Parse(n + v)) == Bolds(Parse(n)) <==> Bolds(Parse(Tail(n) + v)) == 0
  }

  lemma DecidedAfterBold(n: string, v: string, k: nat)
    requires MatchAt(n) == Some(k) && 5 <= k <= |n| && DecidedByTail(n[k..], v)
    ensures DecidedByTail(n, v)
  {
    MatchStays(n, v);
    assert (n + v)[k..] == n[k..] + v;
  }

  lemma DecidedAfterLit(n: string, v: string)
    requires n != "" && MatchAt(n).None? && Bolds(Parse(n)) != 0 && DecidedByTail(n[1..], v)
    ensures DecidedByTail(n, v)
  {
    NotCompleted(n, v);
    TextBehindLit(n, v);
  }

  lemma TextBehindLit(n: string, v: string)
    requires n != "" && MatchAt(n + v).None?
    ensures Bolds(Parse(n + v)) == Bolds(Parse(n[1..] + v))
  {
    assert (n + v)[1..] == n[1..] + v;
  }

  lemma NotCompleted(n: string, v: string)
    requires MatchAt(n).None? && Bolds(Parse(n)) != 0
    ensures MatchAt(n + v).None?
  {
    if MatchAt(n + v).Some? {
      CompletedLate(n, v);
      NothingBold(n);
    }
  }

  lemma {:induction false} TailDecides(n: string, v: string)
    ensures DecidedByTail(n, v)
    decreases |n|
  {
    if Bolds(Parse(n)) != 0 {
      if MatchAt(n).Some? {
        MatchFits(n);
        TailDecides(n[MatchAt(n).value..], v);
        DecidedAfterBold(n, v, MatchAt(n).value);
      } else {
        TailDecides(n[1..], v);
        DecidedAfterLit(n, v);
      }
    }
  }

  /**
   The header is the one place where the two bodies can differ: the text body
   leaves the venue's asterisks alone. They agree exactly when the expression
   accepts nothing in what follows the last bold of the name, venue included.
   */
  lemma HeadersAgreeExactly(name: string, venue: string)
    ensures var rest := Tail(name) + AtVenue(venue);
            Plain(name + AtVenue(venue)) == Plain(name) + AtVenue(venue) <==> NoneStarts(rest, 0, |rest|)
  {
    HeaderDiffers(name, AtVenue(venue));
    TailDecides(name, AtVenue(venue));
    NoBoldExactly(Tail(name) + AtVenue(venue));
  }

  lemma {:induction false} TailHasNoBold(s: string)
    ensures Bolds(Parse(Tail(s))) == 0
    decreases |s|
  {
    if Bolds(Parse(s)) != 0 {
      MatchFits(s);
      TailHasNoBold(if MatchAt(s).Some? then s[MatchAt(s).value..] else s[1..]);
    }
  }

  /** They agree for every name when the venue has no two asterisks in a row. */
  lemma UnmarkedVenueAgrees(name: string, venue: string)
    requires forall i: nat :: !IsMark(venue, i)
    ensures Plain(name + AtVenue(venue)) == Plain(name) + AtVenue(venue)
  {
    var tail, at := Tail(name), AtVenue(venue);
    var rest := tail + at;
    TailHasNoBold(name);
    NoBoldExactly(tail);
    forall i: nat, e: nat | i < |rest| ensures !IsSpan(rest, i, e) {
      if IsSpan(rest, i, e) {
        if e <= |tail| {
          assert rest[i + 2..e - 2] == tail[i + 2..e - 2];
          assert IsSpan(tail, i, e);
        } else if e - 2 >= |tail| + 3 {
          assert IsMark(venue, e - 2 - |tail| - 3);
        }
        assert false;
      }
    }
    HeadersAgreeExactly(name, venue);
  }

  /** A venue with bold in it is a case where they differ. */
  lemma BoldVenueDiffers()
    ensures Plain("A" + AtVenue("**B**")) != Plain("A") + AtVenue("**B**")
  {
    var rest := Tail("A") + AtVenue("**B**");
    assert Tail("A") == "A" by {
      assert "A"[1..] == "";
    }
    assert rest == "A @ **B**";
    assert IsSpan(rest, 4, 9);
    HeadersAgreeExactly("A", "**B**");
  }
}
