/** What the header of a RequestContext looks like, what its placeholder
    substitution does to field values that themselves look like placeholders,
    and that a run of writes puts the header out once, before every payload. */
module RequestContextProperties {
  import opened JavaLang
  import opened Placeholders
  import opened RequestContexts

  // ---------------------------------------------------------------- header layout

  /** The status line. */
  function StatusLine(code: string, text: string): string
  {
    "HTTP/1.1 " + code + " " + text + "\r\n"
  }

  /** The Content-Type line, with the charset only for text types. */
  function ContentTypeLine(mime: string, enc: string, isText: bool): string
  {
    if isText then "Content-Type: " + mime + "; charset=" + enc + "\r\n" else "Content-Type: " + mime + "\r\n"
  }

  /** The Content-Length line when a length is set. */
  function ContentLengthLine(cl: Option<Int64>): string
  {
    if cl.Some? then "Content-Length: " + IntToString(cl.value) + "\r\n" else ""
  }

  /** What follows Content-Type: the Content-Length line, the Set-Cookie lines
      and the blank line that ends the header. */
  function Tail(cl: Option<Int64>, cookies: seq<RCCookie>): string
  {
    ContentLengthLine(cl) + CookieLines(cookies) + "\r\n"
  }

  /** The header's layout for given field texts. */
  function Layout(code: string, text: string, mime: string, enc: string, isText: bool,
                  cl: Option<Int64>, cookies: seq<RCCookie>): string
  {
    StatusLine(code, text) + ContentTypeLine(mime, enc, isText) + Tail(cl, cookies)
  }

  function StatusSegs(code: seq<Segment>, text: seq<Segment>): seq<Segment>
  {
    [Lit("HTTP/1.1 ")] + code + [Lit(" ")] + text + [Lit("\r\n")]
  }

  function ContentTypeSegs(mime: seq<Segment>, enc: seq<Segment>, isText: bool): seq<Segment>
  {
    if isText then [Lit("Content-Type: ")] + mime + [Lit("; charset=")] + enc + [Lit("\r\n")]
    else [Lit("Content-Type: ")] + mime + [Lit("\r\n")]
  }

  /** The same layout as template segments, each field given as segments. */
  function LayoutSegs(code: seq<Segment>, text: seq<Segment>, mime: seq<Segment>, enc: seq<Segment>,
                      isText: bool, cl: Option<Int64>, cookies: seq<RCCookie>): seq<Segment>
  {
    StatusSegs(code, text) + ContentTypeSegs(mime, enc, isText) + [Lit(Tail(cl, cookies))]
  }

  /** Cookie fields without '{', so no cookie line can hold a placeholder. */
  predicate CookiesBraceFree(cs: seq<RCCookie>)
  {
    forall k :: 0 <= k < |cs| ==>
      '{' !in cs[k].name && '{' !in cs[k].value &&
      (cs[k].domain.Some? ==> '{' !in cs[k].domain.value) &&
      (cs[k].path.Some? ==> '{' !in cs[k].path.value)
  }

  /** Integer.toString never produces a '{'. */
  lemma IntToStringBraceFree(i: int)
    ensures '{' !in IntToString(i)
  {
    var d := NatToString(if i < 0 then -i else i);
    assert forall k :: 0 <= k < |d| ==> IsDigit(d[k]);
    assert '{' !in d;
    if i < 0 {
      assert IntToString(i) == "-" + d;
    }
  }

  lemma CookieLineBraceFree(c: RCCookie)
    requires '{' !in c.name && '{' !in c.value
    requires c.domain.Some? ==> '{' !in c.domain.value
    requires c.path.Some? ==> '{' !in c.path.value
    ensures '{' !in CookieLine(c)
  {
    var l0 := "Set-Cookie: " + c.name + "=\"" + c.value + "\"";
    assert '{' !in l0;
    var l1 := if c.domain.Some? then l0 + "; Domain=" + c.domain.value else l0;
    assert '{' !in l1;
    var l2 := if c.path.Some? then l1 + "; Path=" + c.path.value else l1;
    assert '{' !in l2;
    if c.maxAge.Some? {
      IntToStringBraceFree(c.maxAge.value);
    }
    var l3 := if c.maxAge.Some? then l2 + "; Max-Age=" + IntToString(c.maxAge.value) else l2;
    assert '{' !in l3;
    var tail := "; HttpOnly" + "\r\n";
    assert '{' !in tail;
    NoBraceAppend(l3, tail);
    assert CookieLine(c) == l3 + tail;
  }

  lemma NoBraceAppend(a: string, b: string)
    requires '{' !in a && '{' !in b
    ensures '{' !in a + b
  {
  }

  lemma {:induction false} CookieLinesBraceFree(cs: seq<RCCookie>)
    requires CookiesBraceFree(cs)
    ensures '{' !in CookieLines(cs)
    decreases |cs|
  {
    if cs != [] {
      var init := cs[..|cs| - 1];
      assert forall k :: 0 <= k < |init| ==> init[k] == cs[k];
      CookieLinesBraceFree(init);
      CookieLineBraceFree(cs[|cs| - 1]);
    }
  }

  lemma JoinSingle(x: Segment)
    ensures Join([x]) == SegmentText(x)
  {
    assert [x][1..] == [];
  }

  /** Appending one literal segment appends its text. */
  lemma JoinLit(a: seq<Segment>, t: string)
    ensures Join(a + [Lit(t)]) == Join(a) + t
  {
    JoinAppend(a, [Lit(t)]);
    JoinSingle(Lit(t));
  }

  lemma JoinPart(a: seq<Segment>, b: seq<Segment>)
    ensures Join(a + b) == Join(a) + Join(b)
  {
    JoinAppend(a, b);
  }

  lemma JoinStatus(code: seq<Segment>, text: seq<Segment>)
    ensures Join(StatusSegs(code, text)) == StatusLine(Join(code), Join(text))
  {
    var s0 := [Lit("HTTP/1.1 ")];
    JoinSingle(Lit("HTTP/1.1 "));
    JoinPart(s0, code);
    JoinLit(s0 + code, " ");
    JoinPart(s0 + code + [Lit(" ")], text);
    JoinLit(s0 + code + [Lit(" ")] + text, "\r\n");
  }

  lemma JoinContentType(mime: seq<Segment>, enc: seq<Segment>, isText: bool)
    ensures Join(ContentTypeSegs(mime, enc, isText)) == ContentTypeLine(Join(mime), Join(enc), isText)
  {
    var c0 := [Lit("Content-Type: ")];
    JoinSingle(Lit("Content-Type: "));
    JoinPart(c0, mime);
    if isText {
      JoinLit(c0 + mime, "; charset=");
      JoinPart(c0 + mime + [Lit("; charset=")], enc);
      JoinLit(c0 + mime + [Lit("; charset=")] + enc, "\r\n");
    } else {
      JoinLit(c0 + mime, "\r\n");
    }
  }

  /** The segments spell the layout of their fields' texts. */
  lemma JoinLayout(code: seq<Segment>, text: seq<Segment>, mime: seq<Segment>, enc: seq<Segment>,
                   isText: bool, cl: Option<Int64>, cookies: seq<RCCookie>)
    ensures Join(LayoutSegs(code, text, mime, enc, isText, cl, cookies))
         == Layout(Join(code), Join(text), Join(mime), Join(enc), isText, cl, cookies)
  {
    var st, ct := StatusSegs(code, text), ContentTypeSegs(mime, enc, isText);
    JoinStatus(code, text);
    JoinContentType(mime, enc, isText);
    JoinPart(st, ct);
    JoinLit(st + ct, Tail(cl, cookies));
  }

  lemma FillSingle(x: Segment, name: string, r: seq<Segment>)
    ensures Fill([x], name, r) == if x == Hole(name) then r else [x]
  {
    assert [x][1..] == [];
  }

  /** Filling never touches a literal segment. */
  lemma FillLit(a: seq<Segment>, t: string, name: string, r: seq<Segment>)
    ensures Fill(a + [Lit(t)], name, r) == Fill(a, name, r) + [Lit(t)]
  {
    FillAppend(a, [Lit(t)], name, r);
    FillSingle(Lit(t), name, r);
  }

  lemma FillStatus(code: seq<Segment>, text: seq<Segment>, name: string, r: seq<Segment>)
    ensures Fill(StatusSegs(code, text), name, r) == StatusSegs(Fill(code, name, r), Fill(text, name, r))
  {
    var s0 := [Lit("HTTP/1.1 ")];
    FillSingle(Lit("HTTP/1.1 "), name, r);
    FillAppend(s0, code, name, r);
    FillLit(s0 + code, " ", name, r);
    FillAppend(s0 + code + [Lit(" ")], text, name, r);
    FillLit(s0 + code + [Lit(" ")] + text, "\r\n", name, r);
  }

  lemma FillContentType(mime: seq<Segment>, enc: seq<Segment>, isText: bool, name: string, r: seq<Segment>)
    ensures Fill(ContentTypeSegs(mime, enc, isText), name, r) == ContentTypeSegs(Fill(mime, name, r), Fill(enc, name, r), isText)
  {
    var c0 := [Lit("Content-Type: ")];
    FillSingle(Lit("Content-Type: "), name, r);
    FillAppend(c0, mime, name, r);
    if isText {
      FillLit(c0 + mime, "; charset=", name, r);
      FillAppend(c0 + mime + [Lit("; charset=")], enc, name, r);
      FillLit(c0 + mime + [Lit("; charset=")] + enc, "\r\n", name, r);
    } else {
      FillLit(c0 + mime, "\r\n", name, r);
    }
  }

  /** Filling the layout fills each field and leaves the fixed text alone. */
  lemma FillLayout(code: seq<Segment>, text: seq<Segment>, mime: seq<Segment>, enc: seq<Segment>,
                   isText: bool, cl: Option<Int64>, cookies: seq<RCCookie>, name: string, r: seq<Segment>)
    ensures Fill(LayoutSegs(code, text, mime, enc, isText, cl, cookies), name, r)
         == LayoutSegs(Fill(code, name, r), Fill(text, name, r), Fill(mime, name, r), Fill(enc, name, r), isText, cl, cookies)
  {
    var st, ct := StatusSegs(code, text), ContentTypeSegs(mime, enc, isText);
    FillStatus(code, text, name, r);
    FillContentType(mime, enc, isText, name, r);
    FillAppend(st, ct, name, r);
    FillLit(st + ct, Tail(cl, cookies), name, r);
  }

  lemma WellFormedAppend(a: seq<Segment>, b: seq<Segment>)
    requires WellFormedSegments(a) && WellFormedSegments(b)
    ensures WellFormedSegments(a + b)
  {
    forall k | 0 <= k < |a + b|
      ensures ((a + b)[k].Lit? ==> '{' !in (a + b)[k].text) && ((a + b)[k].Hole? ==> ValidName((a + b)[k].name))
    {
      if k >= |a| {
        assert (a + b)[k] == b[k - |a|];
      }
    }
  }

  lemma WellFormedStatus(code: seq<Segment>, text: seq<Segment>)
    requires WellFormedSegments(code) && WellFormedSegments(text)
    ensures WellFormedSegments(StatusSegs(code, text))
  {
    var s0 := [Lit("HTTP/1.1 ")];
    WellFormedAppend(s0, code);
    WellFormedAppend(s0 + code, [Lit(" ")]);
    WellFormedAppend(s0 + code + [Lit(" ")], text);
    WellFormedAppend(s0 + code + [Lit(" ")] + text, [Lit("\r\n")]);
  }

  lemma WellFormedContentType(mime: seq<Segment>, enc: seq<Segment>, isText: bool)
    requires WellFormedSegments(mime) && WellFormedSegments(enc)
    ensures WellFormedSegments(ContentTypeSegs(mime, enc, isText))
  {
    var c0 := [Lit("Content-Type: ")];
    WellFormedAppend(c0, mime);
    if isText {
      WellFormedAppend(c0 + mime, [Lit("; charset=")]);
      WellFormedAppend(c0 + mime + [Lit("; charset=")], enc);
      WellFormedAppend(c0 + mime + [Lit("; charset=")] + enc, [Lit("\r\n")]);
    } else {
      WellFormedAppend(c0 + mime, [Lit("\r\n")]);
    }
  }

  /** Nothing after Content-Type holds a '{' when no cookie field does. */
  lemma TailBraceFree(cl: Option<Int64>, cookies: seq<RCCookie>)
    requires CookiesBraceFree(cookies)
    ensures '{' !in Tail(cl, cookies)
  {
    CookieLinesBraceFree(cookies);
    if cl.Some? {
      IntToStringBraceFree(cl.value);
      var t := "Content-Length: ";
      assert '{' !in t;
      NoBraceAppend(t, IntToString(cl.value));
      NoBraceAppend(t + IntToString(cl.value), "\r\n");
    }
    NoBraceAppend(ContentLengthLine(cl), CookieLines(cookies));
    NoBraceAppend(ContentLengthLine(cl) + CookieLines(cookies), "\r\n");
  }

  /** The layout is a well-formed template when its fields are. */
  lemma LayoutWellFormed(code: seq<Segment>, text: seq<Segment>, mime: seq<Segment>, enc: seq<Segment>,
                         isText: bool, cl: Option<Int64>, cookies: seq<RCCookie>)
    requires WellFormedSegments(code) && WellFormedSegments(text)
    requires WellFormedSegments(mime) && WellFormedSegments(enc)
    requires CookiesBraceFree(cookies)
    ensures WellFormedSegments(LayoutSegs(code, text, mime, enc, isText, cl, cookies))
  {
    var st, ct := StatusSegs(code, text), ContentTypeSegs(mime, enc, isText);
    WellFormedStatus(code, text);
    WellFormedContentType(mime, enc, isText);
    TailBraceFree(cl, cookies);
    WellFormedAppend(st, ct);
    WellFormedAppend(st + ct, [Lit(Tail(cl, cookies))]);
  }

  /** One String.replace of a placeholder over a laid-out header fills that
      placeholder in every field at once. */
  lemma FillStep(code: seq<Segment>, text: seq<Segment>, mime: seq<Segment>, enc: seq<Segment>,
                 isText: bool, cl: Option<Int64>, cookies: seq<RCCookie>, name: string, r: seq<Segment>)
    requires WellFormedSegments(code) && WellFormedSegments(text)
    requires WellFormedSegments(mime) && WellFormedSegments(enc)
    requires CookiesBraceFree(cookies) && ValidName(name)
    ensures Replace(Join(LayoutSegs(code, text, mime, enc, isText, cl, cookies)), Placeholder(name), Join(r))
         == Join(LayoutSegs(Fill(code, name, r), Fill(text, name, r), Fill(mime, name, r), Fill(enc, name, r), isText, cl, cookies))
  {
    LayoutWellFormed(code, text, mime, enc, isText, cl, cookies);
    ReplaceFills(LayoutSegs(code, text, mime, enc, isText, cl, cookies), name, r);
    FillLayout(code, text, mime, enc, isText, cl, cookies, name, r);
  }

  lemma StatusTemplateLine()
    ensures StatusLine("{statusCode}", "{statusText}") == "HTTP/1.1 {statusCode} {statusText}\r\n"
  {
  }

  lemma ContentTypeTemplateLine(isText: bool)
    ensures ContentTypeLine("{mimeType}", "{encoding}", isText)
         == if isText then "Content-Type: {mimeType}; charset={encoding}\r\n" else "Content-Type: {mimeType}\r\n"
  {
  }

  /** The assembled header is the layout with the four placeholders as fields. */
  lemma TemplateIsLayout(mime: string, cl: Option<Int64>, cookies: seq<RCCookie>)
    ensures Template(mime, cl, cookies)
         == Layout("{statusCode}", "{statusText}", "{mimeType}", "{encoding}", IsTextMime(mime), cl, cookies)
  {
    StatusTemplateLine();
    ContentTypeTemplateLine(IsTextMime(mime));
    var h1 := StatusLine("{statusCode}", "{statusText}") + ContentTypeLine("{mimeType}", "{encoding}", IsTextMime(mime));
    var cll, cls := ContentLengthLine(cl), CookieLines(cookies);
    var h2 := h1 + cll;
    if cl.Some? {
      var n := IntToString(cl.value);
      assert cll == "Content-Length: " + n + "\r\n";
      AppendAssoc(h1 + "Content-Length: ", n, "\r\n");
      AppendAssoc(h1, "Content-Length: ", n + "\r\n");
      AppendAssoc(h1, "Content-Length: " + n, "\r\n");
    } else {
      assert h2 == h1;
    }
    assert Template(mime, cl, cookies) == h2 + cls + "\r\n";
    AppendAssoc(h1, cll, cls);
    AppendAssoc(h1, cll + cls, "\r\n");
  }

  const StatusCodeHole := [Hole("statusCode")]
  const StatusTextHole := [Hole("statusText")]
  const MimeTypeHole := [Hole("mimeType")]
  const EncodingHole := [Hole("encoding")]

  lemma StatusCodeHoleText()
    ensures Placeholder("statusCode") == "{statusCode}" && Join(StatusCodeHole) == "{statusCode}"
    ensures WellFormedSegments(StatusCodeHole)
  {
    JoinSingle(Hole("statusCode"));
  }

  lemma StatusTextHoleText()
    ensures Placeholder("statusText") == "{statusText}" && Join(StatusTextHole) == "{statusText}"
    ensures WellFormedSegments(StatusTextHole)
  {
    JoinSingle(Hole("statusText"));
  }

  lemma MimeTypeHoleText()
    ensures Placeholder("mimeType") == "{mimeType}" && Join(MimeTypeHole) == "{mimeType}"
    ensures WellFormedSegments(MimeTypeHole)
  {
    JoinSingle(Hole("mimeType"));
  }

  lemma EncodingHoleText()
    ensures Placeholder("encoding") == "{encoding}" && Join(EncodingHole) == "{encoding}"
    ensures WellFormedSegments(EncodingHole)
  {
    JoinSingle(Hole("encoding"));
  }

  lemma PlaceholderTexts()
    ensures Placeholder("statusCode") == "{statusCode}" && Placeholder("statusText") == "{statusText}"
    ensures Placeholder("mimeType") == "{mimeType}" && Placeholder("encoding") == "{encoding}"
    ensures Join(StatusCodeHole) == "{statusCode}" && Join(StatusTextHole) == "{statusText}"
    ensures Join(MimeTypeHole) == "{mimeType}" && Join(EncodingHole) == "{encoding}"
    ensures WellFormedSegments(StatusCodeHole) && WellFormedSegments(StatusTextHole)
    ensures WellFormedSegments(MimeTypeHole) && WellFormedSegments(EncodingHole)
  {
    StatusCodeHoleText();
    StatusTextHoleText();
    MimeTypeHoleText();
    EncodingHoleText();
  }

  /** The assembled header spelled as template segments. */
  lemma TemplateSegs(mime: string, cl: Option<Int64>, cookies: seq<RCCookie>)
    ensures Template(mime, cl, cookies)
         == Join(LayoutSegs(StatusCodeHole, StatusTextHole, MimeTypeHole, EncodingHole, IsTextMime(mime), cl, cookies))
  {
    TemplateIsLayout(mime, cl, cookies);
    PlaceholderTexts();
    JoinLayout(StatusCodeHole, StatusTextHole, MimeTypeHole, EncodingHole, IsTextMime(mime), cl, cookies);
  }

  /** Once every field is literal text the segments spell the layout of those texts. */
  lemma LiteralLayout(code: string, text: string, mime: string, enc: string, isText: bool,
                      cl: Option<Int64>, cookies: seq<RCCookie>)
    ensures Join(LayoutSegs([Lit(code)], [Lit(text)], [Lit(mime)], [Lit(enc)], isText, cl, cookies))
         == Layout(code, text, mime, enc, isText, cl, cookies)
  {
    JoinSingle(Lit(code));
    JoinSingle(Lit(text));
    JoinSingle(Lit(mime));
    JoinSingle(Lit(enc));
    JoinLayout([Lit(code)], [Lit(text)], [Lit(mime)], [Lit(enc)], isText, cl, cookies);
  }

  /** Replacing {statusCode} in the template. */
  lemma StatusCodeStep(code: string, isText: bool, cl: Option<Int64>, cookies: seq<RCCookie>)
    requires '{' !in code && CookiesBraceFree(cookies)
    ensures Replace(Join(LayoutSegs(StatusCodeHole, StatusTextHole, MimeTypeHole, EncodingHole, isText, cl, cookies)),
                    "{statusCode}", code)
         == Join(LayoutSegs([Lit(code)], StatusTextHole, MimeTypeHole, EncodingHole, isText, cl, cookies))
  {
    var c := [Lit(code)];
    PlaceholderTexts();
    JoinSingle(c[0]);
    FillSingle(Hole("statusCode"), "statusCode", c);
    FillSingle(Hole("statusText"), "statusCode", c);
    FillSingle(Hole("mimeType"), "statusCode", c);
    FillSingle(Hole("encoding"), "statusCode", c);
    FillStep(StatusCodeHole, StatusTextHole, MimeTypeHole, EncodingHole, isText, cl, cookies, "statusCode", c);
  }

  /** Replacing {statusText} once the code is in; a status text may itself be
      any template segments. */
  lemma StatusTextStep(code: string, text: seq<Segment>, isText: bool, cl: Option<Int64>, cookies: seq<RCCookie>)
    requires '{' !in code && CookiesBraceFree(cookies)
    ensures Replace(Join(LayoutSegs([Lit(code)], StatusTextHole, MimeTypeHole, EncodingHole, isText, cl, cookies)),
                    "{statusText}", Join(text))
         == Join(LayoutSegs([Lit(code)], text, MimeTypeHole, EncodingHole, isText, cl, cookies))
  {
    var c := [Lit(code)];
    PlaceholderTexts();
    FillSingle(c[0], "statusText", text);
    FillSingle(Hole("statusText"), "statusText", text);
    FillSingle(Hole("mimeType"), "statusText", text);
    FillSingle(Hole("encoding"), "statusText", text);
    FillStep(c, StatusTextHole, MimeTypeHole, EncodingHole, isText, cl, cookies, "statusText", text);
  }

  /** Replacing {mimeType} once the code and a brace-free status text are in. */
  lemma MimeTypeStep(code: string, text: string, mime: string, isText: bool, cl: Option<Int64>, cookies: seq<RCCookie>)
    requires '{' !in code && '{' !in text && CookiesBraceFree(cookies)
    ensures Replace(Join(LayoutSegs([Lit(code)], [Lit(text)], MimeTypeHole, EncodingHole, isText, cl, cookies)),
                    "{mimeType}", mime)
         == Join(LayoutSegs([Lit(code)], [Lit(text)], [Lit(mime)], EncodingHole, isText, cl, cookies))
  {
    var c, t, m := [Lit(code)], [Lit(text)], [Lit(mime)];
    PlaceholderTexts();
    JoinSingle(m[0]);
    FillSingle(c[0], "mimeType", m);
    FillSingle(t[0], "mimeType", m);
    FillSingle(Hole("mimeType"), "mimeType", m);
    FillSingle(Hole("encoding"), "mimeType", m);
    FillStep(c, t, MimeTypeHole, EncodingHole, isText, cl, cookies, "mimeType", m);
  }

  /** Replacing {mimeType} when the status text was that placeholder too. */
  lemma MimeTypeTwiceStep(code: string, mime: string, isText: bool, cl: Option<Int64>, cookies: seq<RCCookie>)
    requires '{' !in code && CookiesBraceFree(cookies)
    ensures Replace(Join(LayoutSegs([Lit(code)], MimeTypeHole, MimeTypeHole, EncodingHole, isText, cl, cookies)),
                    "{mimeType}", mime)
         == Join(LayoutSegs([Lit(code)], [Lit(mime)], [Lit(mime)], EncodingHole, isText, cl, cookies))
  {
    var c, m := [Lit(code)], [Lit(mime)];
    PlaceholderTexts();
    JoinSingle(m[0]);
    FillSingle(c[0], "mimeType", m);
    FillSingle(Hole("mimeType"), "mimeType", m);
    FillSingle(Hole("encoding"), "mimeType", m);
    FillStep(c, MimeTypeHole, MimeTypeHole, EncodingHole, isText, cl, cookies, "mimeType", m);
  }

  /** Replacing {encoding} last, once no other '{' is left. */
  lemma EncodingStep(code: string, text: string, mime: string, enc: string, isText: bool, cl: Option<Int64>, cookies: seq<RCCookie>)
    requires '{' !in code && '{' !in text && '{' !in mime && CookiesBraceFree(cookies)
    ensures Replace(Join(LayoutSegs([Lit(code)], [Lit(text)], [Lit(mime)], EncodingHole, isText, cl, cookies)),
                    "{encoding}", enc)
         == Join(LayoutSegs([Lit(code)], [Lit(text)], [Lit(mime)], [Lit(enc)], isText, cl, cookies))
  {
    var c, t, m, e := [Lit(code)], [Lit(text)], [Lit(mime)], [Lit(enc)];
    PlaceholderTexts();
    JoinSingle(e[0]);
    FillSingle(c[0], "encoding", e);
    FillSingle(t[0], "encoding", e);
    FillSingle(m[0], "encoding", e);
    FillSingle(Hole("encoding"), "encoding", e);
    FillStep(c, t, m, EncodingHole, isText, cl, cookies, "encoding", e);
  }

  /** The header createHeader writes, when no field that is scanned again
      holds a '{': the status line with the code and the text, Content-Type
      with the charset exactly for text types, Content-Length exactly when a
      length is set, the Set-Cookie lines in list order, and a blank line.
      The encoding is substituted last, so it may hold anything. */
  lemma HeaderLayout(s: State)
    requires '{' !in s.statusText && '{' !in s.mimeType && CookiesBraceFree(s.cookies)
    ensures Header(s) == Layout(IntToString(s.statusCode), s.statusText, s.mimeType, s.encoding,
                                IsTextMime(s.mimeType), s.contentLength, s.cookies)
  {
    var b, cl, cs := IsTextMime(s.mimeType), s.contentLength, s.cookies;
    var code := IntToString(s.statusCode);
    IntToStringBraceFree(s.statusCode);
    HeaderIsChain(s);
    TemplateSegs(s.mimeType, cl, cs);
    StatusCodeStep(code, b, cl, cs);
    JoinSingle(Lit(s.statusText));
    StatusTextStep(code, [Lit(s.statusText)], b, cl, cs);
    MimeTypeStep(code, s.statusText, s.mimeType, b, cl, cs);
    EncodingStep(code, s.statusText, s.mimeType, s.encoding, b, cl, cs);
    LiteralLayout(code, s.statusText, s.mimeType, s.encoding, b, cl, cs);
  }

  /** The placeholders are replaced over the whole header, values included: a
      status text that reads "{mimeType}" comes out as the MIME type. */
  lemma StatusTextPlaceholderExpanded(s: State)
    requires s.statusText == "{mimeType}" && '{' !in s.mimeType && CookiesBraceFree(s.cookies)
    ensures Header(s) == Layout(IntToString(s.statusCode), s.mimeType, s.mimeType, s.encoding,
                                IsTextMime(s.mimeType), s.contentLength, s.cookies)
  {
    var b, cl, cs := IsTextMime(s.mimeType), s.contentLength, s.cookies;
    var code := IntToString(s.statusCode);
    IntToStringBraceFree(s.statusCode);
    HeaderIsChain(s);
    TemplateSegs(s.mimeType, cl, cs);
    StatusCodeStep(code, b, cl, cs);
    MimeTypeHoleText();
    StatusTextStep(code, MimeTypeHole, b, cl, cs);
    MimeTypeTwiceStep(code, s.mimeType, b, cl, cs);
    EncodingStep(code, s.mimeType, s.mimeType, s.encoding, b, cl, cs);
    LiteralLayout(code, s.mimeType, s.mimeType, s.encoding, b, cl, cs);
  }

  /** A prefix none of whose characters starts a target survives every replacement. */
  lemma {:induction false} ReplaceAllKeepsPrefix(v: string, x: string, subs: seq<(string, string)>)
    requires forall k :: 0 <= k < |subs| ==> |subs[k].0| > 0 && subs[k].0[0] !in v
    ensures v <= ReplaceAll(v + x, subs)
    decreases |subs|
  {
    if subs != [] {
      var init := subs[..|subs| - 1];
      assert forall k :: 0 <= k < |init| ==> init[k] == subs[k];
      ReplaceAllKeepsPrefix(v, x, init);
      var y := ReplaceAll(v + x, init);
      assert y == v + y[|v|..];
      ReplaceSkipsPrefix(v, y[|v|..], subs[|subs| - 1].0, subs[|subs| - 1].1);
    }
  }

  lemma TemplateStartsWithVersion(mime: string, cl: Option<Int64>, cookies: seq<RCCookie>)
    ensures "HTTP/1.1 " <= Template(mime, cl, cookies)
  {
    var v, code, text := "HTTP/1.1 ", "{statusCode}", "{statusText}";
    TemplateIsLayout(mime, cl, cookies);
    PrefixExtends(v, v, code);
    PrefixExtends(v, v + code, " ");
    PrefixExtends(v, v + code + " ", text);
    PrefixExtends(v, v + code + " " + text, "\r\n");
    var status := StatusLine(code, text);
    PrefixExtends(v, status, ContentTypeLine("{mimeType}", "{encoding}", IsTextMime(mime)));
    PrefixExtends(v, status + ContentTypeLine("{mimeType}", "{encoding}", IsTextMime(mime)), Tail(cl, cookies));
  }

  lemma PrefixExtends(v: string, a: string, b: string)
    requires v <= a
    ensures v <= a + b
  {
  }

  /** Whatever the fields hold, the header starts with the protocol version. */
  lemma HeaderStartsWithVersion(s: State)
    ensures "HTTP/1.1 " <= Header(s)
  {
    var v := "HTTP/1.1 ";
    var t := Template(s.mimeType, s.contentLength, s.cookies);
    TemplateStartsWithVersion(s.mimeType, s.contentLength, s.cookies);
    assert t == v + t[|v|..];
    var subs := Substitutions(s);
    assert forall k :: 0 <= k < |subs| ==> subs[k].0[0] == '{';
    assert '{' !in v;
    ReplaceAllKeepsPrefix(v, t[|v|..], subs);
  }

  // ---------------------------------------------------------------- ISO-8859-1

  /** One byte per character: a character below 256 is its own byte, any
      other becomes '?'. */
  lemma {:induction false} Latin1Bytes(t: string)
    ensures |Latin1(t)| == |t|
    ensures forall i :: 0 <= i < |t| && t[i] as int < 256 ==> Latin1(t)[i] == t[i] as int
    ensures forall i :: 0 <= i < |t| && t[i] as int >= 256 ==> Latin1(t)[i] == '?' as int
  {
    if t != [] {
      Latin1Bytes(t[1..]);
      forall i | 1 <= i < |t|
        ensures Latin1(t)[i] == Latin1(t[1..])[i - 1] && t[i] == t[1..][i - 1]
      {
      }
    }
  }

  /** Header text of characters below 256 reads back from its bytes. */
  lemma {:induction false} Latin1RoundTrip(t: string)
    requires forall i :: 0 <= i < |t| ==> t[i] as int < 256
    ensures Latin1Text(Latin1(t)) == t
  {
    if t != [] {
      Latin1RoundTrip(t[1..]);
      assert Latin1(t) == [t[0] as int] + Latin1(t[1..]);
      assert Latin1(t)[1..] == Latin1(t[1..]);
    }
  }

  // ---------------------------------------------------------------- writes

  /** The charset in use once the header is out. */
  function CharsetFor(s: State): string
  {
    if s.headerGenerated && s.charset.Some? then s.charset.value else s.encoding
  }

  /** The settings the header is built from and the parameter maps. */
  function Settings(s: State): State
  {
    s.(headerGenerated := false, charset := None, output := [])
  }

  /** write(byte[]) is write(data, 0, data.length). */
  lemma WriteBytesIsFullRange(s: State, data: seq<Octet>)
    ensures Apply(s, WriteBytes(data)) == Apply(s, WriteRange(data, 0, |data|))
  {
    assert data[0..0 + |data|] == data;
  }

  /** A bad range throws, but only after the header went out. */
  lemma BadRangeAfterHeader(s: State, data: seq<Octet>, offset: int, len: int)
    requires !RangeOk(data, offset, len)
    ensures Apply(s, WriteRange(data, offset, len)) == Outcome(EmitHeader(s), Some(IndexOutOfBounds))
    ensures !s.headerGenerated ==> |Apply(s, WriteRange(data, offset, len)).state.output| == |s.output| + 1
  {
  }

  /** One write: the header if it was not out, then the write's payload in
      the charset that is then in use; the settings are untouched. */
  lemma ApplyStep(s: State, w: WriteCall)
    requires s.headerGenerated ==> s.charset.Some?
    ensures Apply(s, w).state.headerGenerated && Apply(s, w).state.charset == Some(CharsetFor(s))
    ensures Apply(s, w).state.output
         == s.output + (if s.headerGenerated then [] else [Head(Latin1(Header(s)))]) + Payload(w, CharsetFor(s))
    ensures Settings(Apply(s, w).state) == Settings(s)
  {
    var t := EmitHeader(s);
    assert t.output == s.output + (if s.headerGenerated then [] else [Head(Latin1(Header(s)))]);
    assert t.charset == Some(CharsetFor(s));
  }

  /** Over any run of writes, whether or not some of them throw, the header
      flag is set exactly when there was a write, the charset in use stays the
      one fixed at the first write, and the settings and parameters are
      untouched. */
  lemma {:induction false} WritesKeepSettings(s: State, ws: seq<WriteCall>)
    requires s.headerGenerated ==> s.charset.Some?
    ensures ApplyAll(s, ws).headerGenerated == (s.headerGenerated || ws != [])
    ensures ApplyAll(s, ws).headerGenerated ==> ApplyAll(s, ws).charset.Some?
    ensures CharsetFor(ApplyAll(s, ws)) == CharsetFor(s)
    ensures Settings(ApplyAll(s, ws)) == Settings(s)
    decreases |ws|
  {
    if ws != [] {
      var t := Apply(s, ws[0]).state;
      ApplyStep(s, ws[0]);
      WritesKeepSettings(t, ws[1..]);
    }
  }

  /** Once the header is out, each write adds only its payload. */
  lemma {:induction false} PayloadsAfterHeader(t: State, ws: seq<WriteCall>)
    requires t.headerGenerated && t.charset.Some?
    ensures ApplyAll(t, ws).output == t.output + Payloads(ws, t.charset.value)
    decreases |ws|
  {
    if ws != [] {
      var u := Apply(t, ws[0]).state;
      ApplyStep(t, ws[0]);
      PayloadsAfterHeader(u, ws[1..]);
      assert Payloads(ws, t.charset.value) == Payload(ws[0], t.charset.value) + Payloads(ws[1..], t.charset.value);
    } else {
      assert Payloads(ws, t.charset.value) == [];
    }
  }

  /** Over any run of writes, in any mix of the overloads and whether or not
      some of them throw: the header goes out exactly once, before the first
      payload, built from the settings at the first write; every later write
      adds only its payload. */
  lemma HeaderWrittenOnce(s: State, ws: seq<WriteCall>)
    requires s.headerGenerated ==> s.charset.Some?
    ensures ApplyAll(s, ws).output
         == s.output + (if s.headerGenerated || ws == [] then [] else [Head(Latin1(Header(s)))])
            + Payloads(ws, CharsetFor(s))
  {
    if ws != [] {
      var t := Apply(s, ws[0]).state;
      ApplyStep(s, ws[0]);
      PayloadsAfterHeader(t, ws[1..]);
      assert ApplyAll(s, ws) == ApplyAll(t, ws[1..]);
      var hdr := if s.headerGenerated then [] else [Head(Latin1(Header(s)))];
      var p, ps := Payload(ws[0], CharsetFor(s)), Payloads(ws[1..], CharsetFor(s));
      assert Payloads(ws, CharsetFor(s)) == p + ps;
      assert ApplyAll(s, ws).output == s.output + hdr + p + ps;
    } else {
      assert Payloads(ws, CharsetFor(s)) == [];
    }
  }

  /** Once anything was written every header setter is refused and changes nothing. */
  lemma SettersRefusedAfterWrite(s: State, ws: seq<WriteCall>, update: State)
    requires s.headerGenerated ==> s.charset.Some?
    requires ws != []
    ensures Unless(ApplyAll(s, ws), update) == Outcome(ApplyAll(s, ws), Some(CannotChange))
  {
    WritesKeepSettings(s, ws);
  }
}
