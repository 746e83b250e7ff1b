/** RequestContext: the response a page writes through. It holds the header
    settings, the output cookies and the parameter maps, writes the header on
    the first write of any kind, and refuses header changes after that. */
module RequestContexts {
  import opened JavaLang

  /** Java `long`, the type of the content length. */
  type Int64 = x: int | -0x8000_0000_0000_0000 <= x <= 0x7fff_ffff_ffff_ffff

  /** One byte on the wire, as an unsigned octet. */
  type Octet = b: int | 0 <= b < 256

  /** What one call put on the output stream: the header's bytes, bytes the
      caller passed, or a string encoded in a charset (the model keeps the
      text and the charset's name rather than computing the bytes). */
  datatype Chunk =
    | Head(bytes: seq<Octet>)
    | Raw(bytes: seq<Octet>)
    | Encoded(text: string, charset: string)

  const CannotChange := Runtime("Cannot change now.")

  /** An output cookie; cookies have no equals, so removal goes by identity. */
  class RCCookie {
    const name: string
    const value: string
    const maxAge: Option<Int32>
    const domain: Option<string>
    const path: Option<string>

    constructor (name: string, value: string, maxAge: Option<Int32>, domain: Option<string>, path: Option<string>)
      ensures this.name == name && this.value == value && this.maxAge == maxAge
      ensures this.domain == domain && this.path == path
    {
      this.name := name;
      this.value := value;
      this.maxAge := maxAge;
      this.domain := domain;
      this.path := path;
    }

    constructor WithDomain(name: string, value: string, maxAge: Option<Int32>, domain: Option<string>)
      ensures this.name == name && this.value == value && this.maxAge == maxAge
      ensures this.domain == domain && path == None
    {
      this.name := name;
      this.value := value;
      this.maxAge := maxAge;
      this.domain := domain;
      this.path := None;
    }

    constructor WithMaxAge(name: string, value: string, maxAge: Option<Int32>)
      ensures this.name == name && this.value == value && this.maxAge == maxAge
      ensures domain == None && path == None
    {
      this.name := name;
      this.value := value;
      this.maxAge := maxAge;
      this.domain := None;
      this.path := None;
    }

    constructor Plain(name: string, value: string)
      ensures this.name == name && this.value == value
      ensures maxAge == None && domain == None && path == None
    {
      this.name := name;
      this.value := value;
      this.maxAge := None;
      this.domain := None;
      this.path := None;
    }
  }

  // ---------------------------------------------------------------- the header

  predicate IsTextMime(mime: string) { "text/" <= mime }

  /** The Set-Cookie line of one cookie: name and quoted value, then Domain,
      Path and Max-Age when present, then HttpOnly. */
  function CookieLine(c: RCCookie): string
  {
    var l0 := "Set-Cookie: " + c.name + "=\"" + c.value + "\"";
    var l1 := if c.domain.Some? then l0 + "; Domain=" + c.domain.value else l0;
    var l2 := if c.path.Some? then l1 + "; Path=" + c.path.value else l1;
    var l3 := if c.maxAge.Some? then l2 + "; Max-Age=" + IntToString(c.maxAge.value) else l2;
    l3 + "; HttpOnly" + "\r\n"
  }

  /** The Set-Cookie lines of the cookies, in list order. */
  function CookieLines(cs: seq<RCCookie>): string
  {
    if cs == [] then "" else CookieLines(cs[..|cs| - 1]) + CookieLine(cs[|cs| - 1])
  }

  lemma CookieLinesSnoc(cs: seq<RCCookie>, i: nat)
    requires i < |cs|
    ensures CookieLines(cs[..i + 1]) == CookieLines(cs[..i]) + CookieLine(cs[i])
  {
    assert cs[..i + 1][..i] == cs[..i];
  }

  lemma AppendAssoc(a: string, b: string, c: string)
    ensures (a + b) + c == a + (b + c)
  {
  }

  /** Everything a RequestContext holds that its methods change or read. */
  datatype State = State(
    encoding: string,
    statusCode: Int32,
    statusText: string,
    mimeType: string,
    contentLength: Option<Int64>,
    cookies: seq<RCCookie>,
    temporary: map<string, string>,
    persistent: map<string, string>,
    headerGenerated: bool,
    charset: Option<string>,
    output: seq<Chunk>)

  /** The header as createHeader assembles it, placeholders still in it. */
  function Template(mimeType: string, contentLength: Option<Int64>, cookies: seq<RCCookie>): string
  {
    var h0 := "HTTP/1.1 {statusCode} {statusText}\r\n";
    var h1 := if IsTextMime(mimeType) then h0 + "Content-Type: {mimeType}; charset={encoding}\r\n"
              else h0 + "Content-Type: {mimeType}\r\n";
    var h2 := if contentLength.Some? then h1 + "Content-Length: " + IntToString(contentLength.value) + "\r\n"
              else h1;
    h2 + CookieLines(cookies) + "\r\n"
  }

  /** The replacements createHeader chains, in order. */
  function Substitutions(s: State): seq<(string, string)>
  {
    [("{statusCode}", IntToString(s.statusCode)), ("{statusText}", s.statusText),
     ("{mimeType}", s.mimeType), ("{encoding}", s.encoding)]
  }

  /** String.replace applied once per pair, one after the other, each over
      the whole result of the one before. */
  function ReplaceAll(t: string, subs: seq<(string, string)>): string
    requires forall k :: 0 <= k < |subs| ==> |subs[k].0| > 0
    decreases |subs|
  {
    if subs == [] then t
    else Replace(ReplaceAll(t, subs[..|subs| - 1]), subs[|subs| - 1].0, subs[|subs| - 1].1)
  }

  /** The header createHeader writes: the template with the four placeholders
      replaced one after the other over the whole text. */
  function Header(s: State): string
  {
    ReplaceAll(Template(s.mimeType, s.contentLength, s.cookies), Substitutions(s))
  }

  /** Four replacements are four String.replace calls, first pair first. */
  lemma ReplaceAllFour(t: string, subs: seq<(string, string)>)
    requires |subs| == 4 && forall k :: 0 <= k < |subs| ==> |subs[k].0| > 0
    ensures ReplaceAll(t, subs)
         == Replace(Replace(Replace(Replace(t, subs[0].0, subs[0].1), subs[1].0, subs[1].1), subs[2].0, subs[2].1), subs[3].0, subs[3].1)
  {
    var t1 := Replace(t, subs[0].0, subs[0].1);
    var t2 := Replace(t1, subs[1].0, subs[1].1);
    var t3 := Replace(t2, subs[2].0, subs[2].1);
    assert subs[..1][..0] == [];
    assert ReplaceAll(t, subs[..1]) == t1;
    assert subs[..2][..1] == subs[..1];
    assert ReplaceAll(t, subs[..2]) == t2;
    assert subs[..3][..2] == subs[..2];
    assert ReplaceAll(t, subs[..3]) == t3;
    assert subs[..4] == subs;
  }

  /** The header is the four String.replace calls chained in source order. */
  lemma HeaderIsChain(s: State)
    ensures Header(s)
         == Replace(Replace(Replace(Replace(Template(s.mimeType, s.contentLength, s.cookies),
              "{statusCode}", IntToString(s.statusCode)),
              "{statusText}", s.statusText),
              "{mimeType}", s.mimeType),
              "{encoding}", s.encoding)
  {
    ReplaceAllFour(Template(s.mimeType, s.contentLength, s.cookies), Substitutions(s));
  }

  /** getBytes(ISO_8859_1): a character below 256 is its own byte, any other
      becomes '?'. */
  function Latin1(s: string): (r: seq<Octet>)
  {
    if s == [] then []
    else [if s[0] as int < 256 then s[0] as int else '?' as int] + Latin1(s[1..])
  }

  /** Reading the bytes back as ISO-8859-1. */
  function Latin1Text(b: seq<Octet>): string
  {
    if b == [] then "" else [b[0] as char] + Latin1Text(b[1..])
  }

  // ---------------------------------------------------------------- the state machine

  /** The outcome of a call: the new state and the exception it threw, if any. */
  datatype Outcome = Outcome(state: State, fault: Option<Fault>)

  /** A header setter: refused once the header is out, else the update. */
  function Unless(s: State, update: State): (r: Outcome)
  {
    if s.headerGenerated then Outcome(s, Some(CannotChange)) else Outcome(update, None)
  }

  /** The first occurrence of c, by identity. */
  function IndexOf(cs: seq<RCCookie>, c: RCCookie): (i: nat)
    requires c in cs
    ensures i < |cs| && cs[i] == c && c !in cs[..i]
  {
    if cs[0] == c then 0 else 1 + IndexOf(cs[1..], c)
  }

  /** List.remove(Object): drops the first occurrence, if there is one. */
  function RemoveFirst(cs: seq<RCCookie>, c: RCCookie): seq<RCCookie>
  {
    if cs == [] then []
    else if cs[0] == c then cs[1..]
    else [cs[0]] + RemoveFirst(cs[1..], c)
  }

  /** Removal leaves the list alone when the cookie is absent, and otherwise
      cuts out exactly its first occurrence, keeping the others in order. */
  lemma {:induction false} RemoveFirstCutsFirst(cs: seq<RCCookie>, c: RCCookie)
    ensures c !in cs ==> RemoveFirst(cs, c) == cs
    ensures c in cs ==> RemoveFirst(cs, c) == cs[..IndexOf(cs, c)] + cs[IndexOf(cs, c) + 1..]
  {
    if cs != [] && cs[0] != c {
      RemoveFirstCutsFirst(cs[1..], c);
      assert cs == [cs[0]] + cs[1..];
      if c in cs {
        var j := IndexOf(cs[1..], c);
        assert IndexOf(cs, c) == j + 1;
        assert cs[..j + 1] == [cs[0]] + cs[1..][..j];
        assert cs[j + 2..] == cs[1..][j + 1..];
      }
    }
  }

  /** Removal takes away one occurrence of the cookie and nothing else. */
  lemma {:induction false} RemoveFirstTakesOne(cs: seq<RCCookie>, c: RCCookie)
    ensures multiset(RemoveFirst(cs, c)) == multiset(cs) - multiset{c}
  {
    if cs != [] {
      assert cs == [cs[0]] + cs[1..];
      if cs[0] != c {
        RemoveFirstTakesOne(cs[1..], c);
      }
    }
  }

  /** The header goes out on the first write, built from the settings of that
      moment, and the charset is looked up from the encoding. */
  function EmitHeader(s: State): State
  {
    if s.headerGenerated then s
    else s.(charset := Some(s.encoding), headerGenerated := true,
            output := s.output + [Head(Latin1(Header(s)))])
  }

  /** The three write overloads. */
  datatype WriteCall =
    | WriteBytes(data: seq<Octet>)
    | WriteRange(data: seq<Octet>, offset: int, len: int)
    | WriteText(text: string)

  predicate RangeOk(data: seq<Octet>, offset: int, len: int)
  {
    0 <= offset && 0 <= len && offset + len <= |data|
  }

  /** One write: the header if it is not out yet, then the payload; a bad
      range throws after the header is written. */
  function Apply(s: State, w: WriteCall): Outcome
  {
    var t := EmitHeader(s);
    match w
    case WriteBytes(data) => Outcome(t.(output := t.output + [Raw(data)]), None)
    case WriteRange(data, offset, len) =>
      if RangeOk(data, offset, len) then Outcome(t.(output := t.output + [Raw(data[offset..offset + len])]), None)
      else Outcome(t, Some(IndexOutOfBounds))
    case WriteText(text) =>
      (match t.charset
       case Some(cs) => Outcome(t.(output := t.output + [Encoded(text, cs)]), None)
       case None => Outcome(t, Some(NullPointer)))
  }

  /** Writes one after the other; a caller that catches an exception goes on. */
  function ApplyAll(s: State, ws: seq<WriteCall>): State
    decreases |ws|
  {
    if ws == [] then s else ApplyAll(Apply(s, ws[0]).state, ws[1..])
  }

  /** What a write puts after the header, given the charset in use. */
  function Payload(w: WriteCall, charset: string): seq<Chunk>
  {
    match w
    case WriteBytes(data) => [Raw(data)]
    case WriteRange(data, offset, len) => if RangeOk(data, offset, len) then [Raw(data[offset..offset + len])] else []
    case WriteText(text) => [Encoded(text, charset)]
  }

  /** The payloads of a run of writes; none of them is a header. */
  function Payloads(ws: seq<WriteCall>, charset: string): (r: seq<Chunk>)
    ensures forall i :: 0 <= i < |r| ==> !r[i].Head?
  {
    if ws == [] then [] else Payload(ws[0], charset) + Payloads(ws[1..], charset)
  }

  // ---------------------------------------------------------------- the class

  class RequestContext {
    var encoding: string
    var statusCode: Int32
    var statusText: string
    var mimeType: string
    var contentLength: Option<Int64>
    const sid: Option<string>
    const parameters: map<string, string>
    var temporaryParameters: map<string, string>
    var persistentParameters: map<string, string>
    var outputCookies: seq<RCCookie>
    var headerGenerated: bool
    var charset: Option<string>
    /** What was written to the output stream, call by call. */
    var output: seq<Chunk>

    ghost function St(): State
      reads this
    {
      State(encoding, statusCode, statusText, mimeType, contentLength, outputCookies,
            temporaryParameters, persistentParameters, headerGenerated, charset, output)
    }

    /** The defaults: UTF-8, 200 OK, text/html, no content length, nothing written. */
    constructor (parameters: map<string, string>, persistentParameters: map<string, string>, outputCookies: seq<RCCookie>)
      ensures St() == State("UTF-8", 200, "OK", "text/html", None, outputCookies,
                            map[], persistentParameters, false, None, [])
      ensures this.parameters == parameters && sid == None
    {
      encoding := "UTF-8";
      statusCode := 200;
      statusText := "OK";
      mimeType := "text/html";
      contentLength := None;
      sid := None;
      this.parameters := parameters;
      temporaryParameters := map[];
      this.persistentParameters := persistentParameters;
      this.outputCookies := outputCookies;
      headerGenerated := false;
      charset := None;
      output := [];
    }

    /** The same defaults, with the temporary parameters and the session id given. */
    constructor WithSession(parameters: map<string, string>, persistentParameters: map<string, string>,
                            outputCookies: seq<RCCookie>, temporaryParameters: map<string, string>, sid: Option<string>)
      ensures St() == State("UTF-8", 200, "OK", "text/html", None, outputCookies,
                            temporaryParameters, persistentParameters, false, None, [])
      ensures this.parameters == parameters && this.sid == sid
    {
      encoding := "UTF-8";
      statusCode := 200;
      statusText := "OK";
      mimeType := "text/html";
      contentLength := None;
      this.sid := sid;
      this.parameters := parameters;
      this.temporaryParameters := temporaryParameters;
      this.persistentParameters := persistentParameters;
      this.outputCookies := outputCookies;
      headerGenerated := false;
      charset := None;
      output := [];
    }

    method SetEncoding(encoding: string) returns (fault: Option<Fault>)
      modifies this
      ensures Outcome(St(), fault) == Unless(old(St()), old(St()).(encoding := encoding))
    {
      if headerGenerated {
        return Some(CannotChange);
      }
      this.encoding := encoding;
      fault := None;
    }

    method SetStatusCode(statusCode: Int32) returns (fault: Option<Fault>)
      modifies this
      ensures Outcome(St(), fault) == Unless(old(St()), old(St()).(statusCode := statusCode))
    {
      if headerGenerated {
        return Some(CannotChange);
      }
      this.statusCode := statusCode;
      fault := None;
    }

    method SetStatusText(statusText: string) returns (fault: Option<Fault>)
      modifies this
      ensures Outcome(St(), fault) == Unless(old(St()), old(St()).(statusText := statusText))
    {
      if headerGenerated {
        return Some(CannotChange);
      }
      this.statusText := statusText;
      fault := None;
    }

    method SetMimeType(mimeType: string) returns (fault: Option<Fault>)
      modifies this
      ensures Outcome(St(), fault) == Unless(old(St()), old(St()).(mimeType := mimeType))
    {
      if headerGenerated {
        return Some(CannotChange);
      }
      this.mimeType := mimeType;
      fault := None;
    }

    method SetContentLength(contentLength: Option<Int64>) returns (fault: Option<Fault>)
      modifies this
      ensures Outcome(St(), fault) == Unless(old(St()), old(St()).(contentLength := contentLength))
    {
      if headerGenerated {
        return Some(CannotChange);
      }
      this.contentLength := contentLength;
      fault := None;
    }

    method AddRCCookie(cookie: RCCookie) returns (fault: Option<Fault>)
      modifies this
      ensures Outcome(St(), fault) == Unless(old(St()), old(St()).(cookies := old(outputCookies) + [cookie]))
    {
      if headerGenerated {
        return Some(CannotChange);
      }
      outputCookies := outputCookies + [cookie];
      fault := None;
    }

    method RemoveRCCookie(cookie: RCCookie) returns (fault: Option<Fault>)
      modifies this
      ensures Outcome(St(), fault) == Unless(old(St()), old(St()).(cookies := RemoveFirst(old(outputCookies), cookie)))
    {
      if headerGenerated {
        return Some(CannotChange);
      }
      outputCookies := RemoveFirst(outputCookies, cookie);
      fault := None;
    }

    /** A read-only copy of the cookie list. */
    method GetOutputCookies() returns (r: seq<RCCookie>)
      ensures r == outputCookies
    {
      r := outputCookies;
    }

    method GetParameter(name: string) returns (r: Option<string>)
      ensures r.Some? <==> name in parameters
      ensures r.Some? ==> r.value == parameters[name]
    {
      r := if name in parameters then Some(parameters[name]) else None;
    }

    method GetParameterNames() returns (r: set<string>)
      ensures r == parameters.Keys
    {
      r := parameters.Keys;
    }

    method GetPersistentParameter(name: string) returns (r: Option<string>)
      ensures r.Some? <==> name in persistentParameters
      ensures r.Some? ==> r.value == persistentParameters[name]
    {
      r := if name in persistentParameters then Some(persistentParameters[name]) else None;
    }

    method GetPersistentParameterNames() returns (r: set<string>)
      ensures r == persistentParameters.Keys
    {
      r := persistentParameters.Keys;
    }

    method SetPersistentParameter(name: string, value: string)
      modifies this
      ensures St() == old(St()).(persistent := old(persistentParameters)[name := value])
    {
      persistentParameters := persistentParameters[name := value];
    }

    method RemovePersistentParameter(name: string)
      modifies this
      ensures St() == old(St()).(persistent := old(persistentParameters) - {name})
    {
      persistentParameters := persistentParameters - {name};
    }

    method GetTemporaryParameter(name: string) returns (r: Option<string>)
      ensures r.Some? <==> name in temporaryParameters
      ensures r.Some? ==> r.value == temporaryParameters[name]
    {
      r := if name in temporaryParameters then Some(temporaryParameters[name]) else None;
    }

    method GetTemporaryParameterNames() returns (r: set<string>)
      ensures r == temporaryParameters.Keys
    {
      r := temporaryParameters.Keys;
    }

    method GetSessionID() returns (r: Option<string>)
      ensures r == sid
    {
      r := sid;
    }

    method SetTemporaryParameter(name: string, value: string)
      modifies this
      ensures St() == old(St()).(temporary := old(temporaryParameters)[name := value])
    {
      temporaryParameters := temporaryParameters[name := value];
    }

    method RemoveTemporaryParameter(name: string)
      modifies this
      ensures St() == old(St()).(temporary := old(temporaryParameters) - {name})
    {
      temporaryParameters := temporaryParameters - {name};
    }

    /** The header text createHeader assembles line by line, before the
        placeholders are replaced. */
    method AssembleHeader() returns (header: string)
      ensures header == Template(mimeType, contentLength, outputCookies)
    {
      header := "HTTP/1.1 {statusCode} {statusText}\r\n";
      if IsTextMime(mimeType) {
        header := header + "Content-Type: {mimeType}; charset={encoding}\r\n";
      } else {
        header := header + "Content-Type: {mimeType}\r\n";
      }
      if contentLength.Some? {
        header := header + "Content-Length: " + IntToString(contentLength.value) + "\r\n";
      }
      ghost var prefix := header;
      var i := 0;
      while i < |outputCookies|
        invariant 0 <= i <= |outputCookies|
        invariant header == prefix + CookieLines(outputCookies[..i])
      {
        var cookie := outputCookies[i];
        var line := "Set-Cookie: " + cookie.name + "=\"" + cookie.value + "\"";
        if cookie.domain.Some? {
          line := line + "; Domain=" + cookie.domain.value;
        }
        if cookie.path.Some? {
          line := line + "; Path=" + cookie.path.value;
        }
        if cookie.maxAge.Some? {
          line := line + "; Max-Age=" + IntToString(cookie.maxAge.value);
        }
        line := line + "; HttpOnly";
        line := line + "\r\n";
        assert line == CookieLine(cookie);
        CookieLinesSnoc(outputCookies, i);
        AppendAssoc(prefix, CookieLines(outputCookies[..i]), line);
        header := header + line;
        i := i + 1;
      }
      assert outputCookies[..i] == outputCookies;
      header := header + "\r\n";
    }

    /** createHeader: marks the header as written, assembles it, substitutes
        the placeholders and writes it as ISO-8859-1. */
    method CreateHeader()
      modifies this
      ensures St() == old(St()).(headerGenerated := true, output := old(output) + [Head(Latin1(Header(old(St()))))])
    {
      HeaderIsChain(St());
      headerGenerated := true;
      var header := AssembleHeader();
      header := Replace(Replace(Replace(Replace(header,
        "{statusCode}", IntToString(statusCode)),
        "{statusText}", statusText),
        "{mimeType}", mimeType),
        "{encoding}", encoding);
      output := output + [Head(Latin1(header))];
    }

    /** The check each write overload starts with: if the header is not out
        yet, look up the charset and write it. */
    method EnsureHeader()
      modifies this
      ensures St() == EmitHeader(old(St()))
    {
      if !headerGenerated {
        charset := Some(encoding);
        CreateHeader();
      }
    }

    /** write(byte[], int, int): the header first if it is not out yet, then
        the range, which the stream checks only after the header is written. */
    method WriteRange(data: seq<Octet>, offset: int, len: int) returns (fault: Option<Fault>)
      modifies this
      ensures Outcome(St(), fault) == Apply(old(St()), WriteCall.WriteRange(data, offset, len))
    {
      EnsureHeader();
      if !(0 <= offset && 0 <= len && offset + len <= |data|) {
        return Some(IndexOutOfBounds);
      }
      output := output + [Raw(data[offset..offset + len])];
      fault := None;
    }

    /** write(byte[]): the whole array, through write(data, 0, length). */
    method WriteBytes(data: seq<Octet>) returns (fault: Option<Fault>)
      modifies this
      ensures Outcome(St(), fault) == Apply(old(St()), WriteCall.WriteBytes(data))
    {
      EnsureHeader();
      assert data[0..0 + |data|] == data;
      fault := WriteRange(data, 0, |data|);
    }

    /** write(String): the header first if it is not out yet, then the text in
        the charset chosen when the header was written. */
    method WriteText(text: string) returns (fault: Option<Fault>)
      modifies this
      ensures Outcome(St(), fault) == Apply(old(St()), WriteCall.WriteText(text))
    {
      EnsureHeader();
      if charset.None? {
        return Some(NullPointer);
      }
      output := output + [Encoded(text, charset.value)];
      fault := None;
    }
  }
}
