/**
  A request on its way through the proxy: received, given the agent's own headers, signed and printed.
  `receive_request_data` of proxy_agent/src/common/http.rs and `handle_connection` of
  proxy_agent/src/proxy/proxy_listener.rs.
 */
module ProxiedRequest {
  import opened Text
  import opened Headers
  import opened Request
  import opened SignedRoundTrip

  const CLAIMS_HEADER: string := "x-ms-azure-host-claims"
  const DATE_HEADER: string := "x-ms-azure-host-date"

  /** Printable safely, and ASCII throughout. */
  predicate SafeAscii(m: HeaderMap) {
    SafeHeaders(m) && forall k | k in m :: IsAscii(m[k].name) && IsAscii(m[k].value)
  }

  predicate AsciiFirstLine(r: RequestData) {
    SafeFirstLine(r) && IsAscii(r.verb) && IsAscii(r.url) && IsAscii(r.version)
  }

  // ---------- what parsing yields ----------

  lemma AsciiMembers(s: string, t: string)
    requires IsAscii(s) && forall c | c in t :: c in s
    ensures IsAscii(t)
  {
    forall i | 0 <= i < |t| ensures t[i] as int < 0x80 { assert t[i] in s; }
  }

  lemma {:induction false} WordsAreTokens(s: string)
    ensures forall w | w in Words(s) :: Token(w) && forall c | c in w :: c in s
    decreases |s|
  {
    TrimStartShape(s);
    var t := TrimStart(s);
    if t != "" {
      var n := WordLength(t);
      WordsAreTokens(t[n..]);
      assert forall c | c in t[n..] :: c in t;
      assert Words(s) == [t[..n]] + Words(t[n..]);
    }
  }

  lemma FirstLineIsSafe(line: string)
    requires IsAscii(line) && FromFirstLine(line).Some?
    ensures AsciiFirstLine(FromFirstLine(line).value)
  {
    WordsAreTokens(line);
    var words := Words(line);
    assert words[0] in words && words[1] in words && words[2] in words;
    AsciiMembers(line, words[0]);
    AsciiMembers(line, words[1]);
    AsciiMembers(line, words[2]);
  }

  lemma NoLfBefore(raw: string, at: nat)
    requires at <= |raw| && forall i | 0 <= i < at :: !("\n" <= raw[i..])
    ensures LF !in raw[..at]
  {
    forall i | 0 <= i < at ensures raw[i] != LF { assert raw[i..][0] == raw[i]; }
  }

  lemma {:induction false} LinesAreSafe(raw: string)
    ensures forall l | l in Lines(raw) :: LF !in l && forall c | c in l :: c in raw
  {
    if raw != "" {
      var at := FirstAt(raw, "\n");
      NoLfBefore(raw, at);
      if at < |raw| {
        LinesAreSafe(raw[at + 1..]);
        assert forall c | c in raw[at + 1..] :: c in raw;
        var first := if at > 0 && raw[at - 1] == CR then raw[..at - 1] else raw[..at];
        assert forall c | c in first :: c in raw[..at];
        assert Lines(raw) == [first] + Lines(raw[at + 1..]);
      } else {
        assert raw[..at] == raw;
      }
    }
  }

  lemma NoColonBefore(line: string, at: nat)
    requires at <= |line| && forall i | 0 <= i < at :: !(":" <= line[i..])
    ensures ':' !in line[..at]
  {
    forall i | 0 <= i < at ensures line[i] != ':' { assert line[i..][0] == line[i]; }
  }

  lemma TrimmedPart(line: string, part: string)
    requires IsAscii(line) && LF !in line && forall c | c in part :: c in line
    ensures var t := Trim(part); Trimmed(t) && IsAscii(t) && LF !in t && forall c | c in t :: c in part
  {
    TrimIsTrimmed(part);
    AsciiMembers(line, Trim(part));
  }

  lemma AddLineKeepsSafe(m: HeaderMap, line: string)
    requires SafeAscii(m) && IsAscii(line) && LF !in line
    ensures SafeAscii(AddLine(m, line))
  {
    var k := FirstAt(line, ":");
    if k < |line| {
      ByteLenAscii(line[..k]);
      NoColonBefore(line, k);
      TrimmedPart(line, line[..k]);
      TrimmedPart(line, line[k + 1..]);
    }
  }

  lemma {:induction false} AddLinesKeepsSafe(m: HeaderMap, lines: seq<string>)
    requires SafeAscii(m) && forall l | l in lines :: IsAscii(l) && LF !in l
    ensures SafeAscii(AddLines(m, lines))
    decreases |lines|
  {
    if lines != [] {
      assert lines[0] in lines;
      assert forall l | l in lines[1..] :: l in lines;
      if lines[0] == "" {
        AddLinesKeepsSafe(m, lines[1..]);
      } else {
        AddLineKeepsSafe(m, lines[0]);
        AddLinesKeepsSafe(AddLine(m, lines[0]), lines[1..]);
      }
    }
  }

  lemma ParsedHeadersAreSafe(raw: string)
    requires IsAscii(raw)
    ensures SafeAscii(Parse(raw))
  {
    LinesAreSafe(raw);
    forall l | l in Lines(raw) ensures IsAscii(l) && LF !in l { AsciiMembers(raw, l); }
    AddLinesKeepsSafe(map[], Lines(raw));
  }

  /** Parsed from an ASCII head, every request is one the printer can print and the parser read back. */
  lemma ParsedIsWellFormed(line: string, rawHeaders: string)
    requires IsAscii(line) && IsAscii(rawHeaders) && FromFirstLine(line).Some?
    ensures WellFormed(FromFirstLine(line).value.(headers := Parse(rawHeaders)))
  {
    FirstLineIsSafe(line);
    ParsedHeadersAreSafe(rawHeaders);
  }

  // ---------- the agent's headers ----------

  predicate PlainText(s: string) {
    IsAscii(s) && LF !in s
  }

  lemma AddKeepsSafe(m: HeaderMap, name: string, value: string)
    requires SafeAscii(m) && PlainName(name) && PlainText(value)
    ensures SafeAscii(Add(m, name, value))
  {
    PlainNameIsSafe(name, value);
    assert IsAscii(name) by { assert forall i | 0 <= i < |name| :: name[i] in name; }
  }

  lemma OwnNamesArePlain()
    ensures PlainName(CLAIMS_HEADER) && PlainName(DATE_HEADER)
  {
  }

  /** The request as `handle_connection` has it when it chooses a path. */
  function Proxied(line: string, rawHeaders: string, body: seq<Byte>, claims: string, date: string): RequestData
    requires FromFirstLine(line).Some?
  {
    FromFirstLine(line).value.(
      headers := Add(Add(Parse(rawHeaders), CLAIMS_HEADER, claims), DATE_HEADER, date), body := body)
  }

  // ---------- the printed head ----------

  lemma AsciiConcat(a: string, b: string)
    requires IsAscii(a) && IsAscii(b)
    ensures IsAscii(a + b)
  {
  }

  lemma {:induction false} JoinedAscii(lines: seq<string>)
    requires forall l | l in lines :: IsAscii(l)
    ensures IsAscii(Joined(lines))
  {
    if lines != [] {
      assert lines[0] in lines;
      assert forall l | l in lines[1..] :: l in lines;
      JoinedAscii(lines[1..]);
      AsciiConcat(lines[0], CRLF);
      AsciiConcat(lines[0] + CRLF, Joined(lines[1..]));
    }
  }

  lemma PrintedLineAscii(h: Header)
    requires IsAscii(h.name) && IsAscii(h.value)
    ensures IsAscii(PrintedLine(h))
  {
    TrimIsTrimmed(h.name);
    TrimIsTrimmed(h.value);
    AsciiMembers(h.name, Trim(h.name));
    AsciiMembers(h.value, Trim(h.value));
    AsciiConcat(Trim(h.name), ": ");
    AsciiConcat(Trim(h.name) + ": ", Trim(h.value));
  }

  lemma {:induction false} HeaderLinesAscii(m: HeaderMap, order: seq<string>)
    requires SafeAscii(m) && forall k | k in order :: k in m
    ensures forall l | l in HeaderLines(m, order) :: IsAscii(l)
  {
    if order != [] {
      PrintedLineAscii(m[order[0]]);
      HeaderLinesAscii(m, order[1..]);
    }
  }

  lemma FirstLineAscii(r: RequestData)
    requires AsciiFirstLine(r)
    ensures IsAscii(FirstLine(r))
  {
    AsciiConcat(r.verb, " ");
    AsciiConcat(r.verb + " ", r.url);
    AsciiConcat(r.verb + " " + r.url, " ");
    AsciiConcat(r.verb + " " + r.url + " ", r.version);
  }

  lemma HeadAscii(r: RequestData, order: seq<string>)
    requires AsciiFirstLine(r) && SafeAscii(r.headers) && IsOrder(r.headers, order)
    ensures IsAscii(Head(r, order))
  {
    FirstLineAscii(r);
    HeaderLinesAscii(r.headers, order);
    JoinedAscii(HeadLines(r, order));
  }

  /**
    From receiving to the host.  A request with an ASCII head and any body, given the
    agent's claims and date headers, signed, printed in any header order and parsed again,
    has the signature input that was signed exactly when no 100 is expected and the body is
    UTF-8, or there is no body.
   */
  lemma ProxiedRequestArrivesSigned(lib: UrlLibrary, line: string, rawHeaders: string, body: seq<Byte>,
                                    claims: string, date: string, authorization: string, order: seq<string>)
    requires IsAscii(line) && IsAscii(rawHeaders) && FromFirstLine(line).Some?
    requires PlainText(claims) && PlainText(date) && PlainText(authorization)
    requires IsOrder(SignedRequest(Proxied(line, rawHeaders, body, claims, date), authorization).headers, order)
    ensures var r := Proxied(line, rawHeaders, body, claims, date);
            var parsed := ParseRequest(ToRaw(SignedRequest(r, authorization), order));
            && parsed.Some?
            && (SigInput(lib, parsed.value) == SigInput(lib, r)
                <==> (!ExpectsContinue(r.headers) && FromUtf8(body).Some?) || body == [])
  {
    var r := Proxied(line, rawHeaders, body, claims, date);
    ProxiedIsSafe(line, rawHeaders, body, claims, date);
    AuthorizationIsPlain();
    AddKeepsSafe(r.headers, AUTHORIZATION_HEADER, authorization);
    HeadAscii(SignedRequest(r, authorization), order);
    SignPrintParse(lib, r, authorization, order);
  }

  lemma ProxiedIsSafe(line: string, rawHeaders: string, body: seq<Byte>, claims: string, date: string)
    requires IsAscii(line) && IsAscii(rawHeaders) && FromFirstLine(line).Some?
    requires PlainText(claims) && PlainText(date)
    ensures var r := Proxied(line, rawHeaders, body, claims, date); AsciiFirstLine(r) && SafeAscii(r.headers)
  {
    FirstLineIsSafe(line);
    ParsedHeadersAreSafe(rawHeaders);
    OwnNamesArePlain();
    AddKeepsSafe(Parse(rawHeaders), CLAIMS_HEADER, claims);
    AddKeepsSafe(Add(Parse(rawHeaders), CLAIMS_HEADER, claims), DATE_HEADER, date);
  }
}
