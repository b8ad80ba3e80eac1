/**
  Sign, print, parse: the text written to the host, read back by the same parser,
  has the signature input that was signed.
 */
module SignedRoundTrip {
  import opened Prelude
  import opened Text
  import opened Headers
  import opened Request

  // ---------- heads as joined lines ----------

  function HeaderLines(m: HeaderMap, order: seq<string>): seq<string>
    requires forall k | k in order :: k in m
  {
    if order == [] then [] else [PrintedLine(m[order[0]])] + HeaderLines(m, order[1..])
  }

  /** Lines with CRLF between them. */
  function Joined(lines: seq<string>): string {
    if lines == [] then ""
    else if |lines| == 1 then lines[0]
    else lines[0] + CRLF + Joined(lines[1..])
  }

  function HeadLines(r: RequestData, order: seq<string>): seq<string>
    requires forall k | k in order :: k in r.headers
  {
    [FirstLine(r)] + HeaderLines(r.headers, order)
  }

  /** A line the parser cannot split: not empty, no line feed, no carriage return at either end. */
  predicate Solid(line: string) {
    line != "" && LF !in line && line[0] != CR && line[|line| - 1] != CR
  }

  predicate AllSolid(lines: seq<string>) {
    forall i | 0 <= i < |lines| :: Solid(lines[i])
  }

  lemma {:induction false} PrintedIsJoined(first: string, m: HeaderMap, order: seq<string>)
    requires forall k | k in order :: k in m
    ensures first + CRLF + Printed(m, order) == Joined([first] + HeaderLines(m, order)) + CRLF
    decreases |order|
  {
    if order == [] {
      assert first + CRLF + "" == first + CRLF;
      assert [first] + HeaderLines(m, order) == [first];
    } else {
      var line := PrintedLine(m[order[0]]);
      var rest := HeaderLines(m, order[1..]);
      PrintedIsJoined(line, m, order[1..]);
      var all := [first] + HeaderLines(m, order);
      assert all[1..] == [line] + rest;
      assert first + CRLF + (line + CRLF + Printed(m, order[1..]))
          == first + CRLF + (Joined([line] + rest) + CRLF);
      assert first + CRLF + (Joined([line] + rest) + CRLF) == (first + CRLF + Joined([line] + rest)) + CRLF;
    }
  }

  /** No line feed of `s` is followed by a carriage return. */
  predicate NoLfCr(s: string) {
    forall i | 0 <= i < |s| - 1 :: s[i] == LF ==> s[i + 1] != CR
  }

  lemma {:induction false} JoinedShape(lines: seq<string>)
    requires lines != [] && AllSolid(lines)
    ensures NoLfCr(Joined(lines)) && Joined(lines) != ""
    ensures Joined(lines)[0] != CR
    ensures Joined(lines)[|Joined(lines)| - 1] != LF && Joined(lines)[|Joined(lines)| - 1] != CR
  {
    if |lines| > 1 {
      JoinedShape(lines[1..]);
      var a, b := lines[0], Joined(lines[1..]);
      var s := a + CRLF + b;
      forall i | 0 <= i < |s| - 1 ensures s[i] == LF ==> s[i + 1] != CR {
        if i < |a| {
          assert s[i] == a[i];
        } else if i >= |a| + 2 {
          assert s[i] == b[i - |a| - 2] && s[i + 1] == b[i - |a| - 1];
        }
      }
    }
  }

  /** The first blank line of a printed request is the one that ends its head. */
  lemma DoubleCrlfAt(h: string, body: string)
    requires h != "" && NoLfCr(h) && h[|h| - 1] != LF
    ensures FirstAt(h + CRLF + CRLF + body, DOUBLE_CRLF) == |h|
  {
    var s := h + CRLF + CRLF + body;
    assert s[|h|..][..4] == DOUBLE_CRLF;
    forall k | 0 <= k < |h| ensures !(DOUBLE_CRLF <= s[k..]) {
      assert s[k..][1] == s[k + 1] && s[k..][2] == s[k + 2];
      assert k + 1 < |h| ==> s[k + 1] == h[k + 1];
      assert k + 2 < |h| ==> s[k + 2] == h[k + 2];
    }
  }

  lemma FirstCrlfAt(line: string, rest: string)
    requires Solid(line)
    ensures FirstAt(line + CRLF + rest, CRLF) == |line|
  {
    var s := line + CRLF + rest;
    assert s[|line|..][..2] == CRLF;
    forall k | 0 <= k < |line| ensures !(CRLF <= s[k..]) {
      assert s[k..][1] == s[k + 1];
      assert k + 1 < |line| ==> s[k + 1] == line[k + 1];
    }
  }

  lemma NoCrlfIn(line: string)
    requires LF !in line
    ensures FirstAt(line, CRLF) == |line| && FirstAt(line, "\n") == |line|
  {
    forall k | 0 <= k < |line| ensures !(CRLF <= line[k..]) && !("\n" <= line[k..]) {
      assert line[k..][0] == line[k];
      assert k + 1 < |line| ==> line[k..][1] == line[k + 1];
    }
  }

  lemma FirstLfAt(line: string, rest: string)
    requires LF !in line
    ensures FirstAt(line + CRLF + rest, "\n") == |line| + 1
  {
    var s := line + CRLF + rest;
    assert s[|line| + 1..][..1] == "\n";
    forall k | 0 <= k <= |line| ensures !("\n" <= s[k..]) {
      assert s[k..][0] == s[k];
      assert k < |line| ==> s[k] == line[k];
    }
  }

  lemma LinesStep(line: string, rest: string)
    requires LF !in line
    ensures Lines(line + CRLF + rest) == [line] + Lines(rest)
  {
    var s := line + CRLF + rest;
    FirstLfAt(line, rest);
    assert s[|line|] == CR;
    assert s[..|line|] == line;
    assert s[|line| + 2..] == rest;
  }

  /** `lines` undoes the joining. */
  lemma {:induction false} LinesOfJoined(lines: seq<string>)
    requires AllSolid(lines)
    ensures Lines(Joined(lines)) == lines
  {
    if |lines| == 1 {
      NoCrlfIn(lines[0]);
    } else if lines != [] {
      var line, rest := lines[0], lines[1..];
      LinesOfJoined(rest);
      LinesStep(line, Joined(rest));
      assert lines == [line] + rest;
    }
  }

  // ---------- header lines ----------

  predicate SafeHeader(h: Header) {
    Trimmed(h.name) && ':' !in h.name && LF !in h.name && LF !in h.value && IsAscii(h.name)
  }

  predicate SafeHeaders(m: HeaderMap) {
    forall k | k in m :: SafeHeader(m[k]) && Lower(m[k].name) == k
  }

  lemma PrintedLineSolid(h: Header)
    requires SafeHeader(h)
    ensures Solid(PrintedLine(h))
  {
    TrimOfTrimmed(h.name);
    TrimIsTrimmed(h.value);
    var v := Trim(h.value);
    var line := h.name + ": " + v;
    assert line[0] == if h.name == "" then ':' else h.name[0];
    assert line[|line| - 1] == if v == "" then ' ' else v[|v| - 1];
  }

  lemma ColonAt(name: string, rest: string)
    requires ':' !in name && IsAscii(name)
    ensures Find(name + ":" + rest, ":") == Some(|name|)
    ensures TakeChars(name + ":" + rest, |name|) == name && SkipChars(name + ":" + rest, |name| + 1) == rest
  {
    var line := name + ":" + rest;
    assert line[|name|..][..1] == ":";
    forall i | 0 <= i < |name| ensures !(":" <= line[i..]) {
      assert line[i..][0] == line[i] == name[i];
    }
    assert line[..|name|] == name;
    ByteLenAscii(name);
  }

  lemma AddLineAt(m: HeaderMap, name: string, rest: string)
    requires ':' !in name && IsAscii(name)
    ensures AddLine(m, name + ":" + rest) == Add(m, Trim(name), Trim(rest))
  {
    ColonAt(name, rest);
  }

  /** Reading a printed header line stores the same name and the trimmed value. */
  lemma AddPrintedLine(m: HeaderMap, h: Header)
    requires SafeHeader(h)
    ensures AddLine(m, PrintedLine(h)) == Add(m, h.name, Trim(h.value))
  {
    var v := Trim(h.value);
    TrimOfTrimmed(h.name);
    TrimIsTrimmed(h.value);
    TrimOfTrimmed(v);
    AddLineAt(m, h.name, " " + v);
    assert h.name + ":" + (" " + v) == h.name + ": " + v;
  }

  function TrimmedValues(m: HeaderMap): HeaderMap {
    map k | k in m :: Header(m[k].name, Trim(m[k].value))
  }

  lemma {:induction false} AddHeaderLines(acc: HeaderMap, m: HeaderMap, order: seq<string>)
    requires SafeHeaders(m) && Distinct(order) && forall k | k in order :: k in m
    ensures AllSolid(HeaderLines(m, order))
    ensures var r := AddLines(acc, HeaderLines(m, order));
            && (forall k :: k in r <==> k in acc || k in order)
            && (forall k | k in order :: r[k] == TrimmedValues(m)[k])
            && (forall k | k in acc && k !in order :: r[k] == acc[k])
    decreases |order|
  {
    if order != [] {
      var h := m[order[0]];
      PrintedLineSolid(h);
      AddPrintedLine(acc, h);
      var acc1 := AddLine(acc, PrintedLine(h));
      assert acc1 == acc[order[0] := Header(h.name, Trim(h.value))];
      assert Distinct(order[1..]);
      AddHeaderLines(acc1, m, order[1..]);
      var lines := HeaderLines(m, order);
      assert lines[1..] == HeaderLines(m, order[1..]);
      forall i | 0 <= i < |lines| ensures Solid(lines[i]) {
        if i > 0 { assert lines[i] == lines[1..][i - 1]; }
      }
      assert order[0] !in order[1..];
      assert forall k :: k in order <==> k == order[0] || k in order[1..];
    }
  }

  lemma ListedAll(r: HeaderMap, m: HeaderMap, order: seq<string>)
    requires IsOrder(m, order)
    requires forall k :: k in r <==> k in order
    requires forall k | k in order :: r[k] == TrimmedValues(m)[k]
    ensures r == TrimmedValues(m)
  {
    SameMap(r, TrimmedValues(m));
  }

  lemma AddedHeaders(m: HeaderMap, order: seq<string>)
    requires SafeHeaders(m) && IsOrder(m, order)
    ensures AllSolid(HeaderLines(m, order))
    ensures AddLines(map[], HeaderLines(m, order)) == TrimmedValues(m)
  {
    AddHeaderLines(map[], m, order);
    ListedAll(AddLines(map[], HeaderLines(m, order)), m, order);
  }

  lemma ParsedHeaders(m: HeaderMap, order: seq<string>)
    requires SafeHeaders(m) && IsOrder(m, order)
    ensures AllSolid(HeaderLines(m, order))
    ensures Parse(Joined(HeaderLines(m, order))) == TrimmedValues(m)
  {
    AddedHeaders(m, order);
    LinesOfJoined(HeaderLines(m, order));
  }

  // ---------- first line ----------

  predicate Token(s: string) { s != "" && NoSpace(s) }

  lemma {:induction false} TokenLength(t: string, rest: string)
    requires NoSpace(t) && (rest == "" || IsSpace(rest[0]))
    ensures WordLength(t + rest) == |t|
  {
    if t == "" {
      assert t + rest == rest;
    } else {
      assert (t + rest)[1..] == t[1..] + rest;
      TokenLength(t[1..], rest);
    }
  }

  lemma WordsOfToken(t: string, rest: string)
    requires Token(t) && (rest == "" || IsSpace(rest[0]))
    ensures Words(t + rest) == [t] + Words(rest)
  {
    var s := t + rest;
    assert s[0] == t[0];
    assert TrimStart(s) == s;
    TokenLength(t, rest);
    assert s[..|t|] == t && s[|t|..] == rest;
  }

  lemma WordsAfterToken(t: string, s: string)
    requires Token(t)
    ensures Words(t + " " + s) == [t] + Words(s)
  {
    var rest := " " + s;
    assert rest[1..] == s;
    assert TrimStart(rest) == TrimStart(s);
    WordsOfToken(t, rest);
    assert t + rest == t + " " + s;
  }

  predicate SafeFirstLine(r: RequestData) {
    Token(r.verb) && Token(r.url) && Token(r.version)
  }

  lemma FirstLineWords(r: RequestData)
    requires SafeFirstLine(r)
    ensures Words(FirstLine(r)) == [r.verb, r.url, r.version]
  {
    var c := r.version;
    assert c + "" == c;
    WordsOfToken(c, "");
    WordsAfterToken(r.url, c);
    WordsAfterToken(r.verb, r.url + " " + c);
    assert FirstLine(r) == r.verb + " " + (r.url + " " + c);
  }

  lemma FirstLineSolid(r: RequestData)
    requires SafeFirstLine(r)
    ensures Solid(FirstLine(r))
  {
    var l := FirstLine(r);
    assert l[0] == r.verb[0] && l[|l| - 1] == r.version[|r.version| - 1];
  }

  // ---------- the whole request ----------

  predicate WellFormed(r: RequestData) {
    SafeFirstLine(r) && SafeHeaders(r.headers)
  }

  /** The head as printed, up to the blank line. */
  function Head(r: RequestData, order: seq<string>): string
    requires forall k | k in order :: k in r.headers
  {
    Joined(HeadLines(r, order))
  }

  lemma HeadShape(r: RequestData, order: seq<string>)
    requires WellFormed(r) && IsOrder(r.headers, order)
    ensures AllSolid(HeadLines(r, order))
    ensures RawWithoutBody(r, order) == Head(r, order) + CRLF + CRLF
    ensures forall body :: FirstAt(Head(r, order) + CRLF + CRLF + body, DOUBLE_CRLF) == |Head(r, order)|
  {
    FirstLineSolid(r);
    ParsedHeaders(r.headers, order);
    PrintedIsJoined(FirstLine(r), r.headers, order);
    var lines := HeadLines(r, order);
    forall i | 0 <= i < |lines| ensures Solid(lines[i]) {
      if i > 0 { assert lines[i] == HeaderLines(r.headers, order)[i - 1]; }
    }
    JoinedShape(lines);
    forall body ensures FirstAt(Head(r, order) + CRLF + CRLF + body, DOUBLE_CRLF) == |Head(r, order)| {
      DoubleCrlfAt(Head(r, order), body);
    }
  }

  lemma CutAtHead(h: string, body: string)
    requires FirstAt(h + CRLF + CRLF + body, DOUBLE_CRLF) == |h|
    ensures Cut(h + CRLF + CRLF + body, DOUBLE_CRLF).1 == SkipChars(body, Excess(h))
    ensures IsAscii(h) ==> Cut(h + CRLF + CRLF + body, DOUBLE_CRLF) == (h, body)
  {
    var s := h + CRLF + CRLF + body;
    assert s[..|h|] == h;
    var e := Excess(h);
    if e <= |body| {
      assert s[|h| + 4 + e..] == body[e..];
    }
  }

  /**
    The body text that survives print and parse, for any well-formed request: the parser
    counts characters where it searched bytes, so it drops one leading body character for
    every extra byte of the head.
   */
  lemma BodyShift(r: RequestData, order: seq<string>)
    requires WellFormed(r) && IsOrder(r.headers, order)
    ensures var survived := Cut(ToRaw(r, order), DOUBLE_CRLF).1;
            && survived == SkipChars(PrintedBody(r), Excess(Head(r, order)))
            && (survived == PrintedBody(r) <==> IsAscii(Head(r, order)) || PrintedBody(r) == "")
  {
    HeadShape(r, order);
    var h := Head(r, order);
    assert ToRaw(r, order) == h + CRLF + CRLF + PrintedBody(r);
    CutAtHead(h, PrintedBody(r));
  }

  lemma CutAtCrlf(l: string, rest: string)
    requires Solid(l) && IsAscii(l + CRLF + rest)
    ensures Cut(l + CRLF + rest, CRLF) == (l, rest)
  {
    var s := l + CRLF + rest;
    FirstCrlfAt(l, rest);
    assert s[..|l|] == l && s[|l| + 2..] == rest;
    assert IsAscii(l) by { assert forall i | 0 <= i < |l| :: l[i] == s[i]; }
    ByteLenAscii(l);
  }

  lemma CutFirstLine(r: RequestData, order: seq<string>)
    requires WellFormed(r) && IsOrder(r.headers, order) && IsAscii(Head(r, order))
    ensures Cut(Head(r, order), CRLF) == (FirstLine(r), Joined(HeaderLines(r.headers, order)))
  {
    FirstLineSolid(r);
    var l, hs := FirstLine(r), HeaderLines(r.headers, order);
    assert HeadLines(r, order)[1..] == hs;
    if hs == [] {
      NoCrlfIn(l);
    } else {
      var s := Head(r, order);
      assert s == l + CRLF + Joined(hs);
      CutAtCrlf(l, Joined(hs));
    }
  }

  /** Parsing a printed request with an ASCII head gives it back with trimmed values and the printed body. */
  lemma ParsePrinted(r: RequestData, order: seq<string>)
    requires WellFormed(r) && IsOrder(r.headers, order) && IsAscii(Head(r, order))
    ensures ParseRequest(ToRaw(r, order))
         == Some(r.(headers := TrimmedValues(r.headers), body := Encode(PrintedBody(r))))
  {
    HeadShape(r, order);
    var h := Head(r, order);
    assert ToRaw(r, order) == h + CRLF + CRLF + PrintedBody(r);
    CutAtHead(h, PrintedBody(r));
    CutFirstLine(r, order);
    FirstLineWords(r);
    ParsedHeaders(r.headers, order);
  }

  lemma TrimmedValuesSigned(m: HeaderMap)
    ensures Canonical(TrimmedValues(m)) == Canonical(m)
  {
    forall k | k in m ensures Trim(TrimmedValues(m)[k].value) == Trim(m[k].value) { TrimIsTrimmed(m[k].value); }
    assert Signed(TrimmedValues(m)) == Signed(m);
    CanonicalDeterminedBySigned(TrimmedValues(m), m);
  }

  /** With the same method, URL and canonical headers, a body that was dropped changes the signature input. */
  lemma DroppedBodyNoticed(lib: UrlLibrary, r: RequestData, q: RequestData)
    requires q.verb == r.verb && q.url == r.url && Canonical(q.headers) == Canonical(r.headers)
    requires q.body == r.body || q.body == []
    ensures SigInput(lib, q) == SigInput(lib, r) <==> q.body == r.body
  {
    if SigInput(lib, q) == SigInput(lib, r) {
      assert |SigInput(lib, q)| == |SigInput(lib, r)|;
    }
  }

  function SignedRequest(r: RequestData, authorization: string): RequestData {
    r.(headers := Add(r.headers, AUTHORIZATION_HEADER, authorization))
  }

  predicate PlainName(name: string) {
    name != "" && forall c | c in name :: 'a' <= c <= 'z' || c == '-'
  }

  lemma PlainNameIsSafe(name: string, value: string)
    requires PlainName(name) && LF !in value
    ensures SafeHeader(Header(name, value))
  {
    assert forall i | 0 <= i < |name| :: name[i] in name;
  }

  lemma AuthorizationIsPlain()
    ensures PlainName(AUTHORIZATION_HEADER)
  {
  }

  lemma SignedRequestShape(r: RequestData, authorization: string)
    requires WellFormed(r) && LF !in authorization
    ensures WellFormed(SignedRequest(r, authorization))
    ensures ExpectsContinue(SignedRequest(r, authorization).headers) == ExpectsContinue(r.headers)
    ensures Canonical(SignedRequest(r, authorization).headers) == Canonical(r.headers)
  {
    AuthorizationIsPlain();
    PlainNameIsSafe(AUTHORIZATION_HEADER, authorization);
    AuthorizationIgnored(r.headers, authorization);
    assert |Lower(AUTHORIZATION_HEADER)| == 29;
  }

  /**
    Attach the authorization header, print in any header order, parse: the result always
    parses, and its signature input is the one that was signed exactly when the body was
    printed, that is, the client is not expecting a 100 and the body is UTF-8, or there is no body.
   */
  lemma SignPrintParse(lib: UrlLibrary, r: RequestData, authorization: string, order: seq<string>)
    requires WellFormed(r) && LF !in authorization
    requires IsOrder(SignedRequest(r, authorization).headers, order)
    requires IsAscii(Head(SignedRequest(r, authorization), order))
    ensures var parsed := ParseRequest(ToRaw(SignedRequest(r, authorization), order));
            && parsed.Some?
            && (SigInput(lib, parsed.value) == SigInput(lib, r)
                <==> (!ExpectsContinue(r.headers) && FromUtf8(r.body).Some?) || r.body == [])
  {
    SignedRequestShape(r, authorization);
    var s := SignedRequest(r, authorization);
    ParsePrinted(s, order);
    TrimmedValuesSigned(s.headers);
    DroppedBodyNoticed(lib, r, ParseRequest(ToRaw(s, order)).value);
  }
}
