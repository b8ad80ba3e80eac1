/**
  Requests the agent does sign and that share a signature input: a client header moved to the end of the body,
  beside the claims and date headers every request gets. proxy_agent/src/common/http/request.rs,
  proxy_agent/src/common/http.rs and proxy_agent/src/proxy/proxy_listener.rs.
 */
module SignedCollision {
  import opened Prelude
  import opened Text
  import opened Headers
  import opened Request
  import opened SignedRoundTrip
  import opened ProxiedRequest
  import opened SignatureCoverage
  import ContinueRelay

  /** The request as received from a client that sent these headers, in this order. */
  function FromClient(line: string, m: HeaderMap, order: seq<string>, body: seq<Byte>, claims: string, date: string)
    : RequestData
    requires FromFirstLine(line).Some? && IsOrder(m, order)
  {
    Proxied(line, Joined(HeaderLines(m, order)), body, claims, date)
  }

  /** `m` with the agent's own headers. */
  function WithOwn(m: HeaderMap, claims: string, date: string): HeaderMap {
    Add(Add(m, CLAIMS_HEADER, claims), DATE_HEADER, date)
  }

  lemma PlainNameIsLower(name: string)
    requires PlainName(name)
    ensures Lower(name) == name
  {
    forall i | 0 <= i < |name| ensures LowerChar(name[i]) == name[i] { assert name[i] in name; }
  }

  /** A key the agent does not add itself can be dropped before or after. */
  lemma OwnHeadersApart(m: HeaderMap, k: string, claims: string, date: string)
    requires k != CLAIMS_HEADER && k != DATE_HEADER
    ensures WithOwn(m, claims, date) - {k} == WithOwn(m - {k}, claims, date)
    ensures forall j | j in WithOwn(m, claims, date) :: j in m || j == CLAIMS_HEADER || j == DATE_HEADER
    ensures k in m ==> WithOwn(m, claims, date)[k] == m[k]
  {
    OwnNamesArePlain();
    PlainNameIsLower(CLAIMS_HEADER);
    PlainNameIsLower(DATE_HEADER);
  }

  /** The key comes before every other one that is signed with it. */
  predicate FirstOfAll(m: HeaderMap, k: string) {
    && k in m && !IsAuthorization(k) && Before(k, CLAIMS_HEADER) && Before(k, DATE_HEADER)
    && forall j | j in m && j != k :: Before(k, j)
  }

  lemma TrimmedWithout(m: HeaderMap, k: string)
    ensures TrimmedValues(m) - {k} == TrimmedValues(m - {k})
  {
  }

  /** A client header that sorts before all others can be read as the end of the body, whatever the agent adds. */
  lemma ProxiedCollision(lib: UrlLibrary, line: string, m: HeaderMap, k: string, order: seq<string>,
                         order': seq<string>, body: seq<Byte>, claims: string, date: string)
    requires FromFirstLine(line).Some? && SafeHeaders(m) && IsOrder(m, order) && IsOrder(m - {k}, order')
    requires FirstOfAll(m, k)
    ensures var longer := body + [LF_BYTE] + Encode(k + ":" + Trim(m[k].value));
            SigInput(lib, FromClient(line, m, order, body, claims, date))
            == SigInput(lib, FromClient(line, m - {k}, order', longer, claims, date))
  {
    var r := FromClient(line, m, order, body, claims, date);
    ParsedHeaders(m, order);
    ParsedHeaders(m - {k}, order');
    TrimmedWithout(m, k);
    FirstAmongSigned(m, k, claims, date);
    OwnHeadersApart(TrimmedValues(m), k, claims, date);
    assert r.headers == WithOwn(TrimmedValues(m), claims, date);
    FirstHeaderReadsAsBody(lib, r, k);
  }

  lemma FirstAmongSigned(m: HeaderMap, k: string, claims: string, date: string)
    requires FirstOfAll(m, k)
    ensures k != CLAIMS_HEADER && k != DATE_HEADER
    ensures var s := Signed(WithOwn(TrimmedValues(m), claims, date));
            && k in s && s[k] == Trim(m[k].value) && forall j | j in s && j != k :: Before(k, j)
  {
    BeforeTotal(k, CLAIMS_HEADER);
    BeforeTotal(k, DATE_HEADER);
    OwnHeadersApart(TrimmedValues(m), k, claims, date);
    TrimIsTrimmed(m[k].value);
  }

  // ---------- one pair ----------

  function TwoHeaders(): HeaderMap {
    map["a" := Header("a", "1"), CONTENT_LENGTH_KEY := Header(CONTENT_LENGTH_KEY, "1")]
  }

  lemma TwoHeadersAreSafe()
    ensures SafeHeaders(TwoHeaders()) && FirstOfAll(TwoHeaders(), "a")
    ensures TwoHeaders() - {"a"} == map[CONTENT_LENGTH_KEY := Header(CONTENT_LENGTH_KEY, "1")]
    ensures IsOrder(TwoHeaders(), ["a", CONTENT_LENGTH_KEY]) && IsOrder(TwoHeaders() - {"a"}, [CONTENT_LENGTH_KEY])
  {
    assert CONTENT_LENGTH_KEY[0] == 'c' && CLAIMS_HEADER[0] == 'x' && DATE_HEADER[0] == 'x';
    assert |Lower("a")| != |Lower(AUTHORIZATION_HEADER)|;
    PlainNameIsSafe("a", "1");
    PlainNameIsSafe(CONTENT_LENGTH_KEY, "1");
    PlainNameIsLower("a");
    PlainNameIsLower(CONTENT_LENGTH_KEY);
  }

  lemma DeclaredOne(m: HeaderMap, claims: string, date: string)
    requires CONTENT_LENGTH_KEY in m && m[CONTENT_LENGTH_KEY].value == "1"
    ensures ContentLength(WithOwn(TrimmedValues(m), claims, date)) == Some(1)
  {
    assert CONTENT_LENGTH_KEY[0] != CLAIMS_HEADER[0] && CONTENT_LENGTH_KEY[0] != DATE_HEADER[0];
    OwnHeadersApart(TrimmedValues(m), CONTENT_LENGTH_KEY, claims, date);
    assert Decimal(1) == "1";
    ParseDecimal(1, USIZE_MAX);
    TrimOfTrimmed("1");
  }

  lemma LineBytes()
    ensures Encode("a" + ":" + Trim("1")) == [97, 58, 49]
  {
    TrimOfTrimmed("1");
    assert "a" + ":" + "1" == "a:1";
    EncodeSmall();
  }

  lemma EncodeSmall()
    ensures Encode("a:1") == [97, 58, 49]
  {
    assert "a:1"[1..] == ":1" && ":1"[1..] == "1" && "1"[1..] == "";
    assert Encode("1") == [49] + Encode("");
    assert Encode(":1") == [58] + Encode("1");
  }

  /** Two requests the agent signs alike, with a header `a: 1` and the body `x`, and without that header and the
      body `x`, line feed, `a:1`; both declare one byte, and a body that comes in one chunk is kept whole. */
  lemma CollisionExample(lib: UrlLibrary, line: string, claims: string, date: string)
    returns (raw: string, raw': string)
    requires FromFirstLine(line).Some?
    ensures var r := Proxied(line, raw, [120], claims, date);
            var q := Proxied(line, raw', [120, 10, 97, 58, 49], claims, date);
            && r.body != q.body && SigInput(lib, r) == SigInput(lib, q)
            && ContentLength(r.headers) == ContentLength(q.headers) == Some(1)
            && ContinueRelay.Body([r.body], 1) == r.body && ContinueRelay.Body([q.body], 1) == q.body
  {
    var m := TwoHeaders();
    TwoHeadersAreSafe();
    var order, order' := ["a", CONTENT_LENGTH_KEY], [CONTENT_LENGTH_KEY];
    raw, raw' := Joined(HeaderLines(m, order)), Joined(HeaderLines(m - {"a"}, order'));
    LineBytes();
    assert [120] + [LF_BYTE] + [97, 58, 49] == [120, 10, 97, 58, 49];
    ProxiedCollision(lib, line, m, "a", order, order', [120], claims, date);
    ParsedHeaders(m, order);
    ParsedHeaders(m - {"a"}, order');
    DeclaredOne(m, claims, date);
    DeclaredOne(m - {"a"}, claims, date);
    ContinueRelay.OverrunIsKept([120], 1);
    ContinueRelay.OverrunIsKept([120, 10, 97, 58, 49], 1);
  }
}
