/**
  Printing, parsing and the signature input of a request,
  proxy_agent/src/common/http/request.rs.
 */
module Request {
  import opened Prelude
  import opened Text
  import opened Headers

  const DOUBLE_CRLF: string := "\r\n\r\n"

  /** What the URL library yields: a path and decoded query pairs. */
  datatype Url = Url(path: string, query: seq<(string, string)>)

  /** `Url::parse` and `join` onto http://127.0.0.1, each of which may fail. */
  datatype UrlLibrary = UrlLibrary(parse: string -> Option<Url>, join: string -> Option<Url>)

  datatype RequestData = RequestData(verb: string, url: string, version: string, headers: HeaderMap, body: seq<Byte>)

  // ---------- parsing ----------

  function WordLength(s: string): (n: nat)
    ensures n <= |s| && NoSpace(s[..n]) && (n < |s| ==> IsSpace(s[n]))
  {
    if s == "" || IsSpace(s[0]) then 0
    else
      var n := WordLength(s[1..]);
      assert forall i | 0 <= i < n :: s[1..][..n][i] == s[i + 1];
      1 + n
  }

  /** `split_whitespace` */
  function Words(s: string): seq<string>
    decreases |s|
  {
    TrimStartShape(s);
    var t := TrimStart(s);
    if t == "" then []
    else
      var n := WordLength(t);
      [t[..n]] + Words(t[n..])
  }

  function FromFirstLine(line: string): Option<RequestData> {
    var words := Words(line);
    if |words| < 3 then None else Some(RequestData(words[0], words[1], words[2], map[], []))
  }

  /** The two sides of a separator found by byte offset and cut by character count. */
  function Cut(s: string, sep: string): (string, string)
    requires sep != ""
  {
    match Find(s, sep)
    case None => (s, "")
    case Some(at) => (TakeChars(s, at), SkipChars(s, at + |sep|))
  }

  function ParseRequest(raw: string): Option<RequestData> {
    var (head, body) := Cut(raw, DOUBLE_CRLF);
    var (line, rawHeaders) := Cut(head, CRLF);
    match FromFirstLine(line)
    case None => None
    case Some(r) => Some(r.(headers := Parse(rawHeaders), body := Encode(body)))
  }

  // ---------- printing ----------

  function FirstLine(r: RequestData): string {
    r.verb + " " + r.url + " " + r.version
  }

  function RawWithoutBody(r: RequestData, order: seq<string>): string
    requires forall k | k in order :: k in r.headers
  {
    FirstLine(r) + CRLF + Printed(r.headers, order) + CRLF
  }

  /** The body text a printed request carries. */
  ghost function PrintedBody(r: RequestData): string {
    if ExpectsContinue(r.headers) then ""
    else match FromUtf8(r.body) case Some(text) => text case None => ""
  }

  ghost function ToRaw(r: RequestData, order: seq<string>): string
    requires forall k | k in order :: k in r.headers
  {
    RawWithoutBody(r, order) + PrintedBody(r)
  }

  // ---------- signature input ----------

  function ParameterMap(query: seq<(string, string)>): map<string, string> {
    if query == [] then map[]
    else
      var last := query[|query| - 1];
      ParameterMap(query[..|query| - 1])[Lower(last.0) := last.1]
  }

  function JoinParameters(m: map<string, string>, keys: seq<string>): string
    requires forall k | k in keys :: k in m
  {
    if keys == [] then ""
    else if |keys| == 1 then keys[0] + "=" + m[keys[0]]
    else JoinParameters(m, keys[..|keys| - 1]) + "&" + keys[|keys| - 1] + "=" + m[keys[|keys| - 1]]
  }

  ghost function PathAndParameters(lib: UrlLibrary, url: string): (string, string) {
    var parsed := if lib.parse(url).Some? then lib.parse(url) else lib.join(url);
    match parsed
    case None => (url, "")
    case Some(u) =>
      var pairs := ParameterMap(u.query);
      (u.path, JoinParameters(pairs, KeysInOrder(pairs)))
  }

  ghost function SigInput(lib: UrlLibrary, r: RequestData): seq<Byte> {
    var (path, parameters) := PathAndParameters(lib, r.url);
    Encode(r.verb) + [10] + r.body + [10] + Encode(Canonical(r.headers))
    + Encode(path) + [10] + Encode(parameters)
  }

  // ---------- the object ----------

  class Request {
    var verb: string
    var url: string
    var version: string
    var headers: Headers
    var body: seq<Byte>

    function Data(): RequestData
      reads this, headers
    {
      RequestData(verb, url, version, headers.entries, body)
    }

    constructor Create(uri: string, verb: string, version: string)
      ensures Data() == RequestData(verb, uri, version, map[], [])
      ensures fresh(headers)
    {
      this.verb, this.url, this.version, this.body := verb, uri, version, [];
      this.headers := new Headers();
    }

    static method FromRawRequest(raw: string) returns (request: Request?)
      ensures request == null <==> ParseRequest(raw).None?
      ensures request != null ==> fresh(request) && request.Data() == ParseRequest(raw).value
    {
      var (head, bodyText) := Cut(raw, DOUBLE_CRLF);
      var (line, rawHeaders) := Cut(head, CRLF);
      var words := Words(line);
      if |words| < 3 { return null; }
      request := new Request.Create(words[1], words[0], words[2]);
      request.headers := new Headers.FromRawData(rawHeaders);
      request.SetBodyAsString(bodyText);
    }

    method SetBodyAsString(text: string)
      modifies this`body
      ensures body == Encode(text)
    {
      body := Encode(text);
    }

    method RawStringWithoutBody() returns (raw: string, ghost order: seq<string>)
      ensures IsOrder(headers.entries, order) && raw == RawWithoutBody(Data(), order)
    {
      raw := verb + " " + url + " " + version + CRLF;
      var lines;
      lines, order := headers.ToRawString();
      raw := raw + lines;
      raw := raw + CRLF;
    }

    method AsSigInput(lib: UrlLibrary) returns (data: seq<Byte>)
      ensures data == SigInput(lib, Data())
    {
      data := Encode(verb);
      data := data + [10];
      data := data + body;
      data := data + [10];
      var canonicalized := headers.ToCanonicalizedString();
      data := data + Encode(canonicalized);
      var path, parameters := UrlPathAndCanonicalizedParameters(lib);
      data := data + Encode(path);
      data := data + [10];
      data := data + Encode(parameters);
    }

    method UrlPathAndCanonicalizedParameters(lib: UrlLibrary) returns (path: string, parameters: string)
      ensures (path, parameters) == PathAndParameters(lib, url)
    {
      var parsed := lib.parse(url);
      if parsed.None? {
        parsed := lib.join(url);
        if parsed.None? { return url, ""; }
      }
      path := parsed.value.path;
      parameters := CanonicalizedParameters(parsed.value.query);
    }

    /** Query names are folded to lower case, a later pair replaces an earlier one, and the result is sorted. */
    method CanonicalizedParameters(query: seq<(string, string)>) returns (text: string)
      ensures text == JoinParameters(ParameterMap(query), KeysInOrder(ParameterMap(query)))
    {
      var pairs: map<string, string> := map[];
      var i := 0;
      while i < |query|
        invariant 0 <= i <= |query|
        invariant pairs == ParameterMap(query[..i])
      {
        assert query[..i + 1][..i] == query[..i];
        pairs := pairs[Lower(query[i].0) := query[i].1];
        i := i + 1;
      }
      assert query[..i] == query;
      var keys := SortedKeys(pairs);
      text := "";
      var first := true;
      i := 0;
      while i < |keys|
        invariant 0 <= i <= |keys|
        invariant first <==> i == 0
        invariant text == JoinParameters(pairs, keys[..i])
      {
        JoinParametersAppend(pairs, keys, i);
        if !first {
          text := text + "&";
        }
        first := false;
        var p := keys[i] + "=" + pairs[keys[i]];
        text := text + p;
        i := i + 1;
      }
      assert keys[..i] == keys;
    }
  }

  lemma JoinParametersAppend(m: map<string, string>, keys: seq<string>, i: nat)
    requires i < |keys| && forall k | k in keys :: k in m
    ensures JoinParameters(m, keys[..i + 1])
         == (if i == 0 then "" else JoinParameters(m, keys[..i]) + "&") + (keys[i] + "=" + m[keys[i]])
  {
    assert keys[..i + 1][..i] == keys[..i];
  }

  /** The parameters signed are, for each lower-cased query name, the value of the last pair with that name. */
  lemma {:induction false} ParameterMapKeepsLast(query: seq<(string, string)>, key: string)
    ensures key in ParameterMap(query) <==> exists i | 0 <= i < |query| :: Lower(query[i].0) == key
    ensures forall i | 0 <= i < |query| && Lower(query[i].0) == key
              && (forall j | i < j < |query| :: Lower(query[j].0) != key) ::
              key in ParameterMap(query) && ParameterMap(query)[key] == query[i].1
  {
    if query != [] {
      var n := |query| - 1;
      ParameterMapKeepsLast(query[..n], key);
      assert forall i | 0 <= i < n :: query[..n][i] == query[i];
    }
  }
}
