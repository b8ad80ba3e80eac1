/**
  What a signature input says about a request: its parts can be read back from the bytes, given the length of
  the body. `as_sig_input` of proxy_agent/src/common/http/request.rs.
 */
module SignatureCoverage {
  import opened Prelude
  import opened Text
  import opened Headers
  import opened Request

  const LF_BYTE: Byte := 10

  // ---------- UTF-8 ----------

  lemma {:induction false} EncodeIsFlatMap(s: string)
    ensures Encode(s) == FlatMap(EncodeChar, s)
  {
    if s != "" { EncodeIsFlatMap(s[1..]); }
  }

  lemma EncodeEndsInLf(s: string)
    ensures Encode(s + [LF]) == Encode(s) + [LF_BYTE]
  {
    EncodeIsFlatMap(s);
    EncodeIsFlatMap(s + [LF]);
    FlatMapConcat(EncodeChar, s, [LF]);
    FlatMapOne(EncodeChar, LF);
  }

  /** No other character's encoding holds the line feed byte. */
  lemma {:induction false} EncodeWithoutLf(s: string)
    requires LF !in s
    ensures LF_BYTE !in Encode(s)
  {
    if s != "" { EncodeWithoutLf(s[1..]); }
  }

  /** The code point that begins a byte sequence. */
  function FirstCode(b: seq<int>): int
    requires b != []
  {
    if b[0] < 0x80 || |b| < 2 then b[0]
    else if b[0] < 0xE0 || |b| < 3 then (b[0] - 0xC0) * 64 + (b[1] - 0x80)
    else if b[0] < 0xF0 || |b| < 4 then (b[0] - 0xE0) * 4096 + (b[1] - 0x80) * 64 + (b[2] - 0x80)
    else (b[0] - 0xF0) * 262144 + (b[1] - 0x80) * 4096 + (b[2] - 0x80) * 64 + (b[3] - 0x80)
  }

  lemma FirstCodeOf(c: char, rest: seq<Byte>)
    ensures FirstCode(EncodeChar(c) + rest) == c as int
  {
    var n := c as int;
    if 0x80 <= n < 0x800 {
      assert n == n / 64 * 64 + n % 64;
    } else if 0x800 <= n < 0x1_0000 {
      var q := n / 64;
      assert n == q * 64 + n % 64 && q == q / 64 * 64 + q % 64 && q / 64 == n / 4096;
    } else if 0x1_0000 <= n {
      var q := n / 64;
      var r := q / 64;
      assert n == q * 64 + n % 64 && q == r * 64 + q % 64 && r == r / 64 * 64 + r % 64;
      assert r == n / 4096 && r / 64 == n / 262144;
    }
  }

  /** Different texts have different bytes. */
  lemma {:induction false} EncodeInjective(s: string, t: string)
    requires Encode(s) == Encode(t)
    ensures s == t
  {
    if s != "" && t != "" {
      FirstCodeOf(s[0], Encode(s[1..]));
      FirstCodeOf(t[0], Encode(t[1..]));
      var k := |EncodeChar(s[0])|;
      assert Encode(s)[k..] == Encode(s[1..]) && Encode(t)[k..] == Encode(t[1..]);
      EncodeInjective(s[1..], t[1..]);
      assert s == [s[0]] + s[1..] && t == [t[0]] + t[1..];
    }
  }

  // ---------- the parts of a signature input ----------

  /** Nothing, or whole lines. */
  predicate WholeLines(s: string) {
    s == "" || s[|s| - 1] == LF
  }

  lemma {:induction false} CanonicalWholeLines(m: HeaderMap, keys: seq<string>)
    requires forall k | k in keys :: k in m
    ensures WholeLines(CanonicalOf(m, keys))
  {
    if keys != [] { CanonicalWholeLines(m, keys[1..]); }
  }

  /** Whole lines and what follows them, cut at the last line feed. */
  lemma LinesThenRest(x: seq<Byte>, a: seq<Byte>, y: seq<Byte>, b: seq<Byte>)
    requires x == [] || x[|x| - 1] == LF_BYTE
    requires y == [] || y[|y| - 1] == LF_BYTE
    requires LF_BYTE !in a && LF_BYTE !in b && x + a == y + b
    ensures x == y && a == b
  {
    assert |x| <= |y| by { ShorterLines(y, b, x, a); }
    assert |y| <= |x| by { ShorterLines(x, a, y, b); }
    assert x == (x + a)[..|x|] && y == (y + b)[..|y|];
    assert a == (x + a)[|x|..] && b == (y + b)[|y|..];
  }

  lemma ShorterLines(y: seq<Byte>, b: seq<Byte>, x: seq<Byte>, a: seq<Byte>)
    requires x == [] || x[|x| - 1] == LF_BYTE
    requires LF_BYTE !in b && x + a == y + b
    ensures |x| <= |y|
  {
    if x != [] {
      assert (y + b)[|x| - 1] == (x + a)[|x| - 1] == LF_BYTE;
      assert forall i | |y| <= i < |y + b| :: (y + b)[i] == b[i - |y|];
    }
  }

  lemma EncodedWholeLines(c: string)
    requires WholeLines(c)
    ensures Encode(c) == [] || Encode(c)[|Encode(c)| - 1] == LF_BYTE
  {
    if c != "" {
      EncodeEndsInLf(c[..|c| - 1]);
      assert c == c[..|c| - 1] + [LF];
    }
  }

  /** The values a signature input is made of. */
  datatype Parts = Parts(verb: string, body: seq<Byte>, headers: string, path: string, parameters: string)

  ghost function PartsOf(lib: UrlLibrary, r: RequestData): Parts {
    var (path, parameters) := PathAndParameters(lib, r.url);
    Parts(r.verb, r.body, Canonical(r.headers), path, parameters)
  }

  predicate OneLine(p: Parts) {
    LF !in p.verb && LF !in p.path && LF !in p.parameters && WholeLines(p.headers)
  }

  function Laid(p: Parts): seq<Byte> {
    Encode(p.verb) + [LF_BYTE] + p.body + [LF_BYTE] + Encode(p.headers) + Encode(p.path) + [LF_BYTE]
    + Encode(p.parameters)
  }

  lemma LaidAgain(p: Parts)
    ensures Laid(p) == Encode(p.verb) + [LF_BYTE]
                       + (p.body + [LF_BYTE] + Encode(p.headers) + Encode(p.path) + [LF_BYTE] + Encode(p.parameters))
  {
    SevenParts(Encode(p.verb), [LF_BYTE], p.body, Encode(p.headers), Encode(p.path), Encode(p.parameters));
  }

  lemma SevenParts(v: seq<Byte>, lf: seq<Byte>, b: seq<Byte>, h: seq<Byte>, p: seq<Byte>, q: seq<Byte>)
    ensures v + lf + b + lf + h + p + lf + q == v + lf + (b + lf + h + p + lf + q)
  {
  }

  /** Whatever the bodies, the bytes fix method, path and parameters, and body and headers taken together. */
  lemma LaidDetermines(p: Parts, q: Parts)
    requires OneLine(p) && OneLine(q) && Laid(p) == Laid(q)
    ensures p.verb == q.verb && p.path == q.path && p.parameters == q.parameters
    ensures p.body + [LF_BYTE] + Encode(p.headers) == q.body + [LF_BYTE] + Encode(q.headers)
  {
    LaidAgain(p);
    LaidAgain(q);
    EncodeWithoutLf(p.verb);
    EncodeWithoutLf(q.verb);
    var a, b := p.body + [LF_BYTE] + Encode(p.headers), q.body + [LF_BYTE] + Encode(q.headers);
    SplitUnique(Encode(p.verb), Encode(q.verb), LF_BYTE,
                a + Encode(p.path) + [LF_BYTE] + Encode(p.parameters),
                b + Encode(q.path) + [LF_BYTE] + Encode(q.parameters));
    EncodeInjective(p.verb, q.verb);
    EndsWithLf(p.body, p.headers);
    EndsWithLf(q.body, q.headers);
    AfterVerb(a, p.path, p.parameters, b, q.path, q.parameters);
  }

  lemma AfterVerb(a: seq<Byte>, path: string, parameters: string, b: seq<Byte>, path': string, parameters': string)
    requires a != [] && b != [] && a[|a| - 1] == LF_BYTE && b[|b| - 1] == LF_BYTE
    requires LF !in path && LF !in path' && LF !in parameters && LF !in parameters'
    requires a + Encode(path) + [LF_BYTE] + Encode(parameters) == b + Encode(path') + [LF_BYTE] + Encode(parameters')
    ensures a == b && path == path' && parameters == parameters'
  {
    EncodeWithoutLf(path);
    EncodeWithoutLf(path');
    EncodeWithoutLf(parameters);
    EncodeWithoutLf(parameters');
    SplitLastUnique(a + Encode(path), b + Encode(path'), LF_BYTE, Encode(parameters), Encode(parameters'));
    LinesThenRest(a, Encode(path), b, Encode(path'));
    EncodeInjective(path, path');
    EncodeInjective(parameters, parameters');
  }

  lemma EndsWithLf(body: seq<Byte>, headers: string)
    requires WholeLines(headers)
    ensures var a := body + [LF_BYTE] + Encode(headers); a[|a| - 1] == LF_BYTE
  {
    EncodedWholeLines(headers);
  }

  lemma EqualFront(a: seq<Byte>, b: seq<Byte>, sep: Byte, s: seq<Byte>, t: seq<Byte>)
    requires |a| == |b| && a + [sep] + s == b + [sep] + t
    ensures a == b && s == t
  {
    var x, y := a + [sep] + s, b + [sep] + t;
    assert a == x[..|a|] && b == y[..|b|];
    assert s == x[|a| + 1..] && t == y[|b| + 1..];
  }

  lemma SigInputIsLaid(lib: UrlLibrary, r: RequestData)
    ensures SigInput(lib, r) == Laid(PartsOf(lib, r))
    ensures WholeLines(PartsOf(lib, r).headers)
  {
    CanonicalWholeLines(r.headers, KeysInOrder(r.headers));
  }

  /** Two requests without line feeds in methods, paths and parameters have the same signature input exactly
      when those agree and body, line feed and canonical headers, laid end to end, are the same bytes. */
  lemma SigInputExactly(lib: UrlLibrary, r: RequestData, q: RequestData)
    requires LF !in r.verb && LF !in q.verb
    requires LF !in PartsOf(lib, r).path + PartsOf(lib, r).parameters
    requires LF !in PartsOf(lib, q).path + PartsOf(lib, q).parameters
    ensures SigInput(lib, r) == SigInput(lib, q) <==>
            && r.verb == q.verb && PathAndParameters(lib, r.url) == PathAndParameters(lib, q.url)
            && r.body + [LF_BYTE] + Encode(Canonical(r.headers)) == q.body + [LF_BYTE] + Encode(Canonical(q.headers))
  {
    SigInputIsLaid(lib, r);
    SigInputIsLaid(lib, q);
    var a, b := PartsOf(lib, r), PartsOf(lib, q);
    LineFreeParts(a.path, a.parameters);
    LineFreeParts(b.path, b.parameters);
    if SigInput(lib, r) == SigInput(lib, q) { LaidDetermines(a, b); }
    LaidAgain(a);
    LaidAgain(b);
  }

  /** Two requests with bodies of one length, and line feeds nowhere in methods, paths and parameters, have
      the same signature input exactly when method, body, canonical headers, path and parameters agree; and
      then, for headers the canonical form keeps apart, the signed headers agree too. */
  lemma SigInputCovers(lib: UrlLibrary, r: RequestData, q: RequestData)
    requires |r.body| == |q.body| && LF !in r.verb && LF !in q.verb
    requires LF !in PartsOf(lib, r).path + PartsOf(lib, r).parameters
    requires LF !in PartsOf(lib, q).path + PartsOf(lib, q).parameters
    ensures SigInput(lib, r) == SigInput(lib, q) <==> PartsOf(lib, r) == PartsOf(lib, q)
    ensures SigInput(lib, r) == SigInput(lib, q) && LineSafe(Signed(r.headers)) && LineSafe(Signed(q.headers))
            ==> Signed(r.headers) == Signed(q.headers)
  {
    SigInputIsLaid(lib, r);
    SigInputIsLaid(lib, q);
    var a, b := PartsOf(lib, r), PartsOf(lib, q);
    LineFreeParts(a.path, a.parameters);
    LineFreeParts(b.path, b.parameters);
    if SigInput(lib, r) == SigInput(lib, q) {
      LaidDetermines(a, b);
      EqualFront(a.body, b.body, LF_BYTE, Encode(a.headers), Encode(b.headers));
      EncodeInjective(a.headers, b.headers);
      CanonicalDeterminedBySigned(r.headers, q.headers);
    }
  }

  lemma LineFreeParts(path: string, parameters: string)
    requires LF !in path + parameters
    ensures LF !in path && LF !in parameters
  {
    var s := path + parameters;
    forall i | 0 <= i < |path| ensures path[i] != LF { assert s[i] == path[i]; }
    forall i | 0 <= i < |parameters| ensures parameters[i] != LF { assert s[|path| + i] == parameters[i]; }
  }

  // ---------- bodies of different lengths ----------

  /** The raw body stands before the headers, so header lines can be read as the end of a longer body: a request
      shares its signature input with one that carries its first signed lines in its body instead. */
  lemma HeadersReadAsBody(lib: UrlLibrary, r: RequestData, lines: string, kept: HeaderMap)
    requires Canonical(r.headers) == lines + [LF] + Canonical(kept)
    ensures SigInput(lib, r) == SigInput(lib, r.(headers := kept, body := r.body + [LF_BYTE] + Encode(lines)))
  {
    var q := r.(headers := kept, body := r.body + [LF_BYTE] + Encode(lines));
    var (path, parameters) := PathAndParameters(lib, r.url);
    EncodeEndsInLf(lines);
    EncodeConcat(lines + [LF], Canonical(kept));
    BodyTakesLines(Encode(r.verb) + [LF_BYTE], r.body, LF_BYTE, Encode(lines), Encode(Canonical(kept)),
                   Encode(path) + [LF_BYTE] + Encode(parameters));
    SigInputGrouped(lib, r);
    SigInputGrouped(lib, q);
  }

  /** The first signed header of any request can be read as the end of its body. */
  lemma FirstHeaderReadsAsBody(lib: UrlLibrary, r: RequestData, k: string)
    requires k in Signed(r.headers) && forall j | j in Signed(r.headers) && j != k :: Before(k, j)
    ensures var line := LineOf(Signed(r.headers), k);
            SigInput(lib, r) == SigInput(lib, r.(headers := r.headers - {k}, body := r.body + [LF_BYTE] + Encode(line)))
  {
    var s, kept := Signed(r.headers), r.headers - {k};
    var keys := KeysInOrder(s);
    FirstKey(s, k);
    CanonicalText(r.headers);
    CanonicalText(kept);
    assert Signed(kept) == s - {k};
    SignedTextSame(s, s - {k}, keys[1..]);
    HeadersReadAsBody(lib, r, LineOf(s, k), kept);
  }

  lemma FirstKey(s: map<string, string>, k: string)
    requires k in s && forall j | j in s && j != k :: Before(k, j)
    ensures var keys := KeysInOrder(s); keys != [] && keys[0] == k && keys[1..] == KeysInOrder(s - {k})
  {
    var rest := KeysInOrder(s - {k});
    forall i | 0 <= i < |rest| ensures Before(k, rest[i]) { assert rest[i] in s - {k}; }
    assert Ascending([k] + rest);
    forall j | j in s ensures j in [k] + rest { if j != k { assert j in s - {k}; } }
    AscendingKeysUnique(s, [k] + rest, s, KeysInOrder(s));
  }

  lemma {:induction false} SignedTextSame(s: map<string, string>, t: map<string, string>, keys: seq<string>)
    requires forall k | k in keys :: k in s && k in t && s[k] == t[k]
    ensures SignedText(s, keys) == SignedText(t, keys)
  {
    if keys != [] { SignedTextSame(s, t, keys[1..]); }
  }

  lemma BodyTakesLines(a: seq<Byte>, body: seq<Byte>, sep: Byte, lines: seq<Byte>, kept: seq<Byte>, rest: seq<Byte>)
    ensures a + (body + ([sep] + ((lines + [sep] + kept) + rest)))
         == a + ((body + [sep] + lines) + ([sep] + (kept + rest)))
  {
  }

  lemma SigInputGrouped(lib: UrlLibrary, r: RequestData)
    ensures var (path, parameters) := PathAndParameters(lib, r.url);
            SigInput(lib, r) == (Encode(r.verb) + [LF_BYTE])
              + (r.body + ([LF_BYTE] + (Encode(Canonical(r.headers))
                                        + (Encode(path) + [LF_BYTE] + Encode(parameters)))))
  {
    var (path, parameters) := PathAndParameters(lib, r.url);
    Grouped(Encode(r.verb), [LF_BYTE], r.body, Encode(Canonical(r.headers)), Encode(path), Encode(parameters));
  }

  lemma Grouped(v: seq<Byte>, lf: seq<Byte>, b: seq<Byte>, h: seq<Byte>, p: seq<Byte>, q: seq<Byte>)
    ensures v + lf + b + lf + h + p + lf + q == (v + lf) + (b + (lf + (h + (p + lf + q))))
  {
  }

  // ---------- a length that matches the body settles it ----------

  lemma EncodeConcat(a: string, b: string)
    ensures Encode(a + b) == Encode(a) + Encode(b)
  {
    EncodeIsFlatMap(a);
    EncodeIsFlatMap(b);
    EncodeIsFlatMap(a + b);
    FlatMapConcat(EncodeChar, a, b);
  }

  function LineOf(s: map<string, string>, k: string): string
    requires k in s
  {
    k + ":" + s[k]
  }

  lemma FirstLineBytes(s: map<string, string>, keys: seq<string>)
    requires LineSafe(s) && keys != [] && forall k | k in keys :: k in s
    ensures Encode(SignedText(s, keys)) == Encode(LineOf(s, keys[0])) + [LF_BYTE] + Encode(SignedText(s, keys[1..]))
    ensures LF_BYTE !in Encode(LineOf(s, keys[0]))
  {
    var line, rest := LineOf(s, keys[0]), SignedText(s, keys[1..]);
    EncodeConcat(line + [LF], rest);
    EncodeEndsInLf(line);
    EncodeWithoutLf(line);
    assert SignedText(s, keys) == (line + [LF]) + rest;
  }

  /** What follows a line feed in a signed text is the text of its later keys. */
  lemma {:induction false} CutAtLine(s: map<string, string>, keys: seq<string>, x: seq<Byte>, y: seq<Byte>)
    returns (i: nat)
    requires LineSafe(s) && (forall k | k in keys :: k in s)
    requires Encode(SignedText(s, keys)) == x + [LF_BYTE] + y
    ensures i <= |keys| && y == Encode(SignedText(s, keys[i..]))
    decreases |keys|
  {
    i := 0;
    if keys != [] {
      FirstLineBytes(s, keys);
      var line, rest := Encode(LineOf(s, keys[0])), Encode(SignedText(s, keys[1..]));
      CutAfterFirst(line, rest, x, y);
      if |x| == |line| {
        i := 1;
      } else {
        i := CutAtLine(s, keys[1..], x[|line| + 1..], y);
        assert keys[1..][i..] == keys[i + 1..];
        i := i + 1;
      }
    }
  }

  lemma CutAfterFirst(line: seq<Byte>, rest: seq<Byte>, x: seq<Byte>, y: seq<Byte>)
    requires LF_BYTE !in line && line + [LF_BYTE] + rest == x + [LF_BYTE] + y
    ensures |x| >= |line|
    ensures |x| == |line| ==> y == rest
    ensures |x| > |line| ==> rest == x[|line| + 1..] + [LF_BYTE] + y
  {
    var t := x + [LF_BYTE] + y;
    assert t[|x|] == LF_BYTE;
    assert forall j | 0 <= j < |line| :: t[j] == line[j];
    assert rest == t[|line| + 1..];
    if |x| == |line| {
      assert y == t[|x| + 1..];
    } else {
      assert x == t[..|x|];
    }
  }

  lemma LengthIsSigned(m: HeaderMap)
    requires CONTENT_LENGTH_KEY in m && ContentLength(m).Some?
    ensures CONTENT_LENGTH_KEY in Signed(m) && Signed(m)[CONTENT_LENGTH_KEY] == m[CONTENT_LENGTH_KEY].value
  {
    var v := m[CONTENT_LENGTH_KEY].value;
    NumberIsTrimmed(v);
    assert |Lower(CONTENT_LENGTH_KEY)| == 14 && |Lower(AUTHORIZATION_HEADER)| == 29;
  }

  lemma NumberIsTrimmed(v: string)
    requires ParseUnsigned(v, USIZE_MAX).Some?
    ensures Trim(v) == v
  {
    var digits := if v[0] == '+' then v[1..] else v;
    assert IsDigit(digits[|digits| - 1]) && digits[|digits| - 1] == v[|v| - 1];
    assert v[0] == '+' || IsDigit(v[0]);
    TrimOfTrimmed(v);
  }

  /** A header text cannot end in that of a request with another body length. */
  lemma LengthsAgree(r: RequestData, q: RequestData, x: seq<Byte>)
    requires ContentLength(r.headers) == Some(|r.body|) && ContentLength(q.headers) == Some(|q.body|)
    requires LineSafe(Signed(r.headers)) && LineSafe(Signed(q.headers))
    requires Encode(Canonical(r.headers)) == x + [LF_BYTE] + Encode(Canonical(q.headers))
    ensures |q.body| <= |r.body|
  {
    if |q.body| > 0 {
      var s, t := Signed(r.headers), Signed(q.headers);
      var ks, kt := KeysInOrder(s), KeysInOrder(t);
      CanonicalText(r.headers);
      CanonicalText(q.headers);
      var i := CutAtLine(s, ks, x, Encode(Canonical(q.headers)));
      EncodeInjective(SignedText(s, ks[i..]), SignedText(t, kt));
      SignedTextInjective(s, ks[i..], t, kt);
      LengthIsSigned(q.headers);
      assert CONTENT_LENGTH_KEY in kt;
      assert CONTENT_LENGTH_KEY in ks[i..];
      assert CONTENT_LENGTH_KEY in s;
      LengthIsSigned(r.headers);
    }
  }

  lemma ShorterBody(r: RequestData, q: RequestData)
    requires ContentLength(r.headers) == Some(|r.body|) && ContentLength(q.headers) == Some(|q.body|)
    requires LineSafe(Signed(r.headers)) && LineSafe(Signed(q.headers))
    requires r.body + [LF_BYTE] + Encode(Canonical(r.headers)) == q.body + [LF_BYTE] + Encode(Canonical(q.headers))
    ensures |q.body| <= |r.body|
  {
    var c, d := Encode(Canonical(r.headers)), Encode(Canonical(q.headers));
    if |r.body| < |q.body| {
      CutAfterBody(r.body, c, q.body, d);
      LengthsAgree(r, q, q.body[|r.body| + 1..]);
    }
  }

  lemma CutAfterBody(a: seq<Byte>, c: seq<Byte>, b: seq<Byte>, d: seq<Byte>)
    requires |a| < |b| && a + [LF_BYTE] + c == b + [LF_BYTE] + d
    ensures c == b[|a| + 1..] + [LF_BYTE] + d
  {
    var t := b + [LF_BYTE] + d;
    assert c == t[|a| + 1..];
  }

  // ---------- parameters ----------

  /** The parameters a URL contributes to the signature input: none when it does not parse. */
  function SignedParameters(lib: UrlLibrary, url: string): map<string, string> {
    var parsed := if lib.parse(url).Some? then lib.parse(url) else lib.join(url);
    match parsed case None => map[] case Some(u) => ParameterMap(u.query)
  }

  lemma ParametersText(lib: UrlLibrary, r: RequestData)
    ensures var m := SignedParameters(lib, r.url);
            PartsOf(lib, r).parameters == JoinParameters(m, KeysInOrder(m))
  {
    var m := SignedParameters(lib, r.url);
    if m == map[] { AscendingKeysUnique(m, KeysInOrder(m), m, []); }
  }

  lemma OneParameter(k: string, v: string)
    requires Lower(k) == k
    ensures ParameterMap([(k, v)]) == map[k := v]
  {
    assert [(k, v)][..0] == [];
    var none: map<string, string> := map[];
    assert ParameterMap([]) == none && ParameterMap([(k, v)]) == none[k := v];
  }

  /** Names and values are decoded before they are joined, so a value can read as further parameters: the text of
      one parameter whose value holds a separator is that of two. */
  lemma ValueReadsAsParameters(j: string, v: string, k: string, w: string)
    requires Lower(j) == j && Lower(k) == k && Before(j, k)
    ensures var one, two := ParameterMap([(j, v + "&" + k + "=" + w)]), ParameterMap([(j, v), (k, w)]);
            one != two && JoinParameters(one, KeysInOrder(one)) == JoinParameters(two, KeysInOrder(two))
  {
    var value := v + "&" + k + "=" + w;
    OneParameter(j, value);
    TwoParameters(j, v, k, w);
    TextOfOne(map[j := value], j);
    Reassociated(j, "=", v, "&", k, w);
  }

  lemma Reassociated(j: string, eq: string, v: string, sep: string, k: string, w: string)
    ensures j + eq + (v + sep + k + eq + w) == j + eq + v + sep + k + eq + w
  {
  }

  lemma TwoParameters(j: string, v: string, k: string, w: string)
    requires Lower(j) == j && Lower(k) == k && Before(j, k)
    ensures var m := ParameterMap([(j, v), (k, w)]);
            k in m && k != j && JoinParameters(m, KeysInOrder(m)) == j + "=" + v + "&" + k + "=" + w
  {
    var m := ParameterMap([(j, v), (k, w)]);
    assert [(j, v), (k, w)][..1] == [(j, v)];
    OneParameter(j, v);
    BeforeTotal(j, k);
    assert m == map[j := v][k := w];
    AscendingKeysUnique(m, KeysInOrder(m), m, [j, k]);
    assert [j, k][..1] == [j];
  }

  lemma TextOfOne(m: map<string, string>, k: string)
    requires m.Keys == {k}
    ensures JoinParameters(m, KeysInOrder(m)) == k + "=" + m[k]
  {
    AscendingKeysUnique(m, KeysInOrder(m), m, [k]);
  }

  /** Two requests that differ in such a query alone share their signature input. */
  lemma ParameterCollision(lib: UrlLibrary, r: RequestData, url: string, path: string,
                           j: string, v: string, k: string, w: string)
    requires Lower(j) == j && Lower(k) == k && Before(j, k)
    requires lib.parse(r.url) == Some(Url(path, [(j, v + "&" + k + "=" + w)]))
    requires lib.parse(url) == Some(Url(path, [(j, v), (k, w)]))
    ensures SigInput(lib, r) == SigInput(lib, r.(url := url))
    ensures SignedParameters(lib, r.url) != SignedParameters(lib, url)
  {
    ValueReadsAsParameters(j, v, k, w);
  }

  /** Names without `=` and `&` and values without `&`, which decoding can bring in. */
  predicate ParameterSafe(m: map<string, string>) {
    forall k | k in m :: '=' !in k && '&' !in k && '&' !in m[k]
  }

  function Pair(m: map<string, string>, k: string): string
    requires k in m
  {
    k + "=" + m[k]
  }

  lemma PairSafe(m: map<string, string>, k: string)
    requires ParameterSafe(m) && k in m
    ensures '&' !in Pair(m, k)
  {
  }

  lemma PairUnique(m: map<string, string>, j: string, n: map<string, string>, k: string)
    requires ParameterSafe(m) && ParameterSafe(n) && j in m && k in n && Pair(m, j) == Pair(n, k)
    ensures j == k && m[j] == n[k]
  {
    SplitUnique(j, k, '=', m[j], n[k]);
  }

  lemma JoinLast(m: map<string, string>, keys: seq<string>)
    requires |keys| > 1 && forall k | k in keys :: k in m
    ensures var n := |keys| - 1;
            JoinParameters(m, keys) == JoinParameters(m, keys[..n]) + ['&'] + Pair(m, keys[n])
  {
  }

  /** A text of safe parameters can be read back. */
  lemma {:induction false} JoinInjective(m: map<string, string>, js: seq<string>, n: map<string, string>,
                                         ks: seq<string>)
    requires (forall k | k in js :: k in m) && (forall k | k in ks :: k in n)
    requires ParameterSafe(m) && ParameterSafe(n) && JoinParameters(m, js) == JoinParameters(n, ks)
    ensures js == ks
    ensures forall k | k in js :: m[k] == n[k]
    decreases |js|
  {
    var a, b := |js| - 1, |ks| - 1;
    if js != [] { PairSafe(m, js[a]); }
    if ks != [] { PairSafe(n, ks[b]); }
    if |js| > 1 { JoinLast(m, js); }
    if |ks| > 1 { JoinLast(n, ks); }
    if |js| > 1 && |ks| > 1 {
      SplitLastUnique(JoinParameters(m, js[..a]), JoinParameters(n, ks[..b]), '&', Pair(m, js[a]), Pair(n, ks[b]));
      JoinInjective(m, js[..a], n, ks[..b]);
      PairUnique(m, js[a], n, ks[b]);
      assert js == js[..a] + [js[a]] && ks == ks[..b] + [ks[b]];
    } else if |js| == 1 && |ks| == 1 {
      PairUnique(m, js[0], n, ks[0]);
    }
  }

  lemma ParametersDetermined(m: map<string, string>, n: map<string, string>)
    requires ParameterSafe(m) && ParameterSafe(n)
    requires JoinParameters(m, KeysInOrder(m)) == JoinParameters(n, KeysInOrder(n))
    ensures m == n
  {
    JoinInjective(m, KeysInOrder(m), n, KeysInOrder(n));
    forall k | k in m ensures k in n && n[k] == m[k] { assert k in KeysInOrder(m); assert k in KeysInOrder(n); }
    forall k | k in n ensures k in m { assert k in KeysInOrder(n); assert k in KeysInOrder(m); }
    SameMap(m, n);
  }

  /** Requests whose Content-Length is the length of their body, whatever the bodies, have the same signature
      input exactly when method, body, canonical headers, path and parameter text all agree; then the signed
      headers agree, and so do the parameters themselves when none holds a separator. */
  lemma SigInputDetermines(lib: UrlLibrary, r: RequestData, q: RequestData)
    requires ContentLength(r.headers) == Some(|r.body|) && ContentLength(q.headers) == Some(|q.body|)
    requires LineSafe(Signed(r.headers)) && LineSafe(Signed(q.headers))
    requires LF !in r.verb && LF !in q.verb
    requires LF !in PartsOf(lib, r).path + PartsOf(lib, r).parameters
    requires LF !in PartsOf(lib, q).path + PartsOf(lib, q).parameters
    ensures SigInput(lib, r) == SigInput(lib, q) <==> PartsOf(lib, r) == PartsOf(lib, q)
    ensures SigInput(lib, r) == SigInput(lib, q) ==> Signed(r.headers) == Signed(q.headers)
    ensures SigInput(lib, r) == SigInput(lib, q)
            && ParameterSafe(SignedParameters(lib, r.url)) && ParameterSafe(SignedParameters(lib, q.url))
            ==> SignedParameters(lib, r.url) == SignedParameters(lib, q.url)
  {
    SigInputIsLaid(lib, r);
    SigInputIsLaid(lib, q);
    var a, b := PartsOf(lib, r), PartsOf(lib, q);
    LineFreeParts(a.path, a.parameters);
    LineFreeParts(b.path, b.parameters);
    if SigInput(lib, r) == SigInput(lib, q) {
      LaidDetermines(a, b);
      ShorterBody(r, q);
      ShorterBody(q, r);
      SigInputCovers(lib, r, q);
      ParametersText(lib, r);
      ParametersText(lib, q);
      if ParameterSafe(SignedParameters(lib, r.url)) && ParameterSafe(SignedParameters(lib, q.url)) {
        ParametersDetermined(SignedParameters(lib, r.url), SignedParameters(lib, q.url));
      }
    }
  }

  // ---------- the path ----------

  /** The path a URL stands for: as it parses, else as it joins the local base, else itself. */
  function ResolvedPath(lib: UrlLibrary, url: string): string {
    match lib.parse(url)
    case Some(u) => u.path
    case None =>
      match lib.join(url)
      case Some(u) => u.path
      case None => url
  }

  /** The query that goes with it. */
  function ResolvedQuery(lib: UrlLibrary, url: string): seq<(string, string)> {
    match lib.parse(url)
    case Some(u) => u.query
    case None =>
      match lib.join(url)
      case Some(u) => u.query
      case None => []
  }

  lemma PartsAreResolved(lib: UrlLibrary, r: RequestData)
    ensures PartsOf(lib, r).path == ResolvedPath(lib, r.url)
    ensures var m := ParameterMap(ResolvedQuery(lib, r.url));
            PartsOf(lib, r).parameters == JoinParameters(m, KeysInOrder(m))
  {
    var m := ParameterMap(ResolvedQuery(lib, r.url));
    if ResolvedQuery(lib, r.url) == [] { AscendingKeysUnique(m, KeysInOrder(m), m, []); }
  }

  /** The path is signed: requests with the same signature input name the same path, whether both URLs parse, only
      join, or do neither, in which case the URLs themselves agree; and the same method. */
  lemma PathIsSigned(lib: UrlLibrary, r: RequestData, q: RequestData)
    requires LF !in r.verb && LF !in q.verb && SigInput(lib, r) == SigInput(lib, q)
    requires LF !in ResolvedPath(lib, r.url) + PartsOf(lib, r).parameters
    requires LF !in ResolvedPath(lib, q.url) + PartsOf(lib, q).parameters
    ensures r.verb == q.verb && ResolvedPath(lib, r.url) == ResolvedPath(lib, q.url)
    ensures lib.parse(r.url).Some? && lib.parse(q.url).Some? ==>
              lib.parse(r.url).value.path == lib.parse(q.url).value.path
    ensures lib.parse(r.url).None? && lib.parse(q.url).None? && lib.join(r.url).Some? && lib.join(q.url).Some? ==>
              lib.join(r.url).value.path == lib.join(q.url).value.path
    ensures lib.parse(r.url).None? && lib.parse(q.url).None? && lib.join(r.url).None? && lib.join(q.url).None? ==>
              r.url == q.url
  {
    PartsAreResolved(lib, r);
    PartsAreResolved(lib, q);
    SigInputExactly(lib, r, q);
  }
}
