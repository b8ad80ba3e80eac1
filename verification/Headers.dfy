/**
  The header map of proxy_agent/src/common/http/headers.rs.

  Keys are lower-cased names; a value keeps the name as it arrived and the header
  value.  A hash map has no order of its own, so every loop over the keys picks
  them in an arbitrary order.
 */
module Headers {
  import opened Prelude
  import opened Text

  datatype Header = Header(name: string, value: string)
  type HeaderMap = map<string, Header>

  const AUTHORIZATION_HEADER: string := "x-ms-azure-host-authorization"
  const EXPECT_KEY: string := "expect"
  const EXPECT_VALUE: string := "100-continue"
  const CONTENT_LENGTH_KEY: string := "content-length"
  const USIZE_MAX: nat := 0xFFFF_FFFF_FFFF_FFFF

  /** A listing of all keys of `m`, each once: one possible hash map order. */
  predicate IsOrder(m: HeaderMap, order: seq<string>) {
    Distinct(order) && (forall k | k in order :: k in m) && (forall k | k in m :: k in order)
  }

  // ---------- specification of the map operations ----------

  function Add(m: HeaderMap, name: string, value: string): HeaderMap {
    m[Lower(name) := Header(name, value)]
  }

  function AddLine(m: HeaderMap, line: string): HeaderMap {
    match Find(line, ":")
    case None => m
    case Some(at) => Add(m, Trim(TakeChars(line, at)), Trim(SkipChars(line, at + 1)))
  }

  function AddLines(m: HeaderMap, lines: seq<string>): HeaderMap
    decreases |lines|
  {
    if lines == [] then m
    else AddLines(if lines[0] == "" then m else AddLine(m, lines[0]), lines[1..])
  }

  /** `str::lines`: pieces between line feeds, each without its carriage return. */
  function Lines(raw: string): seq<string> {
    if raw == "" then []
    else
      var at := FirstAt(raw, "\n");
      if at == |raw| then [raw]
      else [if at > 0 && raw[at - 1] == CR then raw[..at - 1] else raw[..at]] + Lines(raw[at + 1..])
  }

  function Parse(raw: string): HeaderMap {
    AddLines(map[], Lines(raw))
  }

  function PrintedLine(h: Header): string {
    Trim(h.name) + ": " + Trim(h.value)
  }

  function Printed(m: HeaderMap, order: seq<string>): string
    requires forall k | k in order :: k in m
  {
    if order == [] then "" else PrintedLine(m[order[0]]) + CRLF + Printed(m, order[1..])
  }

  /** `eq_ignore_ascii_case` against the authorization header name. */
  predicate IsAuthorization(key: string) {
    Lower(key) == Lower(AUTHORIZATION_HEADER)
  }

  function CanonicalLine(key: string, value: string): string {
    if IsAuthorization(key) then "" else key + ":" + Trim(value) + "\n"
  }

  function CanonicalOf(m: HeaderMap, keys: seq<string>): string
    requires forall k | k in keys :: k in m
  {
    if keys == [] then ""
    else CanonicalLine(keys[0], m[keys[0]].value) + CanonicalOf(m, keys[1..])
  }

  predicate ExpectsContinue(m: HeaderMap) {
    EXPECT_KEY in m && m[EXPECT_KEY].value == EXPECT_VALUE
  }

  /** None when the header is present and does not parse. */
  function ContentLength(m: HeaderMap): Option<nat> {
    if CONTENT_LENGTH_KEY in m then ParseUnsigned(m[CONTENT_LENGTH_KEY].value, USIZE_MAX) else Some(0)
  }

  // ---------- the object ----------

  class Headers {
    var entries: HeaderMap

    constructor ()
      ensures entries == map[]
    {
      entries := map[];
    }

    method AddHeader(key: string, value: string)
      modifies this
      ensures entries == Add(old(entries), key, value)
    {
      var keyLowerCase := Lower(key);
      entries := entries[keyLowerCase := Header(key, value)];
    }

    method AddHeaderLine(line: string)
      modifies this
      ensures entries == AddLine(old(entries), line)
    {
      var split := Find(line, ":");
      match split {
        case Some(at) =>
          var key := TakeChars(line, at);
          var value := SkipChars(line, at + 1);
          AddHeader(Trim(key), Trim(value));
        case None =>
      }
    }

    constructor FromRawData(raw: string)
      ensures entries == Parse(raw)
    {
      entries := map[];
      new;
      var lines := Lines(raw);
      var i := 0;
      while i < |lines|
        invariant 0 <= i <= |lines|
        invariant AddLines(entries, lines[i..]) == AddLines(map[], lines)
      {
        if lines[i] != "" {
          AddHeaderLine(lines[i]);
        }
        i := i + 1;
      }
    }

    method ToCanonicalizedString() returns (canonicalized: string)
      ensures canonicalized == Canonical(entries)
    {
      var keys := SortedKeys(entries);
      canonicalized := "";
      var i := 0;
      while i < |keys|
        invariant 0 <= i <= |keys|
        invariant canonicalized == CanonicalOf(entries, keys[..i])
      {
        CanonicalAppend(entries, keys, i);
        if !IsAuthorization(keys[i]) {
          var h := keys[i] + ":" + Trim(entries[keys[i]].value) + "\n";
          canonicalized := canonicalized + h;
        }
        i := i + 1;
      }
      assert keys[..i] == keys;
    }

    method ToRawString() returns (raw: string, ghost order: seq<string>)
      ensures IsOrder(entries, order) && raw == Printed(entries, order)
    {
      var keys := ListKeys(entries);
      order := keys;
      raw := "";
      var i := 0;
      while i < |keys|
        invariant 0 <= i <= |keys|
        invariant raw + Printed(entries, keys[i..]) == Printed(entries, keys)
      {
        var h := entries[keys[i]];
        raw := raw + (Trim(h.name) + ": " + Trim(h.value) + CRLF);
        i := i + 1;
      }
    }
  }

  // ---------- the canonical string ----------

  /** The canonical header string: one line per key in ascending order, authorization skipped. */
  ghost function Canonical(m: HeaderMap): string {
    CanonicalOf(m, KeysInOrder(m))
  }

  lemma {:induction false} CanonicalIsFlatMap(m: HeaderMap, keys: seq<string>, line: string -> string)
    requires forall k | k in keys :: k in m && line(k) == CanonicalLine(k, m[k].value)
    ensures CanonicalOf(m, keys) == FlatMap(line, keys)
  {
    if keys != [] { CanonicalIsFlatMap(m, keys[1..], line); }
  }

  lemma CanonicalAppendBy(m: HeaderMap, keys: seq<string>, i: nat, line: string -> string)
    requires i < |keys| && forall k | k in keys :: k in m && line(k) == CanonicalLine(k, m[k].value)
    ensures CanonicalOf(m, keys[..i + 1]) == CanonicalOf(m, keys[..i]) + line(keys[i])
  {
    CanonicalIsFlatMap(m, keys[..i], line);
    CanonicalIsFlatMap(m, keys[..i + 1], line);
    FlatMapAppend(line, keys, i);
  }

  lemma CanonicalAppend(m: HeaderMap, keys: seq<string>, i: nat)
    requires i < |keys| && forall k | k in keys :: k in m
    ensures CanonicalOf(m, keys[..i + 1])
         == CanonicalOf(m, keys[..i]) + CanonicalLine(keys[i], m[keys[i]].value)
  {
    var line := (k: string) => if k in m then CanonicalLine(k, m[k].value) else "";
    CanonicalAppendBy(m, keys, i, line);
    assert line(keys[i]) == CanonicalLine(keys[i], m[keys[i]].value);
  }

  /** What a signature covers: each key except authorization, with its trimmed value. */
  function Signed(m: HeaderMap): map<string, string> {
    map k | k in m && !IsAuthorization(k) :: Trim(m[k].value)
  }

  function WithoutAuthorization(keys: seq<string>): seq<string> {
    if keys == [] then []
    else (if IsAuthorization(keys[0]) then [] else [keys[0]]) + WithoutAuthorization(keys[1..])
  }

  /** The text of a signed map with its keys in the given order. */
  function SignedText(s: map<string, string>, keys: seq<string>): string
    requires forall k | k in keys :: k in s
  {
    if keys == [] then "" else keys[0] + ":" + s[keys[0]] + "\n" + SignedText(s, keys[1..])
  }

  lemma {:induction false} WithoutAuthorizationShape(keys: seq<string>)
    requires Ascending(keys)
    ensures var r := WithoutAuthorization(keys);
            Ascending(r) && forall k :: k in r <==> k in keys && !IsAuthorization(k)
  {
    if keys != [] {
      WithoutAuthorizationShape(keys[1..]);
      var r := WithoutAuthorization(keys[1..]);
      forall j | 0 <= j < |r| ensures Before(keys[0], r[j]) {
        assert r[j] in r;
        assert r[j] in keys[1..];
      }
      forall k | k in keys ensures k == keys[0] || k in keys[1..] {
        assert keys == [keys[0]] + keys[1..];
      }
    }
  }

  lemma {:induction false} CanonicalIsSignedText(m: HeaderMap, keys: seq<string>)
    requires Ascending(keys) && forall k | k in keys :: k in m
    ensures forall k | k in WithoutAuthorization(keys) :: k in Signed(m)
    ensures CanonicalOf(m, keys) == SignedText(Signed(m), WithoutAuthorization(keys))
  {
    WithoutAuthorizationShape(keys);
    if keys != [] {
      CanonicalIsSignedText(m, keys[1..]);
      if IsAuthorization(keys[0]) {
        assert WithoutAuthorization(keys) == WithoutAuthorization(keys[1..]);
      } else {
        assert WithoutAuthorization(keys)[1..] == WithoutAuthorization(keys[1..]);
      }
    }
  }

  lemma CanonicalText(m: HeaderMap)
    ensures Canonical(m) == SignedText(Signed(m), KeysInOrder(Signed(m)))
  {
    var keys := KeysInOrder(m);
    CanonicalIsSignedText(m, keys);
    WithoutAuthorizationShape(keys);
    AscendingKeysUnique(Signed(m), WithoutAuthorization(keys), Signed(m), KeysInOrder(Signed(m)));
  }

  predicate LineSafe(s: map<string, string>) {
    forall k | k in s :: ':' !in k && LF !in k && LF !in s[k]
  }

  lemma {:induction false} SignedTextInjective(s: map<string, string>, ks: seq<string>,
                                               t: map<string, string>, kt: seq<string>)
    requires (forall k | k in ks :: k in s) && (forall k | k in kt :: k in t)
    requires LineSafe(s) && LineSafe(t)
    requires SignedText(s, ks) == SignedText(t, kt)
    ensures ks == kt
    ensures forall k | k in ks :: s[k] == t[k]
  {
    if ks != [] && kt != [] {
      var a, v, rest := ks[0], s[ks[0]], SignedText(s, ks[1..]);
      var b, w, more := kt[0], t[kt[0]], SignedText(t, kt[1..]);
      assert a + [':'] + (v + [LF] + rest) == SignedText(s, ks) == SignedText(t, kt) == b + [':'] + (w + [LF] + more);
      SplitUnique(a, b, ':', v + [LF] + rest, w + [LF] + more);
      SplitUnique(v, w, LF, rest, more);
      SignedTextInjective(s, ks[1..], t, kt[1..]);
      assert ks == [a] + ks[1..] && kt == [b] + kt[1..];
    }
  }

  /**
    The canonical string is a function of the signed content alone, and, when no name
    holds a colon and nothing holds a line feed, it determines that content.
   */
  lemma CanonicalDeterminedBySigned(m: HeaderMap, n: HeaderMap)
    ensures Signed(m) == Signed(n) ==> Canonical(m) == Canonical(n)
    ensures LineSafe(Signed(m)) && LineSafe(Signed(n)) && Canonical(m) == Canonical(n) ==> Signed(m) == Signed(n)
  {
    CanonicalText(m);
    CanonicalText(n);
    var s, t := Signed(m), Signed(n);
    if s == t {
      AscendingKeysUnique(s, KeysInOrder(s), t, KeysInOrder(t));
    }
    if LineSafe(s) && LineSafe(t) && Canonical(m) == Canonical(n) {
      SignedTextInjective(s, KeysInOrder(s), t, KeysInOrder(t));
      forall k ensures k in s <==> k in t && (k in s ==> s[k] == t[k]) {
        assert k in s <==> k in KeysInOrder(s);
        assert k in t <==> k in KeysInOrder(t);
      }
    }
  }

  /** Adding the authorization header never changes the canonical string. */
  lemma AuthorizationIgnored(m: HeaderMap, value: string)
    ensures Canonical(Add(m, AUTHORIZATION_HEADER, value)) == Canonical(m)
  {
    LowerIdempotent(AUTHORIZATION_HEADER);
    assert Signed(Add(m, AUTHORIZATION_HEADER, value)) == Signed(m);
    CanonicalDeterminedBySigned(Add(m, AUTHORIZATION_HEADER, value), m);
  }

  // ---------- arrival ----------

  function AddAll(m: HeaderMap, hs: seq<Header>): HeaderMap
    decreases |hs|
  {
    if hs == [] then m else AddAll(Add(m, hs[0].name, hs[0].value), hs[1..])
  }

  predicate DistinctNames(hs: seq<Header>) {
    forall i, j | 0 <= i < j < |hs| :: Lower(hs[i].name) != Lower(hs[j].name)
  }

  lemma {:induction false} AddAllShape(m: HeaderMap, hs: seq<Header>)
    requires DistinctNames(hs)
    requires forall h | h in hs :: Lower(h.name) !in m
    ensures var r := AddAll(m, hs);
            && (forall k | k in m :: k in r && r[k] == m[k])
            && (forall h | h in hs :: Lower(h.name) in r && r[Lower(h.name)] == h)
            && (forall k | k in r :: k in m || exists h | h in hs :: Lower(h.name) == k)
    decreases |hs|
  {
    if hs != [] {
      var m1 := Add(m, hs[0].name, hs[0].value);
      AddAllShape(m1, hs[1..]);
      var r := AddAll(m, hs);
      assert hs[0] == Header(hs[0].name, hs[0].value);
      forall h | h in hs ensures Lower(h.name) in r && r[Lower(h.name)] == h {
        if h != hs[0] { assert h in hs[1..]; }
      }
      forall k | k in r ensures k in m || exists h | h in hs :: Lower(h.name) == k {
        if k !in m {
          if k in m1 { assert hs[0] in hs; } else {
            var h :| h in hs[1..] && Lower(h.name) == k;
            assert h in hs;
          }
        }
      }
    }
  }

  /** The two lists hold the same lower-cased names with the same trimmed values. */
  ghost predicate SameContent(a: seq<Header>, b: seq<Header>) {
    Covers(b, a) && Covers(a, b)
  }

  lemma SourceOf(a: seq<Header>, k: string) returns (h: Header)
    requires DistinctNames(a) && k in AddAll(map[], a)
    ensures h in a && Lower(h.name) == k && AddAll(map[], a)[k] == h
  {
    AddAllShape(map[], a);
    h :| h in a && Lower(h.name) == k;
  }

  /** A header of one list is stored with its trimmed value by any list that holds one like it. */
  lemma StoredAlike(b: seq<Header>, h: Header, g: Header)
    requires DistinctNames(b) && g in b && Lower(g.name) == Lower(h.name) && Trim(g.value) == Trim(h.value)
    ensures Lower(h.name) in AddAll(map[], b) && Trim(AddAll(map[], b)[Lower(h.name)].value) == Trim(h.value)
  {
    AddAllShape(map[], b);
  }

  predicate Within(s: map<string, string>, t: map<string, string>) {
    forall k | k in s :: k in t && t[k] == s[k]
  }

  /** Every header of the first list has one like it in the second. */
  ghost predicate Covers(b: seq<Header>, a: seq<Header>) {
    forall h | h in a :: exists g | g in b :: Lower(g.name) == Lower(h.name) && Trim(g.value) == Trim(h.value)
  }

  lemma SignedIncluded(a: seq<Header>, b: seq<Header>)
    requires DistinctNames(a) && DistinctNames(b) && Covers(b, a)
    ensures Within(Signed(AddAll(map[], a)), Signed(AddAll(map[], b)))
  {
    var s, t := Signed(AddAll(map[], a)), Signed(AddAll(map[], b));
    forall k | k in s ensures k in t && t[k] == s[k] {
      var h := SourceOf(a, k);
      var g :| g in b && Lower(g.name) == Lower(h.name) && Trim(g.value) == Trim(h.value);
      StoredAlike(b, h, g);
    }
  }

  lemma WithinBoth(s: map<string, string>, t: map<string, string>)
    requires Within(s, t) && Within(t, s)
    ensures s == t
  {
    SameMap(s, t);
  }

  lemma SignedArrivalFree(a: seq<Header>, b: seq<Header>)
    requires DistinctNames(a) && DistinctNames(b) && SameContent(a, b)
    ensures Signed(AddAll(map[], a)) == Signed(AddAll(map[], b))
  {
    SignedIncluded(a, b);
    SignedIncluded(b, a);
    WithinBoth(Signed(AddAll(map[], a)), Signed(AddAll(map[], b)));
  }

  /** Arrival order and the case of names do not matter. */
  lemma CanonicalArrivalFree(a: seq<Header>, b: seq<Header>)
    requires DistinctNames(a) && DistinctNames(b) && SameContent(a, b)
    ensures Canonical(AddAll(map[], a)) == Canonical(AddAll(map[], b))
  {
    SignedArrivalFree(a, b);
    CanonicalDeterminedBySigned(AddAll(map[], a), AddAll(map[], b));
  }

  // ---------- the headers the relay reads ----------

  /** A 100 is expected exactly when the last header of that name, in any case, has just that value. */
  lemma ExpectAfterAdd(m: HeaderMap, name: string, value: string)
    ensures ExpectsContinue(Add(m, name, value)) <==>
            if Lower(name) == "expect" then value == "100-continue" else ExpectsContinue(m)
    ensures !ExpectsContinue(map[])
  {
  }

  /** The length is that of the last header of that name, in any case, if it parses, and 0 without one. */
  lemma LengthAfterAdd(m: HeaderMap, name: string, value: string)
    ensures ContentLength(Add(m, name, value)) ==
            if Lower(name) == "content-length" then ParseUnsigned(value, 0xFFFF_FFFF_FFFF_FFFF) else ContentLength(m)
    ensures ContentLength(map[]) == Some(0)
  {
  }
}
