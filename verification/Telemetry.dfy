/**
  Telemetry events as XML: proxy_agent/src/telemetry/telemetry_event.rs and `xml_escape`
  of proxy_agent/src/common/helpers.rs.
 */
module Telemetry {
  import opened Prelude
  import opened Text

  // ---------- escaping ----------

  /** `str::replace` for a one-character pattern. */
  function Replace(s: string, c: char, text: string): string {
    if s == "" then "" else (if s[0] == c then text else [s[0]]) + Replace(s[1..], c, text)
  }

  function XmlEscape(s: string): string {
    Replace(Replace(Replace(Replace(Replace(
      s, '&', "&amp;"), '\'', "&apos;"), '"', "&quot;"), '<', "&lt;"), '>', "&gt;")
  }

  function EscapeChar(c: char): string {
    if c == '&' then "&amp;" else if c == '\'' then "&apos;" else if c == '"' then "&quot;"
    else if c == '<' then "&lt;" else if c == '>' then "&gt;" else [c]
  }

  /** The escape read one character at a time. */
  function EscapeEach(s: string): string {
    if s == "" then "" else EscapeChar(s[0]) + EscapeEach(s[1..])
  }

  lemma {:induction false} ReplaceConcat(a: string, b: string, c: char, text: string)
    ensures Replace(a + b, c, text) == Replace(a, c, text) + Replace(b, c, text)
  {
    if a == "" {
      assert a + b == b;
    } else {
      assert (a + b)[1..] == a[1..] + b;
      ReplaceConcat(a[1..], b, c, text);
    }
  }

  lemma {:induction false} ReplaceAbsent(s: string, c: char, text: string)
    requires c !in s
    ensures Replace(s, c, text) == s
  {
    if s != "" { ReplaceAbsent(s[1..], c, text); }
  }

  lemma ReplaceOne(c: char, d: char, text: string)
    ensures Replace([c], d, text) == if c == d then text else [c]
  {
    assert [c][1..] == "";
  }

  /** The chain on two pieces is the chain on each. */
  lemma EscapeConcat(a: string, b: string)
    ensures XmlEscape(a + b) == XmlEscape(a) + XmlEscape(b)
  {
    ReplaceConcat(a, b, '&', "&amp;");
    var a1, b1 := Replace(a, '&', "&amp;"), Replace(b, '&', "&amp;");
    ReplaceConcat(a1, b1, '\'', "&apos;");
    var a2, b2 := Replace(a1, '\'', "&apos;"), Replace(b1, '\'', "&apos;");
    ReplaceConcat(a2, b2, '"', "&quot;");
    var a3, b3 := Replace(a2, '"', "&quot;"), Replace(b2, '"', "&quot;");
    ReplaceConcat(a3, b3, '<', "&lt;");
    ReplaceConcat(Replace(a3, '<', "&lt;"), Replace(b3, '<', "&lt;"), '>', "&gt;");
  }

  /** Later replacements leave an entity alone. */
  lemma EntityUntouched(entity: string, c: char, text: string)
    requires entity in {"&amp;", "&apos;", "&quot;", "&lt;"} && c in {'\'', '"', '<', '>'}
    ensures Replace(entity, c, text) == entity
  {
    ReplaceAbsent(entity, c, text);
  }

  lemma EscapeOne(c: char)
    ensures XmlEscape([c]) == EscapeChar(c)
  {
    ReplaceOne(c, '&', "&amp;");
    ReplaceOne(c, '\'', "&apos;");
    ReplaceOne(c, '"', "&quot;");
    ReplaceOne(c, '<', "&lt;");
    ReplaceOne(c, '>', "&gt;");
    var e := EscapeChar(c);
    if c == '&' || c == '\'' || c == '"' || c == '<' {
      if c == '&' { EntityUntouched(e, '\'', "&apos;"); }
      if c == '&' || c == '\'' { EntityUntouched(e, '"', "&quot;"); }
      if c == '&' || c == '\'' || c == '"' { EntityUntouched(e, '<', "&lt;"); }
      EntityUntouched(e, '>', "&gt;");
    }
  }

  /** The five chained replacements are one character-by-character escape. */
  lemma {:induction false} ChainIsCharacterwise(s: string)
    ensures XmlEscape(s) == EscapeEach(s)
  {
    if s != "" {
      ChainIsCharacterwise(s[1..]);
      EscapeOne(s[0]);
      EscapeConcat([s[0]], s[1..]);
      assert s == [s[0]] + s[1..];
    }
  }

  /** Exactly the five characters of XML markup are replaced, each by its own entity. */
  lemma EntitiesExactly(c: char)
    ensures c == '&' ==> XmlEscape([c]) == "&amp;"
    ensures c == '\'' ==> XmlEscape([c]) == "&apos;"
    ensures c == '"' ==> XmlEscape([c]) == "&quot;"
    ensures c == '<' ==> XmlEscape([c]) == "&lt;"
    ensures c == '>' ==> XmlEscape([c]) == "&gt;"
    ensures c !in {'&', '\'', '"', '<', '>'} ==> XmlEscape([c]) == [c]
  {
    EscapeOne(c);
  }

  function Unescape(s: string): string {
    if s == "" then ""
    else if "&amp;" <= s then "&" + Unescape(s[5..])
    else if "&apos;" <= s then "'" + Unescape(s[6..])
    else if "&quot;" <= s then "\"" + Unescape(s[6..])
    else if "&lt;" <= s then "<" + Unescape(s[4..])
    else if "&gt;" <= s then ">" + Unescape(s[4..])
    else [s[0]] + Unescape(s[1..])
  }

  predicate IsSpecial(c: char) { c == '&' || c == '\'' || c == '"' || c == '<' || c == '>' }

  lemma UnescapeEntity(c: char, rest: string)
    requires IsSpecial(c)
    ensures Unescape(EscapeChar(c) + rest) == [c] + Unescape(rest)
  {
    var e := EscapeChar(c);
    var s := e + rest;
    assert s[|e|..] == rest;
    assert e <= s;
    assert s[1] == e[1] && s[2] == e[2];
  }

  lemma UnescapeStep(c: char, rest: string)
    ensures Unescape(EscapeChar(c) + rest) == [c] + Unescape(rest)
  {
    if IsSpecial(c) {
      UnescapeEntity(c, rest);
    } else {
      var s := [c] + rest;
      assert s[0] == c && s[1..] == rest;
    }
  }

  /** Nothing is lost: the escape has a left inverse. */
  lemma {:induction false} UnescapeInverts(s: string)
    ensures Unescape(EscapeEach(s)) == s
  {
    if s != "" {
      UnescapeInverts(s[1..]);
      UnescapeStep(s[0], EscapeEach(s[1..]));
    }
  }

  lemma {:induction false} EscapedHasNoMarkup(s: string)
    ensures '>' !in EscapeEach(s) && '<' !in EscapeEach(s) && '"' !in EscapeEach(s)
  {
    if s != "" { EscapedHasNoMarkup(s[1..]); }
  }

  // ---------- events ----------

  datatype TelemetryEvent = TelemetryEvent(
    eventPid: nat, eventTid: nat, gaVersion: string, containerId: string, taskName: string, opcodeName: string,
    keywordName: string, osVersion: string, executionMode: string, ram: nat, processors: nat, tenantName: string,
    roleName: string, roleInstanceName: string, subscriptionId: string, resourceGroupName: string, vmId: string,
    imageOrigin: nat, eventName: string, capabilityUsed: string, context1: string, context2: string, context3: string)

  function Param(name: string, value: string, kind: string): string {
    "<Param Name=\"" + name + "\" Value=\"" + value + "\" T=\"mt:" + kind + "\" />"
  }

  datatype FieldName =
    | NameOpcodeName | NameKeywordName | NameTaskName | NameTenantName | NameRoleName | NameRoleInstanceName
    | NameContainerId | NameResourceGroupName | NameSubscriptionId | NameVMId
    | NameEventPid | NameEventTid | NameImageOrigin | NameExecutionMode | NameOSVersion | NameGAVersion | NameRAM
    | NameProcessors | NameEventName | NameCapabilityUsed | NameContext1 | NameContext2 | NameContext3

  function NameText(n: FieldName): string {
    match n
    case NameOpcodeName => "OpcodeName"
    case NameKeywordName => "KeywordName"
    case NameTaskName => "TaskName"
    case NameTenantName => "TenantName"
    case NameRoleName => "RoleName"
    case NameRoleInstanceName => "RoleInstanceName"
    case NameContainerId => "ContainerId"
    case NameResourceGroupName => "ResourceGroupName"
    case NameSubscriptionId => "SubscriptionId"
    case NameVMId => "VMId"
    case NameEventPid => "EventPid"
    case NameEventTid => "EventTid"
    case NameImageOrigin => "ImageOrigin"
    case NameExecutionMode => "ExecutionMode"
    case NameOSVersion => "OSVersion"
    case NameGAVersion => "GAVersion"
    case NameRAM => "RAM"
    case NameProcessors => "Processors"
    case NameEventName => "EventName"
    case NameCapabilityUsed => "CapabilityUsed"
    case NameContext1 => "Context1"
    case NameContext2 => "Context2"
    case NameContext3 => "Context3"
  }

  datatype Field = TextField(name: FieldName, text: string) | NumberField(name: FieldName, number: nat)

  function Render(f: Field): string {
    match f
    case TextField(name, text) => Param(NameText(name), XmlEscape(text), "wstr")
    case NumberField(name, number) => Param(NameText(name), Decimal(number), "uint64")
  }

  /** The fields in the order they are printed. */
  function Fields(e: TelemetryEvent): seq<Field> {
    VmFields(e) + ProcessFields(e) + MessageFields(e)
  }

  function VmFields(e: TelemetryEvent): seq<Field> {
    [TextField(NameOpcodeName, e.opcodeName), TextField(NameKeywordName, e.keywordName),
     TextField(NameTaskName, e.taskName),
     TextField(NameTenantName, e.tenantName), TextField(NameRoleName, e.roleName),
     TextField(NameRoleInstanceName, e.roleInstanceName), TextField(NameContainerId, e.containerId),
     TextField(NameResourceGroupName, e.resourceGroupName), TextField(NameSubscriptionId, e.subscriptionId),
     TextField(NameVMId, e.vmId)]
  }

  function ProcessFields(e: TelemetryEvent): seq<Field> {
    [NumberField(NameEventPid, e.eventPid), NumberField(NameEventTid, e.eventTid),
     NumberField(NameImageOrigin, e.imageOrigin),
     TextField(NameExecutionMode, e.executionMode), TextField(NameOSVersion, e.osVersion),
     TextField(NameGAVersion, e.gaVersion), NumberField(NameRAM, e.ram), NumberField(NameProcessors, e.processors)]
  }

  function MessageFields(e: TelemetryEvent): seq<Field> {
    [TextField(NameEventName, e.eventName), TextField(NameCapabilityUsed, e.capabilityUsed),
     TextField(NameContext1, e.context1), TextField(NameContext2, e.context2), TextField(NameContext3, e.context3)]
  }

  function RenderAll(fields: seq<Field>): string {
    if fields == [] then "" else Render(fields[0]) + RenderAll(fields[1..])
  }

  const EVENT_OPEN: string := "<Event id=\"7\"><![CDATA["
  const EVENT_CLOSE: string := "]]></Event>"

  function ToXmlEvent(e: TelemetryEvent): string {
    EVENT_OPEN + RenderAll(Fields(e)) + EVENT_CLOSE
  }

  /** Every '>' follows a character that is not ']' within the text itself. */
  predicate Guarded(s: string) {
    forall i | 0 <= i < |s| && s[i] == '>' :: i > 0 && s[i - 1] != ']'
  }

  lemma GuardedConcat(a: string, b: string)
    requires Guarded(a) && Guarded(b)
    ensures Guarded(a + b)
  {
    forall i | 0 <= i < |a + b| && (a + b)[i] == '>' ensures i > 0 && (a + b)[i - 1] != ']' {
      if i >= |a| { assert b[i - |a|] == '>'; } else { assert a[i] == '>'; }
    }
  }

  lemma GuardedWithout(s: string)
    requires '>' !in s
    ensures Guarded(s)
  {
  }

  lemma ParamGuarded(name: string, value: string, kind: string)
    requires '>' !in name && '>' !in value && '>' !in kind
    ensures Guarded(Param(name, value, kind))
  {
    var front := "<Param Name=\"" + name + "\" Value=\"" + value + "\" T=\"mt:" + kind;
    GuardedWithout(front);
    assert Guarded("\" />");
    GuardedConcat(front, "\" />");
    assert Param(name, value, kind) == front + "\" />";
  }

  lemma NameTextPlain(n: FieldName)
    ensures '>' !in NameText(n)
  {
  }

  lemma RenderGuarded(f: Field)
    ensures Guarded(Render(f))
  {
    NameTextPlain(f.name);
    match f {
      case TextField(name, text) =>
        ChainIsCharacterwise(text);
        EscapedHasNoMarkup(text);
        ParamGuarded(NameText(name), XmlEscape(text), "wstr");
      case NumberField(name, number) =>
        assert forall i | 0 <= i < |Decimal(number)| :: IsDigit(Decimal(number)[i]);
        ParamGuarded(NameText(name), Decimal(number), "uint64");
    }
  }

  lemma {:induction false} RenderAllGuarded(fields: seq<Field>)
    ensures Guarded(RenderAll(fields))
  {
    if fields != [] {
      RenderGuarded(fields[0]);
      RenderAllGuarded(fields[1..]);
      GuardedConcat(Render(fields[0]), RenderAll(fields[1..]));
    }
  }

  lemma CloseAfterGuarded(body: string)
    requires Guarded(body)
    ensures var text := body + EVENT_CLOSE;
            forall i | 0 <= i <= |text| :: "]]>" <= text[i..] <==> i == |body|
  {
    var text := body + EVENT_CLOSE;
    forall i | 0 <= i <= |text| ensures "]]>" <= text[i..] <==> i == |body| {
      if i + 3 <= |text| {
        assert text[i..][0] == text[i] && text[i..][1] == text[i + 1] && text[i..][2] == text[i + 2];
        if i + 2 < |body| {
          assert text[i + 2] == body[i + 2] && text[i + 1] == body[i + 1];
        } else {
          assert text[i + 2] == EVENT_CLOSE[i + 2 - |body|];
          assert i + 1 >= |body| ==> text[i + 1] == EVENT_CLOSE[i + 1 - |body|];
        }
      }
    }
  }

  lemma OpenGuarded()
    ensures Guarded(EVENT_OPEN)
  {
    assert EVENT_OPEN[13] == '>' && EVENT_OPEN[12] == '"';
  }

  lemma RenderedGuarded(fields: seq<Field>)
    ensures Guarded(EVENT_OPEN + RenderAll(fields))
  {
    RenderAllGuarded(fields);
    OpenGuarded();
    GuardedConcat(EVENT_OPEN, RenderAll(fields));
  }

  /** For every event, the only "]]>" in its text is the one that closes its CDATA section, so the section
      (section 2.7 of XML 1.0) never ends early. */
  lemma CdataEndsOnce(e: TelemetryEvent)
    ensures var text := ToXmlEvent(e);
            forall i | 0 <= i <= |text| :: "]]>" <= text[i..] <==> i == |text| - |EVENT_CLOSE|
  {
    RenderedGuarded(Fields(e));
    CloseAfterGuarded(EVENT_OPEN + RenderAll(Fields(e)));
  }

  // ---------- a batch ----------

  const DATA_OPEN: string :=
    "<?xml version=\"1.0\"?><TelemetryData version=\"1.0\"><Provider id=\"FFF0196F-EE4C-4EAF-9AA5-776F622DEB4F\">"
  const DATA_CLOSE: string := "</Provider></TelemetryData>"

  function EventsXml(events: seq<TelemetryEvent>): string {
    if events == [] then "" else EventsXml(events[..|events| - 1]) + ToXmlEvent(events[|events| - 1])
  }

  function ToXml(events: seq<TelemetryEvent>): string {
    DATA_OPEN + EventsXml(events) + DATA_CLOSE
  }

  /** `get_size`: bytes of the XML text. */
  function Size(events: seq<TelemetryEvent>): nat { ByteLen(ToXml(events)) }

  function EventBytes(e: TelemetryEvent): nat { ByteLen(ToXmlEvent(e)) }

  /** The size of a message is counted in bytes, not characters. */
  lemma SizeIsEncoded(events: seq<TelemetryEvent>)
    ensures Size(events) == |Encode(ToXml(events))|
  {
  }

  lemma InsertedBytes(a: string, b: string, c: string, d: string)
    ensures ByteLen(a + (b + c) + d) == ByteLen(a + b + d) + ByteLen(c)
  {
    ByteLenConcat(a + (b + c), d);
    ByteLenConcat(a, b + c);
    ByteLenConcat(b, c);
    ByteLenConcat(a + b, d);
    ByteLenConcat(a, b);
  }

  /** Adding an event adds its own bytes. */
  lemma SizeOfAdded(events: seq<TelemetryEvent>, e: TelemetryEvent)
    ensures Size(events + [e]) == Size(events) + EventBytes(e)
  {
    assert (events + [e])[..|events|] == events;
    InsertedBytes(DATA_OPEN, EventsXml(events), ToXmlEvent(e), DATA_CLOSE);
  }

  lemma ConcatAssociates(a: string, b: string, c: string)
    ensures a + b + c == a + (b + c)
  {
  }

  lemma PushStep(start: string, events: seq<TelemetryEvent>, i: nat)
    requires i < |events|
    ensures start + EventsXml(events[..i + 1]) == start + EventsXml(events[..i]) + ToXmlEvent(events[i])
  {
    assert events[..i + 1][..i] == events[..i];
    ConcatAssociates(start, EventsXml(events[..i]), ToXmlEvent(events[i]));
  }

  class TelemetryData {
    var events: seq<TelemetryEvent>

    constructor ()
      ensures events == []
    {
      events := [];
    }

    method ToXmlText() returns (xml: string)
      ensures xml == ToXml(events)
    {
      xml := PushEvents(DATA_OPEN);
      xml := xml + DATA_CLOSE;
    }

    method PushEvents(start: string) returns (xml: string)
      ensures xml == start + EventsXml(events)
    {
      xml := start;
      for i := 0 to |events|
        invariant xml == start + EventsXml(events[..i])
      {
        PushStep(start, events, i);
        xml := xml + ToXmlEvent(events[i]);
      }
      assert events[..|events|] == events;
    }

    method GetSize() returns (size: nat)
      ensures size == Size(events)
    {
      var xml := ToXmlText();
      size := ByteLen(xml);
    }

    method AddEvent(e: TelemetryEvent)
      modifies this
      ensures events == old(events) + [e]
    {
      events := events + [e];
    }

    method RemoveLastEvent() returns (last: Option<TelemetryEvent>)
      modifies this
      ensures old(events) == [] ==> last == None && events == []
      ensures old(events) != [] ==> last.Some? && old(events) == events + [last.value]
    {
      if events == [] { return None; }
      last := Some(events[|events| - 1]);
      events := events[..|events| - 1];
    }
  }

  // ---------- what stands in a document ----------

  predicate Contains(text: string, part: string) {
    exists i | 0 <= i <= |text| :: part <= text[i..]
  }

  lemma ContainsAround(a: string, part: string, b: string)
    ensures Contains(a + part + b, part)
  {
    var text := a + part + b;
    assert text[|a|..] == part + b;
  }

  lemma ContainsMore(a: string, text: string, b: string, part: string)
    requires Contains(text, part)
    ensures Contains(a + text + b, part)
  {
    var i :| 0 <= i <= |text| && part <= text[i..];
    var more := a + text + b;
    assert more[|a| + i..] == text[i..] + b;
    assert part <= more[|a| + i..];
  }

  lemma {:induction false} PieceIsThere<A>(f: A -> string, xs: seq<A>, x: A)
    requires x in xs
    ensures Contains(FlatMap(f, xs), f(x))
  {
    var first, rest := f(xs[0]), FlatMap(f, xs[1..]);
    if xs[0] == x {
      ContainsAround("", f(x), rest);
      assert "" + f(x) + rest == FlatMap(f, xs);
    } else {
      PieceIsThere(f, xs[1..], x);
      ContainsMore(first, rest, "", f(x));
      assert first + rest + "" == FlatMap(f, xs);
    }
  }

  lemma {:induction false} RenderAllIsFlatMap(fields: seq<Field>, render: Field -> string)
    requires forall f :: render(f) == Render(f)
    ensures RenderAll(fields) == FlatMap(render, fields)
  {
    if fields != [] { RenderAllIsFlatMap(fields[1..], render); }
  }

  lemma RenderedIsThere(fields: seq<Field>, f: Field)
    requires f in fields
    ensures Contains(RenderAll(fields), Render(f))
  {
    var render := (g: Field) => Render(g);
    RenderAllIsFlatMap(fields, render);
    PieceIsThere(render, fields, f);
    assert render(f) == Render(f);
  }

  function ParamText(name: string, value: string, kind: string): string {
    "<Param Name=\"" + name + "\" Value=\"" + value + "\" T=\"mt:" + kind + "\" />"
  }

  /** Each field is in the text of its event, under its own name, escaped if it is text and in decimal if not. */
  lemma EventShowsField(e: TelemetryEvent, f: Field)
    requires f in Fields(e)
    ensures Contains(ToXmlEvent(e), match f
                                    case TextField(n, text) => ParamText(NameText(n), XmlEscape(text), "wstr")
                                    case NumberField(n, number) => ParamText(NameText(n), Decimal(number), "uint64"))
  {
    RenderedIsThere(Fields(e), f);
    ContainsMore(EVENT_OPEN, RenderAll(Fields(e)), EVENT_CLOSE, Render(f));
  }

  /** Which part of an event each name stands for. */
  function ValueUnder(e: TelemetryEvent, n: FieldName): Field {
    match n
    case NameOpcodeName => TextField(n, e.opcodeName)
    case NameKeywordName => TextField(n, e.keywordName)
    case NameTaskName => TextField(n, e.taskName)
    case NameTenantName => TextField(n, e.tenantName)
    case NameRoleName => TextField(n, e.roleName)
    case NameRoleInstanceName => TextField(n, e.roleInstanceName)
    case NameContainerId => TextField(n, e.containerId)
    case NameResourceGroupName => TextField(n, e.resourceGroupName)
    case NameSubscriptionId => TextField(n, e.subscriptionId)
    case NameVMId => TextField(n, e.vmId)
    case NameEventPid => NumberField(n, e.eventPid)
    case NameEventTid => NumberField(n, e.eventTid)
    case NameImageOrigin => NumberField(n, e.imageOrigin)
    case NameExecutionMode => TextField(n, e.executionMode)
    case NameOSVersion => TextField(n, e.osVersion)
    case NameGAVersion => TextField(n, e.gaVersion)
    case NameRAM => NumberField(n, e.ram)
    case NameProcessors => NumberField(n, e.processors)
    case NameEventName => TextField(n, e.eventName)
    case NameCapabilityUsed => TextField(n, e.capabilityUsed)
    case NameContext1 => TextField(n, e.context1)
    case NameContext2 => TextField(n, e.context2)
    case NameContext3 => TextField(n, e.context3)
  }

  /** The place of each name in an event. */
  function Place(n: FieldName): (i: nat)
    ensures i < 23
  {
    match n
    case NameOpcodeName => 0 case NameKeywordName => 1 case NameTaskName => 2 case NameTenantName => 3
    case NameRoleName => 4 case NameRoleInstanceName => 5 case NameContainerId => 6 case NameResourceGroupName => 7
    case NameSubscriptionId => 8 case NameVMId => 9 case NameEventPid => 10 case NameEventTid => 11
    case NameImageOrigin => 12 case NameExecutionMode => 13 case NameOSVersion => 14 case NameGAVersion => 15
    case NameRAM => 16 case NameProcessors => 17 case NameEventName => 18 case NameCapabilityUsed => 19
    case NameContext1 => 20 case NameContext2 => 21 case NameContext3 => 22
  }

  lemma FieldAtPlace(e: TelemetryEvent, n: FieldName)
    ensures |Fields(e)| == 23 && Fields(e)[Place(n)] == ValueUnder(e, n)
  {
  }

  lemma PlaceOfField(e: TelemetryEvent, i: nat)
    requires i < 23
    ensures |Fields(e)| == 23 && Place(Fields(e)[i].name) == i
  {
    var a, b, c := VmFields(e), ProcessFields(e), MessageFields(e);
    assert |a| == 10 && |b| == 8 && |c| == 5;
    if i < 10 {
      assert Fields(e)[i] == a[i];
    } else if i < 18 {
      assert Fields(e)[i] == b[i - 10];
    } else {
      assert Fields(e)[i] == c[i - 18];
    }
  }

  /** Every name stands in every event exactly once, for its own part of the event. */
  lemma FieldUnderName(e: TelemetryEvent, n: FieldName)
    ensures forall f :: f in Fields(e) && f.name == n <==> f == ValueUnder(e, n)
  {
    FieldAtPlace(e, n);
    assert ValueUnder(e, n) in Fields(e) && ValueUnder(e, n).name == n;
    forall f | f in Fields(e) && f.name == n ensures f == ValueUnder(e, n) {
      var i :| 0 <= i < |Fields(e)| && Fields(e)[i] == f;
      PlaceOfField(e, i);
    }
  }

  /** The names as they are printed. */
  lemma PrintedNames()
    ensures NameText(NameOpcodeName) == "OpcodeName" && NameText(NameKeywordName) == "KeywordName"
    ensures NameText(NameTaskName) == "TaskName" && NameText(NameTenantName) == "TenantName"
    ensures NameText(NameRoleName) == "RoleName" && NameText(NameRoleInstanceName) == "RoleInstanceName"
    ensures NameText(NameContainerId) == "ContainerId" && NameText(NameResourceGroupName) == "ResourceGroupName"
    ensures NameText(NameSubscriptionId) == "SubscriptionId" && NameText(NameVMId) == "VMId"
    ensures NameText(NameEventPid) == "EventPid" && NameText(NameEventTid) == "EventTid"
    ensures NameText(NameImageOrigin) == "ImageOrigin" && NameText(NameExecutionMode) == "ExecutionMode"
    ensures NameText(NameOSVersion) == "OSVersion" && NameText(NameGAVersion) == "GAVersion"
    ensures NameText(NameRAM) == "RAM" && NameText(NameProcessors) == "Processors"
    ensures NameText(NameEventName) == "EventName" && NameText(NameCapabilityUsed) == "CapabilityUsed"
    ensures NameText(NameContext1) == "Context1" && NameText(NameContext2) == "Context2"
    ensures NameText(NameContext3) == "Context3"
  {
  }

  lemma OneEvent(e: TelemetryEvent)
    ensures EventsXml([e]) == ToXmlEvent(e)
  {
    assert [e][..0] == [];
    NothingBefore(EventsXml([]), ToXmlEvent(e));
  }

  lemma NothingBefore(a: string, b: string)
    ensures a == "" ==> a + b == b
  {
  }

  lemma {:induction false} EventsXmlIsFlatMap(events: seq<TelemetryEvent>, text: TelemetryEvent -> string)
    requires forall e :: text(e) == ToXmlEvent(e)
    ensures EventsXml(events) == FlatMap(text, events)
  {
    if events != [] {
      var n := |events| - 1;
      EventsXmlIsFlatMap(events[..n], text);
      FlatMapAppend(text, events, n);
      assert events[..n + 1] == events;
      assert text(events[n]) == ToXmlEvent(events[n]);
    }
  }

  /** A document holds its events in order. */
  lemma EventsInOrder(a: seq<TelemetryEvent>, b: seq<TelemetryEvent>)
    ensures EventsXml(a + b) == EventsXml(a) + EventsXml(b)
  {
    var text := (e: TelemetryEvent) => ToXmlEvent(e);
    EventsXmlIsFlatMap(a, text);
    EventsXmlIsFlatMap(b, text);
    EventsXmlIsFlatMap(a + b, text);
    FlatMapConcat(text, a, b);
  }
}
