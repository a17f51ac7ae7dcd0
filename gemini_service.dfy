/** The service layer around the generative model: the fallbacks applied to
    its replies and the calendar quick-add link built from an event. The call
    to the model is an input (`ModelReply`); what is modelled is what the code
    does with the reply. */
module GeminiService {
  import opened Types
  import opened UriComponent

  /** A value `JSON.parse` can produce. A number is carried as the text
      ECMAScript's Number::toString gives it, since nothing here computes
      with numbers; an object is a map, as duplicate keys keep the last. */
  datatype Json =
    | JNull
    | JBool(b: bool)
    | JNumber(text: string)
    | JString(s: string)
    | JArray(elems: seq<Json>)
    | JObject(members: map<string, Json>)

  // ---------------------------------------------------------------------
  // Timestamps: `s.replace(/[-:]/g, '')`
  // ---------------------------------------------------------------------

  predicate IsSeparator(c: char) {
    c == '-' || c == ':'
  }

  /** Text holding neither `-` nor `:`. */
  predicate NoSeparators(s: string) {
    forall i :: 0 <= i < |s| ==> !IsSeparator(s[i])
  }

  /** The timestamp with every `-` and `:` deleted. */
  function Compact(s: string): string {
    if s == [] then []
    else (if IsSeparator(s[0]) then [] else [s[0]]) + Compact(s[1..])
  }

  /** Compaction works piece by piece, so the characters it keeps stay in
      their original order. */
  lemma {:induction false} CompactAppend(a: string, b: string)
    ensures Compact(a + b) == Compact(a) + Compact(b)
  {
    if a == [] {
      assert a + b == b;
    } else {
      assert (a + b)[1..] == a[1..] + b;
      CompactAppend(a[1..], b);
    }
  }

  /** Every character other than `-` and `:` survives as often as it
      occurred, and the length shrinks by exactly the separators removed. */
  lemma {:induction false} CompactCounts(s: string)
    ensures forall c :: !IsSeparator(c) ==> multiset(Compact(s))[c] == multiset(s)[c]
    ensures |Compact(s)| == |s| - multiset(s)['-'] - multiset(s)[':']
  {
    if s != [] {
      CompactCounts(s[1..]);
      assert s == [s[0]] + s[1..];
    }
  }

  /** Text without separators is left alone. */
  lemma {:induction false} CompactClean(s: string)
    requires NoSeparators(s)
    ensures Compact(s) == s
  {
    if s != [] {
      CompactClean(s[1..]);
    }
  }

  /** Compacting twice is compacting once. */
  lemma CompactIdempotent(s: string)
    ensures Compact(Compact(s)) == Compact(s)
  {
    CompactHasNoSeparators(s);
    CompactClean(Compact(s));
  }

  /** What compaction leaves contains neither `-` nor `:`. */
  lemma {:induction false} CompactHasNoSeparators(s: string)
    ensures NoSeparators(Compact(s))
  {
    if s != [] {
      CompactHasNoSeparators(s[1..]);
    }
  }

  /** Appending separator-free text keeps it whole after the compacted rest. */
  lemma CompactThen(t: string, z: string)
    requires NoSeparators(z)
    ensures Compact(t + z) == Compact(t) + z
  {
    CompactAppend(t, z);
    CompactClean(z);
  }

  /** Appending a separator drops it. */
  lemma CompactThenSeparator(t: string, c: char)
    requires IsSeparator(c)
    ensures Compact(t + [c]) == Compact(t)
  {
    CompactAppend(t, [c]);
    assert Compact([c]) == [];
  }

  /** The ISO-8601 extended form of a date-time, `YYYY-MM-DDTHH:MM:SS`,
      becomes the basic form `YYYYMMDDTHHMMSS` of section 3.3.5 of RFC 5545;
      any fraction or zone designator after it is left as it is. */
  lemma {:induction false} CompactIsoDateTime(y: string, mo: string, d: string, h: string, mi: string, sec: string, zone: string)
    requires NoSeparators(y) && NoSeparators(mo) && NoSeparators(d)
    requires NoSeparators(h) && NoSeparators(mi) && NoSeparators(sec) && NoSeparators(zone)
    ensures Compact(y + "-" + mo + "-" + d + "T" + h + ":" + mi + ":" + sec + zone)
         == y + mo + d + "T" + h + mi + sec + zone
  {
    assert NoSeparators("T");
    CompactClean(y);
    CompactThenSeparator(y, '-');
    CompactThen(y + "-", mo);
    CompactThenSeparator(y + "-" + mo, '-');
    CompactThen(y + "-" + mo + "-", d);
    CompactThen(y + "-" + mo + "-" + d, "T");
    CompactThen(y + "-" + mo + "-" + d + "T", h);
    CompactThenSeparator(y + "-" + mo + "-" + d + "T" + h, ':');
    CompactThen(y + "-" + mo + "-" + d + "T" + h + ":", mi);
    CompactThenSeparator(y + "-" + mo + "-" + d + "T" + h + ":" + mi, ':');
    CompactThen(y + "-" + mo + "-" + d + "T" + h + ":" + mi + ":", sec);
    CompactThen(y + "-" + mo + "-" + d + "T" + h + ":" + mi + ":" + sec, zone);
  }

  /** The documented timestamp, as an instance of the lemma above. */
  lemma CompactExample()
    ensures Compact("2024" + "-" + "01" + "-" + "01" + "T" + "10" + ":" + "00" + ":" + "00" + "")
         == "20240101T100000"
  {
    assert NoSeparators("2024") && NoSeparators("01") && NoSeparators("10") && NoSeparators("00");
    CompactIsoDateTime("2024", "01", "01", "10", "00", "00", "");
  }

  /** A numeric zone offset loses its colon, so it no longer reads as the
      extended form. */
  lemma CompactOffset()
    ensures Compact("+01:00") == "+0100"
  {
  }

  /** The `dates` parameter: both compacted timestamps around a `/`. */
  function Dates(startTime: string, endTime: string): string {
    Compact(startTime) + "/" + Compact(endTime)
  }

  /** The `dates` value holds no `-` and no `:`, and the `/` between the two
      timestamps is the only one when neither timestamp holds a `/`. */
  lemma DatesShape(startTime: string, endTime: string)
    requires '/' !in startTime && '/' !in endTime
    ensures '-' !in Dates(startTime, endTime) && ':' !in Dates(startTime, endTime)
    ensures Split(Dates(startTime, endTime), '/') == [Compact(startTime), Compact(endTime)]
  {
    CompactHasNoSeparators(startTime);
    CompactHasNoSeparators(endTime);
    CompactKeepsOut(startTime, '/');
    CompactKeepsOut(endTime, '/');
    SplitWhole(Compact(endTime), '/');
    SplitAt(Compact(startTime), Compact(endTime), '/');
  }

  // ---------------------------------------------------------------------
  // The quick-add URL
  // ---------------------------------------------------------------------

  /** The fixed base of the quick-add link, by its parts. */
  const CalendarOrigin: string := "https://www.google.com"
  const RenderPath: string := "/calendar/render"
  const TemplateQuery: string := "?action=TEMPLATE"
  const CalendarBase: string := CalendarOrigin + RenderPath + TemplateQuery

  /** The quick-add link for an event whose fields are already strings. */
  function CalendarUrl(summary: string, description: string, startTime: string, endTime: string): string {
    CalendarBase + "&text=" + EncodeUriComponent(summary)
      + "&details=" + EncodeUriComponent(description)
      + "&dates=" + Dates(startTime, endTime)
  }

  /** `s.split(sep)`: the pieces between separators, at least one. */
  function Split(s: string, sep: char): (r: seq<string>)
    ensures |r| >= 1
  {
    if s == [] then [""]
    else
      var rest := Split(s[1..], sep);
      if s[0] == sep then [""] + rest else [[s[0]] + rest[0]] + rest[1..]
  }

  lemma {:induction false} SplitPrefix(a: string, b: string, sep: char)
    requires sep !in a
    ensures Split(a + b, sep) == [a + Split(b, sep)[0]] + Split(b, sep)[1..]
  {
    var sb := Split(b, sep);
    if a == [] {
      assert a + b == b;
      assert a + sb[0] == sb[0];
      assert sb == [sb[0]] + sb[1..];
    } else {
      assert (a + b)[1..] == a[1..] + b;
      SplitPrefix(a[1..], b, sep);
      assert [a[0]] + (a[1..] + sb[0]) == a + sb[0];
    }
  }

  /** Splitting at a separator that is not in the first piece. */
  lemma SplitAt(a: string, b: string, sep: char)
    requires sep !in a
    ensures Split(a + [sep] + b, sep) == [a] + Split(b, sep)
  {
    var t := [sep] + b;
    SplitPrefix(a, t, sep);
    assert a + [sep] + b == a + t;
    assert t[0] == sep && t[1..] == b;
    assert Split(t, sep) == [""] + Split(b, sep);
    assert a + Split(t, sep)[0] == a;
    assert Split(t, sep)[1..] == Split(b, sep);
  }

  lemma SplitWhole(a: string, sep: char)
    requires sep !in a
    ensures Split(a, sep) == [a]
  {
    SplitPrefix(a, [], sep);
    assert a + [] == a;
  }

  /** A character absent from a timestamp is absent from its compaction. */
  lemma {:induction false} CompactKeepsOut(s: string, c: char)
    requires c !in s
    ensures c !in Compact(s)
  {
    if s != [] {
      CompactKeepsOut(s[1..], c);
    }
  }

  /** The base holds no `&`, and is not empty. */
  lemma BaseHasNoAmpersand()
    ensures '&' !in CalendarBase && |CalendarBase| > 0
  {
    assert '&' !in "https://www.google.com";
    assert '&' !in "/calendar/render";
    assert '&' !in "?action=TEMPLATE";
  }

  /** The link as the base and three `key=value` parameters joined by `&`. */
  lemma CalendarUrlPieces(base: string, e1: string, e2: string, d: string)
    ensures base + "&text=" + e1 + "&details=" + e2 + "&dates=" + d ==
      base + ['&'] + (("text=" + e1) + ['&'] + (("details=" + e2) + ['&'] + ("dates=" + d)))
  {
    assert "&text=" == ['&'] + "text=";
    assert "&details=" == ['&'] + "details=";
    assert "&dates=" == ['&'] + "dates=";
  }

  /** Four `&`-free pieces joined by `&` split back into those pieces. */
  lemma SplitFields(a: string, b: string, c: string, d: string)
    requires '&' !in a && '&' !in b && '&' !in c && '&' !in d
    ensures Split(a + ['&'] + (b + ['&'] + (c + ['&'] + d)), '&') == [a, b, c, d]
  {
    SplitWhole(d, '&');
    SplitAt(c, d, '&');
    SplitAt(b, c + ['&'] + d, '&');
    SplitAt(a, b + ['&'] + (c + ['&'] + d), '&');
  }

  /** Read back with a query-string split at `&`, the link holds exactly
      the base with `action=TEMPLATE`, then `text`, `details` and `dates`,
      in that order; the `text` and `details` values percent-decode to the
      UTF-8 bytes of the summary and the description. This needs the raw
      timestamps to be free of `&`, since the `dates` value is not encoded. */
  lemma CalendarUrlFields(summary: string, description: string, startTime: string, endTime: string)
    requires '&' !in startTime && '&' !in endTime
    ensures Split(CalendarUrl(summary, description, startTime, endTime), '&') ==
      [CalendarBase, "text=" + EncodeUriComponent(summary),
       "details=" + EncodeUriComponent(description), "dates=" + Dates(startTime, endTime)]
    ensures PercentDecode(EncodeUriComponent(summary)) == Some(Utf8(summary))
    ensures PercentDecode(EncodeUriComponent(description)) == Some(Utf8(description))
  {
    var e1, e2, d := EncodeUriComponent(summary), EncodeUriComponent(description), Dates(startTime, endTime);
    EncodedIsQuerySafe(summary);
    EncodedIsQuerySafe(description);
    CompactKeepsOut(startTime, '&');
    CompactKeepsOut(endTime, '&');
    assert '&' !in d;
    BaseHasNoAmpersand();
    CalendarUrlPieces(CalendarBase, e1, e2, d);
    SplitFields(CalendarBase, "text=" + e1, "details=" + e2, "dates=" + d);
    DecodeEncode(summary);
    DecodeEncode(description);
  }

  // ---------------------------------------------------------------------
  // Reading fields of the parsed reply
  // ---------------------------------------------------------------------

  /** What `data.key` gives: a TypeError on `null`, the member of an
      object, and `undefined` otherwise (none of the keys read here is
      provided by a prototype). */
  datatype Lookup = Throws | Undefined | Value(v: Json)

  function Field(data: Json, key: string): (r: Lookup)
    ensures r.Throws? <==> data.JNull?
    ensures r.Value? <==> data.JObject? && key in data.members
  {
    match data
    case JNull => Throws
    case JObject(m) => if key in m then Value(m[key]) else Undefined
    case _ => Undefined
  }

  /** The string `x.replace(/[-:]/g, '')` is applied to: only a string
      has `replace`; on anything else the call throws a TypeError (None). */
  function ReplaceableText(x: Lookup): (r: Option<string>)
    ensures r.Some? <==> x.Value? && x.v.JString?
  {
    match x
    case Value(JString(s)) => Some(s)
    case _ => None
  }

  /** ECMAScript ToString of a parsed value, as `encodeURIComponent` applies
      it; None where it throws. An object owning a `toString` member has no
      callable `toString`, and its `valueOf` yields the object again, so
      conversion throws; an array is joined with `,`, a `null` element
      giving the empty string. */
  function ToJsString(v: Json): Option<string>
    decreases v, 1, 0
  {
    match v
    case JNull => Some("null")
    case JBool(b) => Some(if b then "true" else "false")
    case JNumber(t) => Some(t)
    case JString(s) => Some(s)
    case JArray(es) => JoinFrom(v, 0)
    case JObject(m) => if "toString" in m then None else Some("[object Object]")
  }

  function JoinFrom(v: Json, i: nat): Option<string>
    requires v.JArray? && i <= |v.elems|
    decreases v, 0, |v.elems| - i
  {
    if i == |v.elems| then Some("")
    else
      var head := if v.elems[i].JNull? then Some("") else ToJsString(v.elems[i]);
      if head.None? then None
      else if i + 1 == |v.elems| then head
      else
        match JoinFrom(v, i + 1)
        case None => None
        case Some(tail) => Some(head.value + "," + tail)
  }

  /** What ToString makes of `undefined`. */
  const UndefinedText: string := "undefined"

  /** The argument of `encodeURIComponent(data.key)`: a missing member is
      `undefined`, which converts to the text "undefined". */
  function FieldText(x: Lookup): (r: Option<string>)
    ensures x.Undefined? ==> r == Some(UndefinedText)
    ensures x.Value? && x.v.JString? ==> r == Some(x.v.s)
  {
    match x
    case Throws => None
    case Undefined => Some(UndefinedText)
    case Value(v) => ToJsString(v)
  }

  /** The body of the `try` that turns the parsed reply into a link; None
      stands for the `catch` that returns `null`. */
  function CalendarLinkFrom(data: Json): Option<string> {
    var start := ReplaceableText(Field(data, "startTime"));
    var end := ReplaceableText(Field(data, "endTime"));
    if start.None? || end.None? then None
    else
      var summary := FieldText(Field(data, "summary"));
      var description := FieldText(Field(data, "description"));
      if summary.None? || description.None? then None
      else Some(CalendarUrl(summary.value, description.value, start.value, end.value))
  }

  /** A link is never the empty string: it starts with the base. */
  lemma CalendarLinkNonEmpty(data: Json)
    ensures CalendarLinkFrom(data).Some? ==> |CalendarLinkFrom(data).value| >= |CalendarBase| > 0
  {
    BaseHasNoAmpersand();
  }

  /** A link comes out only of an object whose `startTime` and `endTime` are
      strings; from an object of four strings it is `CalendarUrl` of them. */
  lemma CalendarLinkFromShape(data: Json)
    ensures CalendarLinkFrom(data).Some? ==>
      data.JObject? && "startTime" in data.members && data.members["startTime"].JString?
      && "endTime" in data.members && data.members["endTime"].JString?
  {
  }

  lemma CalendarLinkFromStrings(summary: string, description: string, startTime: string, endTime: string)
    ensures CalendarLinkFrom(JObject(map["summary" := JString(summary), "description" := JString(description),
                                         "startTime" := JString(startTime), "endTime" := JString(endTime)]))
      == Some(CalendarUrl(summary, description, startTime, endTime))
  {
    var m := map["summary" := JString(summary), "description" := JString(description),
                 "startTime" := JString(startTime), "endTime" := JString(endTime)];
    assert m["summary"] == JString(summary) && m["description"] == JString(description);
    assert m["startTime"] == JString(startTime) && m["endTime"] == JString(endTime);
  }

  /** A missing start or end time, or one that is not a string, yields no
      link; so does a reply that parses to `null`. */
  lemma CalendarLinkNeedsTimes(data: Json)
    requires !(Field(data, "startTime").Value? && Field(data, "startTime").v.JString?)
          || !(Field(data, "endTime").Value? && Field(data, "endTime").v.JString?)
    ensures CalendarLinkFrom(data) == None
  {
  }

  /** A missing summary or description does not fail: each is sent as the
      text "undefined". */
  lemma MissingTextIsUndefined(m: map<string, Json>, startTime: string, endTime: string)
    requires "startTime" in m && m["startTime"] == JString(startTime)
    requires "endTime" in m && m["endTime"] == JString(endTime)
    requires "summary" !in m && "description" !in m
    ensures CalendarLinkFrom(JObject(m)) == Some(CalendarUrl(UndefinedText, UndefinedText, startTime, endTime))
  {
  }

  // ---------------------------------------------------------------------
  // The two service functions
  // ---------------------------------------------------------------------

  /** `suggestTasks`: the model call sits outside the `try`, so its failure
      rejects; text that is not JSON resolves to `[]`; parsed suggestions
      come back unchecked, categories included. */
  function SuggestTasks(reply: ModelReply<seq<Suggestion>>): (r: Settled<seq<Suggestion>>)
    ensures r.Rejects? <==> reply.CallFailed?
    ensures reply == Answered(None) ==> r == Resolves([])
    ensures forall ss :: reply == Answered(Some(ss)) ==> r == Resolves(ss)
  {
    match reply
    case CallFailed => Rejects
    case Answered(None) => Resolves([])
    case Answered(Some(ss)) => Resolves(ss)
  }

  /** `getCalendarFriendlyFormat`: the model call sits outside the `try`, so
      its failure rejects; unparsable text, or a parsed value the link cannot
      be built from, resolves to `null` (None). */
  function GetCalendarFriendlyFormat(reply: ModelReply<Json>): (r: Settled<Option<string>>)
    ensures r.Rejects? <==> reply.CallFailed?
    ensures reply == Answered(None) ==> r == Resolves(None)
    ensures forall data :: reply == Answered(Some(data)) ==> r == Resolves(CalendarLinkFrom(data))
  {
    match reply
    case CallFailed => Rejects
    case Answered(None) => Resolves(None)
    case Answered(Some(data)) => Resolves(CalendarLinkFrom(data))
  }
}
