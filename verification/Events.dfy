/** One-line structured events: printer and parser
    (python/stormweaver/events.py). Regular expressions are written out as the
    matching they do, the end anchor before a final newline included. */
module Events {
  import opened Metadata

  /** What the engine takes for a word character; only '=' and newline matter. */
  type CharClass = char -> bool

  predicate Bare(c: char) {
    'A' <= c <= 'Z' || 'a' <= c <= 'z' || '0' <= c <= '9' || c in "_./:-"
  }

  predicate Upper(c: char) { 'A' <= c <= 'Z' }

  predicate KindChar(c: char) { Upper(c) || c == '_' }

  predicate All(s: string, p: CharClass) {
    forall i :: 0 <= i < |s| ==> p(s[i])
  }

  function Span(s: string, p: CharClass): (n: nat)
    ensures n <= |s| && All(s[..n], p) && (n < |s| ==> !p(s[n]))
  {
    if s == "" || !p(s[0]) then 0 else
    var n := 1 + Span(s[1..], p);
    assert s[..n] == [s[0]] + s[1..][..n - 1];
    n
  }

  lemma {:induction false} SpanIs(a: string, b: string, p: CharClass)
    requires All(a, p) && (b == "" || !p(b[0]))
    ensures Span(a + b, p) == |a| && (a + b)[..|a|] == a && (a + b)[|a|..] == b
  {
    if a == "" {
      assert a + b == b;
    } else {
      assert p(a[0]) && All(a[1..], p);
      assert (a + b)[0] == a[0] && (a + b)[1..] == a[1..] + b;
      SpanIs(a[1..], b, p);
    }
  }

  // ---- printing ----

  function ReplaceAll(s: string, c: char, sub: string): string {
    if s == "" then "" else (if s[0] == c then sub else [s[0]]) + ReplaceAll(s[1..], c, sub)
  }

  /** The anchored pattern of bare characters. Its end anchor also matches
      before a final newline. */
  predicate MatchesBare(v: string) {
    var n := Span(v, Bare);
    n > 0 && AtEnd(v[n..])
  }

  predicate AtEnd(rest: string) {
    rest == "" || rest == "\n"
  }

  function ReplaceChain(v: string): string {
    ReplaceAll(ReplaceAll(ReplaceAll(ReplaceAll(v, '\\', "\\\\"), '\"', "\\\""), '\n', "\\n"), '\r', "\\r")
  }

  function Quote(v: string): string {
    if v != "" && MatchesBare(v) then v else
    "\"" + ReplaceChain(v) + "\""
  }

  type Field = (string, string)

  function FormatField(f: Field): string {
    f.0 + "=" + Quote(f.1)
  }

  /** The parts joined by single spaces. */
  function JoinFields(fs: seq<Field>): string {
    if fs == [] then "" else
    FormatField(fs[0]) + if |fs| == 1 then "" else " " + JoinFields(fs[1..])
  }

  function FormatEvent(kind: string, fs: seq<Field>): string {
    kind + if fs == [] then "" else " " + JoinFields(fs)
  }

  // ---- parsing ----

  function UnescapeChar(c: char): char {
    if c == 'n' then '\n' else if c == 'r' then '\r' else c
  }

  function Unescape(v: string): string {
    if v == "" then ""
    else if v[0] == '\\' && |v| > 1 && v[1] != '\n' then [UnescapeChar(v[1])] + Unescape(v[2..])
    else [v[0]] + Unescape(v[1..])
  }

  /** A space, which is consumed, or the end. */
  function Separator(rest: string): Option<string> {
    if rest != "" && rest[0] == ' ' then Some(rest[1..])
    else if AtEnd(rest) then Some(rest)
    else None
  }

  function MatchKind(s: string): Option<(string, string)> {
    if s == "" || !Upper(s[0]) then None else
    var n := Span(s, KindChar);
    match Separator(s[n..])
    case None => None
    case Some(rest) => Some((s[..n], rest))
  }

  /** The length of quoted text up to its closing quote. A backslash takes the
      next character with it, unless that is a newline. */
  function QuotedLength(s: string): (r: Option<nat>)
    ensures r.Some? ==> r.value < |s|
  {
    if s == "" then None
    else if s[0] == '\"' then Some(0)
    else if s[0] == '\\' then
      if |s| > 1 && s[1] != '\n' then
        match QuotedLength(s[2..]) case None => None case Some(n) => Some(n + 2)
      else None
    else
      match QuotedLength(s[1..]) case None => None case Some(n) => Some(n + 1)
  }

  /** What follows "key=", quoted or bare: the value and the rest. */
  function MatchValue(key: string, after: string): (r: Option<(string, string, string)>)
    requires after != ""
    ensures r.Some? ==> |r.value.2| < |after| && after[|after| - |r.value.2|..] == r.value.2
  {
    if after[0] == '\"' then
      match QuotedLength(after[1..])
      case None => None
      case Some(len) =>
        (match Separator(after[len + 2..])
         case None => None
         case Some(rest) => Some((key, Unescape(after[1..len + 1]), rest)))
    else
      var len := Span(after, Bare);
      if len == 0 then None else
      match Separator(after[len..])
      case None => None
      case Some(rest) => Some((key, after[..len], rest))
  }

  /** A key, its value and what follows. */
  function MatchField(w: CharClass, s: string): (r: Option<(string, string, string)>)
    ensures r.Some? ==> |r.value.2| < |s| && s[|s| - |r.value.2|..] == r.value.2
  {
    var n := Span(s, w);
    if n == 0 || n + 1 >= |s| || s[n] != '=' then None
    else MatchValue(s[..n], s[n + 1..])
  }

  function ParseFields(w: CharClass, s: string, fields: map<string, string>): Option<map<string, string>>
    decreases |s|
  {
    if s == "" then Some(fields) else
    match MatchField(w, s)
    case None => None
    case Some((key, value, rest)) => ParseFields(w, rest, fields[key := value])
  }

  function Parsed(w: CharClass, message: string): Option<(string, map<string, string>)> {
    match MatchKind(message)
    case None => None
    case Some((kind, rest)) =>
      match ParseFields(w, rest, map[])
      case None => None
      case Some(fields) => Some((kind, fields))
  }

  /** parse_event: a position moves through the message. */
  method ParseEvent(w: CharClass, message: string) returns (r: Option<(string, map<string, string>)>)
    ensures r == Parsed(w, message)
  {
    var m := MatchKind(message);
    if m.None? {
      return None;
    }
    var fields: map<string, string> := map[];
    var pos := |message| - |m.value.1|;
    assert message[pos..] == m.value.1;
    while pos < |message|
      invariant 0 <= pos <= |message|
      invariant ParseFields(w, m.value.1, map[]) == ParseFields(w, message[pos..], fields)
    {
      var fm := MatchField(w, message[pos..]);
      if fm.None? {
        return None;
      }
      var next := |message| - |fm.value.2|;
      assert message[next..] == fm.value.2;
      fields := fields[fm.value.0 := fm.value.1];
      pos := next;
    }
    assert message[pos..] == "";
    return Some((m.value.0, fields));
  }

  // ---- escaping ----

  function EscapeChar(c: char): string {
    if c == '\\' then "\\\\"
    else if c == '\"' then "\\\""
    else if c == '\n' then "\\n"
    else if c == '\r' then "\\r"
    else [c]
  }

  function Escape(v: string): string {
    if v == "" then "" else EscapeChar(v[0]) + Escape(v[1..])
  }

  lemma {:induction false} ReplaceAppend(a: string, b: string, c: char, sub: string)
    ensures ReplaceAll(a + b, c, sub) == ReplaceAll(a, c, sub) + ReplaceAll(b, c, sub)
  {
    if a == "" {
      assert a + b == b;
    } else {
      ReplaceAppend(a[1..], b, c, sub);
      assert (a + b)[0] == a[0] && (a + b)[1..] == a[1..] + b;
      var x := if a[0] == c then sub else [a[0]];
      assert x + (ReplaceAll(a[1..], c, sub) + ReplaceAll(b, c, sub)) ==
        (x + ReplaceAll(a[1..], c, sub)) + ReplaceAll(b, c, sub);
    }
  }

  lemma {:induction false} ReplaceAbsent(s: string, c: char, sub: string)
    requires c !in s
    ensures ReplaceAll(s, c, sub) == s
  {
    if s != "" {
      ReplaceAbsent(s[1..], c, sub);
    }
  }

  lemma ChainAppend(a: string, b: string)
    ensures ReplaceChain(a + b) == ReplaceChain(a) + ReplaceChain(b)
  {
    ReplaceAppend(a, b, '\\', "\\\\");
    var a1, b1 := ReplaceAll(a, '\\', "\\\\"), ReplaceAll(b, '\\', "\\\\");
    ReplaceAppend(a1, b1, '\"', "\\\"");
    var a2, b2 := ReplaceAll(a1, '\"', "\\\""), ReplaceAll(b1, '\"', "\\\"");
    ReplaceAppend(a2, b2, '\n', "\\n");
    ReplaceAppend(ReplaceAll(a2, '\n', "\\n"), ReplaceAll(b2, '\n', "\\n"), '\r', "\\r");
  }

  lemma ReplaceOne(x: char, c: char, sub: string)
    ensures ReplaceAll([x], c, sub) == if x == c then sub else [x]
  {
    assert [x][1..] == "";
  }

  lemma ChainChar(c: char)
    ensures ReplaceChain([c]) == EscapeChar(c)
  {
    ReplaceOne(c, '\\', "\\\\");
    var s1 := ReplaceAll([c], '\\', "\\\\");
    if c == '\\' {
      ReplaceAbsent(s1, '\"', "\\\"");
      ReplaceAbsent(s1, '\n', "\\n");
      ReplaceAbsent(s1, '\r', "\\r");
    } else {
      ReplaceOne(c, '\"', "\\\"");
      if c == '\"' {
        ReplaceAbsent("\\\"", '\n', "\\n");
        ReplaceAbsent("\\\"", '\r', "\\r");
      } else {
        ReplaceOne(c, '\n', "\\n");
        if c == '\n' {
          ReplaceAbsent("\\n", '\r', "\\r");
        } else {
          ReplaceOne(c, '\r', "\\r");
        }
      }
    }
  }

  /** The chain of replacements escapes character by character: the backslashes
      it adds are not escaped again. */
  lemma {:induction false} ChainIsEscape(v: string)
    ensures ReplaceChain(v) == Escape(v)
  {
    if v == "" {
    } else {
      ChainAppend([v[0]], v[1..]);
      assert [v[0]] + v[1..] == v;
      ChainChar(v[0]);
      ChainIsEscape(v[1..]);
    }
  }

  lemma {:induction false} UnescapeEscape(v: string)
    ensures Unescape(Escape(v)) == v
  {
    if v != "" {
      UnescapeEscape(v[1..]);
      var e, rest := EscapeChar(v[0]), Escape(v[1..]);
      assert (e + rest)[|e|..] == rest;
    }
  }

  lemma {:induction false} EscapedLength(v: string, tail: string)
    ensures QuotedLength(Escape(v) + "\"" + tail) == Some(|Escape(v)|)
  {
    var s := Escape(v) + "\"" + tail;
    if v != "" {
      var e, rest := EscapeChar(v[0]), Escape(v[1..]) + "\"" + tail;
      EscapedLength(v[1..], tail);
      assert s == e + rest;
      assert s[|e|..] == rest;
    }
  }

  // ---- the round trip, exactly ----

  /** A value that survives: not one made of bare characters and one trailing
      newline, which the bare pattern lets through unquoted. */
  predicate Survives(v: string) {
    !(|v| > 1 && v[|v| - 1] == '\n' && All(v[..|v| - 1], Bare))
  }

  predicate KindOk(kind: string) {
    kind != "" && Upper(kind[0]) && All(kind, KindChar)
  }

  predicate KeysOk(w: CharClass, fs: seq<Field>) {
    forall i :: 0 <= i < |fs| ==> fs[i].0 != "" && All(fs[i].0, w)
  }

  function Dict(d: map<string, string>, fs: seq<Field>): map<string, string>
    decreases |fs|
  {
    if fs == [] then d else Dict(d[fs[0].0 := fs[0].1], fs[1..])
  }

  lemma BareSpan(v: string)
    requires All(v, Bare)
    ensures Span(v, Bare) == |v|
  {
    SpanIs(v, "", Bare);
    assert v + "" == v;
  }

  lemma LostSpan(v: string)
    requires !Survives(v)
    ensures Span(v, Bare) == |v| - 1 && v[|v| - 1..] == "\n"
  {
    assert !Bare('\n');
    hide Bare;
    var u := v[..|v| - 1];
    assert v == u + "\n";
    SpanIs(u, "\n", Bare);
  }

  lemma MatchedForms(v: string)
    requires v != "" && MatchesBare(v)
    ensures All(v, Bare) || !Survives(v)
  {
    var n := Span(v, Bare);
    if v[n..] == "\n" {
      assert v[n] == '\n' && n == |v| - 1;
    } else {
      assert n == |v| && v[..n] == v;
    }
  }

  /** A value goes out unquoted exactly when it is bare or does not survive. */
  lemma UnquotedIff(v: string)
    ensures v != "" && MatchesBare(v) <==> (v != "" && All(v, Bare)) || !Survives(v)
  {
    if All(v, Bare) {
      BareSpan(v);
    }
    if !Survives(v) {
      LostSpan(v);
    }
    if v != "" && MatchesBare(v) {
      MatchedForms(v);
    }
  }

  lemma QuoteForms(v: string)
    ensures (v != "" && All(v, Bare)) || !Survives(v) ==> Quote(v) == v
    ensures !(v != "" && All(v, Bare)) && Survives(v) ==> Quote(v) == "\"" + Escape(v) + "\""
  {
    UnquotedIff(v);
    ChainIsEscape(v);
  }

  /** The separator before the remaining fields, if any. */
  function After(more: seq<Field>): string {
    if more == [] then "" else " " + JoinFields(more)
  }

  /** Matching starts with the key, whatever the value looks like. */
  lemma SplitKey(w: CharClass, key: string, text: string)
    requires key != "" && All(key, w) && !w('=') && text != ""
    ensures MatchField(w, key + "=" + text) == MatchValue(key, text)
  {
    var s := key + "=" + text;
    assert s == key + ("=" + text);
    SpanIs(key, "=" + text, w);
    assert s[|key|] == '=' && s[|key| + 1..] == text;
  }

  lemma MatchBareValue(key: string, v: string, tail: string)
    requires v != "" && All(v, Bare) && (tail == "" || tail[0] == ' ')
    ensures MatchValue(key, v + tail) == Some((key, v, if tail == "" then "" else tail[1..]))
  {
    SpanIs(v, tail, Bare);
    assert Bare(v[0]) && (v + tail)[0] == v[0];
  }

  lemma MatchQuotedValue(key: string, v: string, tail: string)
    requires tail == "" || tail[0] == ' '
    ensures MatchValue(key, "\"" + Escape(v) + "\"" + tail) == Some((key, v, if tail == "" then "" else tail[1..]))
  {
    var e := Escape(v);
    QuotedPieces(e, tail);
    EscapedLength(v, tail);
    UnescapeEscape(v);
  }

  lemma QuotedPieces(e: string, tail: string)
    ensures var text := "\"" + e + "\"" + tail;
            text[1..] == e + "\"" + tail && text[1..|e| + 1] == e && text[|e| + 2..] == tail
  {
  }

  lemma MatchGood(w: CharClass, f: Field, more: seq<Field>)
    requires f.0 != "" && All(f.0, w) && !w('=') && Survives(f.1)
    ensures MatchField(w, FormatField(f) + After(more)) == Some((f.0, f.1, JoinFields(more)))
  {
    QuoteForms(f.1);
    assert FormatField(f) + After(more) == f.0 + "=" + (Quote(f.1) + After(more));
    SplitKey(w, f.0, Quote(f.1) + After(more));
    if f.1 != "" && All(f.1, Bare) {
      MatchBareValue(f.0, f.1, After(more));
    } else {
      MatchQuotedValue(f.0, f.1, After(more));
    }
  }

  lemma MatchLostValue(key: string, v: string, tail: string)
    requires !Survives(v) && (tail == "" || tail[0] == ' ')
    ensures MatchValue(key, v + tail) == if tail == "" then Some((key, v[..|v| - 1], "\n")) else None
  {
    var u := v[..|v| - 1];
    assert v + tail == u + ("\n" + tail);
    SpanIs(u, "\n" + tail, Bare);
    assert Bare(u[0]) && (v + tail)[0] == u[0];
  }

  /** A lost value leaves its newline behind. */
  lemma MatchBad(w: CharClass, f: Field, more: seq<Field>)
    requires f.0 != "" && All(f.0, w) && !w('=') && !Survives(f.1)
    ensures MatchField(w, FormatField(f) + After(more)) ==
            if After(more) == "" then Some((f.0, f.1[..|f.1| - 1], "\n")) else None
  {
    QuoteForms(f.1);
    assert Quote(f.1) == f.1 && f.1 != "";
    var tail := After(more);
    hide Quote, MatchField, MatchValue, Survives, JoinFields, All;
    assert FormatField(f) + tail == f.0 + "=" + (f.1 + tail);
    MatchLostValue(f.0, f.1, tail);
    SplitKey(w, f.0, f.1 + tail);
  }

  lemma NoField(w: CharClass)
    requires !w('\n')
    ensures MatchField(w, "\n") == None
  {
    assert Span("\n", w) == 0;
  }

  lemma ParseBad(w: CharClass, f: Field, more: seq<Field>, d: map<string, string>)
    requires f.0 != "" && All(f.0, w) && !w('=') && !w('\n') && !Survives(f.1)
    ensures ParseFields(w, FormatField(f) + After(more), d) == None
  {
    MatchBad(w, f, more);
    NoField(w);
    hide MatchField, FormatField, After, Survives;
  }

  lemma {:induction false} ParseJoined(w: CharClass, fs: seq<Field>, d: map<string, string>)
    requires KeysOk(w, fs) && !w('=') && !w('\n')
    ensures ParseFields(w, JoinFields(fs), d) ==
      if forall i :: 0 <= i < |fs| ==> Survives(fs[i].1) then Some(Dict(d, fs)) else None
    decreases |fs|
  {
    if fs != [] {
      var f, more := fs[0], fs[1..];
      assert JoinFields(fs) == FormatField(f) + After(more);
      assert FormatField(f) != "";
      if Survives(f.1) {
        MatchGood(w, f, more);
        ParseJoined(w, more, d[f.0 := f.1]);
        assert (forall i :: 0 <= i < |fs| ==> Survives(fs[i].1)) <==>
          (forall i :: 0 <= i < |more| ==> Survives(more[i].1)) by {
          assert forall i :: 0 < i < |fs| ==> fs[i] == more[i - 1];
        }
      } else {
        ParseBad(w, f, more, d);
      }
    }
  }

  /** Parsing what was printed gives back kind and fields exactly when no value
      consists of bare characters and one trailing newline; otherwise the line
      does not parse at all. */
  lemma RoundTrip(w: CharClass, kind: string, fs: seq<Field>)
    requires KindOk(kind) && KeysOk(w, fs) && !w('=') && !w('\n')
    ensures Parsed(w, FormatEvent(kind, fs)) ==
      if forall i :: 0 <= i < |fs| ==> Survives(fs[i].1) then Some((kind, Dict(map[], fs))) else None
  {
    KindSplits(kind, fs);
    ParseJoined(w, fs, map[]);
  }

  lemma KindSplits(kind: string, fs: seq<Field>)
    requires KindOk(kind)
    ensures MatchKind(FormatEvent(kind, fs)) == Some((kind, JoinFields(fs)))
  {
    var tail := After(fs);
    assert FormatEvent(kind, fs) == kind + tail;
    SpanIs(kind, tail, KindChar);
    assert (kind + tail)[0] == kind[0];
  }

  // ---- one line ----

  predicate Breaks(s: string) { '\n' in s || '\r' in s }

  lemma {:induction false} EscapedIsOneLine(v: string)
    ensures !Breaks(Escape(v))
  {
    if v != "" {
      EscapedIsOneLine(v[1..]);
      assert !Breaks(EscapeChar(v[0]));
    }
  }

  lemma QuoteBreaks(v: string)
    ensures Breaks(Quote(v)) <==> !Survives(v)
  {
    QuoteForms(v);
    EscapedIsOneLine(v);
    if !Survives(v) {
      assert v[|v| - 1] == '\n';
    } else if All(v, Bare) {
      assert !Breaks(v);
    }
  }

  lemma {:induction false} FieldsBreak(w: CharClass, fs: seq<Field>)
    requires KeysOk(w, fs) && !w('\n') && !w('\r')
    ensures Breaks(JoinFields(fs)) <==> exists i :: 0 <= i < |fs| && !Survives(fs[i].1)
  {
    if fs != [] {
      FieldsBreak(w, fs[1..]);
      QuoteBreaks(fs[0].1);
      var key, rest := fs[0].0 + "=", if |fs| == 1 then "" else " " + JoinFields(fs[1..]);
      assert !Breaks(key);
      assert JoinFields(fs) == key + Quote(fs[0].1) + rest;
      assert forall i :: 1 <= i < |fs| ==> fs[i] == fs[1..][i - 1];
    }
  }

  /** A message stays on one line exactly when it parses back: a line break in a
      value is escaped, unless the value is bare up to a final newline. */
  lemma OneLineIffSurvives(w: CharClass, kind: string, fs: seq<Field>)
    requires KindOk(kind) && KeysOk(w, fs) && !w('=') && !w('\n') && !w('\r')
    ensures !Breaks(FormatEvent(kind, fs)) <==> Parsed(w, FormatEvent(kind, fs)).Some?
  {
    RoundTrip(w, kind, fs);
    FieldsBreak(w, fs);
    assert !Breaks(kind);
    assert FormatEvent(kind, fs) == kind + After(fs);
  }
}
