/**
 Reading the router's metrics dump: one text line per counter, with quoted labels. Lines are
 ASCII; the number parser is a parameter and numbers are integers in a fixed unit.
 */
module TraefikMetrics {
  import opened Common

  datatype Kind = RequestCount | DurationSum | DurationCount | LatencyBucket

  datatype Sample = Sample(kind: Kind, service: string, code: string, le: string, val: int)

  datatype ServiceTraffic =
    ServiceTraffic(requests: int, errors: int, duration: int, count: int, byClass: map<string, int>, buckets: map<string, int>)

  type Services = map<string, ServiceTraffic>

  // ----- text primitives -----

  function IndexOf(s: string, c: char): (r: int)
    ensures r == -1 <==> c !in s
    ensures r != -1 ==> 0 <= r < |s| && s[r] == c && c !in s[..r]
  {
    if s == "" then -1
    else if s[0] == c then 0
    else
      var r := IndexOf(s[1..], c);
      if r == -1 then -1 else
        assert s[..r + 1] == [s[0]] + s[1..][..r];
        r + 1
  }

  predicate IsSpace(c: char) {
    c == ' ' || c == '\t' || c == '\n' || c == '\r' || c as int == 11 || c as int == 12
  }

  function Trim(s: string, cut: char -> bool): string {
    if s == "" then s
    else if cut(s[0]) then Trim(s[1..], cut)
    else if cut(s[|s| - 1]) then Trim(s[..|s| - 1], cut)
    else s
  }

  function Unquote(s: string): string {
    Trim(s, IsQuote)
  }

  predicate IsQuote(c: char) {
    c == '"'
  }

  /** What stands between the braces, and the number after them. */
  function SplitMetricLine(line: string): Option<(string, string)> {
    var open, close := IndexOf(line, '{'), IndexOf(line, '}');
    if open == -1 || close == -1 || close <= open then None
    else
      var rest := Trim(line[close + 1..], IsSpace);
      var sp := IndexOf(rest, ' ');
      Some((line[open + 1..close], if sp == -1 then rest else rest[..sp]))
  }

  // ----- labels are separated by the commas outside quotes -----

  predicate InQuotes(s: string) {
    s != "" && InQuotes(s[..|s| - 1]) != (s[|s| - 1] == '"')
  }

  /** Every comma of a label is inside quotes. */
  predicate CommaFree(s: string) {
    forall i :: 0 <= i < |s| && s[i] == ',' ==> InQuotes(s[..i])
  }

  /** `out` cuts `s` at every comma outside quotes; nothing after the last comma is no label. */
  predicate IsSplit(s: string, out: seq<string>) {
    if out == [] then s == ""
    else
      var f := out[0];
      && CommaFree(f)
      && ((|out| == 1 && s == f != "")
          || (!InQuotes(f) && f + "," <= s && IsSplit(s[|f| + 1..], out[1..])))
  }

  /** There is only one way to cut. */
  lemma {:induction false} SplitIsUnique(s: string, a: seq<string>, b: seq<string>)
    requires IsSplit(s, a) && IsSplit(s, b)
    ensures a == b
  {
    if a != [] && b != [] {
      FirstFieldNoLonger(s, a, b);
      FirstFieldNoLonger(s, b, a);
      assert a[0] == s[..|a[0]|] && b[0] == s[..|b[0]|];
      if a[0] + "," <= s {
        SplitIsUnique(s[|a[0]| + 1..], a[1..], b[1..]);
        assert a == [a[0]] + a[1..] && b == [b[0]] + b[1..];
      }
    }
  }

  lemma FirstFieldNoLonger(s: string, a: seq<string>, b: seq<string>)
    requires IsSplit(s, a) && IsSplit(s, b) && a != [] && b != []
    ensures |b[0]| <= |a[0]|
  {
    CutAtComma(a[0], b[0]);
    assert a[0] + "," <= s ==> s[|a[0]|] == (a[0] + ",")[|a[0]|] == ',';
    assert a[0] == s[..|a[0]|] && b[0] == s[..|b[0]|];
  }

  lemma CutAtComma(f: string, g: string)
    ensures f < g && !InQuotes(f) && CommaFree(g) ==> g[|f|] != ','
  {
    assert f < g ==> g[..|f|] == f;
  }

  /** The closed labels `fs` come first, `rest` is what follows them. */
  predicate Chain(s: string, fs: seq<string>, rest: string) {
    if fs == [] then s == rest
    else CommaFree(fs[0]) && !InQuotes(fs[0]) && fs[0] + "," <= s && Chain(s[|fs[0]| + 1..], fs[1..], rest)
  }

  lemma {:induction false} ChainGrows(s: string, fs: seq<string>, f: string, rest: string)
    requires Chain(s, fs, f + "," + rest) && CommaFree(f) && !InQuotes(f)
    ensures Chain(s, fs + [f], rest)
  {
    if fs == [] {
      assert s[|f| + 1..] == rest;
      assert Chain(rest, [f][1..], rest);
    } else {
      ChainGrows(s[|fs[0]| + 1..], fs[1..], f, rest);
      assert (fs + [f])[1..] == fs[1..] + [f];
    }
  }

  lemma {:induction false} ChainEnds(s: string, fs: seq<string>, rest: string)
    requires Chain(s, fs, rest) && CommaFree(rest)
    ensures IsSplit(s, if rest == "" then fs else fs + [rest])
  {
    if fs != [] {
      ChainEnds(s[|fs[0]| + 1..], fs[1..], rest);
      assert (fs + [rest])[1..] == fs[1..] + [rest];
    }
  }

  /** The labels `out` are cut, `cur` is read, and the text from i on is still to come. */
  predicate Cutting(s: string, out: seq<string>, cur: string, i: nat)
    requires i <= |s|
  {
    Chain(s, out, cur + s[i..]) && CommaFree(cur)
  }

  lemma CuttingStarts(s: string)
    ensures Cutting(s, [], "", 0) && !InQuotes("")
  {
    assert "" + s[0..] == s;
  }

  lemma CutHere(s: string, out: seq<string>, cur: string, i: nat)
    requires i < |s| && Cutting(s, out, cur, i) && !InQuotes(cur) && s[i] == ','
    ensures Cutting(s, out + [cur], "", i + 1) && !InQuotes("")
  {
    assert s[i..] == "," + s[i + 1..];
    assert cur + ("," + s[i + 1..]) == cur + "," + s[i + 1..];
    ChainGrows(s, out, cur, s[i + 1..]);
    assert "" + s[i + 1..] == s[i + 1..];
  }

  lemma ReadOn(s: string, out: seq<string>, cur: string, i: nat)
    requires i < |s| && Cutting(s, out, cur, i) && (s[i] == ',' ==> InQuotes(cur))
    ensures Cutting(s, out, cur + [s[i]], i + 1) && InQuotes(cur + [s[i]]) == (InQuotes(cur) != (s[i] == '"'))
  {
    assert s[i..] == [s[i]] + s[i + 1..];
    assert cur + ([s[i]] + s[i + 1..]) == cur + [s[i]] + s[i + 1..];
    OneMoreChar(cur, s[i]);
    hide Chain, InQuotes, CommaFree;
  }

  lemma CuttingEnds(s: string, out: seq<string>, cur: string)
    requires Cutting(s, out, cur, |s|)
    ensures IsSplit(s, if cur == "" then out else out + [cur])
  {
    assert cur + s[|s|..] == cur;
    ChainEnds(s, out, cur);
  }

  method SplitLabels(s: string) returns (out: seq<string>)
    ensures IsSplit(s, out)
  {
    hide *;
    CuttingStarts(s);
    out := [];
    var cur, inQ := "", false;
    for i := 0 to |s|
      invariant Cutting(s, out, cur, i) && inQ == InQuotes(cur)
    {
      var c := s[i];
      if c == '"' {
        inQ := !inQ;
      }
      if c == ',' && !inQ {
        CutHere(s, out, cur, i);
        out, cur := out + [cur], "";
      } else {
        ReadOn(s, out, cur, i);
        cur := cur + [c];
      }
    }
    CuttingEnds(s, out, cur);
    if |cur| > 0 {
      out := out + [cur];
    }
  }

  lemma OneMoreChar(s: string, c: char)
    ensures InQuotes(s + [c]) == (InQuotes(s) != (c == '"'))
    ensures CommaFree(s + [c]) <==> CommaFree(s) && (c == ',' ==> InQuotes(s))
  {
    var t := s + [c];
    assert t[..|s|] == s && t[|s|] == c;
    assert forall i :: 0 <= i < |s| ==> t[i] == s[i] && t[..i] == s[..i];
  }

  /** The cut of a label block, as a value; it always exists and there is only one. */
  ghost function Fields(s: string): (out: seq<string>)
    ensures IsSplit(s, out)
  {
    SplitExists(s, [], "", s);
    var out :| IsSplit(s, out);
    out
  }

  lemma {:induction false} SplitExists(s: string, fs: seq<string>, cur: string, rest: string)
    requires Chain(s, fs, cur + rest) && CommaFree(cur)
    ensures exists out :: IsSplit(s, out)
    decreases |rest|
  {
    if rest == "" {
      assert cur + rest == cur;
      ChainEnds(s, fs, cur);
    } else {
      var c := rest[0];
      OneMoreChar(cur, c);
      if c == ',' && !InQuotes(cur) {
        assert cur + rest == cur + "," + rest[1..];
        ChainGrows(s, fs, cur, rest[1..]);
        assert "" + rest[1..] == rest[1..];
        SplitExists(s, fs + [cur], "", rest[1..]);
      } else {
        assert cur + rest == (cur + [c]) + rest[1..];
        SplitExists(s, fs, cur + [c], rest[1..]);
      }
    }
  }

  // ----- one label -----

  function KeyOf(kv: string): Option<string> {
    var eq := IndexOf(kv, '=');
    if eq == -1 then None else Some(kv[..eq])
  }

  function ValueOf(kv: string): string {
    var eq := IndexOf(kv, '=');
    if eq == -1 then "" else Unquote(kv[eq + 1..])
  }

  /** The last label of that name wins; a missing one reads as the empty string. */
  function LabelValue(fs: seq<string>, key: string): string {
    if fs == [] then ""
    else
      var last := fs[|fs| - 1];
      if KeyOf(last) == Some(key) then ValueOf(last) else LabelValue(fs[..|fs| - 1], key)
  }

  method ReadLabels(fs: seq<string>) returns (service: string, code: string, le: string)
    ensures service == LabelValue(fs, "service") && code == LabelValue(fs, "code") && le == LabelValue(fs, "le")
  {
    service, code, le := "", "", "";
    for i := 0 to |fs|
      invariant service == LabelValue(fs[..i], "service")
      invariant code == LabelValue(fs[..i], "code")
      invariant le == LabelValue(fs[..i], "le")
    {
      assert fs[..i + 1][..i] == fs[..i];
      var kv := fs[i];
      var eq := IndexOf(kv, '=');
      if eq == -1 {
        continue;
      }
      var key := kv[..eq];
      var v := Unquote(kv[eq + 1..]);
      if key == "service" {
        service := v;
      } else if key == "code" {
        code := v;
      } else if key == "le" {
        le := v;
      }
    }
    assert fs[..|fs|] == fs;
  }

  // ----- one line -----

  const REQUEST := "traefik_service_request"
  const DURATION := "_duration_seconds_"

  function Name(kind: Kind): string {
    match kind
    case RequestCount => REQUEST + "s_total"
    case DurationSum => REQUEST + DURATION + "sum"
    case DurationCount => REQUEST + DURATION + "count"
    case LatencyBucket => REQUEST + DURATION + "bucket"
  }

  lemma NameOfRequests()
    ensures Name(RequestCount) == "traefik_service_requests_total"
  {
  }

  /** The exporter's names of the other counters. */
  lemma NamesOfDurations(kind: Kind)
    requires !kind.RequestCount?
    ensures Name(kind) == "traefik_service_request_duration_seconds_"
                          + if kind.DurationSum? then "sum" else if kind.DurationCount? then "count" else "bucket"
  {
    assert REQUEST + DURATION == "traefik_service_request_duration_seconds_";
    hide REQUEST, DURATION;
  }

  function KindOf(line: string): Option<Kind> {
    if Name(RequestCount) + "{" <= line then Some(RequestCount)
    else if Name(DurationSum) + "{" <= line then Some(DurationSum)
    else if Name(DurationCount) + "{" <= line then Some(DurationCount)
    else if Name(LatencyBucket) + "{" <= line then Some(LatencyBucket)
    else None
  }

  /** What a line reports, if it reports anything. */
  ghost function SampleOf(line: string, parse: string -> Option<int>): Option<Sample> {
    var kind, parts := KindOf(line), SplitMetricLine(line);
    if kind.None? || parts.None? || parse(parts.value.1).None? then None
    else
      var fs := Fields(parts.value.0);
      if LabelValue(fs, "service") == "" then None
      else
        Some(Sample(kind.value, LabelValue(fs, "service"), LabelValue(fs, "code"), LabelValue(fs, "le"),
                    parse(parts.value.1).value))
  }

  ghost function Samples(lines: seq<string>, parse: string -> Option<int>): seq<Sample> {
    if lines == [] then []
    else
      var n := |lines| - 1;
      var one := SampleOf(lines[n], parse);
      Samples(lines[..n], parse) + if one.Some? then [one.value] else []
  }

  // ----- reading back what was rendered -----

  datatype Label = Label(key: string, value: string)

  function RenderLabel(l: Label): string {
    l.key + "=\"" + l.value + "\""
  }

  function RenderLabels(ls: seq<Label>): string {
    if ls == [] then ""
    else if |ls| == 1 then RenderLabel(ls[0])
    else RenderLabel(ls[0]) + "," + RenderLabels(ls[1..])
  }

  predicate WellFormed(l: Label) {
    && (forall c :: c in l.key ==> c !in "=,\"{}")
    && (forall c :: c in l.value ==> c != '"' && c != '}')
  }

  function Rendered(ls: seq<Label>): seq<string> {
    seq(|ls|, i requires 0 <= i < |ls| => RenderLabel(ls[i]))
  }

  lemma {:induction false} QuoteFree(s: string, t: string)
    requires '"' !in t
    ensures InQuotes(s + t) == InQuotes(s)
  {
    if t == "" {
      assert s + t == s;
    } else {
      var n := |t| - 1;
      assert s + t == s + t[..n] + [t[n]];
      OneMoreChar(s + t[..n], t[n]);
      QuoteFree(s, t[..n]);
    }
  }

  lemma LabelParts(l: Label)
    requires WellFormed(l)
    ensures RenderLabel(l) == l.key + "=" + "\"" + l.value + "\""
    ensures '"' !in l.key + "=" && ',' !in l.key + "=" && '"' !in l.value
  {
    assert "=\"" == "=" + "\"";
  }

  /** A quoted text after a head without quotes and commas. */
  lemma QuotedIsClosed(head: string, v: string)
    requires '"' !in head && ',' !in head && '"' !in v
    ensures var s := head + "\"" + v + "\""; CommaFree(s) && !InQuotes(s)
  {
    NotYetQuoted();
    hide *;
    assert "" + head == head;
    QuoteFree("", head);
    OneMoreChar(head, '"');
    CommaFreeKey(head, '"');
    CommaFreeValue(head + "\"", v);
    QuoteFree(head + "\"", v);
    OneMoreChar(head + "\"" + v, '"');
  }

  lemma NotYetQuoted()
    ensures !InQuotes("")
  {
  }

  lemma RenderedLabelIsClosed(l: Label)
    requires WellFormed(l)
    ensures CommaFree(RenderLabel(l)) && !InQuotes(RenderLabel(l)) && RenderLabel(l) != ""
  {
    hide *;
    LabelParts(l);
    QuotedIsClosed(l.key + "=", l.value);
  }

  lemma CommaFreeKey(key: string, quote: char)
    requires ',' !in key && quote != ','
    ensures CommaFree(key + [quote])
  {
    assert forall i :: 0 <= i < |key| ==> (key + [quote])[i] == key[i] && key[i] in key;
  }

  lemma {:induction false} CommaFreeValue(head: string, v: string)
    requires CommaFree(head) && InQuotes(head) && '"' !in v
    ensures CommaFree(head + v)
  {
    if v == "" {
      assert head + v == head;
    } else {
      var n := |v| - 1;
      CommaFreeValue(head, v[..n]);
      QuoteFree(head, v[..n]);
      OneMoreChar(head + v[..n], v[n]);
      assert head + v == head + v[..n] + [v[n]];
    }
  }

  lemma {:induction false} RenderedLabelsAreCut(ls: seq<Label>)
    requires forall l :: l in ls ==> WellFormed(l)
    ensures IsSplit(RenderLabels(ls), Rendered(ls))
  {
    if ls != [] {
      RenderedLabelIsClosed(ls[0]);
      if |ls| > 1 {
        var f := RenderLabel(ls[0]);
        RenderedLabelsAreCut(ls[1..]);
        assert Rendered(ls)[1..] == Rendered(ls[1..]);
        assert f + "," <= RenderLabels(ls);
        assert RenderLabels(ls)[|f| + 1..] == RenderLabels(ls[1..]);
      }
    }
  }

  lemma UnquoteQuoted(v: string)
    requires '"' !in v
    ensures Unquote("\"" + v + "\"") == v
  {
    var s := "\"" + v + "\"";
    assert s[1..] == v + "\"";
    assert Trim(s, IsQuote) == Trim(v + "\"", IsQuote);
    if v == "" {
      assert v + "\"" == "\"";
    } else {
      assert v[0] in v && v[|v| - 1] in v;
      assert (v + "\"")[..|v|] == v;
      assert Trim(v + "\"", IsQuote) == Trim(v, IsQuote);
    }
  }

  lemma RenderedLabelIsRead(l: Label)
    requires WellFormed(l)
    ensures KeyOf(RenderLabel(l)) == Some(l.key) && ValueOf(RenderLabel(l)) == l.value
  {
    var s := RenderLabel(l);
    var quoted := "\"" + l.value + "\"";
    assert s == l.key + "=" + quoted;
    assert s[|l.key|] == '=' && s[..|l.key|] == l.key;
    FirstIs(s, '=', |l.key|);
    assert s[|l.key| + 1..] == quoted;
    UnquoteQuoted(l.value);
  }

  lemma FirstIs(s: string, c: char, i: nat)
    requires i < |s| && s[i] == c && c !in s[..i]
    ensures IndexOf(s, c) == i
  {
    var r := IndexOf(s, c);
    forall j | 0 <= j < i ensures s[j] != c {
      assert s[j] in s[..i];
    }
    forall j | 0 <= j < r ensures s[j] != c {
      assert s[j] in s[..r];
    }
  }

  function LastValue(ls: seq<Label>, key: string): string {
    if ls == [] then ""
    else if ls[|ls| - 1].key == key then ls[|ls| - 1].value
    else LastValue(ls[..|ls| - 1], key)
  }

  lemma {:induction false} RenderedValue(ls: seq<Label>, key: string)
    requires forall l :: l in ls ==> WellFormed(l)
    ensures LabelValue(Rendered(ls), key) == LastValue(ls, key)
  {
    if ls != [] {
      var n := |ls| - 1;
      RenderedLabelIsRead(ls[n]);
      assert Rendered(ls)[..n] == Rendered(ls[..n]);
      RenderedValue(ls[..n], key);
    }
  }

  // ----- a whole line is read back -----

  /** Text without white space, like a number. */
  predicate Solid(s: string) {
    s != "" && forall c :: c in s ==> !IsSpace(c)
  }

  function Line(name: string, labels: string, rest: string): string {
    name + "{" + labels + "}" + rest
  }

  function RenderLine(kind: Kind, ls: seq<Label>, after: string): string {
    Line(Name(kind), RenderLabels(ls), " " + after)
  }

  lemma RequestHasNoBraces()
    ensures '{' !in REQUEST && '}' !in REQUEST
  {
    assert forall i :: 0 <= i < |REQUEST| ==> REQUEST[i] == '_' || 'a' <= REQUEST[i] <= 'z';
  }

  lemma DurationHasNoBraces()
    ensures '{' !in DURATION && '}' !in DURATION
  {
    assert forall i :: 0 <= i < |DURATION| ==> DURATION[i] == '_' || 'a' <= DURATION[i] <= 'z';
  }

  lemma EndingsHaveNoBraces(c: char)
    requires c == '{' || c == '}'
    ensures c !in "s_total" && c !in "sum" && c !in "count" && c !in "bucket"
  {
  }

  lemma NamesHaveNoBraces(kind: Kind)
    ensures '{' !in Name(kind) && '}' !in Name(kind)
  {
    RequestHasNoBraces();
    DurationHasNoBraces();
    EndingsHaveNoBraces('{');
    EndingsHaveNoBraces('}');
  }

  lemma KindIsRead(kind: Kind, rest: string)
    ensures KindOf(Name(kind) + "{" + rest) == Some(kind)
  {
    var line := Name(kind) + "{" + rest;
    var head := Name(kind) + "{";
    assert head <= line;
    assert line[23] == head[23];
    if kind != RequestCount {
      assert line[41] == head[41];
    }
  }

  lemma {:induction false} RenderedLabelsHaveNoBrace(ls: seq<Label>)
    requires forall l :: l in ls ==> WellFormed(l)
    ensures '}' !in RenderLabels(ls)
  {
    if ls != [] {
      assert WellFormed(ls[0]);
      assert '}' !in RenderLabel(ls[0]);
      RenderedLabelsHaveNoBrace(ls[1..]);
    }
  }

  lemma TrimLeadingSpace(s: string)
    requires s != "" && !IsSpace(s[0]) && !IsSpace(s[|s| - 1])
    ensures Trim(" " + s, IsSpace) == s
  {
    assert (" " + s)[1..] == s;
    assert Trim(" " + s, IsSpace) == Trim(s, IsSpace);
  }

  /** The number, with the optional time stamp behind it. */
  function Stamped(text: string, stamp: string): string {
    if stamp == "" then text else text + " " + stamp
  }

  lemma NumberIsCut(text: string, stamp: string)
    requires Solid(text) && (stamp == "" || Solid(stamp))
    ensures Trim(" " + Stamped(text, stamp), IsSpace) == Stamped(text, stamp)
    ensures var sp := IndexOf(Stamped(text, stamp), ' ');
            text == if sp == -1 then Stamped(text, stamp) else Stamped(text, stamp)[..sp]
  {
    var after := Stamped(text, stamp);
    assert after[0] in text && (stamp == "" ==> after[|after| - 1] in text);
    assert stamp != "" ==> after[|after| - 1] in stamp;
    TrimLeadingSpace(after);
    if stamp != "" {
      assert after[..|text|] == text;
      FirstIs(after, ' ', |text|);
    }
  }

  lemma BracesAreFound(name: string, labels: string, rest: string)
    requires '{' !in name && '}' !in name && '}' !in labels
    ensures var line := Line(name, labels, rest);
            var open, close := |name|, |name| + 1 + |labels|;
            && IndexOf(line, '{') == open && IndexOf(line, '}') == close < |line|
            && line[open + 1..close] == labels && line[close + 1..] == rest
  {
    hide IndexOf;
    var line := Line(name, labels, rest);
    var open, close := |name|, |name| + 1 + |labels|;
    assert line[..open] == name;
    FirstIs(line, '{', open);
    assert line[..close] == name + "{" + labels;
    FirstIs(line, '}', close);
  }

  lemma SplitsAt(line: string)
    requires 0 <= IndexOf(line, '{') < IndexOf(line, '}')
    ensures var open, close := IndexOf(line, '{'), IndexOf(line, '}');
            var rest := Trim(line[close + 1..], IsSpace);
            var sp := IndexOf(rest, ' ');
            SplitMetricLine(line) == Some((line[open + 1..close], if sp == -1 then rest else rest[..sp]))
  {
    hide IndexOf, Trim;
  }

  lemma LineIsCut(name: string, labels: string, text: string, stamp: string)
    requires '{' !in name && '}' !in name && '}' !in labels
    requires Solid(text) && (stamp == "" || Solid(stamp))
    ensures SplitMetricLine(Line(name, labels, " " + Stamped(text, stamp))) == Some((labels, text))
  {
    hide *;
    var rest := " " + Stamped(text, stamp);
    BracesAreFound(name, labels, rest);
    NumberIsCut(text, stamp);
    SplitsAt(Line(name, labels, rest));
  }

  /** A rendered line of well-formed labels reads back as exactly its labels and its number. */
  lemma RenderedLineIsRead(kind: Kind, ls: seq<Label>, text: string, stamp: string, parse: string -> Option<int>)
    requires (forall l :: l in ls ==> WellFormed(l)) && Solid(text) && (stamp == "" || Solid(stamp))
    ensures SampleOf(RenderLine(kind, ls, Stamped(text, stamp)), parse) ==
            if parse(text).None? || LastValue(ls, "service") == "" then None
            else Some(Sample(kind, LastValue(ls, "service"), LastValue(ls, "code"), LastValue(ls, "le"), parse(text).value))
  {
    var line := RenderLine(kind, ls, Stamped(text, stamp));
    NamesHaveNoBraces(kind);
    KindOfLine(kind, RenderLabels(ls), " " + Stamped(text, stamp));
    RenderedLabelsHaveNoBrace(ls);
    LineIsCut(Name(kind), RenderLabels(ls), text, stamp);
    RenderedLabelsAreCut(ls);
    SplitIsUnique(RenderLabels(ls), Rendered(ls), Fields(RenderLabels(ls)));
    RenderedValue(ls, "service");
    RenderedValue(ls, "code");
    RenderedValue(ls, "le");
    hide KindOf, SplitMetricLine, Name, Line, RenderLabels, LabelValue, LastValue, IsSplit, WellFormed;
  }

  lemma KindOfLine(kind: Kind, labels: string, rest: string)
    ensures KindOf(Line(Name(kind), labels, rest)) == Some(kind)
  {
    KindIsRead(kind, labels + "}" + rest);
    hide KindOf, Name;
    assert Line(Name(kind), labels, rest) == Name(kind) + "{" + (labels + "}" + rest);
  }

  // ----- accumulating -----

  function ClassifyCode(code: string): string {
    if |code| != 3 then "other"
    else
      match code[0]
      case '1' => "1xx"
      case '2' => "2xx"
      case '3' => "3xx"
      case '4' => "4xx"
      case '5' => "5xx"
      case _ => "other"
  }

  /** The class of a status code is its first digit, one to five, followed by "xx". */
  lemma ClassIsFirstDigit(code: string)
    ensures ClassifyCode(code) == if |code| == 3 && '1' <= code[0] <= '5' then [code[0]] + "xx" else "other"
  {
  }

  predicate IsError(code: string) {
    |code| == 3 && (code[0] == '4' || code[0] == '5')
  }

  function Plus(t: ServiceTraffic, s: Sample): ServiceTraffic {
    match s.kind
    case RequestCount =>
      var cls := ClassifyCode(s.code);
      t.(requests := t.requests + s.val, errors := if IsError(s.code) then t.errors + s.val else t.errors,
         byClass := t.byClass[cls := At(t.byClass, cls) + s.val])
    case DurationSum => t.(duration := t.duration + s.val)
    case DurationCount => t.(count := t.count + s.val)
    case LatencyBucket => if s.le == "" then t else t.(buckets := t.buckets[s.le := At(t.buckets, s.le) + s.val])
  }

  const NO_TRAFFIC: ServiceTraffic := ServiceTraffic(0, 0, 0, 0, map[], map[])

  function TrafficOf(sv: Services, name: string): ServiceTraffic {
    if name in sv then sv[name] else NO_TRAFFIC
  }

  function Record(sv: Services, s: Sample): Services {
    sv[s.service := Plus(TrafficOf(sv, s.service), s)]
  }

  function Recorded(sv: Services, samples: seq<Sample>): Services {
    if samples == [] then sv
    else Record(Recorded(sv, samples[..|samples| - 1]), samples[|samples| - 1])
  }

  class TelemetrySnapshot {
    var services: Services

    constructor ()
      ensures services == map[]
    {
      services := map[];
    }

    method ParseTraefikMetrics(lines: seq<string>, parse: string -> Option<int>)
      modifies this
      ensures services == Recorded(old(services), Samples(lines, parse))
    {
      hide KindOf, SplitMetricLine, IsSplit, LabelValue, Name, Record;
      for i := 0 to |lines|
        invariant services == Recorded(old(services), Samples(lines[..i], parse))
      {
        var line := lines[i];
        OneMoreLine(lines, i, parse);
        SkippedLine(line, parse);
        if |line| == 0 || line[0] == '#' {
          continue;
        }
        var kind := KindOf(line);
        if kind.None? {
          continue;
        }
        var parts := SplitMetricLine(line);
        if parts.None? {
          continue;
        }
        var val := parse(parts.value.1);
        if val.None? {
          continue;
        }
        var fields := SplitLabels(parts.value.0);
        SplitIsUnique(parts.value.0, fields, Fields(parts.value.0));
        var service, code, le := ReadLabels(fields);
        if service == "" {
          continue;
        }
        RecordedOneMore(old(services), Samples(lines[..i], parse), Sample(kind.value, service, code, le, val.value));
        Accumulate(Sample(kind.value, service, code, le, val.value));
      }
      assert lines[..|lines|] == lines;
    }

    method Accumulate(s: Sample)
      modifies this
      ensures services == Record(old(services), s)
    {
      if s.service !in services {
        services := services[s.service := ServiceTraffic(0, 0, 0, 0, map[], map[])];
      }
      var st := services[s.service];
      match s.kind {
        case RequestCount =>
          st := st.(requests := st.requests + s.val);
          if |s.code| == 3 && (s.code[0] == '4' || s.code[0] == '5') {
            st := st.(errors := st.errors + s.val);
          }
          var cls := ClassifyCode(s.code);
          st := st.(byClass := st.byClass[cls := At(st.byClass, cls) + s.val]);
        case DurationSum =>
          st := st.(duration := st.duration + s.val);
        case DurationCount =>
          st := st.(count := st.count + s.val);
        case LatencyBucket =>
          if s.le != "" {
            st := st.(buckets := st.buckets[s.le := At(st.buckets, s.le) + s.val]);
          }
      }
      services := services[s.service := st];
    }
  }

  lemma OneMoreLine(lines: seq<string>, i: nat, parse: string -> Option<int>)
    requires i < |lines|
    ensures var one := SampleOf(lines[i], parse);
            Samples(lines[..i + 1], parse) ==
            if one.Some? then Samples(lines[..i], parse) + [one.value] else Samples(lines[..i], parse)
  {
    assert lines[..i + 1][..i] == lines[..i];
    assert Samples(lines[..i], parse) + [] == Samples(lines[..i], parse);
  }

  lemma SkippedLine(line: string, parse: string -> Option<int>)
    ensures line == "" || line[0] == '#' ==> SampleOf(line, parse) == None
  {
    assert Name(RequestCount)[0] == Name(DurationSum)[0] == Name(DurationCount)[0] == Name(LatencyBucket)[0] == 't';
  }

  lemma RecordedOneMore(sv: Services, samples: seq<Sample>, s: Sample)
    ensures Recorded(sv, samples + [s]) == Record(Recorded(sv, samples), s)
  {
    assert (samples + [s])[..|samples|] == samples;
  }

  // ----- what the totals are -----

  /** The figures kept per service. */
  datatype Figure = Requests | Errors | Duration | Count | OfClass(cls: string) | InBucket(le: string)

  function Value(t: ServiceTraffic, f: Figure): int {
    match f
    case Requests => t.requests
    case Errors => t.errors
    case Duration => t.duration
    case Count => t.count
    case OfClass(cls) => At(t.byClass, cls)
    case InBucket(le) => At(t.buckets, le)
  }

  /** Whether a sample carries a figure. */
  predicate Carries(s: Sample, f: Figure) {
    match f
    case Requests => s.kind.RequestCount?
    case Errors => s.kind.RequestCount? && (ClassifyCode(s.code) == "4xx" || ClassifyCode(s.code) == "5xx")
    case Duration => s.kind.DurationSum?
    case Count => s.kind.DurationCount?
    case OfClass(cls) => s.kind.RequestCount? && ClassifyCode(s.code) == cls
    case InBucket(le) => s.kind.LatencyBucket? && s.le == le != ""
  }

  ghost function Share(name: string, f: Figure): Sample -> int {
    (s: Sample) => if s.service == name && Carries(s, f) then s.val else 0
  }

  lemma ErrorsAreTheErrorClasses(code: string)
    ensures IsError(code) <==> ClassifyCode(code) == "4xx" || ClassifyCode(code) == "5xx"
  {
    assert "4xx"[0] == '4' && "5xx"[0] == '5' && "1xx"[0] == '1' && "2xx"[0] == '2' && "3xx"[0] == '3' && "other"[0] == 'o';
  }

  lemma SampleAddsItsShare(sv: Services, s: Sample, name: string, f: Figure)
    ensures Value(TrafficOf(Record(sv, s), name), f) == Value(TrafficOf(sv, name), f) + Share(name, f)(s)
  {
    ErrorsAreTheErrorClasses(s.code);
    hide ClassifyCode, IsError;
  }

  /** Every figure of a service is the sum of exactly the samples that carry it, so the order of
      the lines does not matter. */
  lemma {:induction false} FigureIsSum(sv: Services, samples: seq<Sample>, name: string, f: Figure)
    ensures Value(TrafficOf(Recorded(sv, samples), name), f) ==
            Value(TrafficOf(sv, name), f) + Sum(samples, Share(name, f))
  {
    if samples != [] {
      var n := |samples| - 1;
      FigureIsSum(sv, samples[..n], name, f);
      SampleAddsItsShare(Recorded(sv, samples[..n]), samples[n], name, f);
      assert samples == samples[..n] + [samples[n]];
      SumConcat(samples[..n], [samples[n]], Share(name, f));
      SumSingle(samples[n], Share(name, f));
    }
  }

  lemma {:induction false} ServiceIsKnownIff(sv: Services, samples: seq<Sample>, name: string)
    ensures name in Recorded(sv, samples) <==> name in sv || exists i :: 0 <= i < |samples| && samples[i].service == name
  {
    if samples != [] {
      var n := |samples| - 1;
      ServiceIsKnownIff(sv, samples[..n], name);
      assert forall i :: 0 <= i < n ==> samples[..n][i] == samples[i];
    }
  }

  // ----- the totals agree with the classes -----

  ghost function InClass(m: map<string, int>): string -> int {
    (c: string) => At(m, c)
  }

  /** The requests are the sum over the classes, the errors are the 4xx and the 5xx. */
  ghost predicate Balanced(t: ServiceTraffic) {
    && t.requests == SetSum(t.byClass.Keys, InClass(t.byClass))
    && t.errors == At(t.byClass, "4xx") + At(t.byClass, "5xx")
  }

  lemma ClassSumGrows(m: map<string, int>, c: string, v: int)
    ensures var after := m[c := At(m, c) + v];
            SetSum(after.Keys, InClass(after)) == SetSum(m.Keys, InClass(m)) + v
  {
    var after := m[c := At(m, c) + v];
    var rest := m.Keys - {c};
    assert after.Keys - {c} == rest;
    SetSumTake(after.Keys, c, InClass(after));
    SetSumSame(rest, InClass(after), InClass(m));
    if c in m {
      SetSumTake(m.Keys, c, InClass(m));
    } else {
      assert rest == m.Keys;
    }
  }

  lemma PlusKeepsBalance(t: ServiceTraffic, s: Sample)
    requires Balanced(t)
    ensures Balanced(Plus(t, s))
  {
    hide ClassifyCode, IsError, SetSum;
    ErrorsAreTheErrorClasses(s.code);
    ClassSumGrows(t.byClass, ClassifyCode(s.code), s.val);
    assert "4xx"[0] != "5xx"[0];
  }

  ghost predicate AllBalanced(sv: Services) {
    forall name :: name in sv ==> Balanced(sv[name])
  }

  lemma NoTrafficIsBalanced()
    ensures Balanced(NO_TRAFFIC)
  {
    hide At;
    assert NO_TRAFFIC.byClass.Keys == {};
    NothingAt("4xx");
    NothingAt("5xx");
  }

  lemma NothingAt(k: string)
    ensures At(map[], k) == 0
  {
  }

  lemma RecordKeepsBalance(sv: Services, s: Sample)
    requires AllBalanced(sv)
    ensures AllBalanced(Record(sv, s))
  {
    NoTrafficIsBalanced();
    hide Balanced, Plus;
    PlusKeepsBalance(TrafficOf(sv, s.service), s);
  }

  /** After any lines every service is balanced. */
  lemma {:induction false} ParsingKeepsBalance(sv: Services, samples: seq<Sample>)
    requires AllBalanced(sv)
    ensures AllBalanced(Recorded(sv, samples))
  {
    if samples != [] {
      var n := |samples| - 1;
      ParsingKeepsBalance(sv, samples[..n]);
      hide AllBalanced, Record;
      RecordKeepsBalance(Recorded(sv, samples[..n]), samples[n]);
    }
  }
}
