/**
 The project slug: lower-case, unsafe runs become dashes, no dash at the ends, no two dashes
 in a row. Input is ASCII.
 */
module Slug {

  predicate Ascii(s: string) {
    forall i :: 0 <= i < |s| ==> s[i] as int < 128
  }

  predicate Alnum(c: char) {
    'a' <= c <= 'z' || '0' <= c <= '9'
  }

  function Lower(c: char): char
    requires c as int < 128
  {
    if 'A' <= c <= 'Z' then (c as int + 32) as char else c
  }

  function ToLower(s: string): string
    requires Ascii(s)
  {
    seq(|s|, i requires 0 <= i < |s| => Lower(s[i]))
  }

  // ----- the library calls -----

  predicate Unsafe(c: char) {
    !Alnum(c) && c != '-'
  }

  function SkipUnsafe(s: string): (r: string)
    ensures |r| <= |s| && (r == "" || !Unsafe(r[0]))
  {
    if s != "" && Unsafe(s[0]) then SkipUnsafe(s[1..]) else s
  }

  /** Each maximal run of unsafe characters becomes one dash. */
  function ReplaceUnsafe(s: string): string
    decreases |s|
  {
    if s == "" then ""
    else if Unsafe(s[0]) then "-" + ReplaceUnsafe(SkipUnsafe(s[1..]))
    else [s[0]] + ReplaceUnsafe(s[1..])
  }

  function TrimDashes(s: string): string {
    if s == "" then ""
    else if s[0] == '-' then TrimDashes(s[1..])
    else if s[|s| - 1] == '-' then TrimDashes(s[..|s| - 1])
    else s
  }

  predicate HasDouble(s: string) {
    exists i :: 0 <= i < |s| - 1 && s[i] == s[i + 1] == '-'
  }

  /** Pairs of dashes, found from left to right, become one dash each. */
  function ReplaceDouble(s: string): string {
    if s == "" then ""
    else if |s| >= 2 && s[0] == s[1] == '-' then "-" + ReplaceDouble(s[2..])
    else [s[0]] + ReplaceDouble(s[1..])
  }

  // ----- the maximal runs of letters and digits -----

  predicate InWord(s: string) {
    s != "" && Alnum(s[0])
  }

  function Words(s: string): (ws: seq<string>)
    ensures InWord(s) ==> ws != []
  {
    if s == "" then []
    else
      var rest := Words(s[1..]);
      if !Alnum(s[0]) then rest
      else if InWord(s[1..]) then [[s[0]] + rest[0]] + rest[1..]
      else [[s[0]]] + rest
  }

  function Join(ws: seq<string>): string {
    if ws == [] then ""
    else if |ws| == 1 then ws[0]
    else ws[0] + "-" + Join(ws[1..])
  }

  function SlugOf(s: string): string
    requires Ascii(s)
  {
    Join(Words(ToLower(s)))
  }

  // ----- no step changes the words -----

  predicate SameWords(s: string, t: string) {
    Words(s) == Words(t) && InWord(s) == InWord(t)
  }

  lemma SameAfter(c: char, s: string, t: string)
    requires SameWords(s, t)
    ensures SameWords([c] + s, [c] + t)
  {
    assert ([c] + s)[1..] == s && ([c] + t)[1..] == t;
  }

  lemma {:induction false} SkippingKeepsWords(s: string)
    ensures Words(SkipUnsafe(s)) == Words(s)
  {
    if s != "" && Unsafe(s[0]) {
      SkippingKeepsWords(s[1..]);
    }
  }

  lemma {:induction false} ReplacingKeepsWords(s: string)
    ensures SameWords(ReplaceUnsafe(s), s)
    decreases |s|
  {
    if s != "" && Unsafe(s[0]) {
      var rest := SkipUnsafe(s[1..]);
      SkippingKeepsWords(s[1..]);
      ReplacingKeepsWords(rest);
      assert ("-" + ReplaceUnsafe(rest))[1..] == ReplaceUnsafe(rest);
    } else if s != "" {
      ReplacingKeepsWords(s[1..]);
      SameAfter(s[0], ReplaceUnsafe(s[1..]), s[1..]);
      assert s == [s[0]] + s[1..];
    }
  }

  lemma {:induction false} CollapsingKeepsWords(s: string)
    ensures SameWords(ReplaceDouble(s), s)
  {
    if s != "" {
      if |s| >= 2 && s[0] == s[1] == '-' {
        CollapsingKeepsWords(s[2..]);
        assert Words(s) == Words(s[1..]) == Words(s[1..][1..]) && s[1..][1..] == s[2..];
        assert ("-" + ReplaceDouble(s[2..]))[1..] == ReplaceDouble(s[2..]);
      } else {
        CollapsingKeepsWords(s[1..]);
        SameAfter(s[0], ReplaceDouble(s[1..]), s[1..]);
        assert s == [s[0]] + s[1..];
      }
    }
  }

  lemma {:induction false} TrailingDash(s: string)
    ensures Words(s + "-") == Words(s)
  {
    if s == "" {
      assert s + "-" == "-" && "-"[1..] == "";
    } else {
      TrailingDash(s[1..]);
      assert (s + "-")[1..] == s[1..] + "-";
    }
  }

  lemma {:induction false} TrimmingKeepsWords(s: string)
    ensures Words(TrimDashes(s)) == Words(s)
    decreases |s|
  {
    if s != "" {
      if s[0] == '-' {
        TrimmingKeepsWords(s[1..]);
      } else if s[|s| - 1] == '-' {
        TrimmingKeepsWords(s[..|s| - 1]);
        TrailingDash(s[..|s| - 1]);
        assert s == s[..|s| - 1] + "-";
      }
    }
  }

  // ----- what the steps leave -----

  predicate SlugChars(s: string) {
    forall i :: 0 <= i < |s| ==> Alnum(s[i]) || s[i] == '-'
  }

  predicate NoDashAtEnds(s: string) {
    s == "" || (s[0] != '-' && s[|s| - 1] != '-')
  }

  lemma {:induction false} ReplacingIsSafe(s: string)
    ensures SlugChars(ReplaceUnsafe(s))
    decreases |s|
  {
    if s != "" {
      ReplacingIsSafe(if Unsafe(s[0]) then SkipUnsafe(s[1..]) else s[1..]);
    }
  }

  lemma {:induction false} TrimmingClearsEnds(s: string)
    requires SlugChars(s)
    ensures NoDashAtEnds(TrimDashes(s)) && SlugChars(TrimDashes(s))
    decreases |s|
  {
    if s != "" && s[0] == '-' {
      TrimmingClearsEnds(s[1..]);
    } else if s != "" && s[|s| - 1] == '-' {
      TrimmingClearsEnds(s[..|s| - 1]);
    }
  }

  /** What a pass over the pairs of dashes leaves of `s`: its ends, and no more characters. */
  predicate Collapsed(s: string, t: string) {
    && SlugChars(t) && |t| <= |s| && (t == "" <==> s == "")
    && (s != "" && t != "" ==> t[0] == s[0] && t[|t| - 1] == s[|s| - 1])
    && (HasDouble(s) ==> |t| < |s|)
  }

  lemma CollapsedPair(s: string, t: string)
    requires |s| >= 2 && s[0] == s[1] == '-' && Collapsed(s[2..], t)
    ensures Collapsed(s, "-" + t)
  {
  }

  lemma DoubleIsLater(s: string)
    requires |s| >= 2 && HasDouble(s) && !(s[0] == s[1] == '-')
    ensures HasDouble(s[1..])
  {
    var i :| 0 <= i < |s| - 1 && s[i] == s[i + 1] == '-';
    assert s[1..][i - 1] == s[1..][i] == '-';
  }

  lemma CollapsedOne(s: string, t: string)
    requires s != "" && SlugChars(s) && !(|s| >= 2 && s[0] == s[1] == '-') && Collapsed(s[1..], t)
    ensures Collapsed(s, [s[0]] + t)
  {
    if HasDouble(s) {
      DoubleIsLater(s);
    }
    hide HasDouble;
  }

  lemma NothingCollapsed()
    ensures Collapsed("", "")
  {
  }

  lemma {:induction false} CollapsingKeepsShape(s: string)
    requires SlugChars(s)
    ensures Collapsed(s, ReplaceDouble(s))
  {
    hide Collapsed;
    if s == "" {
      NothingCollapsed();
    } else if |s| >= 2 && s[0] == s[1] == '-' {
      CollapsingKeepsShape(s[2..]);
      CollapsedPair(s, ReplaceDouble(s[2..]));
    } else {
      CollapsingKeepsShape(s[1..]);
      CollapsedOne(s, ReplaceDouble(s[1..]));
    }
  }

  predicate Clean(s: string) {
    SlugChars(s) && NoDashAtEnds(s) && !HasDouble(s)
  }

  /** What follows the first character of a clean text, or the dash behind it, is clean. */
  lemma CleanTail(s: string)
    requires Clean(s) && |s| > 1
    ensures if Alnum(s[1]) then Clean(s[1..]) else s[1] == '-' && |s| > 2 && Clean(s[2..])
  {
    assert forall i :: 0 <= i < |s| - 1 ==> s[1..][i] == s[i + 1];
    assert s[1] != '-' ==> !HasDouble(s[1..]);
    if s[1] == '-' {
      assert |s| > 2;
      assert forall i :: 0 <= i < |s| - 2 ==> s[2..][i] == s[i + 2];
      assert s[2] != '-';
      assert !HasDouble(s[2..]);
    }
  }

  lemma {:induction false} CleanTextIsItsWords(s: string)
    requires Clean(s)
    ensures Join(Words(s)) == s
    decreases |s|
  {
    if |s| == 1 {
      assert Words(s[1..]) == [];
      assert Words(s) == [[s[0]]];
    } else if |s| > 1 {
      CleanTail(s);
      assert Alnum(s[0]);
      if Alnum(s[1]) {
        CleanTextIsItsWords(s[1..]);
        JoinFirst(s[0], Words(s[1..]));
      } else {
        CleanTextIsItsWords(s[2..]);
        DashSeparates(s);
      }
    }
  }

  lemma DashSeparates(s: string)
    requires |s| > 2 && Alnum(s[0]) && s[1] == '-' && Alnum(s[2]) && Join(Words(s[2..])) == s[2..]
    ensures Join(Words(s)) == s
  {
    assert s[1..][1..] == s[2..];
    assert Words(s[1..]) == Words(s[2..]);
    assert Words(s) == [[s[0]]] + Words(s[2..]);
    assert s == [s[0]] + "-" + s[2..];
  }

  lemma JoinFirst(c: char, ws: seq<string>)
    requires ws != []
    ensures Join([[c] + ws[0]] + ws[1..]) == [c] + Join(ws)
  {
    var longer := [[c] + ws[0]] + ws[1..];
    if |ws| == 1 {
      assert longer == [[c] + ws[0]];
    } else {
      assert longer[1..] == ws[1..];
      Prepended(c, ws[0], Join(ws[1..]));
    }
  }

  lemma Prepended(c: char, first: string, rest: string)
    ensures ([c] + first) + "-" + rest == [c] + (first + "-" + rest)
  {
  }

  // ----- the operation -----

  method Slugify(input: string) returns (s: string)
    requires Ascii(input)
    ensures s == SlugOf(input)
  {
    hide *;
    s := ToLower(input);
    ghost var words := Words(s);
    ReplacingKeepsWords(s);
    ReplacingIsSafe(s);
    SameWordsGives(ReplaceUnsafe(s), s);
    s := ReplaceUnsafe(s);
    TrimmingKeepsWords(s);
    TrimmingClearsEnds(s);
    s := TrimDashes(s);
    while HasDouble(s)
      invariant SlugChars(s) && NoDashAtEnds(s) && Words(s) == words
      decreases |s|
    {
      CollapsingKeepsWords(s);
      SameWordsGives(ReplaceDouble(s), s);
      CollapsingKeepsShape(s);
      EndsStayClear(s, ReplaceDouble(s));
      s := ReplaceDouble(s);
    }
    ClearedTextIsClean(s);
    CleanTextIsItsWords(s);
    SlugOfGives(input);
  }

  lemma SameWordsGives(s: string, t: string)
    requires SameWords(s, t)
    ensures Words(s) == Words(t)
  {
  }

  lemma ClearedTextIsClean(s: string)
    requires SlugChars(s) && NoDashAtEnds(s) && !HasDouble(s)
    ensures Clean(s)
  {
  }

  lemma SlugOfGives(s: string)
    requires Ascii(s)
    ensures SlugOf(s) == Join(Words(ToLower(s)))
  {
  }

  lemma EndsStayClear(s: string, t: string)
    requires NoDashAtEnds(s) && Collapsed(s, t)
    ensures NoDashAtEnds(t) && SlugChars(t) && (HasDouble(s) ==> |t| < |s|)
  {
  }

  // ----- properties of slugs -----

  predicate IsWord(w: string) {
    w != "" && forall i :: 0 <= i < |w| ==> Alnum(w[i])
  }

  lemma {:induction false} WordsAreRuns(s: string)
    ensures forall i :: 0 <= i < |Words(s)| ==> IsWord(Words(s)[i])
  {
    if s != "" {
      WordsAreRuns(s[1..]);
    }
  }

  lemma {:induction false} JoinedWordIsRead(w: string, rest: string)
    requires IsWord(w) && !InWord(rest)
    ensures Words(w + rest) == [w] + Words(rest)
  {
    var s := w + rest;
    assert s[1..] == w[1..] + rest;
    if |w| == 1 {
      assert s[1..] == rest;
      assert [s[0]] == w;
    } else {
      JoinedWordIsRead(w[1..], rest);
      assert [s[0]] + w[1..] == w;
    }
  }

  lemma {:induction false} WordsOfJoin(ws: seq<string>)
    requires forall i :: 0 <= i < |ws| ==> IsWord(ws[i])
    ensures Words(Join(ws)) == ws
  {
    if ws != [] {
      var rest := if |ws| == 1 then "" else "-" + Join(ws[1..]);
      JoinedWordIsRead(ws[0], rest);
      assert Join(ws) == ws[0] + rest;
      if |ws| > 1 {
        WordsOfJoin(ws[1..]);
        assert rest[1..] == Join(ws[1..]);
      }
      assert ws == [ws[0]] + ws[1..];
    }
  }

  lemma {:induction false} JoinIsLower(ws: seq<string>)
    requires forall i :: 0 <= i < |ws| ==> IsWord(ws[i])
    ensures Clean(Join(ws))
    ensures Join(ws) == "" <==> ws == []
  {
    if |ws| > 1 {
      JoinIsLower(ws[1..]);
    }
  }

  /** A slug is a fixed point, whatever it was made from. */
  lemma SlugIsIdempotent(s: string)
    requires Ascii(s)
    ensures Ascii(SlugOf(s)) && SlugOf(SlugOf(s)) == SlugOf(s)
  {
    var ws := Words(ToLower(s));
    WordsAreRuns(ToLower(s));
    JoinIsLower(ws);
    WordsOfJoin(ws);
    assert ToLower(SlugOf(s)) == SlugOf(s);
  }

  /** Texts that differ only in the case of letters. */
  predicate SameButCase(s: string, t: string) {
    && |s| == |t|
    && forall i :: 0 <= i < |s| ==>
         || s[i] == t[i]
         || ('A' <= s[i] <= 'Z' && t[i] as int == s[i] as int + 32)
         || ('A' <= t[i] <= 'Z' && s[i] as int == t[i] as int + 32)
  }

  lemma CaseIsIgnored(s: string, t: string)
    requires Ascii(s) && Ascii(t) && SameButCase(s, t)
    ensures SlugOf(s) == SlugOf(t)
  {
    forall i | 0 <= i < |s| ensures Lower(s[i]) == Lower(t[i]) {
    }
    assert ToLower(s) == ToLower(t);
  }

  lemma {:induction false} WordsSplit(s: string, c: char, t: string)
    requires !Alnum(c)
    ensures Words(s + [c] + t) == Words(s) + Words(t)
  {
    var all := s + [c] + t;
    if s == "" {
      assert all[1..] == t;
    } else {
      WordsSplit(s[1..], c, t);
      assert all[1..] == s[1..] + [c] + t;
      assert InWord(all[1..]) == InWord(s[1..]);
    }
  }

  lemma {:induction false} JoinSplit(a: seq<string>, b: seq<string>)
    ensures Join(a + b) == if a == [] then Join(b) else if b == [] then Join(a) else Join(a) + "-" + Join(b)
  {
    if a == [] || b == [] {
      assert a + b == if a == [] then b else a;
    } else {
      assert (a + b)[1..] == a[1..] + b;
      JoinSplit(a[1..], b);
      if |a| > 1 {
        assert a[0] + "-" + (Join(a[1..]) + "-" + Join(b)) == a[0] + "-" + Join(a[1..]) + "-" + Join(b);
      }
    }
  }

  lemma PartsAreAscii(s: string, c: char, t: string)
    requires Ascii(s + [c] + t)
    ensures Ascii(s) && Ascii([c]) && Ascii(t)
  {
    var all := s + [c] + t;
    assert forall i :: 0 <= i < |s| ==> all[i] == s[i];
    assert forall i :: 0 <= i < |t| ==> all[|s| + 1 + i] == t[i];
    assert all[|s|] == c;
  }

  lemma LoweredConcat(s: string, t: string)
    requires Ascii(s) && Ascii(t)
    ensures Ascii(s + t) && ToLower(s + t) == ToLower(s) + ToLower(t)
  {
    hide Lower;
  }

  lemma LoweredParts(s: string, c: char, t: string)
    requires Ascii(s + [c] + t) && !('a' <= c <= 'z' || 'A' <= c <= 'Z')
    ensures Ascii(s) && Ascii(t) && ToLower(s + [c] + t) == ToLower(s) + [c] + ToLower(t)
  {
    PartsAreAscii(s, c, t);
    assert ToLower([c]) == [c];
    hide *;
    LoweredConcat(s, [c]);
    LoweredConcat(s + [c], t);
  }

  /** Whatever is no letter and no digit only separates: the slug of two parts is their slugs with
      one dash in between, or the one that is not empty. */
  lemma SlugOfParts(s: string, c: char, t: string)
    requires Ascii(s + [c] + t) && !('a' <= c <= 'z' || 'A' <= c <= 'Z' || '0' <= c <= '9')
    ensures Ascii(s) && Ascii(t)
    ensures SlugOf(s + [c] + t) ==
            if SlugOf(s) == "" then SlugOf(t) else if SlugOf(t) == "" then SlugOf(s) else SlugOf(s) + "-" + SlugOf(t)
  {
    LoweredParts(s, c, t);
    var a, b := ToLower(s), ToLower(t);
    assert !Alnum(c);
    WordsAreRuns(a);
    WordsAreRuns(b);
    WordsSplit(a, c, b);
    JoinIsLower(Words(a));
    JoinIsLower(Words(b));
    JoinSplit(Words(a), Words(b));
    hide Words, Join, ToLower, Clean, IsWord, Ascii;
  }

  /** A text is its own slug exactly when it is clean already. */
  lemma FixedPointsAreCleanTexts(s: string)
    requires Ascii(s)
    ensures SlugOf(s) == s <==> Clean(s)
  {
    WordsAreRuns(ToLower(s));
    JoinIsLower(Words(ToLower(s)));
    if Clean(s) {
      assert ToLower(s) == s;
      CleanTextIsItsWords(s);
    }
  }
}
