/**
 grep's matcher (user/grep.c), with C strings as sequences without their final 0,
 against a declarative reading of patterns.
 */
module Grep {

  // ----- the language of a pattern --------------------------------------------------------

  /** One character, or any number of the same one; '.' stands for any character. */
  datatype Item = One(c: char) | Star(c: char)

  /** A pattern behind an optional leading '^': its items, and whether a '$' ends it. */
  datatype Pattern = Pattern(items: seq<Item>, atEnd: bool)

  function Parse(re: string): (p: Pattern)
    decreases |re|
  {
    if re == "" then Pattern([], false)
    else if |re| >= 2 && re[1] == '*' then
      var p := Parse(re[2..]);
      Pattern([Star(re[0])] + p.items, p.atEnd)
    else if re == "$" then Pattern([], true)
    else
      var p := Parse(re[1..]);
      Pattern([One(re[0])] + p.items, p.atEnd)
  }

  predicate Fits(c: char, ch: char) {
    c == '.' || c == ch
  }

  predicate AllFit(c: char, w: string) {
    forall i :: 0 <= i < |w| ==> Fits(c, w[i])
  }

  predicate ItemMatches(item: Item, w: string) {
    match item
    case One(c) => |w| == 1 && Fits(c, w[0])
    case Star(c) => AllFit(c, w)
  }

  function Flat(pieces: seq<string>): (w: string) {
    if pieces == [] then "" else pieces[0] + Flat(pieces[1..])
  }

  /** w splits into one piece for each item. */
  ghost predicate Splits(items: seq<Item>, pieces: seq<string>, w: string) {
    && |pieces| == |items| && Flat(pieces) == w
    && forall i :: 0 <= i < |items| ==> ItemMatches(items[i], pieces[i])
  }

  ghost predicate InLanguage(items: seq<Item>, w: string) {
    exists pieces :: Splits(items, pieces, w)
  }

  /** A prefix of the text is in the language; the whole text, if the pattern ends in '$'. */
  ghost predicate MatchesPrefix(p: Pattern, text: string) {
    exists k :: 0 <= k <= |text| && InLanguage(p.items, text[..k]) && (p.atEnd ==> k == |text|)
  }

  /** What grep means by a match: some substring, or some prefix if the pattern starts with '^'. */
  ghost predicate Matches(re: string, text: string) {
    if |re| > 0 && re[0] == '^' then MatchesPrefix(Parse(re[1..]), text)
    else exists j :: 0 <= j <= |text| && MatchesPrefix(Parse(re), text[j..])
  }

  // ----- patterns and their text ---------------------------------------------------------------

  function ItemText(item: Item): (s: string) {
    match item
    case One(c) => [c]
    case Star(c) => [c, '*']
  }

  function Show(p: Pattern): (re: string)
    decreases |p.items|
  {
    if p.items == [] then if p.atEnd then "$" else ""
    else ItemText(p.items[0]) + Show(Pattern(p.items[1..], p.atEnd))
  }

  /** Every text is that of its pattern: nothing of it is lost. */
  lemma {:induction false} ShowParse(re: string)
    ensures Show(Parse(re)) == re
    decreases |re|
  {
    var p := Parse(re);
    if re == "" || re == "$" {
    } else if |re| >= 2 && re[1] == '*' {
      ShowParse(re[2..]);
      assert p.items[1..] == Parse(re[2..]).items;
      assert [re[0], '*'] + re[2..] == re;
    } else {
      ShowParse(re[1..]);
      assert p.items[1..] == Parse(re[1..]).items;
      assert [re[0]] + re[1..] == re;
    }
  }

  /** A plain character is not followed by a star of another item, and a final '$' is the end mark. */
  predicate Clear(p: Pattern) {
    && (forall i :: 0 <= i < |p.items| - 1 && p.items[i].One? ==> p.items[i + 1].c != '*')
    && (p.items != [] && !p.atEnd ==> p.items[|p.items| - 1] != One('$'))
  }

  lemma {:induction false} ClearRest(p: Pattern)
    requires Clear(p) && p.items != []
    ensures Clear(Pattern(p.items[1..], p.atEnd))
    ensures p.items[0].One? && |p.items| > 1 ==> p.items[1].c != '*'
    ensures p.items == [One('$')] ==> p.atEnd
  {
    var rest := Pattern(p.items[1..], p.atEnd);
    forall i | 0 <= i < |rest.items| - 1 && rest.items[i].One? ensures rest.items[i + 1].c != '*' {
      assert p.items[i + 1].One?;
    }
  }

  /** A pattern starts with the character of its first item, or with the end mark. */
  lemma {:induction false} ShowStart(p: Pattern)
    ensures p.items != [] ==> Show(p) != "" && Show(p)[0] == p.items[0].c
    ensures p.items == [] ==> Show(p) == if p.atEnd then "$" else ""
  {
  }

  lemma {:induction false} ClearParse(p: Pattern)
    requires Clear(p)
    ensures Parse(Show(p)) == p
    decreases |p.items|
  {
    hide Clear;
    if p.items != [] {
      var rest, re := Pattern(p.items[1..], p.atEnd), Show(p);
      ClearRest(p);
      ClearParse(rest);
      ShowStart(rest);
      assert [p.items[0]] + rest.items == p.items;
      match p.items[0]
      case Star(c) => assert re[2..] == Show(rest);
      case One(c) => assert re[1..] == Show(rest);
    }
  }

  /** What a text is taken for is such a pattern. */
  lemma {:induction false} ParseClear(re: string)
    ensures Clear(Parse(re)) && (Parse(re).items != [] ==> re != "" && Parse(re).items[0].c == re[0])
    decreases |re|
  {
    if re != "" && re != "$" {
      ParseClear(re[if |re| >= 2 && re[1] == '*' then 2 else 1..]);
    }
  }

  /** A pattern is what its text means if and only if '*' repeats what stands before it and a final '$' is the end. */
  lemma {:induction false} ParseShow(p: Pattern)
    ensures Parse(Show(p)) == p <==> Clear(p)
  {
    ParseClear(Show(p));
    if Clear(p) {
      ClearParse(p);
    }
  }

  // ----- how the language unfolds -----------------------------------------------------------

  lemma {:induction false} NoItems(w: string)
    ensures InLanguage([], w) <==> w == ""
  {
    assert w == "" ==> Splits([], [], w);
  }

  lemma {:induction false} FirstItem(item: Item, rest: seq<Item>, w: string, i: nat)
    requires i <= |w| && ItemMatches(item, w[..i]) && InLanguage(rest, w[i..])
    ensures InLanguage([item] + rest, w)
  {
    var pieces :| Splits(rest, pieces, w[i..]);
    var all := [w[..i]] + pieces;
    assert all[1..] == pieces && w[..i] + w[i..] == w;
    assert Splits([item] + rest, all, w);
  }

  lemma {:induction false} SplitFirst(item: Item, rest: seq<Item>, w: string) returns (i: nat)
    requires InLanguage([item] + rest, w)
    ensures i <= |w| && ItemMatches(item, w[..i]) && InLanguage(rest, w[i..])
  {
    var pieces :| Splits([item] + rest, pieces, w);
    i := |pieces[0]|;
    assert w == pieces[0] + Flat(pieces[1..]);
    assert w[..i] == pieces[0] && w[i..] == Flat(pieces[1..]);
    assert ([item] + rest)[0] == item;
    assert forall j :: 0 <= j < |rest| ==> rest[j] == ([item] + rest)[j + 1] && pieces[1..][j] == pieces[j + 1];
    assert Splits(rest, pieces[1..], w[i..]);
  }

  /** A first item takes the first i characters, and the rest matches what follows. */
  lemma {:induction false} PrefixFrom(item: Item, p: Pattern, text: string, i: nat)
    requires i <= |text| && ItemMatches(item, text[..i]) && MatchesPrefix(p, text[i..])
    ensures MatchesPrefix(Pattern([item] + p.items, p.atEnd), text)
  {
    var k :| 0 <= k <= |text[i..]| && InLanguage(p.items, text[i..][..k]) && (p.atEnd ==> k == |text[i..]|);
    assert text[..i + k][..i] == text[..i] && text[..i + k][i..] == text[i..][..k];
    FirstItem(item, p.items, text[..i + k], i);
  }

  lemma {:induction false} PrefixSplit(item: Item, p: Pattern, text: string) returns (i: nat)
    requires MatchesPrefix(Pattern([item] + p.items, p.atEnd), text)
    ensures i <= |text| && ItemMatches(item, text[..i]) && MatchesPrefix(p, text[i..])
  {
    var k :| 0 <= k <= |text| && InLanguage([item] + p.items, text[..k]) && (p.atEnd ==> k == |text|);
    i := SplitFirst(item, p.items, text[..k]);
    assert text[..k][..i] == text[..i] && text[..k][i..] == text[i..][..k - i];
  }

  /** matchhere's three ways to go on, for every pattern and text. */
  lemma {:induction false} PrefixEmpty(atEnd: bool, text: string)
    ensures MatchesPrefix(Pattern([], atEnd), text) <==> !atEnd || text == ""
  {
    var p := Pattern([], atEnd);
    forall k | 0 <= k <= |text| ensures InLanguage([], text[..k]) <==> k == 0 {
      NoItems(text[..k]);
    }
    assert MatchesPrefix(p, text) <== !atEnd || text == "" by {
      NoItems(text[..0]);
    }
  }

  lemma {:induction false} PrefixOne(c: char, p: Pattern, text: string)
    ensures MatchesPrefix(Pattern([One(c)] + p.items, p.atEnd), text)
       <==> |text| > 0 && Fits(c, text[0]) && MatchesPrefix(p, text[1..])
  {
    if |text| > 0 && Fits(c, text[0]) && MatchesPrefix(p, text[1..]) {
      PrefixFrom(One(c), p, text, 1);
    }
    if MatchesPrefix(Pattern([One(c)] + p.items, p.atEnd), text) {
      var i := PrefixSplit(One(c), p, text);
      assert text[..i][0] == text[0];
    }
  }

  ghost predicate StarAt(c: char, p: Pattern, text: string, i: nat) {
    i <= |text| && AllFit(c, text[..i]) && MatchesPrefix(p, text[i..])
  }

  ghost predicate MatchesStar(c: char, p: Pattern, text: string) {
    exists i: nat :: StarAt(c, p, text, i)
  }

  lemma {:induction false} PrefixStar(c: char, p: Pattern, text: string)
    ensures MatchesPrefix(Pattern([Star(c)] + p.items, p.atEnd), text) <==> MatchesStar(c, p, text)
  {
    if i: nat :| StarAt(c, p, text, i) {
      PrefixFrom(Star(c), p, text, i);
    }
    if MatchesPrefix(Pattern([Star(c)] + p.items, p.atEnd), text) {
      var i := PrefixSplit(Star(c), p, text);
      assert StarAt(c, p, text, i);
    }
  }

  // ----- the matcher ------------------------------------------------------------------------

  /** match */
  method Match(re: string, text: string) returns (r: bool)
    ensures r <==> Matches(re, text)
  {
    hide MatchesPrefix, Parse;
    if |re| > 0 && re[0] == '^' {
      r := MatchHere(re[1..], text);
      return;
    }
    var i := 0;
    while true
      invariant 0 <= i <= |text|
      invariant forall j :: 0 <= j < i ==> !MatchesPrefix(Parse(re), text[j..])
      decreases |text| - i
    {
      r := MatchHere(re, text[i..]);
      if r {
        return;
      }
      if i == |text| {
        return false;
      }
      i := i + 1;
    }
  }

  /** matchhere */
  method MatchHere(re: string, text: string) returns (r: bool)
    ensures r <==> MatchesPrefix(Parse(re), text)
    decreases |re|, 0
  {
    hide MatchesPrefix;
    if re == "" {
      PrefixEmpty(false, text);
      return true;
    }
    if |re| >= 2 && re[1] == '*' {
      assert Parse(re) == Pattern([Star(re[0])] + Parse(re[2..]).items, Parse(re[2..]).atEnd);
      PrefixStar(re[0], Parse(re[2..]), text);
      r := MatchStar(re[0], re[2..], text);
      return;
    }
    if re == "$" {
      PrefixEmpty(true, text);
      return text == "";
    }
    assert Parse(re) == Pattern([One(re[0])] + Parse(re[1..]).items, Parse(re[1..]).atEnd);
    PrefixOne(re[0], Parse(re[1..]), text);
    if text != "" && (re[0] == '.' || re[0] == text[0]) {
      r := MatchHere(re[1..], text[1..]);
      return;
    }
    r := false;
  }

  /** matchstar */
  method MatchStar(c: char, re: string, text: string) returns (r: bool)
    ensures r <==> MatchesStar(c, Parse(re), text)
    decreases |re|, 1
  {
    hide MatchesPrefix, Parse;
    var i := 0;
    while true
      invariant 0 <= i <= |text| && AllFit(c, text[..i])
      invariant forall j: nat :: j < i ==> !StarAt(c, Parse(re), text, j)
      decreases |text| - i
    {
      r := MatchHere(re, text[i..]);
      if r {
        assert StarAt(c, Parse(re), text, i);
        return;
      }
      if i == |text| || !(text[i] == c || c == '.') {
        forall j: nat | j >= i ensures !StarAt(c, Parse(re), text, j) {
          if i < j <= |text| {
            assert text[..j][i] == text[i];
          }
        }
        return false;
      }
      assert text[..i + 1] == text[..i] + [text[i]];
      i := i + 1;
    }
  }

  // ----- the line buffer ----------------------------------------------------------------------

  const BUFSIZE: nat := 1024

  /** How far strchr looks for a newline: up to one, up to a 0 byte, or to the end. */
  function LineEnd(s: string): (i: nat)
    ensures i <= |s| && '\n' !in s[..i] && '\0' !in s[..i] && (i < |s| ==> s[i] == '\n' || s[i] == '\0')
  {
    if s == "" || s[0] == '\n' || s[0] == '\0' then 0
    else
      assert s[..1 + LineEnd(s[1..])] == [s[0]] + s[1..][..LineEnd(s[1..])];
      1 + LineEnd(s[1..])
  }

  /** strchr finds no newline. */
  predicate NoLine(s: string) {
    LineEnd(s) == |s| || s[LineEnd(s)] == '\0'
  }

  /** The matching lines among the complete lines of s, in order; the first 0 byte hides what comes after it. */
  ghost function Selected(re: string, s: string): (out: string)
    decreases |s|
  {
    var i := LineEnd(s);
    if NoLine(s) then "" else (if Matches(re, s[..i]) then s[..i + 1] else "") + Selected(re, s[i + 1..])
  }

  lemma {:induction false} LineEndAt(s: string, i: nat)
    requires i <= |s| && '\n' !in s[..i] && '\0' !in s[..i] && (i < |s| ==> s[i] == '\n')
    ensures LineEnd(s) == i
  {
    var e := LineEnd(s);
    assert forall k :: 0 <= k < i ==> s[..i][k] == s[k];
    assert forall k :: 0 <= k < e ==> s[..e][k] == s[k];
  }

  /** Complete lines are selected one by one, whatever follows. */
  lemma {:induction false} SelectedMore(re: string, a: string, b: string)
    requires '\0' !in a && (a == "" || a[|a| - 1] == '\n')
    ensures Selected(re, a + b) == Selected(re, a) + Selected(re, b)
    decreases |a|
  {
    hide Matches, Selected;
    if a == "" {
      assert a + b == b;
      SelectedNone(re, a);
    } else {
      var i := LineEnd(a);
      assert i < |a| && a[i] == '\n' by {
        assert a[..|a|] == a && a[|a| - 1] in a;
      }
      FirstLine(re, a, b, i);
      var tail := a[i + 1..];
      assert tail != "" ==> tail[|tail| - 1] == a[|a| - 1];
      SelectedMore(re, tail, b);
    }
  }

  lemma {:induction false} FirstLine(re: string, a: string, b: string, i: nat)
    requires i < |a| && i == LineEnd(a) && a[i] == '\n'
    ensures Selected(re, a) == (if Matches(re, a[..i]) then a[..i + 1] else "") + Selected(re, a[i + 1..])
    ensures Selected(re, a + b) == (if Matches(re, a[..i]) then a[..i + 1] else "") + Selected(re, a[i + 1..] + b)
  {
    hide Matches, Selected, LineEnd;
    assert (a + b)[..i] == a[..i] && (a + b)[..i + 1] == a[..i + 1] && (a + b)[i + 1..] == a[i + 1..] + b;
    LineEndAt(a + b, i);
    SelectedFirst(re, a, i);
    SelectedFirst(re, a + b, i);
  }

  lemma {:induction false} SelectedFirst(re: string, s: string, i: nat)
    requires i < |s| && i == LineEnd(s) && s[i] == '\n'
    ensures Selected(re, s) == (if Matches(re, s[..i]) then s[..i + 1] else "") + Selected(re, s[i + 1..])
  {
    hide Matches, LineEnd;
  }

  lemma {:induction false} SelectedLine(re: string, line: string)
    requires '\n' !in line && '\0' !in line
    ensures Selected(re, line + "\n") == if Matches(re, line) then line + "\n" else ""
  {
    var s := line + "\n";
    assert s[..|line|] == line && s[..|line| + 1] == s && s[|line| + 1..] == "";
    LineEndAt(s, |line|);
  }

  lemma {:induction false} SelectedNone(re: string, s: string)
    requires NoLine(s)
    ensures Selected(re, s) == ""
  {
  }

  /** Lines, each with its newline. */
  function Text(lines: seq<string>): (s: string) {
    if lines == [] then "" else lines[0] + "\n" + Text(lines[1..])
  }

  ghost function Matching(re: string, lines: seq<string>): (r: seq<string>) {
    if lines == [] then []
    else (if Matches(re, lines[0]) then [lines[0]] else []) + Matching(re, lines[1..])
  }

  /** What is selected from any text of lines, and something behind them without one, are the matching lines. */
  lemma {:induction false} SelectedIsFilter(re: string, lines: seq<string>, tail: string)
    requires (forall i :: 0 <= i < |lines| ==> '\n' !in lines[i] && '\0' !in lines[i]) && NoLine(tail)
    ensures Selected(re, Text(lines) + tail) == Text(Matching(re, lines))
    decreases |lines|
  {
    hide Matches, Selected, NoLine;
    if lines == [] {
      assert Text(lines) + tail == tail;
      SelectedNone(re, tail);
    } else {
      var first := lines[0] + "\n";
      assert Text(lines) + tail == first + (Text(lines[1..]) + tail);
      SelectedMore(re, first, Text(lines[1..]) + tail);
      SelectedLine(re, lines[0]);
      SelectedIsFilter(re, lines[1..], tail);
      var more := Matching(re, lines[1..]);
      assert ([lines[0]] + more)[1..] == more;
      assert [] + more == more && "" + Text(more) == Text(more);
    }
  }

  /** The inner loop: print the matching ones among the complete lines in buf; p is where the rest starts. */
  method GrepLines(re: string, buf: string) returns (out: string, p: nat)
    ensures p <= |buf| && NoLine(buf[p..]) && '\0' !in buf[..p] && (p == 0 || buf[p - 1] == '\n')
    ensures out == Selected(re, buf[..p])
  {
    hide Matches, Selected;
    out, p := "", 0;
    SelectedNone(re, buf[..0]);
    while true
      invariant p <= |buf| && '\0' !in buf[..p] && (p == 0 || buf[p - 1] == '\n')
      invariant out == Selected(re, buf[..p])
      decreases |buf| - p
    {
      var i := LineEnd(buf[p..]);
      var q := p + i;
      if q == |buf| || buf[q] == '\0' {
        return;
      }
      assert buf[p..][..i] == buf[p..q] && buf[..q + 1] == buf[..p] + (buf[p..q] + "\n");
      var ok := Match(re, buf[p..q]);
      SelectedLine(re, buf[p..q]);
      SelectedMore(re, buf[..p], buf[p..q] + "\n");
      if ok {
        assert buf[p..q + 1] == buf[p..q] + "\n";
        out := out + buf[p..q + 1];
      }
      p := q + 1;
    }
  }

  /**
   grep: however read cuts the input up, the output is the matching complete lines of
   what was read, and reading ends early only if a line, or what follows a 0 byte, does
   not fit the buffer.
   */
  method GrepInput(re: string, input: string) returns (out: string, taken: nat, ghost partial: string)
    ensures taken <= |input| && out == Selected(re, input[..taken])
    ensures |partial| <= taken && partial == input[taken - |partial|..taken] && NoLine(partial)
    ensures taken == |input| || |partial| == BUFSIZE - 1
  {
    hide Matches, Selected, NoLine;
    var buf := "";
    out, taken := "", 0;
    ghost var done := "";
    EmptyLine();
    SelectedNone(re, "");
    while taken < |input| && |buf| < BUFSIZE - 1
      invariant taken <= |input| && |buf| < BUFSIZE && NoLine(buf)
      invariant input[..taken] == done + buf && '\0' !in done && (done == "" || done[|done| - 1] == '\n')
      invariant out == Selected(re, done)
      decreases |input| - taken
    {
      var n: nat :| 0 < n <= |input| - taken && n <= BUFSIZE - 1 - |buf|;
      var m := buf + input[taken..taken + n];
      ReadMore(input, taken, n, done, buf);
      var o, p := GrepLines(re, m);
      SelectedMore(re, done, m[..p]);
      Regroup(done, m, p);
      out := out + o;
      done := done + m[..p];
      buf := m[p..];
      taken := taken + n;
    }
    SelectedMore(re, done, buf);
    SelectedNone(re, buf);
    partial := buf;
    ReadTail(input, taken, done, buf);
  }

  lemma {:induction false} EmptyLine()
    ensures NoLine("")
  {
  }

  lemma {:induction false} ReadMore(input: string, taken: nat, n: nat, done: string, buf: string)
    requires taken + n <= |input| && input[..taken] == done + buf
    ensures input[..taken + n] == done + (buf + input[taken..taken + n])
  {
    assert input[..taken + n] == input[..taken] + input[taken..taken + n];
  }

  lemma {:induction false} ReadTail(input: string, taken: nat, done: string, buf: string)
    requires taken <= |input| && input[..taken] == done + buf
    ensures |buf| <= taken && input[taken - |buf|..taken] == buf
  {
    assert |done| == taken - |buf| && input[..taken][|done|..] == buf;
  }

  lemma {:induction false} Regroup(done: string, m: string, p: nat)
    requires p <= |m| && (done == "" || done[|done| - 1] == '\n') && (p == 0 || m[p - 1] == '\n')
    ensures done + m == (done + m[..p]) + m[p..]
    ensures done + m[..p] == "" || (done + m[..p])[|done| + p - 1] == '\n'
  {
  }
}
