/**
 What the shell's parser accepts: a grammar of command lines, and for each of its sentences the
 command it means.  The parser accepts exactly the sentences, however they are spaced, and gives
 what they mean.
 */
module ShellGrammar {
  import opened Shell

  type Tree = Cmd<string>

  // ----- words and tokens ----------------------------------------------------------------------

  const BLANKS: string := [' ', '\t', '\r', '\n', 11 as char]
  const SYMBOLS: string := "<|>&;()"

  predicate LegalWord(w: string) {
    w != "" && forall i :: 0 <= i < |w| ==> w[i] !in BLANKS && w[i] !in SYMBOLS && w[i] != '\0'
  }

  datatype Tok = Text(w: string) | Arrow(op: Op) | Mark(c: char)

  predicate LegalTok(t: Tok) {
    match t
    case Text(w) => LegalWord(w)
    case Arrow(_) => true
    case Mark(c) => c in "|&;()"
  }

  function OpText(op: Op): (s: string) {
    match op
    case In => "<"
    case Out => ">"
    case Append => ">>"
    case Err => "2>"
    case ErrAppend => "2>>"
  }

  function TokText(t: Tok): (s: string) {
    match t
    case Text(w) => w
    case Arrow(op) => OpText(op)
    case Mark(c) => [c]
  }

  /** Without white space between them the two would be read as something else. */
  predicate Clash(t: Tok, u: Tok) {
    || (t.Text? && (u.Text? || (u.Arrow? && (u.op.Err? || u.op.ErrAppend?))))
    || ((t == Text("2") || t == Arrow(Out) || t == Arrow(Err)) && (u == Arrow(Out) || u == Arrow(Append)))
  }

  predicate Blank(gap: string) {
    forall i :: 0 <= i < |gap| ==> gap[i] in BLANKS
  }

  predicate Spaced(gaps: seq<string>, ts: seq<Tok>) {
    && |gaps| == |ts| + 1 && (forall i :: 0 <= i < |gaps| ==> Blank(gaps[i]))
    && forall i :: 0 <= i < |ts| - 1 && Clash(ts[i], ts[i + 1]) ==> gaps[i + 1] != ""
  }

  /** Tokens with white space before, between and behind them. */
  function Layout(gaps: seq<string>, ts: seq<Tok>): (s: string)
    requires |gaps| == |ts| + 1
  {
    if ts == [] then gaps[0] else gaps[0] + (TokText(ts[0]) + Layout(gaps[1..], ts[1..]))
  }

  // ----- the grammar ----------------------------------------------------------------------------

  datatype Item = Arg(w: string) | Red(op: Op, file: string)

  /** Words and redirections in any order, or a line in parentheses with redirections behind it. */
  datatype Simp = Plain(items: seq<Item>) | Group(line: Ln, redirs: seq<Redirection<string>>)

  datatype Pip = Single(simp: Simp) | Piped(simp: Simp, rest: Pip)

  /** A pipeline, a number of '&' behind it, and perhaps ';' and another line. */
  datatype Ln = Final(pip: Pip, amps: nat) | Then(pip: Pip, amps: nat, rest: Ln)

  function ItemToks(items: seq<Item>): (ts: seq<Tok>) {
    if items == [] then []
    else
      var rest := ItemToks(items[1..]);
      match items[0]
      case Arg(w) => [Text(w)] + rest
      case Red(op, file) => [Arrow(op), Text(file)] + rest
  }

  function RedToks(redirs: seq<Redirection<string>>): (ts: seq<Tok>) {
    if redirs == [] then [] else [Arrow(redirs[0].op), Text(redirs[0].file)] + RedToks(redirs[1..])
  }

  function Amps(n: nat): (ts: seq<Tok>) {
    if n == 0 then [] else [Mark('&')] + Amps(n - 1)
  }

  function SimpToks(x: Simp): (ts: seq<Tok>) {
    match x
    case Plain(items) => ItemToks(items)
    case Group(line, redirs) => [Mark('(')] + (LnToks(line) + ([Mark(')')] + RedToks(redirs)))
  }

  function PipToks(x: Pip): (ts: seq<Tok>) {
    match x
    case Single(simp) => SimpToks(simp)
    case Piped(simp, rest) => SimpToks(simp) + ([Mark('|')] + PipToks(rest))
  }

  function LnToks(x: Ln): (ts: seq<Tok>) {
    match x
    case Final(pip, amps) => PipToks(pip) + Amps(amps)
    case Then(pip, amps, rest) => PipToks(pip) + (Amps(amps) + ([Mark(';')] + LnToks(rest)))
  }

  // ----- what it means ---------------------------------------------------------------------------

  function ArgsOf(items: seq<Item>): (ws: seq<string>) {
    if items == [] then []
    else if items[0].Arg? then [items[0].w] + ArgsOf(items[1..])
    else ArgsOf(items[1..])
  }

  function RedsOf(items: seq<Item>): (rs: seq<Redirection<string>>) {
    if items == [] then []
    else if items[0].Red? then [Redirection(items[0].op, items[0].file)] + RedsOf(items[1..])
    else RedsOf(items[1..])
  }

  function BackTimes(t: Tree, n: nat): (r: Tree)
    decreases n
  {
    if n == 0 then t else BackTimes(Back(t), n - 1)
  }

  /** Redirections apply from left to right, each around all before it. */
  function Redirected(t: Tree, rs: seq<Redirection<string>>): (r: Tree)
    decreases |rs|
  {
    if rs == [] then t else Redirected(Redir(t, rs[0].op, rs[0].file), rs[1..])
  }

  lemma {:induction false} WrapIs(t: Tree, rs: seq<Redirection<string>>)
    ensures Wrap(t, rs) == Redirected(t, rs)
    decreases |rs|
  {
    if |rs| == 1 {
      assert rs[..0] == rs[1..] == [];
    } else if rs != [] {
      var front, last := rs[..|rs| - 1], rs[|rs| - 1];
      WrapIs(t, front);
      FoldLast(t, front, last);
      assert front + [last] == rs;
    }
  }

  lemma {:induction false} FoldLast(t: Tree, rs: seq<Redirection<string>>, r: Redirection<string>)
    ensures Redirected(t, rs + [r]) == Redir(Redirected(t, rs), r.op, r.file)
    decreases |rs|
  {
    if rs == [] {
      assert (rs + [r])[1..] == [];
    } else {
      assert (rs + [r])[1..] == rs[1..] + [r];
      FoldLast(Redir(t, rs[0].op, rs[0].file), rs[1..], r);
    }
  }

  function SimpMeans(x: Simp): (t: Tree) {
    match x
    case Plain(items) => Redirected(Exec(ArgsOf(items)), RedsOf(items))
    case Group(line, redirs) => Redirected(LnMeans(line), redirs)
  }

  function PipMeans(x: Pip): (t: Tree) {
    match x
    case Single(simp) => SimpMeans(simp)
    case Piped(simp, rest) => Pipe(SimpMeans(simp), PipMeans(rest))
  }

  function LnMeans(x: Ln): (t: Tree) {
    match x
    case Final(pip, amps) => BackTimes(PipMeans(pip), amps)
    case Then(pip, amps, rest) => List(BackTimes(PipMeans(pip), amps), LnMeans(rest))
  }

  // ----- which sentences are legal: words, and at most nine arguments each ---------------------------

  predicate LegalItem(x: Item) {
    LegalWord(if x.Arg? then x.w else x.file)
  }

  predicate LegalSimp(x: Simp) {
    match x
    case Plain(items) => |ArgsOf(items)| < MAXARGS && forall i :: 0 <= i < |items| ==> LegalItem(items[i])
    case Group(line, redirs) => LegalLn(line) && forall i :: 0 <= i < |redirs| ==> LegalWord(redirs[i].file)
  }

  predicate LegalPip(x: Pip) {
    match x
    case Single(simp) => LegalSimp(simp)
    case Piped(simp, rest) => LegalSimp(simp) && LegalPip(rest)
  }

  predicate LegalLn(x: Ln) {
    match x
    case Final(pip, _) => LegalPip(pip)
    case Then(pip, _, rest) => LegalPip(pip) && LegalLn(rest)
  }

  // ----- reading tokens from a line ------------------------------------------------------------------

  /** Token t stands at q, where no white space is. */
  predicate Stands(s: string, q: nat, t: Tok)
    requires q <= |s| && Line(s) && !White(At(s, q))
  {
    var x := TokenAt(s, q);
    match t
    case Text(w) => x.0 == Word && s[q..x.1] == w
    case Arrow(op) => x.0 == Redirect(op)
    case Mark(c) => x.0 == Char(c)
  }

  /** From pos on the line has these tokens; the next one, or the end, is at e. */
  predicate Reads(s: string, pos: nat, ts: seq<Tok>, e: nat)
    requires pos <= |s| && Line(s)
    decreases |ts|
  {
    var q := Skip(s, pos);
    if ts == [] then q == e else Stands(s, q, ts[0]) && Reads(s, TokenAt(s, q).1, ts[1..], e)
  }

  lemma {:induction false} SkipTwice(s: string, pos: nat)
    requires pos <= |s|
    ensures Skip(s, Skip(s, pos)) == Skip(s, pos)
  {
  }

  lemma {:induction false} ReadsSkip(s: string, pos: nat, ts: seq<Tok>, e: nat)
    requires pos <= |s| && Line(s)
    ensures Reads(s, Skip(s, pos), ts, e) <==> Reads(s, pos, ts, e)
  {
    SkipTwice(s, pos);
  }

  lemma {:induction false} ReadsEnd(s: string, pos: nat, ts: seq<Tok>, e: nat)
    requires pos <= |s| && Line(s) && Reads(s, pos, ts, e)
    ensures pos <= e <= |s| && Skip(s, e) == e && (ts != [] ==> pos < e)
    decreases |ts|
  {
    hide TokenAt, Stands;
    if ts == [] {
      SkipTwice(s, pos);
    } else {
      TokenMoves(s, Skip(s, pos), ts[0]);
      ReadsEnd(s, TokenAt(s, Skip(s, pos)).1, ts[1..], e);
    }
  }

  lemma {:induction false} TokenMoves(s: string, q: nat, t: Tok)
    requires q <= |s| && Line(s) && !White(At(s, q)) && Stands(s, q, t)
    ensures q < TokenAt(s, q).1 <= |s|
  {
  }

  lemma {:induction false} ReadsSplit(s: string, pos: nat, ts: seq<Tok>, us: seq<Tok>, e: nat) returns (m: nat)
    requires pos <= |s| && Line(s) && Reads(s, pos, ts + us, e)
    ensures m <= |s| && Reads(s, pos, ts, m) && Reads(s, m, us, e)
    decreases |ts|
  {
    hide TokenAt, Stands, Skip, Line;
    if ts == [] {
      assert ts + us == us;
      m := Skip(s, pos);
      ReadsSkip(s, pos, us, e);
    } else {
      assert (ts + us)[1..] == ts[1..] + us;
      m := ReadsSplit(s, TokenAt(s, Skip(s, pos)).1, ts[1..], us, e);
    }
  }

  lemma {:induction false} ReadsJoin(s: string, pos: nat, ts: seq<Tok>, m: nat, us: seq<Tok>, e: nat)
    requires pos <= |s| && Line(s) && m <= |s| && Reads(s, pos, ts, m) && Reads(s, m, us, e)
    ensures Reads(s, pos, ts + us, e)
    decreases |ts|
  {
    hide TokenAt, Stands, Skip, Line;
    if ts == [] {
      assert ts + us == us;
      ReadsSkip(s, pos, us, e);
    } else {
      assert (ts + us)[1..] == ts[1..] + us;
      ReadsJoin(s, TokenAt(s, Skip(s, pos)).1, ts[1..], m, us, e);
    }
  }

  // ----- a parsed command with its spans replaced by the text they stand for --------------------------

  function Strings(s: string, ws: seq<Span>): (r: seq<string>)
    requires forall w :: w in ws ==> SpanOk(s, w)
  {
    seq(|ws|, i requires 0 <= i < |ws| => assert SpanOk(s, ws[i]); s[ws[i].q..ws[i].eq])
  }

  function ReadReds(s: string, rs: seq<Redirection<Span>>): (r: seq<Redirection<string>>)
    requires forall x :: x in rs ==> SpanOk(s, x.file)
  {
    seq(|rs|, i requires 0 <= i < |rs| =>
          assert SpanOk(s, rs[i].file); Redirection(rs[i].op, s[rs[i].file.q..rs[i].file.eq]))
  }

  function Read(s: string, c: Cmd<Span>): (t: Tree)
    requires SpansOk(s, c)
  {
    match c
    case Exec(argv) => Exec(Strings(s, argv))
    case Redir(d, op, file) => Redir(Read(s, d), op, s[file.q..file.eq])
    case Pipe(l, r) => Pipe(Read(s, l), Read(s, r))
    case List(l, r) => List(Read(s, l), Read(s, r))
    case Back(d) => Back(Read(s, d))
  }

  lemma {:induction false} ReadWrap(s: string, c: Cmd<Span>, rs: seq<Redirection<Span>>)
    requires SpansOk(s, c) && forall x :: x in rs ==> SpanOk(s, x.file)
    ensures SpansOk(s, Wrap(c, rs)) && Read(s, Wrap(c, rs)) == Wrap(Read(s, c), ReadReds(s, rs))
    decreases |rs|
  {
    hide SpanOk;
    WrapSpans(s, c, rs);
    var all := ReadReds(s, rs);
    if rs == [] {
      assert all == [];
    } else {
      var front := rs[..|rs| - 1];
      ReadWrap(s, c, front);
      assert rs[|rs| - 1] in rs;
      assert all[..|all| - 1] == ReadReds(s, front);
    }
  }

  lemma {:induction false} StringsMore(s: string, ws: seq<Span>, w: Span)
    requires (forall x :: x in ws ==> SpanOk(s, x)) && SpanOk(s, w)
    ensures (forall x :: x in ws + [w] ==> SpanOk(s, x))
    ensures Strings(s, ws + [w]) == Strings(s, ws) + [s[w.q..w.eq]]
  {
    hide SpanOk;
    SpanBounds(s, w);
  }

  lemma {:induction false} RedsMore(s: string, rs: seq<Redirection<Span>>, r: Redirection<Span>)
    requires (forall x :: x in rs ==> SpanOk(s, x.file)) && SpanOk(s, r.file)
    ensures (forall x :: x in rs + [r] ==> SpanOk(s, x.file))
    ensures ReadReds(s, rs + [r]) == ReadReds(s, rs) + [Redirection(r.op, s[r.file.q..r.file.eq])]
  {
    hide SpanOk;
    SpanBounds(s, r.file);
  }

  lemma {:induction false} RedsFirst(s: string, r: Redirection<Span>, rs: seq<Redirection<Span>>)
    requires (forall x :: x in rs ==> SpanOk(s, x.file)) && SpanOk(s, r.file)
    ensures (forall x :: x in [r] + rs ==> SpanOk(s, x.file))
    ensures ReadReds(s, [r] + rs) == [Redirection(r.op, s[r.file.q..r.file.eq])] + ReadReds(s, rs)
  {
    hide SpanOk;
    SpanBounds(s, r.file);
  }

  // ----- every sentence parses -------------------------------------------------------------------

  /** A simple command ends here. */
  predicate StopAt(s: string, e: nat)
    requires Line(s)
  {
    e <= |s| && Skip(s, e) == e && (e == |s| || s[e] in "|)&;")
  }

  lemma {:induction false} StopToken(s: string, e: nat)
    requires Line(s) && StopAt(s, e)
    ensures !White(At(s, e)) && (TokenAt(s, e).0.End? || (TokenAt(s, e).0.Char? && TokenAt(s, e).0.c != '('))
    ensures !TokenAt(s, e).0.Redirect?
  {
  }

  lemma {:induction false} MarkAt(s: string, q: nat, c: char)
    requires q <= |s| && Line(s) && !White(At(s, q)) && Stands(s, q, Mark(c))
    ensures q < |s| && s[q] == c && c in "|&;()" && TokenAt(s, q).1 == q + 1
  {
  }

  lemma {:induction false} RedirsSkip(s: string, pos: nat)
    requires pos <= |s| && Line(s)
    ensures Redirs(s, Skip(s, pos)) == Redirs(s, pos)
  {
    SkipTwice(s, pos);
  }

  /** One redirection, at the head of a list. */
  lemma {:induction false} RedirsStep(s: string, pos: nat, op: Op, file: string)
    returns (r: Redirection<Span>, next: nat)
    requires pos <= |s| && Line(s) && Stands(s, Skip(s, pos), Arrow(op))
    requires var a := TokenAt(s, Skip(s, pos)).1; Stands(s, Skip(s, a), Text(file))
    ensures next == TokenAt(s, Skip(s, TokenAt(s, Skip(s, pos)).1)).1 && pos < next <= |s|
    ensures SpanOk(s, r.file) && r.op == op && s[r.file.q..r.file.eq] == file
    ensures Redirs(s, pos) == Prepend([r], Redirs(s, next))
  {
    hide TokenAt, Skip, SpanOk;
    var q := Skip(s, pos);
    var a := TokenAt(s, q).1;
    TokenMoves(s, q, Arrow(op));
    var f := Skip(s, a);
    TokenMoves(s, f, Text(file));
    next := TokenAt(s, f).1;
    r := Redirection(op, Span(f, next));
    RedirsSkip(s, next);
  }

  lemma {:induction false} NoRedirs(s: string, pos: nat)
    requires pos <= |s| && Line(s) && !TokenAt(s, Skip(s, pos)).0.Redirect?
    ensures Redirs(s, pos) == Ok([], Skip(s, pos))
  {
  }

  lemma {:induction false} RedirsParse(s: string, pos: nat, rs: seq<Redirection<string>>, e: nat)
    returns (rd: seq<Redirection<Span>>)
    requires pos <= |s| && Line(s) && Reads(s, pos, RedToks(rs), e) && StopAt(s, e)
    ensures Redirs(s, pos) == Ok(rd, e) && (forall x :: x in rd ==> SpanOk(s, x.file)) && ReadReds(s, rd) == rs
    decreases |rs|
  {
    hide TokenAt, Skip, SpanOk, Stands, Line, Redirs;
    if rs == [] {
      StopToken(s, e);
      NoRedirs(s, pos);
      rd := [];
      assert ReadReds(s, rd) == rs;
    } else {
      var ts := RedToks(rs);
      assert ts[1..][1..] == RedToks(rs[1..]);
      var r, next := RedirsStep(s, pos, rs[0].op, rs[0].file);
      var rest := RedirsParse(s, next, rs[1..], e);
      RedsFirst(s, r, rest);
      rd := [r] + rest;
      assert [rs[0]] + rs[1..] == rs;
    }
  }

  /** parseexec's loop, entered before the redirections in front of the next word. */
  function After(s: string, pos: nat, argv: seq<Span>, redirs: seq<Redirection<Span>>): (r: Result<Cmd<Span>>)
    requires pos <= |s| && Line(s) && |argv| < MAXARGS
    requires (forall w :: w in argv ==> SpanOk(s, w)) && (forall x :: x in redirs ==> SpanOk(s, x.file))
  {
    var rd := Redirs(s, pos);
    if rd.Panic? then Panic else Args(s, rd.pos, argv, redirs + rd.value)
  }

  lemma {:induction false} AfterStop(s: string, pos: nat, argv: seq<Span>, redirs: seq<Redirection<Span>>)
    requires pos <= |s| && Line(s) && |argv| < MAXARGS && StopAt(s, Skip(s, pos))
    requires (forall w :: w in argv ==> SpanOk(s, w)) && (forall x :: x in redirs ==> SpanOk(s, x.file))
    ensures After(s, pos, argv, redirs) == Ok(Wrap(Exec(argv), redirs), Skip(s, pos))
  {
    hide TokenAt, SpanOk, Redirs, Wrap;
    StopToken(s, Skip(s, pos));
    NoRedirs(s, pos);
    assert redirs + [] == redirs;
  }

  lemma {:induction false} AfterRed(s: string, pos: nat, argv: seq<Span>, redirs: seq<Redirection<Span>>,
                                    r: Redirection<Span>, next: nat)
    requires pos <= |s| && Line(s) && |argv| < MAXARGS && next <= |s| && SpanOk(s, r.file)
    requires (forall w :: w in argv ==> SpanOk(s, w)) && (forall x :: x in redirs ==> SpanOk(s, x.file))
    requires Redirs(s, pos) == Prepend([r], Redirs(s, next))
    ensures (forall x :: x in redirs + [r] ==> SpanOk(s, x.file))
    ensures After(s, pos, argv, redirs) == After(s, next, argv, redirs + [r])
  {
    hide TokenAt, SpanOk, Redirs, Args;
    if Redirs(s, next).Ok? {
      assert redirs + ([r] + Redirs(s, next).value) == redirs + [r] + Redirs(s, next).value;
    }
  }

  lemma {:induction false} AfterArg(s: string, pos: nat, argv: seq<Span>, redirs: seq<Redirection<Span>>, w: string)
    requires pos <= |s| && Line(s) && |argv| + 1 < MAXARGS && Stands(s, Skip(s, pos), Text(w))
    requires (forall w :: w in argv ==> SpanOk(s, w)) && (forall x :: x in redirs ==> SpanOk(s, x.file))
    ensures var q := Skip(s, pos);
            var span := Span(q, TokenAt(s, q).1);
            && SpanOk(s, span) && s[span.q..span.eq] == w && pos < span.eq <= |s|
            && (forall x :: x in argv + [span] ==> SpanOk(s, x))
            && After(s, pos, argv, redirs) == After(s, span.eq, argv + [span], redirs)
  {
    hide TokenAt, SpanOk, Redirs, Skip;
    var q := Skip(s, pos);
    TokenMoves(s, q, Text(w));
    NoRedirs(s, pos);
    SkipTwice(s, pos);
    RedirsSkip(s, TokenAt(s, q).1);
    assert redirs + [] == redirs;
  }

  lemma {:induction false} ReadsFirst(s: string, pos: nat, t: Tok, ts: seq<Tok>, e: nat)
    requires pos <= |s| && Line(s) && Reads(s, pos, [t] + ts, e)
    ensures Stands(s, Skip(s, pos), t) && Reads(s, TokenAt(s, Skip(s, pos)).1, ts, e)
  {
    hide Skip, TokenAt, Stands;
    assert ([t] + ts)[1..] == ts;
  }

  /** A word first, or a redirection. */
  lemma {:induction false} ItemFirst(items: seq<Item>)
    requires items != []
    ensures items[0].Arg? ==>
              && ItemToks(items) == [Text(items[0].w)] + ItemToks(items[1..])
              && ArgsOf(items) == [items[0].w] + ArgsOf(items[1..]) && RedsOf(items) == RedsOf(items[1..])
    ensures items[0].Red? ==>
              && ItemToks(items) == [Arrow(items[0].op)] + ([Text(items[0].file)] + ItemToks(items[1..]))
              && ArgsOf(items) == ArgsOf(items[1..])
              && RedsOf(items) == [Redirection(items[0].op, items[0].file)] + RedsOf(items[1..])
  {
  }

  lemma {:induction false} AddMiddle<T>(a: seq<T>, x: T, b: seq<T>)
    ensures a + [x] + b == a + ([x] + b)
  {
  }

  lemma {:induction false} ItemsParse(s: string, pos: nat, argv: seq<Span>, redirs: seq<Redirection<Span>>,
                                      items: seq<Item>, e: nat)
    returns (ws: seq<Span>, rs: seq<Redirection<Span>>)
    requires pos <= |s| && Line(s) && |argv| + |ArgsOf(items)| < MAXARGS
    requires (forall w :: w in argv ==> SpanOk(s, w)) && (forall x :: x in redirs ==> SpanOk(s, x.file))
    requires Reads(s, pos, ItemToks(items), e) && StopAt(s, e)
    ensures (forall w :: w in ws ==> SpanOk(s, w)) && (forall x :: x in rs ==> SpanOk(s, x.file))
    ensures Strings(s, ws) == Strings(s, argv) + ArgsOf(items) && ReadReds(s, rs) == ReadReds(s, redirs) + RedsOf(items)
    ensures After(s, pos, argv, redirs) == Ok(Wrap(Exec(ws), rs), e)
    decreases |items|
  {
    hide TokenAt, SpanOk, Redirs, Skip, Stands, After, Line, Wrap, Strings, ReadReds, StopAt, Reads, ItemToks, ArgsOf,
         RedsOf;
    if items == [] {
      ItemsNone(s, pos, argv, redirs, e);
      ws, rs := argv, redirs;
    } else if items[0].Arg? {
      ItemFirst(items);
      ReadsFirst(s, pos, Text(items[0].w), ItemToks(items[1..]), e);
      AfterArg(s, pos, argv, redirs, items[0].w);
      var span := Span(Skip(s, pos), TokenAt(s, Skip(s, pos)).1);
      StringsMore(s, argv, span);
      ws, rs := ItemsParse(s, span.eq, argv + [span], redirs, items[1..], e);
      AddMiddle(Strings(s, argv), items[0].w, ArgsOf(items[1..]));
    } else {
      ItemFirst(items);
      ReadsFirst(s, pos, Arrow(items[0].op), [Text(items[0].file)] + ItemToks(items[1..]), e);
      TokenMoves(s, Skip(s, pos), Arrow(items[0].op));
      ReadsFirst(s, TokenAt(s, Skip(s, pos)).1, Text(items[0].file), ItemToks(items[1..]), e);
      var r, next := RedirsStep(s, pos, items[0].op, items[0].file);
      AfterRed(s, pos, argv, redirs, r, next);
      RedsMore(s, redirs, r);
      ws, rs := ItemsParse(s, next, argv, redirs + [r], items[1..], e);
      AddMiddle(ReadReds(s, redirs), Redirection(items[0].op, items[0].file), RedsOf(items[1..]));
    }
  }

  lemma {:induction false} ItemsNone(s: string, pos: nat, argv: seq<Span>, redirs: seq<Redirection<Span>>, e: nat)
    requires pos <= |s| && Line(s) && |argv| < MAXARGS && Reads(s, pos, ItemToks([]), e) && StopAt(s, e)
    requires (forall w :: w in argv ==> SpanOk(s, w)) && (forall x :: x in redirs ==> SpanOk(s, x.file))
    ensures After(s, pos, argv, redirs) == Ok(Wrap(Exec(argv), redirs), e)
    ensures Strings(s, argv) + ArgsOf([]) == Strings(s, argv) && ReadReds(s, redirs) + RedsOf([]) == ReadReds(s, redirs)
  {
    hide SpanOk, Strings, ReadReds, Skip, TokenAt, After;
    AfterStop(s, pos, argv, redirs);
  }

  lemma {:induction false} PlainStart(s: string, pos: nat, items: seq<Item>, e: nat)
    requires pos <= |s| && Line(s) && Reads(s, pos, ItemToks(items), e) && StopAt(s, e)
    ensures At(s, Skip(s, pos)) != '('
  {
    var q := Skip(s, pos);
    if items != [] {
      assert Stands(s, q, ItemToks(items)[0]);
    }
  }

  lemma {:induction false} SimpleIsAfter(s: string, pos: nat)
    requires pos <= |s| && Line(s) && At(s, Skip(s, pos)) != '('
    ensures Simple(s, pos) == After(s, pos, [], [])
  {
    hide Redirs, Args;
    RedirsSkip(s, pos);
    var rd := Redirs(s, pos);
    if rd.Ok? {
      assert [] + rd.value == rd.value;
    }
  }

  lemma {:induction false} PlainParse(s: string, pos: nat, items: seq<Item>, e: nat) returns (c: Cmd<Span>)
    requires pos <= |s| && Line(s) && |ArgsOf(items)| < MAXARGS && Reads(s, pos, ItemToks(items), e) && StopAt(s, e)
    ensures Simple(s, pos) == Ok(c, e) && SpansOk(s, c) && Read(s, c) == SimpMeans(Plain(items))
  {
    hide TokenAt, Redirs, Skip, Stands, After, Line, StopAt, Reads, ItemToks, Simple, SpanOk, ArgsOf, RedsOf;
    var ws, rs := ItemsParse(s, pos, [], [], items, e);
    PlainStart(s, pos, items, e);
    SimpleIsAfter(s, pos);
    c := Wrap(Exec(ws), rs);
    ReadWrap(s, Exec(ws), rs);
    assert Strings(s, []) + ArgsOf(items) == ArgsOf(items) && ReadReds(s, []) + RedsOf(items) == RedsOf(items);
    WrapIs(Exec(ArgsOf(items)), RedsOf(items));
  }

  /** A line in parentheses, once the line and the redirections behind it are parsed. */
  lemma {:induction false} BlockIs(s: string, pos: nat, c: Cmd<Span>, m: nat, rd: seq<Redirection<Span>>, e: nat)
    requires pos <= |s| && Line(s) && pos < |s| && s[pos] == '(' && Skip(s, pos) == pos && SpansOk(s, c)
    requires m < |s| && s[m] == ')' && CmdLine(s, pos + 1) == Ok(c, m) && Redirs(s, m + 1) == Ok(rd, e)
    ensures (forall x :: x in rd ==> SpanOk(s, x.file)) && Simple(s, pos) == Ok(Wrap(c, rd), e)
  {
    hide CmdLine, Redirs, SpanOk, SpansOk, Wrap;
    CmdLineSkip(s, pos + 1);
    RedirsSkip(s, m + 1);
  }

  lemma {:induction false} SimpleSkip(s: string, pos: nat)
    requires pos <= |s| && Line(s)
    ensures Simple(s, Skip(s, pos)) == Simple(s, pos)
  {
    hide Redirs, Args, Block;
    SkipTwice(s, pos);
  }

  lemma {:induction false} PipelineSkip(s: string, pos: nat)
    requires pos <= |s| && Line(s)
    ensures Pipeline(s, Skip(s, pos)) == Pipeline(s, pos)
  {
    hide Simple;
    SimpleSkip(s, pos);
  }

  lemma {:induction false} CmdLineSkip(s: string, pos: nat)
    requires pos <= |s| && Line(s)
    ensures CmdLine(s, Skip(s, pos)) == CmdLine(s, pos)
  {
    hide Pipeline;
    PipelineSkip(s, pos);
  }

  lemma {:induction false} SimpParse(s: string, pos: nat, x: Simp, e: nat) returns (c: Cmd<Span>)
    requires pos <= |s| && Line(s) && LegalSimp(x) && Reads(s, pos, SimpToks(x), e) && StopAt(s, e)
    ensures Simple(s, pos) == Ok(c, e) && SpansOk(s, c) && Read(s, c) == SimpMeans(x)
    decreases x, 0
  {
    hide TokenAt, Redirs, Skip, Stands, Line, Reads, Simple, SpanOk, CmdLine, StopAt, Wrap, SpansOk, Read,
      ItemToks, ArgsOf;
    match x
    case Plain(items) => c := PlainParse(s, pos, items, e);
    case Group(line, redirs) =>
      var q := GroupStart(s, pos, line, redirs, e);
      var m := ReadsSplit(s, q + 1, LnToks(line), [Mark(')')] + RedToks(redirs), e);
      GroupEnd(s, q + 1, line, m, redirs, e);
      var inner := LnParse(s, q + 1, line, m);
      var rd := RedirsParse(s, m + 1, redirs, e);
      BlockIs(s, q, inner, m, rd, e);
      SimpleSkip(s, pos);
      ReadWrap(s, inner, rd);
      WrapIs(Read(s, inner), redirs);
      c := Wrap(inner, rd);
  }

  lemma {:induction false} GroupStart(s: string, pos: nat, line: Ln, redirs: seq<Redirection<string>>, e: nat)
    returns (q: nat)
    requires pos <= |s| && Line(s) && Reads(s, pos, SimpToks(Group(line, redirs)), e)
    ensures q == Skip(s, pos) == Skip(s, q) && q < |s| && s[q] == '('
    ensures Reads(s, q + 1, LnToks(line) + ([Mark(')')] + RedToks(redirs)), e)
  {
    hide LnToks, RedToks, Reads, TokenAt;
    q := Skip(s, pos);
    SkipTwice(s, pos);
    ReadsFirst(s, pos, Mark('('), LnToks(line) + ([Mark(')')] + RedToks(redirs)), e);
    MarkAt(s, q, '(');
  }

  lemma {:induction false} GroupEnd(s: string, pos: nat, line: Ln, m: nat, redirs: seq<Redirection<string>>, e: nat)
    requires pos <= |s| && Line(s) && m <= |s| && Reads(s, pos, LnToks(line), m)
    requires Reads(s, m, [Mark(')')] + RedToks(redirs), e)
    ensures m < |s| && s[m] == ')' && Reads(s, m + 1, RedToks(redirs), e) && LineStop(s, m)
  {
    hide LnToks, RedToks, Reads, TokenAt;
    ReadsEnd(s, pos, LnToks(line), m);
    ReadsFirst(s, m, Mark(')'), RedToks(redirs), e);
    MarkAt(s, m, ')');
  }

  /** A pipeline ends here. */
  predicate PipeStop(s: string, e: nat)
    requires Line(s)
  {
    StopAt(s, e) && At(s, e) != '|'
  }

  /** A line ends here. */
  predicate LineStop(s: string, e: nat)
    requires Line(s)
  {
    StopAt(s, e) && (e == |s| || s[e] == ')')
  }

  lemma {:induction false} PipParse(s: string, pos: nat, x: Pip, e: nat) returns (c: Cmd<Span>)
    requires pos <= |s| && Line(s) && LegalPip(x) && Reads(s, pos, PipToks(x), e) && PipeStop(s, e)
    ensures Pipeline(s, pos) == Ok(c, e) && SpansOk(s, c) && Read(s, c) == PipMeans(x)
    decreases x, 0
  {
    hide TokenAt, Skip, Stands, Line, Reads, Simple, Pipeline, SpansOk, StopAt, SimpToks, LegalSimp, SimpMeans;
    match x
    case Single(simp) =>
      c := SimpParse(s, pos, simp, e);
      PipelineOne(s, pos, c, e);
    case Piped(simp, rest) =>
      var m := ReadsSplit(s, pos, SimpToks(simp), [Mark('|')] + PipToks(rest), e);
      NextMark(s, pos, SimpToks(simp), m, '|', PipToks(rest), e);
      var left := SimpParse(s, pos, simp, m);
      var right := PipParse(s, m + 1, rest, e);
      PipelineTwo(s, pos, left, m, right, e);
      c := Pipe(left, right);
      assert SpansOk(s, left) && SpansOk(s, right);
      ReadPipe(s, left, right);
  }

  lemma {:induction false} ReadPipe(s: string, l: Cmd<Span>, r: Cmd<Span>)
    requires SpansOk(s, l) && SpansOk(s, r)
    ensures SpansOk(s, Pipe(l, r)) && Read(s, Pipe(l, r)) == Pipe(Read(s, l), Read(s, r))
    ensures SpansOk(s, List(l, r)) && Read(s, List(l, r)) == List(Read(s, l), Read(s, r))
  {
  }

  lemma {:induction false} NextMark(s: string, pos: nat, ts: seq<Tok>, m: nat, c: char, us: seq<Tok>, e: nat)
    requires pos <= |s| && Line(s) && m <= |s| && Reads(s, pos, ts, m) && Reads(s, m, [Mark(c)] + us, e) && c in "|&;)"
    ensures m < |s| && s[m] == c && Reads(s, m + 1, us, e) && StopAt(s, m)
  {
    hide Reads, TokenAt;
    ReadsEnd(s, pos, ts, m);
    ReadsFirst(s, m, Mark(c), us, e);
    MarkAt(s, m, c);
  }

  lemma {:induction false} PipelineOne(s: string, pos: nat, c: Cmd<Span>, e: nat)
    requires pos <= |s| && Line(s) && Simple(s, pos) == Ok(c, e) && PipeStop(s, e)
    ensures Pipeline(s, pos) == Ok(c, e)
  {
    hide Simple, SpansOk;
  }

  lemma {:induction false} PipelineTwo(s: string, pos: nat, left: Cmd<Span>, m: nat, right: Cmd<Span>, e: nat)
    requires pos <= |s| && Line(s) && Simple(s, pos) == Ok(left, m) && m < |s| && s[m] == '|'
    requires Pipeline(s, m + 1) == Ok(right, e)
    ensures Pipeline(s, pos) == Ok(Pipe(left, right), e)
  {
    hide Simple, SpansOk;
    PipelineSkip(s, m + 1);
  }

  /** The '&' behind a pipeline. */
  lemma {:induction false} AmpsParse(s: string, pos: nat, c: Cmd<Span>, n: nat, e: nat) returns (d: Cmd<Span>)
    requires pos <= |s| && Line(s) && SpansOk(s, c) && Reads(s, pos, Amps(n), e) && At(s, e) != '&'
    ensures Backs(s, pos, c) == Ok(d, e) && SpansOk(s, d) && Read(s, d) == BackTimes(Read(s, c), n)
    decreases n
  {
    hide TokenAt, Stands, Line, Reads;
    if n == 0 {
      d := c;
      NothingRead(s, pos, e);
    } else {
      ReadsFirst(s, pos, Mark('&'), Amps(n - 1), e);
      MarkAt(s, Skip(s, pos), '&');
      d := AmpsParse(s, Skip(s, pos) + 1, Back(c), n - 1, e);
      BacksSkip(s, Skip(s, pos) + 1, Back(c));
    }
  }

  lemma {:induction false} NothingRead(s: string, pos: nat, e: nat)
    requires pos <= |s| && Line(s) && Reads(s, pos, Amps(0), e)
    ensures e == Skip(s, pos)
  {
  }

  lemma {:induction false} BacksSkip(s: string, pos: nat, c: Cmd<Span>)
    requires pos <= |s| && SpansOk(s, c)
    ensures Backs(s, Skip(s, pos), c) == Backs(s, pos, c)
  {
    SkipTwice(s, pos);
  }

  lemma {:induction false} AmpsStart(s: string, pos: nat, n: nat, e: nat)
    requires pos <= |s| && Line(s) && Skip(s, pos) == pos
    requires Reads(s, pos, Amps(n), e) && StopAt(s, e) && At(s, e) != '|'
    ensures PipeStop(s, pos)
  {
    hide TokenAt;
    if n > 0 {
      ReadsFirst(s, pos, Mark('&'), Amps(n - 1), e);
      MarkAt(s, pos, '&');
    }
  }

  lemma {:induction false} LnParse(s: string, pos: nat, x: Ln, e: nat) returns (c: Cmd<Span>)
    requires pos <= |s| && Line(s) && LegalLn(x) && Reads(s, pos, LnToks(x), e) && LineStop(s, e)
    ensures CmdLine(s, pos) == Ok(c, e) && SpansOk(s, c) && Read(s, c) == LnMeans(x)
    decreases x, 0
  {
    hide TokenAt, Skip, Stands, Line, Reads, Pipeline, CmdLine, SpansOk, StopAt, PipToks, LegalPip, PipMeans,
      Read, Amps, BackTimes;
    match x
    case Final(pip, amps) =>
      var m := ReadsSplit(s, pos, PipToks(pip), Amps(amps), e);
      c := FrontParse(s, pos, pip, m, amps, e);
      CmdLineOne(s, pos, m, c, e);
    case Then(pip, amps, rest) =>
      var m := ReadsSplit(s, pos, PipToks(pip), Amps(amps) + ([Mark(';')] + LnToks(rest)), e);
      var m' := ReadsSplit(s, m, Amps(amps), [Mark(';')] + LnToks(rest), e);
      NextMark(s, m, Amps(amps), m', ';', LnToks(rest), e);
      var front := FrontParse(s, pos, pip, m, amps, m');
      var right := LnParse(s, m' + 1, rest, e);
      CmdLineTwo(s, pos, m, front, m', right, e);
      ReadPipe(s, front, right);
      c := List(front, right);
  }

  /** A pipeline and the '&' behind it. */
  lemma {:induction false} FrontParse(s: string, pos: nat, pip: Pip, m: nat, amps: nat, e: nat) returns (c: Cmd<Span>)
    requires pos <= |s| && Line(s) && LegalPip(pip) && m <= |s|
    requires Reads(s, pos, PipToks(pip), m) && Reads(s, m, Amps(amps), e) && StopAt(s, e)
    requires At(s, e) != '|' && At(s, e) != '&'
    ensures SpansOk(s, c) && Read(s, c) == BackTimes(PipMeans(pip), amps)
    ensures Pipeline(s, pos).Ok? && Pipeline(s, pos).pos == m && Backs(s, m, Pipeline(s, pos).value) == Ok(c, e)
    decreases pip, 1
  {
    hide TokenAt, Skip, Stands, Line, Reads, Pipeline, SpansOk, StopAt, PipToks, LegalPip, PipMeans, Read, Amps, Backs,
         BackTimes;
    ReadsEnd(s, pos, PipToks(pip), m);
    AmpsStart(s, m, amps, e);
    var p := PipParse(s, pos, pip, m);
    c := AmpsParse(s, m, p, amps, e);
  }

  lemma {:induction false} CmdLineOne(s: string, pos: nat, m: nat, c: Cmd<Span>, e: nat)
    requires pos <= |s| && Line(s) && Pipeline(s, pos).Ok? && Pipeline(s, pos).pos == m
    requires Backs(s, m, Pipeline(s, pos).value) == Ok(c, e) && LineStop(s, e)
    ensures CmdLine(s, pos) == Ok(c, e)
  {
    hide Pipeline, Backs, SpansOk;
  }

  lemma {:induction false} CmdLineTwo(s: string, pos: nat, m: nat, front: Cmd<Span>, m': nat, right: Cmd<Span>, e: nat)
    requires pos <= |s| && Line(s) && Pipeline(s, pos).Ok? && Pipeline(s, pos).pos == m && m' < |s| && s[m'] == ';'
    requires Backs(s, m, Pipeline(s, pos).value) == Ok(front, m') && CmdLine(s, m' + 1) == Ok(right, e)
    ensures CmdLine(s, pos) == Ok(List(front, right), e)
  {
    hide Pipeline, Backs, SpansOk;
    CmdLineSkip(s, m' + 1);
  }

  // ----- only sentences parse ------------------------------------------------------------------------

  lemma {:induction false} Chars(c: char)
    ensures (White(c) <==> c in BLANKS) && (Symbol(c) <==> c in SYMBOLS)
  {
  }

  lemma {:induction false} WordLegal(s: string, q: nat)
    requires q <= |s| && Line(s) && !White(At(s, q)) && TokenAt(s, q).0 == Word
    ensures var w := s[q..TokenAt(s, q).1]; Stands(s, q, Text(w)) && LegalWord(w)
  {
    var e := TokenAt(s, q).1;
    forall i | q <= i < e ensures s[i] !in BLANKS && s[i] !in SYMBOLS && s[i] != '\0' {
      Chars(s[i]);
    }
  }

  lemma {:induction false} ReadsOne(s: string, pos: nat, t: Tok, ts: seq<Tok>, e: nat)
    requires pos <= |s| && Line(s) && Stands(s, Skip(s, pos), t) && Reads(s, TokenAt(s, Skip(s, pos)).1, ts, e)
    ensures Reads(s, pos, [t] + ts, e)
  {
    hide Skip, TokenAt, Stands;
    assert ([t] + ts)[1..] == ts;
  }

  /** A redirection that parses has a file behind it. */
  lemma {:induction false} RedirsHead(s: string, pos: nat) returns (r: Redirection<Span>, file: string, next: nat)
    requires pos <= |s| && Line(s) && Redirs(s, pos).Ok? && TokenAt(s, Skip(s, pos)).0.Redirect?
    ensures pos < next <= |s| && SpanOk(s, r.file) && s[r.file.q..r.file.eq] == file && LegalWord(file)
    ensures Redirs(s, pos) == Prepend([r], Redirs(s, next)) && Redirs(s, next).Ok?
    ensures Stands(s, Skip(s, pos), Arrow(r.op)) && Stands(s, Skip(s, TokenAt(s, Skip(s, pos)).1), Text(file))
    ensures next == TokenAt(s, Skip(s, TokenAt(s, Skip(s, pos)).1)).1
  {
    hide TokenAt, Skip, SpanOk, LegalWord;
    var q := Skip(s, pos);
    var op := TokenAt(s, q).0.op;
    TokenMoves(s, q, Arrow(op));
    var f := Skip(s, TokenAt(s, q).1);
    WordLegal(s, f);
    file := s[f..TokenAt(s, f).1];
    r, next := RedirsStep(s, pos, op, file);
  }

  lemma {:induction false} RedirsSound(s: string, pos: nat) returns (rs: seq<Redirection<string>>)
    requires pos <= |s| && Line(s) && Redirs(s, pos).Ok?
    ensures Reads(s, pos, RedToks(rs), Redirs(s, pos).pos) && ReadReds(s, Redirs(s, pos).value) == rs
    ensures forall i :: 0 <= i < |rs| ==> LegalWord(rs[i].file)
    decreases |s| - pos
  {
    hide TokenAt, Skip, SpanOk, LegalWord, Redirs, Stands, ReadReds, Reads;
    if TokenAt(s, Skip(s, pos)).0.Redirect? {
      var r, file, next := RedirsHead(s, pos);
      var rest := RedirsSound(s, next);
      RedsFirst(s, r, Redirs(s, next).value);
      rs := [Redirection(r.op, file)] + rest;
      var e := Redirs(s, pos).pos;
      TokenMoves(s, Skip(s, pos), Arrow(r.op));
      ReadsOne(s, TokenAt(s, Skip(s, pos)).1, Text(file), RedToks(rest), e);
      ReadsOne(s, pos, Arrow(r.op), [Text(file)] + RedToks(rest), e);
      RedToksFirst(Redirection(r.op, file), rest);
    } else {
      NoRedirs(s, pos);
      rs := [];
      NoReds(s, pos);
    }
  }

  lemma {:induction false} RedToksFirst(r: Redirection<string>, rest: seq<Redirection<string>>)
    ensures RedToks([r] + rest) == [Arrow(r.op)] + ([Text(r.file)] + RedToks(rest))
  {
    assert ([r] + rest)[1..] == rest;
  }

  lemma {:induction false} NoReds(s: string, pos: nat)
    requires pos <= |s| && Line(s)
    ensures Reads(s, pos, RedToks([]), Skip(s, pos)) && ReadReds(s, []) == []
  {
  }

  lemma {:induction false} ItemToksFirst(x: Item, rest: seq<Item>)
    ensures x.Arg? ==>
              && ItemToks([x] + rest) == [Text(x.w)] + ItemToks(rest)
              && ArgsOf([x] + rest) == [x.w] + ArgsOf(rest) && RedsOf([x] + rest) == RedsOf(rest)
    ensures x.Red? ==>
              && ItemToks([x] + rest) == [Arrow(x.op)] + ([Text(x.file)] + ItemToks(rest))
              && ArgsOf([x] + rest) == ArgsOf(rest) && RedsOf([x] + rest) == [Redirection(x.op, x.file)] + RedsOf(rest)
  {
    assert ([x] + rest)[1..] == rest;
    ItemFirst([x] + rest);
  }

  /** When the loop goes on, it is with a word, and there is room for it. */
  lemma {:induction false} AfterWord(s: string, pos: nat, argv: seq<Span>, redirs: seq<Redirection<Span>>)
    requires pos <= |s| && Line(s) && |argv| < MAXARGS
    requires (forall w :: w in argv ==> SpanOk(s, w)) && (forall x :: x in redirs ==> SpanOk(s, x.file))
    requires After(s, pos, argv, redirs).Ok? && !TokenAt(s, Skip(s, pos)).0.Redirect?
    ensures StopAt(s, Skip(s, pos)) || (TokenAt(s, Skip(s, pos)).0 == Word && |argv| + 1 < MAXARGS)
  {
    hide SpanOk, Wrap;
    NoRedirs(s, pos);
    SkipTwice(s, pos);
    TokenChars(s, Skip(s, pos));
  }

  lemma {:induction false} ItemsSound(s: string, pos: nat, argv: seq<Span>, redirs: seq<Redirection<Span>>)
    returns (items: seq<Item>, ws: seq<Span>, rs: seq<Redirection<Span>>)
    requires pos <= |s| && Line(s) && |argv| < MAXARGS
    requires (forall w :: w in argv ==> SpanOk(s, w)) && (forall x :: x in redirs ==> SpanOk(s, x.file))
    requires After(s, pos, argv, redirs).Ok?
    ensures Reads(s, pos, ItemToks(items), After(s, pos, argv, redirs).pos)
    ensures |argv| + |ArgsOf(items)| < MAXARGS && (forall i :: 0 <= i < |items| ==> LegalItem(items[i]))
    ensures (forall w :: w in ws ==> SpanOk(s, w)) && (forall x :: x in rs ==> SpanOk(s, x.file))
    ensures Strings(s, ws) == Strings(s, argv) + ArgsOf(items) && ReadReds(s, rs) == ReadReds(s, redirs) + RedsOf(items)
    ensures After(s, pos, argv, redirs).value == Wrap(Exec(ws), rs)
    decreases |s| - pos
  {
    hide TokenAt, SpanOk, Redirs, Skip, Stands, After, Line, Wrap, Strings, ReadReds, StopAt, Reads, ItemToks, ArgsOf,
         RedsOf, LegalWord;
    var q := Skip(s, pos);
    var e := After(s, pos, argv, redirs).pos;
    if TokenAt(s, q).0.Redirect? {
      AfterRedirs(s, pos, argv, redirs);
      var r, file, next := RedirsHead(s, pos);
      AfterRed(s, pos, argv, redirs, r, next);
      RedsMore(s, redirs, r);
      var rest;
      rest, ws, rs := ItemsSound(s, next, argv, redirs + [r]);
      items := [Red(r.op, file)] + rest;
      ItemToksFirst(Red(r.op, file), rest);
      TokenMoves(s, q, Arrow(r.op));
      ReadsOne(s, TokenAt(s, q).1, Text(file), ItemToks(rest), e);
      ReadsOne(s, pos, Arrow(r.op), [Text(file)] + ItemToks(rest), e);
      AddMiddle(ReadReds(s, redirs), Redirection(r.op, file), RedsOf(rest));
    } else {
      AfterWord(s, pos, argv, redirs);
      if StopAt(s, q) {
        items, ws, rs := [], argv, redirs;
        AfterStop(s, pos, argv, redirs);
        ReadsNone(s, pos);
        ItemsNone(s, pos, argv, redirs, q);
        NoItems();
      } else {
        WordLegal(s, q);
        var span := Span(q, TokenAt(s, q).1);
        var w := s[q..span.eq];
        AfterArg(s, pos, argv, redirs, w);
        StringsMore(s, argv, span);
        var rest;
        rest, ws, rs := ItemsSound(s, span.eq, argv + [span], redirs);
        items := [Arg(w)] + rest;
        ItemToksFirst(Arg(w), rest);
        ReadsOne(s, pos, Text(w), ItemToks(rest), e);
        AddMiddle(Strings(s, argv), w, ArgsOf(rest));
      }
    }
  }

  lemma {:induction false} AfterRedirs(s: string, pos: nat, argv: seq<Span>, redirs: seq<Redirection<Span>>)
    requires pos <= |s| && Line(s) && |argv| < MAXARGS
    requires (forall w :: w in argv ==> SpanOk(s, w)) && (forall x :: x in redirs ==> SpanOk(s, x.file))
    requires After(s, pos, argv, redirs).Ok?
    ensures Redirs(s, pos).Ok?
  {
    hide SpanOk, Redirs, Args;
  }

  lemma {:induction false} ReadsNone(s: string, pos: nat)
    requires pos <= |s| && Line(s)
    ensures Reads(s, pos, ItemToks([]), Skip(s, pos)) && Reads(s, pos, Amps(0), Skip(s, pos))
  {
  }

  lemma {:induction false} NoItems()
    ensures ArgsOf([]) == [] && RedsOf([]) == []
  {
  }

  lemma {:induction false} PlainSound(s: string, pos: nat) returns (x: Simp)
    requires pos <= |s| && Line(s) && Simple(s, pos).Ok? && At(s, Skip(s, pos)) != '('
    ensures LegalSimp(x) && Reads(s, pos, SimpToks(x), Simple(s, pos).pos)
    ensures Read(s, Simple(s, pos).value) == SimpMeans(x)
  {
    hide TokenAt, SpanOk, Redirs, Skip, After, Line, Reads, ItemToks, Simple, LegalItem;
    SimpleIsAfter(s, pos);
    var items, ws, rs := ItemsSound(s, pos, [], []);
    x := Plain(items);
    ReadWrap(s, Exec(ws), rs);
    assert Strings(s, []) + ArgsOf(items) == ArgsOf(items) && ReadReds(s, []) + RedsOf(items) == RedsOf(items);
    WrapIs(Exec(ArgsOf(items)), RedsOf(items));
  }

  /** What a block that parses consists of. */
  lemma {:induction false} BlockParts(s: string, pos: nat) returns (m: nat)
    requires pos < |s| && Line(s) && s[pos] == '(' && Skip(s, pos) == pos && Simple(s, pos).Ok?
    ensures CmdLine(s, pos + 1).Ok? && m == CmdLine(s, pos + 1).pos < |s| && s[m] == ')' && Skip(s, m) == m
    ensures Redirs(s, m + 1).Ok? && (forall x :: x in Redirs(s, m + 1).value ==> SpanOk(s, x.file))
    ensures Simple(s, pos) == Ok(Wrap(CmdLine(s, pos + 1).value, Redirs(s, m + 1).value), Redirs(s, m + 1).pos)
  {
    hide CmdLine, Redirs, SpanOk, SpansOk, Wrap;
    CmdLineSkip(s, pos + 1);
    var p := Skip(s, CmdLine(s, pos + 1).pos);
    LineSkipped(s, pos + 1);
    m := CmdLine(s, pos + 1).pos;
    RedirsSkip(s, m + 1);
  }

  /** Parsed lines end before a token. */
  lemma {:induction false} LineSkipped(s: string, pos: nat)
    requires pos <= |s| && Line(s)
    ensures Pipeline(s, pos).Ok? ==> Skip(s, Pipeline(s, pos).pos) == Pipeline(s, pos).pos
    ensures CmdLine(s, pos).Ok? ==> Skip(s, CmdLine(s, pos).pos) == CmdLine(s, pos).pos
    decreases |s| - pos
  {
    hide Simple;
    PipeSkipped(s, pos);
    if Pipeline(s, pos).Ok? {
      var b := Backs(s, Pipeline(s, pos).pos, Pipeline(s, pos).value);
      if At(s, b.pos) == ';' {
        LineSkipped(s, Skip(s, b.pos + 1));
      }
    }
  }

  lemma {:induction false} PipeSkipped(s: string, pos: nat)
    requires pos <= |s| && Line(s)
    ensures Pipeline(s, pos).Ok? ==> Skip(s, Pipeline(s, pos).pos) == Pipeline(s, pos).pos
    decreases |s| - pos
  {
    hide Simple;
    var r := Simple(s, pos);
    if r.Ok? {
      var p := Skip(s, r.pos);
      SkipTwice(s, r.pos);
      if At(s, p) == '|' {
        PipeSkipped(s, Skip(s, p + 1));
      }
    }
  }

  lemma {:induction false} SimpSound(s: string, pos: nat) returns (x: Simp)
    requires pos <= |s| && Line(s) && Simple(s, pos).Ok?
    ensures LegalSimp(x) && Reads(s, pos, SimpToks(x), Simple(s, pos).pos)
    ensures Read(s, Simple(s, pos).value) == SimpMeans(x)
    decreases |s| - pos, 0
  {
    hide TokenAt, SpanOk, Redirs, Skip, Line, Reads, Simple, CmdLine, Wrap, LnToks, RedToks, SpansOk, Read,
      LnMeans, LegalWord;
    var q := Skip(s, pos);
    if At(s, q) != '(' {
      x := PlainSound(s, pos);
    } else {
      SkipTwice(s, pos);
      SimpleSkip(s, pos);
      var m := BlockParts(s, q);
      var line := LnSound(s, q + 1);
      var redirs := RedirsSound(s, m + 1);
      x := Group(line, redirs);
      ReadWrap(s, CmdLine(s, q + 1).value, Redirs(s, m + 1).value);
      WrapIs(LnMeans(line), redirs);
      GroupReads(s, pos, line, m, redirs, Redirs(s, m + 1).pos);
    }
  }

  lemma {:induction false} GroupReads(s: string, pos: nat, line: Ln, m: nat, redirs: seq<Redirection<string>>, e: nat)
    requires pos <= |s| && Line(s) && Skip(s, pos) < |s| && s[Skip(s, pos)] == '(' && m < |s| && s[m] == ')'
    requires Reads(s, Skip(s, pos) + 1, LnToks(line), m) && Reads(s, m + 1, RedToks(redirs), e) && Skip(s, m) == m
    ensures Reads(s, pos, SimpToks(Group(line, redirs)), e)
  {
    hide Reads, LnToks, RedToks;
    ReadsOne(s, m, Mark(')'), RedToks(redirs), e);
    ReadsJoin(s, Skip(s, pos) + 1, LnToks(line), m, [Mark(')')] + RedToks(redirs), e);
    ReadsOne(s, pos, Mark('('), LnToks(line) + ([Mark(')')] + RedToks(redirs)), e);
  }

  lemma {:induction false} MarkReads(s: string, pos: nat, ts: seq<Tok>, m: nat, p: nat, c: char, us: seq<Tok>, e: nat)
    requires pos <= |s| && Line(s) && m <= |s| && Reads(s, pos, ts, m) && p == Skip(s, m) && p < |s| && s[p] == c
    requires c in "|&;)" && Reads(s, p + 1, us, e)
    ensures Reads(s, pos, ts + ([Mark(c)] + us), e)
  {
    hide Reads;
    ReadsOne(s, m, Mark(c), us, e);
    ReadsJoin(s, pos, ts, m, [Mark(c)] + us, e);
  }

  lemma {:induction false} ReadsSettle(s: string, pos: nat, ts: seq<Tok>, m: nat)
    requires pos <= |s| && Line(s) && Reads(s, pos, ts, m)
    ensures m <= |s| && Skip(s, m) == m
  {
    ReadsEnd(s, pos, ts, m);
  }

  lemma {:induction false} PipSound(s: string, pos: nat) returns (x: Pip)
    requires pos <= |s| && Line(s) && Pipeline(s, pos).Ok?
    ensures LegalPip(x) && Reads(s, pos, PipToks(x), Pipeline(s, pos).pos)
    ensures Read(s, Pipeline(s, pos).value) == PipMeans(x)
    decreases |s| - pos, 1
  {
    hide TokenAt, Line, Reads, Simple, SimpToks, SpansOk, LegalSimp, SimpMeans, Skip;
    var simp := SimpSound(s, pos);
    var r := Simple(s, pos);
    ReadsSettle(s, pos, SimpToks(simp), r.pos);
    if At(s, r.pos) != '|' {
      x := Single(simp);
    } else {
      PipelineSkip(s, r.pos + 1);
      var rest := PipSound(s, r.pos + 1);
      x := Piped(simp, rest);
      MarkReads(s, pos, SimpToks(simp), r.pos, r.pos, '|', PipToks(rest), Pipeline(s, pos).pos);
    }
  }

  lemma {:induction false} AmpsSound(s: string, pos: nat, c: Cmd<Span>) returns (n: nat)
    requires pos <= |s| && Line(s) && SpansOk(s, c)
    ensures Reads(s, pos, Amps(n), Backs(s, pos, c).pos) && Read(s, Backs(s, pos, c).value) == BackTimes(Read(s, c), n)
    decreases |s| - pos
  {
    hide Reads, Skip;
    var p := Skip(s, pos);
    if At(s, p) == '&' {
      BacksSkip(s, p + 1, Back(c));
      n := AmpsSound(s, p + 1, Back(c));
      n := n + 1;
      ReadsOne(s, pos, Mark('&'), Amps(n - 1), Backs(s, pos, c).pos);
    } else {
      n := 0;
      ReadsNone(s, pos);
    }
  }

  lemma {:induction false} LnSound(s: string, pos: nat) returns (x: Ln)
    requires pos <= |s| && Line(s) && CmdLine(s, pos).Ok?
    ensures LegalLn(x) && Reads(s, pos, LnToks(x), CmdLine(s, pos).pos)
    ensures Read(s, CmdLine(s, pos).value) == LnMeans(x)
    decreases |s| - pos, 2
  {
    hide TokenAt, Line, Reads, Pipeline, PipToks, SpansOk, LegalPip, PipMeans, Skip, Backs, Amps, BackTimes;
    var pip := PipSound(s, pos);
    var r := Pipeline(s, pos);
    var amps := AmpsSound(s, r.pos, r.value);
    var b := Backs(s, r.pos, r.value);
    ReadsSettle(s, r.pos, Amps(amps), b.pos);
    if At(s, b.pos) != ';' {
      x := Final(pip, amps);
      ReadsJoin(s, pos, PipToks(pip), r.pos, Amps(amps), b.pos);
    } else {
      CmdLineSkip(s, b.pos + 1);
      var rest := LnSound(s, b.pos + 1);
      x := Then(pip, amps, rest);
      var e := CmdLine(s, pos).pos;
      MarkReads(s, r.pos, Amps(amps), b.pos, b.pos, ';', LnToks(rest), e);
      ReadsJoin(s, pos, PipToks(pip), r.pos, Amps(amps) + ([Mark(';')] + LnToks(rest)), e);
    }
  }

  // ----- tokens and white space ------------------------------------------------------------------------

  lemma {:induction false} SkipGap(s: string, pos: nat, q: nat)
    requires pos <= q <= |s| && (forall i :: pos <= i < q ==> White(s[i])) && !White(At(s, q))
    ensures Skip(s, pos) == q
    decreases q - pos
  {
    if pos < q {
      SkipGap(s, pos + 1, q);
    }
  }

  lemma {:induction false} WordEndAt(s: string, pos: nat, e: nat)
    requires pos <= e <= |s| && (forall i :: pos <= i < e ==> WordChar(s[i])) && !WordChar(At(s, e))
    ensures WordEnd(s, pos) == e
    decreases e - pos
  {
    if pos < e {
      WordEndAt(s, pos + 1, e);
    }
  }

  /** Nothing that may follow token t, up to the next character, changes how it is read. */
  predicate Fits(t: Tok, c: char) {
    match t
    case Text(w) => !WordChar(c) && (w == "2" ==> c != '>')
    case Arrow(op) => op.Out? || op.Err? ==> c != '>'
    case Mark(_) => true
  }

  lemma {:induction false} WordHere(s: string, q: nat, w: string)
    requires Line(s) && q + |w| <= |s| && s[q..q + |w|] == w && LegalWord(w) && Fits(Text(w), At(s, q + |w|))
    ensures !White(At(s, q)) && TokenAt(s, q) == (Word, q + |w|)
  {
    forall i | q <= i < q + |w| ensures WordChar(s[i]) {
      assert s[i] == w[i - q];
      Chars(s[i]);
    }
    WordEndAt(s, q, q + |w|);
    assert |w| > 1 ==> WordChar(s[q + 1]);
    assert |w| == 1 ==> w == [s[q]];
  }

  lemma {:induction false} TokHere(s: string, q: nat, t: Tok)
    requires Line(s) && q + |TokText(t)| <= |s| && s[q..q + |TokText(t)|] == TokText(t) && LegalTok(t)
    requires Fits(t, At(s, q + |TokText(t)|))
    ensures !White(At(s, q)) && Stands(s, q, t) && TokenAt(s, q).1 == q + |TokText(t)|
  {
    match t
    case Text(w) => WordHere(s, q, w);
    case Mark(c) => assert s[q] == TokText(t)[0];
    case Arrow(op) =>
      var text := OpText(op);
      assert s[q] == text[0];
      assert |text| > 1 ==> s[q + 1] == text[1];
      assert |text| > 2 ==> s[q + 2] == text[2];
  }

  /** The first character of a token. */
  lemma {:induction false} TokStart(t: Tok)
    requires LegalTok(t)
    ensures TokText(t) != "" && TokText(t)[0] !in BLANKS && !White(TokText(t)[0])
    ensures TokText(t)[0] == '>' <==> t == Arrow(Out) || t == Arrow(Append)
    ensures WordChar(TokText(t)[0]) <==> t.Text? || t == Arrow(Err) || t == Arrow(ErrAppend)
  {
    Chars(TokText(t)[0]);
  }

  lemma {:induction false} SpacedRest(gaps: seq<string>, ts: seq<Tok>)
    requires Spaced(gaps, ts) && ts != []
    ensures Spaced(gaps[1..], ts[1..]) && Blank(gaps[0]) && Blank(gaps[1])
    ensures |ts| > 1 && Clash(ts[0], ts[1]) ==> gaps[1] != ""
  {
    hide Clash, Blank;
    forall i | 0 <= i < |ts[1..]| - 1 && Clash(ts[1..][i], ts[1..][i + 1]) ensures gaps[1..][i + 1] != "" {
      assert Clash(ts[i + 1], ts[i + 2]);
    }
  }

  /** What follows token 0 in a layout fits. */
  lemma {:induction false} FollowFits(s: string, p: nat, gaps: seq<string>, ts: seq<Tok>)
    requires Spaced(gaps, ts) && ts != [] && (forall i :: 0 <= i < |ts| ==> LegalTok(ts[i]))
    requires p <= |s| && s[p..] == Layout(gaps[1..], ts[1..])
    ensures Fits(ts[0], At(s, p))
  {
    SpacedRest(gaps, ts);
    hide LegalTok, TokText, BLANKS;
    var rest := Layout(gaps[1..], ts[1..]);
    assert rest != "" ==> At(s, p) == rest[0];
    if gaps[1] != "" {
      assert rest[0] == gaps[1][0];
      Chars(gaps[1][0]);
    } else if |ts| > 1 {
      TokStart(ts[1]);
      assert rest[0] == TokText(ts[1])[0];
    }
  }

  lemma {:induction false} GapSkipped(s: string, pos: nat, gaps: seq<string>, ts: seq<Tok>)
    requires Spaced(gaps, ts) && (forall i :: 0 <= i < |ts| ==> LegalTok(ts[i]))
    requires pos <= |s| && s[pos..] == Layout(gaps, ts)
    ensures pos + |gaps[0]| <= |s| && Skip(s, pos) == pos + |gaps[0]|
    ensures ts == [] ==> pos + |gaps[0]| == |s|
    ensures ts != [] ==> s[pos + |gaps[0]|..] == TokText(ts[0]) + Layout(gaps[1..], ts[1..])
  {
    hide LegalTok, TokText, BLANKS;
    var q := pos + |gaps[0]|;
    var tail := if ts == [] then "" else TokText(ts[0]) + Layout(gaps[1..], ts[1..]);
    assert s[pos..] == gaps[0] + tail;
    assert s[q..] == tail;
    forall i | pos <= i < q ensures White(s[i]) {
      assert s[i] == gaps[0][i - pos];
      Chars(s[i]);
    }
    if ts != [] {
      TokStart(ts[0]);
      assert s[q] == TokText(ts[0])[0];
    }
    SkipGap(s, pos, q);
  }

  /** A layout reads as its tokens. */
  lemma {:induction false} LayoutReads(s: string, pos: nat, gaps: seq<string>, ts: seq<Tok>)
    requires Line(s) && Spaced(gaps, ts) && (forall i :: 0 <= i < |ts| ==> LegalTok(ts[i]))
    requires pos <= |s| && s[pos..] == Layout(gaps, ts)
    ensures Reads(s, pos, ts, |s|)
    decreases |ts|
  {
    hide LegalTok, TokText, Stands, TokenAt, Skip, Line, Clash, Blank, Fits, Layout;
    GapSkipped(s, pos, gaps, ts);
    if ts != [] {
      var q := pos + |gaps[0]|;
      var text, rest := TokText(ts[0]), Layout(gaps[1..], ts[1..]);
      Cut(s, q, text, rest);
      SpacedRest(gaps, ts);
      FollowFits(s, q + |text|, gaps, ts);
      TokHere(s, q, ts[0]);
      LayoutReads(s, q + |text|, gaps[1..], ts[1..]);
    }
  }

  lemma {:induction false} Cut(s: string, q: nat, a: string, b: string)
    requires q <= |s| && s[q..] == a + b
    ensures q + |a| <= |s| && s[q..q + |a|] == a && s[q + |a|..] == b
  {
    assert s[q..q + |a|] == s[q..][..|a|];
    assert s[q + |a|..] == s[q..][|a|..];
  }

  /** The text of a token that stands somewhere, and that it fits what follows. */
  lemma {:induction false} StandsText(s: string, q: nat, t: Tok)
    requires q <= |s| && Line(s) && !White(At(s, q)) && Stands(s, q, t)
    ensures var e := TokenAt(s, q).1;
            q < e <= |s| && s[q..e] == TokText(t) && LegalTok(t) && Fits(t, At(s, e))
  {
    var e := TokenAt(s, q).1;
    match t
    case Text(w) => WordLegal(s, q);
    case Mark(c) => assert s[q..e] == [s[q]];
    case Arrow(op) =>
      assert e == q + |OpText(op)|;
      assert |OpText(op)| == 1 ==> s[q..e] == [s[q]];
      assert |OpText(op)| == 2 ==> s[q..e] == [s[q], s[q + 1]];
      assert |OpText(op)| == 3 ==> s[q..e] == [s[q], s[q + 1], s[q + 2]];
  }

  lemma {:induction false} SkippedBlank(s: string, pos: nat)
    requires pos <= |s|
    ensures Blank(s[pos..Skip(s, pos)])
    decreases |s| - pos
  {
    if pos < |s| && White(s[pos]) {
      SkippedBlank(s, pos + 1);
      Chars(s[pos]);
      assert s[pos..Skip(s, pos)] == [s[pos]] + s[pos + 1..Skip(s, pos)];
    }
  }

  lemma {:induction false} SpacedMore(gap: string, gaps: seq<string>, t: Tok, ts: seq<Tok>)
    requires Blank(gap) && Spaced(gaps, ts) && (ts != [] && Clash(t, ts[0]) ==> gaps[0] != "")
    ensures Spaced([gap] + gaps, [t] + ts)
    ensures Layout([gap] + gaps, [t] + ts) == gap + (TokText(t) + Layout(gaps, ts))
  {
    hide Clash, Blank, TokText;
    var g, u := [gap] + gaps, [t] + ts;
    assert g[1..] == gaps && u[1..] == ts;
    forall i | 0 <= i < |u| - 1 && Clash(u[i], u[i + 1]) ensures g[i + 1] != "" {
      if i > 0 {
        assert Clash(ts[i - 1], ts[i]);
      }
    }
  }

  /** What reads as tokens is a layout of them. */
  lemma {:induction false} ReadsLayout(s: string, pos: nat, ts: seq<Tok>) returns (gaps: seq<string>)
    requires pos <= |s| && Line(s) && Reads(s, pos, ts, |s|)
    ensures Spaced(gaps, ts) && s[pos..] == Layout(gaps, ts) && gaps[0] == s[pos..Skip(s, pos)]
    decreases |ts|
  {
    hide LegalTok, TokText, Stands, TokenAt, Skip, Line, Clash, Blank, Fits;
    var q := Skip(s, pos);
    SkippedBlank(s, pos);
    if ts == [] {
      gaps := [s[pos..q]];
    } else {
      StandsText(s, q, ts[0]);
      var e := TokenAt(s, q).1;
      var rest := ReadsLayout(s, e, ts[1..]);
      gaps := [s[pos..q]] + rest;
      if ts[1..] != [] && rest[0] == "" {
        NoClash(s, e, ts[0], ts[1]);
      }
      SpacedMore(s[pos..q], rest, ts[0], ts[1..]);
      assert [ts[0]] + ts[1..] == ts;
      assert s[pos..] == s[pos..q] + (s[q..e] + s[e..]);
    }
  }

  lemma {:induction false} NoClash(s: string, e: nat, t: Tok, u: Tok)
    requires e <= |s| && Line(s) && Fits(t, At(s, e)) && Skip(s, e) == e && Stands(s, e, u)
    ensures !Clash(t, u)
  {
    StandsText(s, e, u);
    TokStart(u);
    assert At(s, e) == s[e..TokenAt(s, e).1][0];
  }

  // ----- tokens of legal sentences --------------------------------------------------------------------

  predicate LegalToks(ts: seq<Tok>) {
    forall i :: 0 <= i < |ts| ==> LegalTok(ts[i])
  }

  lemma {:induction false} ItemsLegal(items: seq<Item>)
    requires forall i :: 0 <= i < |items| ==> LegalItem(items[i])
    ensures LegalToks(ItemToks(items))
  {
    if items != [] {
      assert LegalItem(items[0]);
      ItemsLegal(items[1..]);
    }
  }

  lemma {:induction false} RedsLegal(redirs: seq<Redirection<string>>)
    requires forall i :: 0 <= i < |redirs| ==> LegalWord(redirs[i].file)
    ensures LegalToks(RedToks(redirs))
  {
    if redirs != [] {
      RedsLegal(redirs[1..]);
    }
  }

  lemma {:induction false} AmpsLegal(n: nat)
    ensures LegalToks(Amps(n))
  {
    if n > 0 {
      AmpsLegal(n - 1);
    }
  }

  lemma {:induction false} SimpLegal(x: Simp)
    requires LegalSimp(x)
    ensures LegalToks(SimpToks(x))
  {
    hide LegalWord;
    match x
    case Plain(items) => ItemsLegal(items);
    case Group(line, redirs) =>
      LnLegal(line);
      RedsLegal(redirs);
  }

  lemma {:induction false} PipLegal(x: Pip)
    requires LegalPip(x)
    ensures LegalToks(PipToks(x))
  {
    hide LegalSimp, SimpToks;
    match x
    case Single(simp) => SimpLegal(simp);
    case Piped(simp, rest) =>
      SimpLegal(simp);
      PipLegal(rest);
  }

  lemma {:induction false} LnLegal(x: Ln)
    requires LegalLn(x)
    ensures LegalToks(LnToks(x))
  {
    hide LegalPip, PipToks;
    match x
    case Final(pip, amps) =>
      PipLegal(pip);
      AmpsLegal(amps);
    case Then(pip, amps, rest) =>
      PipLegal(pip);
      AmpsLegal(amps);
      LnLegal(rest);
  }

  lemma {:induction false} LayoutLine(gaps: seq<string>, ts: seq<Tok>)
    requires Spaced(gaps, ts) && LegalToks(ts)
    ensures Line(Layout(gaps, ts))
    decreases |ts|
  {
    hide Clash;
    if ts == [] {
      BlankLine(gaps[0]);
    } else {
      SpacedRest(gaps, ts);
      BlankLine(gaps[0]);
      TokLine(ts[0]);
      LayoutLine(gaps[1..], ts[1..]);
    }
  }

  lemma {:induction false} BlankLine(gap: string)
    requires Blank(gap)
    ensures Line(gap)
  {
  }

  lemma {:induction false} TokLine(t: Tok)
    requires LegalTok(t)
    ensures Line(TokText(t))
  {
  }

  // ----- the theorems ------------------------------------------------------------------------------------

  /** Every sentence, however it is spaced, is accepted, and parses to what it means. */
  lemma {:induction false} SentencesParse(gaps: seq<string>, x: Ln)
    requires LegalLn(x) && Spaced(gaps, LnToks(x))
    ensures var s := Layout(gaps, LnToks(x));
            Line(s) && Parse(s).Ok? && Read(s, Parse(s).value) == LnMeans(x)
  {
    hide LegalLn, Clash, Blank, LnToks, Read, LnMeans, CmdLine, Reads, SpansOk, LegalTok, Layout;
    var ts := LnToks(x);
    var s := Layout(gaps, ts);
    LnLegal(x);
    LayoutLine(gaps, ts);
    assert s[0..] == s;
    LayoutReads(s, 0, gaps, ts);
    EndStops(s);
    var c := LnParse(s, 0, x, |s|);
  }

  lemma {:induction false} EndStops(s: string)
    requires Line(s)
    ensures LineStop(s, |s|)
  {
  }

  /** Whatever is accepted is such a sentence. */
  lemma {:induction false} ParsedIsSentence(s: string) returns (gaps: seq<string>, x: Ln)
    requires Line(s) && Parse(s).Ok?
    ensures LegalLn(x) && Spaced(gaps, LnToks(x)) && s == Layout(gaps, LnToks(x))
    ensures Read(s, Parse(s).value) == LnMeans(x)
  {
    hide LegalLn, Spaced, LnToks, Read, LnMeans, CmdLine, Reads, SpansOk, Layout;
    x := LnSound(s, 0);
    LineSkipped(s, 0);
    gaps := ReadsLayout(s, 0, LnToks(x));
    assert s[0..] == s;
  }

  // ----- every tree can be written --------------------------------------------------------------------------

  predicate Legal(t: Tree) {
    match t
    case Exec(argv) => |argv| < MAXARGS && forall i :: 0 <= i < |argv| ==> LegalWord(argv[i])
    case Redir(c, _, file) => Legal(c) && LegalWord(file)
    case Pipe(l, r) => Legal(l) && Legal(r)
    case List(l, r) => Legal(l) && Legal(r)
    case Back(c) => Legal(c)
  }

  function Items(argv: seq<string>): (items: seq<Item>) {
    if argv == [] then [] else [Arg(argv[0])] + Items(argv[1..])
  }

  /** A sentence for a tree, with every part in parentheses. */
  function Full(t: Tree): (x: Ln) {
    match t
    case Exec(argv) => Final(Single(Plain(Items(argv))), 0)
    case Redir(c, op, file) => Final(Single(Group(Full(c), [Redirection(op, file)])), 0)
    case Pipe(l, r) => Final(Piped(Group(Full(l), []), Single(Group(Full(r), []))), 0)
    case List(l, r) => Then(Single(Group(Full(l), [])), 0, Final(Single(Group(Full(r), [])), 0))
    case Back(c) => Final(Single(Group(Full(c), [])), 1)
  }

  lemma {:induction false} ItemsMean(argv: seq<string>)
    ensures ArgsOf(Items(argv)) == argv && RedsOf(Items(argv)) == [] && |Items(argv)| == |argv|
    ensures forall i :: 0 <= i < |argv| ==> Items(argv)[i] == Arg(argv[i])
  {
    if argv != [] {
      ItemsMean(argv[1..]);
      ItemToksFirst(Arg(argv[0]), Items(argv[1..]));
    }
  }

  lemma {:induction false} FoldOne(t: Tree, r: Redirection<string>)
    ensures Redirected(t, []) == t && Redirected(t, [r]) == Redir(t, r.op, r.file)
  {
    assert [r][1..] == [];
  }

  lemma {:induction false} ExecMeans(argv: seq<string>)
    requires Legal(Exec(argv))
    ensures LegalSimp(Plain(Items(argv))) && SimpMeans(Plain(Items(argv))) == Exec(argv)
  {
    hide Redirected, LegalWord;
    ItemsMean(argv);
    FoldOne(Exec(argv), Redirection(In, ""));
  }

  /** Unfolding the grammar by hand. */
  lemma {:induction false} GroupMeans(t: Tree, redirs: seq<Redirection<string>>)
    requires LegalLn(Full(t)) && LnMeans(Full(t)) == t && forall i :: 0 <= i < |redirs| ==> LegalWord(redirs[i].file)
    ensures LegalSimp(Group(Full(t), redirs)) && SimpMeans(Group(Full(t), redirs)) == Redirected(t, redirs)
  {
    hide Redirected, Full, LegalWord;
  }

  lemma {:induction false} SingleMeans(x: Simp, y: Simp)
    requires LegalSimp(x) && LegalSimp(y)
    ensures LegalPip(Single(x)) && PipMeans(Single(x)) == SimpMeans(x)
    ensures LegalPip(Piped(x, Single(y))) && PipMeans(Piped(x, Single(y))) == Pipe(SimpMeans(x), SimpMeans(y))
  {
    hide LegalSimp, SimpMeans;
    assert LegalPip(Single(y)) && PipMeans(Single(y)) == SimpMeans(y);
  }

  lemma {:induction false} FinalMeans(p: Pip, q: Pip)
    requires LegalPip(p) && LegalPip(q)
    ensures LegalLn(Final(p, 0)) && LnMeans(Final(p, 0)) == PipMeans(p)
    ensures LegalLn(Final(p, 1)) && LnMeans(Final(p, 1)) == Back(PipMeans(p))
    ensures LegalLn(Then(p, 0, Final(q, 0))) && LnMeans(Then(p, 0, Final(q, 0))) == List(PipMeans(p), PipMeans(q))
  {
    hide LegalPip, PipMeans;
    assert LegalLn(Final(q, 0)) && LnMeans(Final(q, 0)) == PipMeans(q);
    assert BackTimes(PipMeans(p), 1) == BackTimes(Back(PipMeans(p)), 0);
  }

  lemma {:induction false} FullMeans(t: Tree)
    requires Legal(t)
    ensures LegalLn(Full(t)) && LnMeans(Full(t)) == t
  {
    hide Redirected, LegalWord, LegalLn, LnMeans, LegalPip, PipMeans, LegalSimp, SimpMeans;
    match t
    case Exec(argv) =>
      ExecMeans(argv);
      SingleMeans(Plain(Items(argv)), Plain(Items(argv)));
      FinalMeans(Single(Plain(Items(argv))), Single(Plain(Items(argv))));
    case Redir(c, op, file) =>
      FullMeans(c);
      OneMeans(c, [Redirection(op, file)]);
      FoldOne(c, Redirection(op, file));
    case Pipe(l, r) =>
      FullMeans(l);
      FullMeans(r);
      TwoMean(l, r);
    case List(l, r) =>
      FullMeans(l);
      FullMeans(r);
      TwoMean(l, r);
    case Back(c) =>
      FullMeans(c);
      OneMeans(c, []);
      FoldOne(c, Redirection(In, ""));
  }

  lemma {:induction false} OneMeans(t: Tree, redirs: seq<Redirection<string>>)
    requires LegalLn(Full(t)) && LnMeans(Full(t)) == t && forall i :: 0 <= i < |redirs| ==> LegalWord(redirs[i].file)
    ensures var p := Single(Group(Full(t), redirs));
            && LegalLn(Final(p, 0)) && LnMeans(Final(p, 0)) == Redirected(t, redirs)
            && LegalLn(Final(p, 1)) && LnMeans(Final(p, 1)) == Back(Redirected(t, redirs))
  {
    hide Redirected, LegalWord, LegalLn, LnMeans, LegalPip, PipMeans, LegalSimp, SimpMeans, Full;
    var x := Group(Full(t), redirs);
    GroupMeans(t, redirs);
    SingleMeans(x, x);
    FinalMeans(Single(x), Single(x));
  }

  lemma {:induction false} TwoMean(l: Tree, r: Tree)
    requires LegalLn(Full(l)) && LnMeans(Full(l)) == l && LegalLn(Full(r)) && LnMeans(Full(r)) == r
    ensures LegalLn(Full(Pipe(l, r))) && LnMeans(Full(Pipe(l, r))) == Pipe(l, r)
    ensures LegalLn(Full(List(l, r))) && LnMeans(Full(List(l, r))) == List(l, r)
  {
    hide Redirected, LegalWord, LegalLn, LnMeans, LegalPip, PipMeans, LegalSimp, SimpMeans;
    var x, y := Group(Full(l), []), Group(Full(r), []);
    GroupMeans(l, []);
    GroupMeans(r, []);
    FoldOne(l, Redirection(In, ""));
    FoldOne(r, Redirection(In, ""));
    SingleMeans(x, y);
    SingleMeans(y, x);
    FinalMeans(Single(x), Single(y));
    FinalMeans(Piped(x, Single(y)), Single(y));
  }

  /** The sentence with one blank around every token. */
  function Print(t: Tree): (s: string) {
    var ts := LnToks(Full(t));
    Layout(seq(|ts| + 1, i => " "), ts)
  }

  /** Round trip: printing any legal tree fully parenthesised and parsing it gives the tree. */
  lemma {:induction false} ParsePrint(t: Tree)
    requires Legal(t)
    ensures Line(Print(t)) && Parse(Print(t)).Ok? && Read(Print(t), Parse(Print(t)).value) == t
  {
    hide LegalLn, LnToks, Read, LnMeans, Full, Layout, Clash, Parse, Line;
    FullMeans(t);
    SentencesParse(seq(|LnToks(Full(t))| + 1, i => " "), Full(t));
  }
}
