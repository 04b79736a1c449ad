/**
 The shell's parser (user/sh.c).  The functions say what is parsed; the methods are
 the source's loops over a cursor, and compute the same.  A panic is an outcome.
 */
module Shell {

  const MAXARGS: nat := 10

  /** A string inside the command line: from q up to eq. */
  datatype Span = Span(q: nat, eq: nat)

  datatype Op = In | Out | Append | Err | ErrAppend     // <  >  >>  2>  2>>

  /** A command tree over words, which are spans after parsing and strings once read. */
  datatype Cmd<W> =
    | Exec(argv: seq<W>)
    | Redir(cmd: Cmd<W>, op: Op, file: W)
    | Pipe(left: Cmd<W>, right: Cmd<W>)
    | List(left: Cmd<W>, right: Cmd<W>)
    | Back(cmd: Cmd<W>)

  datatype Result<T> = Ok(value: T, pos: nat) | Panic

  // ----- characters and tokens ---------------------------------------------------------------

  predicate White(c: char) {
    c == ' ' || c == '\t' || c == '\r' || c == '\n' || c as int == 11
  }

  predicate Symbol(c: char) {
    c == '<' || c == '|' || c == '>' || c == '&' || c == ';' || c == '(' || c == ')'
  }

  predicate WordChar(c: char) {
    !White(c) && !Symbol(c) && c != '\0'
  }

  /** A command line as C has it: no 0 inside, one behind. */
  predicate Line(s: string) {
    '\0' !in s
  }

  function At(s: string, i: nat): (c: char) {
    if i < |s| then s[i] else '\0'
  }

  function Skip(s: string, pos: nat): (r: nat)
    requires pos <= |s|
    ensures pos <= r <= |s| && !White(At(s, r)) && (!White(At(s, pos)) ==> r == pos)
    decreases |s| - pos
  {
    if pos < |s| && White(s[pos]) then Skip(s, pos + 1) else pos
  }

  /** The end of a word that starts at pos. */
  function WordEnd(s: string, pos: nat): (r: nat)
    requires pos <= |s|
    ensures pos <= r <= |s| && !WordChar(At(s, r)) && (forall i :: pos <= i < r ==> WordChar(s[i]))
    ensures WordChar(At(s, pos)) ==> pos < r
    decreases |s| - pos
  {
    if pos < |s| && WordChar(s[pos]) then WordEnd(s, pos + 1) else pos
  }

  datatype Token = End | Word | Redirect(op: Op) | Char(c: char)

  /** What stands at pos, where no white space is, and where it ends. */
  function TokenAt(s: string, pos: nat): (r: (Token, nat))
    requires pos <= |s| && !White(At(s, pos)) && Line(s)
    ensures pos <= r.1 <= |s| && (r.0 != End ==> pos < r.1) && (r.0 == End <==> pos == |s|)
    ensures r.0 == Word ==> SpanOk(s, Span(pos, r.1))
  {
    var c := At(s, pos);
    if pos == |s| then (End, pos)
    else if c == '2' && At(s, pos + 1) == '>' then
      if At(s, pos + 2) == '>' then (Redirect(ErrAppend), pos + 3) else (Redirect(Err), pos + 2)
    else if c == '<' then (Redirect(In), pos + 1)
    else if c == '>' then if At(s, pos + 1) == '>' then (Redirect(Append), pos + 2) else (Redirect(Out), pos + 1)
    else if Symbol(c) then (Char(c), pos + 1)
    else (Word, WordEnd(s, pos))
  }

  /** A span of word characters that ends where they end. */
  predicate SpanOk(s: string, w: Span) {
    w.q < w.eq <= |s| && (forall i :: w.q <= i < w.eq ==> WordChar(s[i])) && !WordChar(At(s, w.eq))
  }

  // ----- commands -------------------------------------------------------------------------------

  datatype Redirection<W> = Redirection(op: Op, file: W)

  /** All words of a parsed command are proper spans of the line. */
  predicate SpansOk(s: string, cmd: Cmd<Span>) {
    match cmd
    case Exec(argv) => forall w :: w in argv ==> SpanOk(s, w)
    case Redir(c, _, file) => SpansOk(s, c) && SpanOk(s, file)
    case Pipe(l, r) => SpansOk(s, l) && SpansOk(s, r)
    case List(l, r) => SpansOk(s, l) && SpansOk(s, r)
    case Back(c) => SpansOk(s, c)
  }

  lemma {:induction false} WrapSpans(s: string, cmd: Cmd<Span>, redirs: seq<Redirection<Span>>)
    requires SpansOk(s, cmd) && forall x :: x in redirs ==> SpanOk(s, x.file)
    ensures SpansOk(s, Wrap(cmd, redirs))
  {
    if redirs != [] {
      assert redirs[|redirs| - 1] in redirs;
      WrapSpans(s, cmd, redirs[..|redirs| - 1]);
    }
  }

  function Wrap<W>(cmd: Cmd<W>, redirs: seq<Redirection<W>>): (c: Cmd<W>) {
    if redirs == [] then cmd
    else
      var last := redirs[|redirs| - 1];
      Redir(Wrap(cmd, redirs[..|redirs| - 1]), last.op, last.file)
  }

  /** The redirections from pos on. */
  function Redirs(s: string, pos: nat): (r: Result<seq<Redirection<Span>>>)
    requires pos <= |s| && Line(s)
    ensures r.Ok? ==> pos <= r.pos <= |s| && forall x :: x in r.value ==> SpanOk(s, x.file)
    decreases |s| - pos
  {
    var p := Skip(s, pos);
    var t := TokenAt(s, p);
    if !t.0.Redirect? then Ok([], p)
    else
      var q := Skip(s, t.1);
      var f := TokenAt(s, q);
      if f.0 != Word then Panic
      else
        var rest := Redirs(s, Skip(s, f.1));
        if rest.Panic? then Panic else Ok([Redirection(t.0.op, Span(q, f.1))] + rest.value, rest.pos)
  }

  /** The rest of a simple command, given the arguments and redirections so far. */
  function Args(s: string, pos: nat, argv: seq<Span>, redirs: seq<Redirection<Span>>): (r: Result<Cmd<Span>>)
    requires pos <= |s| && Line(s) && |argv| < MAXARGS
    requires (forall w :: w in argv ==> SpanOk(s, w)) && (forall x :: x in redirs ==> SpanOk(s, x.file))
    ensures r.Ok? ==> pos <= r.pos <= |s| && SpansOk(s, r.value)
    decreases |s| - pos
  {
    var p := Skip(s, pos);
    var t := TokenAt(s, p);
    if t.0.End? || (t.0.Char? && t.0.c != '(') then
      WrapSpans(s, Exec(argv), redirs);
      Ok(Wrap(Exec(argv), redirs), p)
    else if t.0 != Word || |argv| + 1 >= MAXARGS then Panic
    else
      var r := Redirs(s, Skip(s, t.1));
      if r.Panic? then Panic else Args(s, r.pos, argv + [Span(p, t.1)], redirs + r.value)
  }

  /** parseblock: a line in parentheses and the redirections behind it. */
  function Block(s: string, pos: nat): (r: Result<Cmd<Span>>)
    requires pos < |s| && Line(s) && s[pos] == '('
    ensures r.Ok? ==> pos <= r.pos <= |s| && SpansOk(s, r.value)
    decreases |s| - pos, 0
  {
    var r := CmdLine(s, Skip(s, pos + 1));
    if r.Panic? then Panic
    else
      var p := Skip(s, r.pos);
      if At(s, p) != ')' then Panic
      else
        var rd := Redirs(s, Skip(s, p + 1));
        if rd.Panic? then Panic
        else
          WrapSpans(s, r.value, rd.value);
          Ok(Wrap(r.value, rd.value), rd.pos)
  }

  /** parseexec */
  function Simple(s: string, pos: nat): (r: Result<Cmd<Span>>)
    requires pos <= |s| && Line(s)
    ensures r.Ok? ==> pos <= r.pos <= |s| && SpansOk(s, r.value)
    decreases |s| - pos, 1
  {
    var p := Skip(s, pos);
    if At(s, p) == '(' then Block(s, p)
    else
      var rd := Redirs(s, p);
      if rd.Panic? then Panic else Args(s, rd.pos, [], rd.value)
  }

  /** parsepipe */
  function Pipeline(s: string, pos: nat): (r: Result<Cmd<Span>>)
    requires pos <= |s| && Line(s)
    ensures r.Ok? ==> pos <= r.pos <= |s| && SpansOk(s, r.value)
    decreases |s| - pos, 2
  {
    var r := Simple(s, pos);
    if r.Panic? then Panic
    else
      var p := Skip(s, r.pos);
      if At(s, p) != '|' then Ok(r.value, p)
      else
        var right := Pipeline(s, Skip(s, p + 1));
        if right.Panic? then Panic else Ok(Pipe(r.value, right.value), right.pos)
  }

  /** parseline's loop over '&'. */
  function Backs(s: string, pos: nat, cmd: Cmd<Span>): (r: Result<Cmd<Span>>)
    requires pos <= |s| && SpansOk(s, cmd)
    ensures r.Ok? && pos <= r.pos <= |s| && SpansOk(s, r.value) && !White(At(s, r.pos))
    decreases |s| - pos
  {
    var p := Skip(s, pos);
    if At(s, p) == '&' then Backs(s, Skip(s, p + 1), Back(cmd)) else Ok(cmd, p)
  }

  /** parseline */
  function CmdLine(s: string, pos: nat): (r: Result<Cmd<Span>>)
    requires pos <= |s| && Line(s)
    ensures r.Ok? ==> pos <= r.pos <= |s| && SpansOk(s, r.value)
    decreases |s| - pos, 3
  {
    var r := Pipeline(s, pos);
    if r.Panic? then Panic
    else
      var b := Backs(s, r.pos, r.value);
      if At(s, b.pos) != ';' then b
      else
        var rest := CmdLine(s, Skip(s, b.pos + 1));
        if rest.Panic? then Panic else Ok(List(b.value, rest.value), rest.pos)
  }

  /** parsecmd, up to nulterminate. */
  function Parse(s: string): (r: Result<Cmd<Span>>)
    requires Line(s)
    ensures r.Ok? ==> SpansOk(s, r.value)
  {
    var r := CmdLine(s, 0);
    if r.Panic? || Skip(s, r.pos) != |s| then Panic else Ok(r.value, |s|)
  }

  // ----- the source's loops -------------------------------------------------------------------

  method SkipWhite(s: string, pos: nat) returns (r: nat)
    requires pos <= |s|
    ensures r == Skip(s, pos)
  {
    r := pos;
    while r < |s| && White(s[r])
      invariant pos <= r <= |s| && Skip(s, pos) == Skip(s, r)
    {
      r := r + 1;
    }
  }

  /** gettoken: the token, its span, and the cursor behind it and the white space after it. */
  method GetToken(s: string, ps: nat) returns (tok: Token, q: nat, eq: nat, ps': nat)
    requires ps <= |s| && Line(s)
    ensures q == Skip(s, ps) && (tok, eq) == TokenAt(s, q) && ps' == Skip(s, eq)
  {
    q := SkipWhite(s, ps);
    var i := q;
    var c := At(s, i);
    if i == |s| {
      tok := End;
    } else if c == '2' && i + 2 < |s| && s[i + 1] == '>' && s[i + 2] == '>' {
      tok := Redirect(ErrAppend);
      i := i + 3;
    } else if c == '2' && At(s, i + 1) == '>' {
      tok := Redirect(Err);
      i := i + 2;
    } else if c == '|' || c == '(' || c == ')' || c == ';' || c == '&' {
      tok := Char(c);
      i := i + 1;
    } else if c == '<' {
      tok := Redirect(In);
      i := i + 1;
    } else if c == '>' {
      tok := Redirect(Out);
      i := i + 1;
      if At(s, i) == '>' {
        tok := Redirect(Append);
        i := i + 1;
      }
    } else {
      tok := Word;
      assert s[q] in s;
      while i < |s| && !White(s[i]) && !Symbol(s[i])
        invariant q <= i <= |s| && WordEnd(s, q) == WordEnd(s, i)
      {
        assert s[i] in s;
        i := i + 1;
      }
    }
    eq := i;
    ps' := SkipWhite(s, i);
  }

  /** peek: the cursor behind white space, and whether one of toks stands there. */
  method Peek(s: string, ps: nat, toks: string) returns (found: bool, ps': nat)
    requires ps <= |s| && Line(s) && '\0' !in toks
    ensures ps' == Skip(s, ps) && (found <==> At(s, ps') in toks)
  {
    ps' := SkipWhite(s, ps);
    found := ps' < |s| && s[ps'] in toks;
  }

  /** Which tokens start with which characters. */
  lemma {:induction false} TokenChars(s: string, p: nat)
    requires p <= |s| && !White(At(s, p)) && Line(s)
    ensures At(s, p) in "|)&;" <==> TokenAt(s, p).0.Char? && TokenAt(s, p).0.c != '('
    ensures At(s, p) in "|)&;" || At(s, p) == '(' ==> p < |s| && TokenAt(s, p) == (Char(s[p]), p + 1)
    ensures TokenAt(s, p).0.Redirect? ==> At(s, p) in "<>2"
  {
  }

  lemma {:induction false} PrependNone<T>(r: Result<seq<T>>)
    ensures Prepend([], r) == r
  {
    assert r.Ok? ==> [] + r.value == r.value;
  }

  lemma {:induction false} PrependMore<T>(done: seq<T>, x: T, rest: Result<seq<T>>)
    ensures Prepend(done, Prepend([x], rest)) == Prepend(done + [x], rest)
  {
    assert rest.Ok? ==> done + ([x] + rest.value) == (done + [x]) + rest.value;
  }

  /** A list parsed so far, in front of what parsing the rest gives. */
  function Prepend<T>(done: seq<T>, rest: Result<seq<T>>): (r: Result<seq<T>>) {
    if rest.Panic? then Panic else Ok(done + rest.value, rest.pos)
  }

  /** parseredirs, giving the list of redirections that the source wraps around the command one by one. */
  method ParseRedirs(s: string, ps: nat) returns (r: Result<seq<Redirection<Span>>>)
    requires ps <= |s| && Line(s)
    ensures r == Redirs(s, ps)
  {
    hide Skip, TokenAt, SpanOk;
    var cur, done := ps, [];
    PrependNone(Redirs(s, ps));
    while true
      invariant ps <= cur <= |s| && Redirs(s, ps) == Prepend(done, Redirs(s, cur))
      decreases |s| - cur
    {
      var found;
      ghost var from := cur;
      found, cur := Peek(s, cur, "<>2");
      TokenChars(s, cur);
      assert done + [] == done;
      if !found {
        return Ok(done, cur);
      }
      var saved := cur;
      var tok, q, eq, next := GetToken(s, cur);
      if !tok.Redirect? {
        return Ok(done, saved);
      }
      var file, fq, feq, after := GetToken(s, next);
      if file != Word {
        return Panic;
      }
      assert Redirs(s, from) == Prepend([Redirection(tok.op, Span(fq, feq))], Redirs(s, after));
      PrependMore(done, Redirection(tok.op, Span(fq, feq)), Redirs(s, after));
      done := done + [Redirection(tok.op, Span(fq, feq))];
      cur := after;
    }
  }

  /** parseexec: fills argv in a loop. */
  method ParseExec(s: string, ps: nat) returns (r: Result<Cmd<Span>>)
    requires ps <= |s| && Line(s)
    ensures r == Simple(s, ps)
    decreases |s| - ps, 1
  {
    hide Skip, TokenAt, SpanOk, Block, Redirs, Wrap, SpansOk;
    var block, cur := Peek(s, ps, "(");
    if block {
      r := ParseBlock(s, cur);
      return;
    }
    var rd := ParseRedirs(s, cur);
    if rd.Panic? {
      return Panic;
    }
    var argv: seq<Span>, redirs := [], rd.value;
    cur := rd.pos;
    while true
      invariant cur <= |s| && |argv| < MAXARGS
      invariant (forall w :: w in argv ==> SpanOk(s, w)) && (forall x :: x in redirs ==> SpanOk(s, x.file))
      invariant Simple(s, ps) == Args(s, cur, argv, redirs)
      decreases |s| - cur
    {
      var stop;
      stop, cur := Peek(s, cur, "|)&;");
      TokenChars(s, cur);
      if stop {
        return Ok(Wrap(Exec(argv), redirs), cur);
      }
      var tok, q, eq, next := GetToken(s, cur);
      if tok == End {
        return Ok(Wrap(Exec(argv), redirs), next);
      }
      if tok != Word {
        return Panic;
      }
      if |argv| + 1 >= MAXARGS {
        return Panic;
      }
      rd := ParseRedirs(s, next);
      if rd.Panic? {
        return Panic;
      }
      argv, redirs, cur := argv + [Span(q, eq)], redirs + rd.value, rd.pos;
    }
  }

  /** parseblock */
  method ParseBlock(s: string, ps: nat) returns (r: Result<Cmd<Span>>)
    requires ps < |s| && Line(s) && s[ps] == '('
    ensures r == Block(s, ps)
    decreases |s| - ps, 0
  {
    hide Skip, TokenAt, CmdLine, Redirs, Wrap, SpansOk;
    TokenChars(s, ps);
    var tok, q, eq, next := GetToken(s, ps);
    r := ParseLine(s, next);
    if r.Panic? {
      return;
    }
    var closed, cur := Peek(s, r.pos, ")");
    if !closed {
      return Panic;
    }
    TokenChars(s, cur);
    tok, q, eq, next := GetToken(s, cur);
    var rd := ParseRedirs(s, next);
    if rd.Panic? {
      return Panic;
    }
    r := Ok(Wrap(r.value, rd.value), rd.pos);
  }

  /** parsepipe */
  method ParsePipe(s: string, ps: nat) returns (r: Result<Cmd<Span>>)
    requires ps <= |s| && Line(s)
    ensures r == Pipeline(s, ps)
    decreases |s| - ps, 2
  {
    hide Skip, TokenAt, Simple, SpansOk;
    r := ParseExec(s, ps);
    if r.Panic? {
      return;
    }
    var found, cur := Peek(s, r.pos, "|");
    TokenChars(s, cur);
    if !found {
      return Ok(r.value, cur);
    }
    var tok, q, eq, next := GetToken(s, cur);
    var right := ParsePipe(s, next);
    if right.Panic? {
      return Panic;
    }
    r := Ok(Pipe(r.value, right.value), right.pos);
  }

  /** parseline */
  method ParseLine(s: string, ps: nat) returns (r: Result<Cmd<Span>>)
    requires ps <= |s| && Line(s)
    ensures r == CmdLine(s, ps)
    decreases |s| - ps, 3
  {
    hide Skip, TokenAt, Pipeline;
    r := ParsePipe(s, ps);
    if r.Panic? {
      return;
    }
    var cmd, cur := r.value, r.pos;
    ghost var backs := Backs(s, cur, cmd);
    var found;
    found, cur := Peek(s, cur, "&");
    while found
      invariant ps <= cur <= |s| && SpansOk(s, cmd) && !White(At(s, cur)) && (found <==> At(s, cur) == '&')
      invariant Backs(s, cur, cmd) == backs
      decreases |s| - cur
    {
      TokenChars(s, cur);
      var tok, q, eq, next := GetToken(s, cur);
      cmd := Back(cmd);
      found, cur := Peek(s, next, "&");
    }
    found, cur := Peek(s, cur, ";");
    if !found {
      return Ok(cmd, cur);
    }
    TokenChars(s, cur);
    var tok, q, eq, next := GetToken(s, cur);
    var rest := ParseLine(s, next);
    if rest.Panic? {
      return Panic;
    }
    r := Ok(List(cmd, rest.value), rest.pos);
  }

  // ----- nulterminate -----------------------------------------------------------------------------

  function EndsOf(argv: seq<Span>): (e: set<nat>)
    ensures forall w :: w in argv ==> w.eq in e
  {
    if argv == [] then {} else EndsOf(argv[..|argv| - 1]) + {argv[|argv| - 1].eq}
  }

  /** Where nulterminate writes. */
  function Ends(cmd: Cmd<Span>): (e: set<nat>) {
    match cmd
    case Exec(argv) => EndsOf(argv)
    case Redir(c, _, file) => Ends(c) + {file.eq}
    case Pipe(l, r) => Ends(l) + Ends(r)
    case List(l, r) => Ends(l) + Ends(r)
    case Back(c) => Ends(c)
  }

  lemma {:induction false} EndsOfOk(s: string, argv: seq<Span>)
    requires forall w :: w in argv ==> SpanOk(s, w)
    ensures forall e :: e in EndsOf(argv) ==> e <= |s| && !WordChar(At(s, e))
  {
    if argv != [] {
      assert argv[|argv| - 1] in argv;
      EndsOfOk(s, argv[..|argv| - 1]);
    }
  }

  lemma {:induction false} EndsOk(s: string, cmd: Cmd<Span>)
    requires SpansOk(s, cmd)
    ensures forall e :: e in Ends(cmd) ==> e <= |s| && !WordChar(At(s, e))
  {
    match cmd
    case Exec(argv) => EndsOfOk(s, argv);
    case Redir(c, _, _) => EndsOk(s, c);
    case Pipe(l, r) => EndsOk(s, l); EndsOk(s, r);
    case List(l, r) => EndsOk(s, l); EndsOk(s, r);
    case Back(c) => EndsOk(s, c);
  }

  /** The line with 0 at the given places. */
  ghost predicate Terminated(was: seq<char>, now: seq<char>, ends: set<nat>) {
    |now| == |was| && forall i :: 0 <= i < |now| ==> now[i] == if i in ends then '\0' else was[i]
  }

  method NulTerminate(cmd: Cmd<Span>, buf: array<char>)
    requires forall e :: e in Ends(cmd) ==> e < buf.Length
    modifies buf
    ensures Terminated(old(buf[..]), buf[..], Ends(cmd))
    decreases cmd
  {
    match cmd
    case Exec(argv) =>
      var i := 0;
      while i < |argv|
        invariant 0 <= i <= |argv| && Terminated(old(buf[..]), buf[..], EndsOf(argv[..i]))
      {
        assert argv[i] in argv && argv[i].eq in Ends(cmd);
        buf[argv[i].eq] := '\0';
        assert argv[..i + 1][..i] == argv[..i];
        i := i + 1;
      }
      assert argv[..i] == argv;
    case Redir(c, _, file) =>
      assert Ends(cmd) == Ends(c) + {file.eq};
      NulTerminate(c, buf);
      buf[file.eq] := '\0';
    case Pipe(l, r) =>
      assert Ends(cmd) == Ends(l) + Ends(r);
      NulTerminate(l, buf);
      NulTerminate(r, buf);
    case List(l, r) =>
      assert Ends(cmd) == Ends(l) + Ends(r);
      NulTerminate(l, buf);
      NulTerminate(r, buf);
    case Back(c) =>
      assert Ends(cmd) == Ends(c);
      NulTerminate(c, buf);
  }

  /** The C string at q. */
  function CString(b: seq<char>, q: nat): (w: string)
    requires q <= |b|
    decreases |b| - q
  {
    if q == |b| || b[q] == '\0' then "" else [b[q]] + CString(b, q + 1)
  }

  /** After nulterminate, every word of the command reads back as its slice of the line. */
  lemma {:induction false} ReadsBack(s: string, now: seq<char>, ends: set<nat>, w: Span, k: nat)
    requires Terminated(s + ['\0'], now, ends) && SpanOk(s, w) && w.eq in ends && w.q <= k <= w.eq
    requires forall e :: e in ends ==> e <= |s| && !WordChar(At(s, e))
    ensures CString(now, k) == s[k..w.eq]
    decreases w.eq - k
  {
    if k < w.eq {
      assert k !in ends;
      assert now[k] == s[k];
      ReadsBack(s, now, ends, w, k + 1);
      assert s[k..w.eq] == [s[k]] + s[k + 1..w.eq];
    } else {
      assert now[k] == '\0';
    }
  }

  /** The words of a command: what its strings point at. */
  function Words<W>(cmd: Cmd<W>): (w: seq<W>) {
    match cmd
    case Exec(argv) => argv
    case Redir(c, _, file) => Words(c) + [file]
    case Pipe(l, r) => Words(l) + Words(r)
    case List(l, r) => Words(l) + Words(r)
    case Back(c) => Words(c)
  }

  lemma {:induction false} WordOk(s: string, cmd: Cmd<Span>, w: Span)
    requires SpansOk(s, cmd) && w in Words(cmd)
    ensures SpanOk(s, w) && w.eq in Ends(cmd)
  {
    match cmd
    case Exec(argv) =>
    case Redir(c, _, file) => if w in Words(c) { WordOk(s, c, w); }
    case Pipe(l, r) => if w in Words(l) { WordOk(s, l, w); } else { WordOk(s, r, w); }
    case List(l, r) => if w in Words(l) { WordOk(s, l, w); } else { WordOk(s, r, w); }
    case Back(c) => WordOk(s, c, w);
  }

  /** parsecmd, on a buffer that holds a line and its final 0. */
  method ParseCmd(buf: array<char>) returns (r: Result<Cmd<Span>>)
    requires buf.Length > 0 && buf[buf.Length - 1] == '\0' && Line(buf[..buf.Length - 1])
    modifies buf
    ensures r == Parse(old(buf[..buf.Length - 1]))
    ensures r.Ok? ==> forall w :: w in Words(r.value) ==>
              w.q <= w.eq < buf.Length && CString(buf[..], w.q) == old(buf[..])[w.q..w.eq]
  {
    hide CmdLine, SpanOk, SpansOk, CString;
    var s := buf[..buf.Length - 1];
    assert buf[..] == s + ['\0'];
    r := ParseLine(s, 0);
    if r.Panic? {
      return;
    }
    var found, end := Peek(s, r.pos, "");
    if end != |s| {
      return Panic;
    }
    EndsOk(s, r.value);
    NulTerminate(r.value, buf);
    forall w | w in Words(r.value) ensures w.q <= w.eq < buf.Length && CString(buf[..], w.q) == s[w.q..w.eq] {
      WordOk(s, r.value, w);
      SpanBounds(s, w);
      ReadsBack(s, buf[..], Ends(r.value), w, w.q);
    }
    r := Ok(r.value, |s|);
  }

  lemma {:induction false} SpanBounds(s: string, w: Span)
    requires SpanOk(s, w)
    ensures w.q <= w.eq <= |s|
  {
  }
}
