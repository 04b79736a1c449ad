/**
 Console input (kernel/console.c): the ring with indices r, w and e refines a queue of
 committed bytes and a line still being edited.  Interrupts and reads alternate in any
 way; a read that finds nothing goes to sleep and resumes later.
 */
module Console {

  const SIZE: nat := 128              // INPUT_BUF_SIZE
  const WRAP: nat := 0x1_0000_0000    // r, w and e are uint

  type Byte = nat
  const NL: Byte := 10
  const CR: Byte := 13
  const CTRL_D: Byte := 4
  const CTRL_H: Byte := 8
  const CTRL_P: Byte := 16
  const CTRL_U: Byte := 21
  const DEL: Byte := 127

  // ----- what the console does ----------------------------------------------------------------

  /** Committed bytes that no read has taken, and the line that can still be edited. */
  datatype Input = Input(queue: seq<Byte>, line: seq<Byte>)

  function Typed(c: Byte): (b: Byte) {
    if c == CR then NL else c
  }

  /** One typed character. */
  function Edited(s: Input, c: Byte): (s': Input) {
    if c == CTRL_P then s
    else if c == CTRL_U then Input(s.queue, [])
    else if c == CTRL_H || c == DEL then Input(s.queue, if s.line == [] then [] else s.line[..|s.line| - 1])
    else if c == 0 || |s.queue| + |s.line| >= SIZE then s
    else
      var line := s.line + [Typed(c)];
      if Typed(c) == NL || Typed(c) == CTRL_D || |s.queue| + |line| == SIZE
      then Input(s.queue + line, [])
      else Input(s.queue, line)
  }

  function EditedAll(s: Input, cs: seq<Byte>): (s': Input) {
    if cs == [] then s else Edited(EditedAll(s, cs[..|cs| - 1]), cs[|cs| - 1])
  }

  /** Committed bytes stay, in order, whatever is typed, and the ring is never overrun. */
  lemma {:induction false} CommittedStays(s: Input, cs: seq<Byte>)
    requires |s.queue| + |s.line| <= SIZE
    ensures s.queue <= EditedAll(s, cs).queue && |EditedAll(s, cs).queue| + |EditedAll(s, cs).line| <= SIZE
  {
    if cs != [] {
      CommittedStays(s, cs[..|cs| - 1]);
    }
  }

  // ----- what comes of a typed line -------------------------------------------------------------

  /** Keys that neither end a line nor fill the ring. */
  predicate Edits(c: Byte) {
    c != NL && c != CR && c != CTRL_D
  }

  /**
   The characters of a line that count, found from its end: each backspace takes away the
   nearest character before it that is still there, and ^U all characters before it; `erase` is
   the number of backspaces that are still to find theirs.
   */
  function Surviving(cs: seq<Byte>, erase: nat): (line: seq<Byte>) {
    if cs == [] then []
    else
      var c, before := cs[|cs| - 1], cs[..|cs| - 1];
      if c == CTRL_U then []
      else if c == CTRL_H || c == DEL then Surviving(before, erase + 1)
      else if c == 0 || c == CTRL_P then Surviving(before, erase)
      else if erase > 0 then Surviving(before, erase - 1)
      else Surviving(before, 0) + [c]
  }

  /** A line without its last n characters, or the empty one. */
  function Cut(line: seq<Byte>, n: nat): (r: seq<Byte>) {
    if n >= |line| then [] else line[..|line| - n]
  }

  lemma {:induction false} CutTwice(line: seq<Byte>, c: Byte, n: nat)
    ensures Cut(line, n + 1) == Cut(Cut(line, 1), n) && |Cut(line, 1)| <= |line|
    ensures n > 0 ==> Cut(line + [c], n) == Cut(line, n - 1)
    ensures Cut(line, 0) == line && Cut(line + [c], 0) == line + [c]
  {
  }

  /** One more key: the line grows or shrinks at its end, or is gone. */
  lemma {:induction false} KeyEdits(q: seq<Byte>, line: seq<Byte>, c: Byte)
    requires Edits(c) && |q| + |line| < SIZE - 1
    ensures Edited(Input(q, line), c)
         == Input(q, if c == CTRL_U then []
                     else if c == CTRL_H || c == DEL then Cut(line, 1)
                     else if c == 0 || c == CTRL_P then line
                     else line + [c])
  {
  }

  lemma {:induction false} LineSurvives(q: seq<Byte>, cs: seq<Byte>, erase: nat)
    requires (forall i :: 0 <= i < |cs| ==> Edits(cs[i])) && |q| + |cs| < SIZE
    ensures var s := EditedAll(Input(q, []), cs);
            s.queue == q && |s.line| <= |cs| && Cut(s.line, erase) == Surviving(cs, erase)
    decreases |cs|
  {
    hide Edited, Edits, Cut;
    if cs == [] {
      NoLine(erase);
    } else {
      var c, before := cs[|cs| - 1], cs[..|cs| - 1];
      assert Edits(c);
      LineSurvives(q, before, if c == CTRL_H || c == DEL then erase + 1
                              else if c == 0 || c == CTRL_P || erase == 0 then erase else erase - 1);
      var line := EditedAll(Input(q, []), before).line;
      KeyEdits(q, line, c);
      CutTwice(line, c, erase);
      NoLine(erase);
    }
  }

  lemma {:induction false} NoLine(n: nat)
    ensures Cut([], n) == []
  {
  }

  /**
   A line typed and ended with return, newline or ^D is delivered with all corrections made and
   with what ended it behind; a return counts as a newline.
   */
  lemma {:induction false} LineDelivered(q: seq<Byte>, cs: seq<Byte>, end: Byte)
    requires (forall i :: 0 <= i < |cs| ==> Edits(cs[i])) && |q| + |cs| < SIZE
    requires end == CR || end == NL || end == CTRL_D
    ensures EditedAll(Input(q, []), cs + [end])
         == Input(q + (Surviving(cs, 0) + [if end == CTRL_D then CTRL_D else NL]), [])
  {
    LineSurvives(q, cs, 0);
    var line := EditedAll(Input(q, []), cs).line;
    CutTwice(line, end, 0);
    assert (cs + [end])[..|cs|] == cs;
  }

  lemma {:induction false} IndexTests(r: nat, e: nat)
    requires r <= e <= r + SIZE
    ensures (e % WRAP - r % WRAP) % WRAP == e - r
    ensures e % WRAP == r % WRAP <==> e == r
  {
    var d := e - r;
    assert (r + d) % WRAP == (r % WRAP + d) % WRAP;
  }

  /** The ring size divides 2^32: slots do not jump when an index wraps. */
  lemma {:induction false} SlotOf(n: nat)
    ensures n % WRAP % SIZE == n % SIZE
  {
  }

  lemma {:induction false} SlotBefore(n: nat)
    requires n > 0
    ensures (n % WRAP - 1) % WRAP == (n - 1) % WRAP
  {
  }

  lemma {:induction false} SlotsApart(a: nat, b: nat)
    requires a < b < a + SIZE
    ensures a % SIZE != b % SIZE
  {
    var d := b - a;
    assert (a + d) % SIZE == (a % SIZE + d) % SIZE;
  }

  /**
   How a stretch of consoleread ends: with all it asked for, with a newline, with an
   end-of-file of its own, before an end-of-file that is left for the next read, at a
   byte it cannot copy out, asleep, or killed.
   */
  datatype Stop = Enough | Line | Eof | Saved | Fault | Asleep | Killed

  lemma {:induction false} NextIndex(n: nat)
    ensures (n % WRAP + 1) % WRAP == (n + 1) % WRAP
  {
  }

  /** Every byte of s in its slot of the ring, from index `first` on. */
  ghost predicate InRing(ring: seq<Byte>, first: nat, s: seq<Byte>) {
    |ring| == SIZE && forall k :: 0 <= k < |s| ==> ring[(first + k) % SIZE] == s[k]
  }

  lemma {:induction false} RingStore(ring: seq<Byte>, first: nat, s: seq<Byte>, c: Byte)
    requires InRing(ring, first, s) && |s| < SIZE
    ensures InRing(ring[(first + |s|) % SIZE := c], first, s + [c])
  {
    var ring' := ring[(first + |s|) % SIZE := c];
    forall k | 0 <= k < |s| ensures ring'[(first + k) % SIZE] == s[k] {
      SlotsApart(first + k, first + |s|);
    }
  }

  lemma {:induction false} RingLess(ring: seq<Byte>, first: nat, s: seq<Byte>, t: seq<Byte>)
    requires InRing(ring, first, s)
    ensures t <= s ==> InRing(ring, first, t)
    ensures s != [] ==> ring[first % SIZE] == s[0] && InRing(ring, first + 1, s[1..])
  {
    if s != [] {
      assert ring[(first + 0) % SIZE] == s[0];
      forall k | 0 <= k < |s[1..]| ensures ring[(first + 1 + k) % SIZE] == s[1..][k] {
        assert first + 1 + k == first + (k + 1);
      }
    }
  }

  /** Why a read stopped with `got`, of which `more` is new, having dropped `extra`, and left `queue`. */
  predicate Stops(stop: Stop, target: nat, bad: nat, killed: bool, got: seq<Byte>, more: seq<Byte>, extra: seq<Byte>,
                  queue: seq<Byte>)
  {
    && |got| <= target && CTRL_D !in more && (forall i :: 0 <= i < |more| - 1 ==> more[i] != NL)
    && (stop != Line ==> NL !in more) && (more != [] && |got| - |more| <= bad ==> |got| <= bad)
    && match stop
       case Enough => |got| == target && extra == []
       case Line => more != [] && more[|more| - 1] == NL && extra == []
       case Eof => got == [] && extra == [CTRL_D]
       case Saved => got != [] && extra == [] && queue != [] && queue[0] == CTRL_D
       case Fault => |got| == bad < target && |extra| == 1 && extra != [CTRL_D]
       case Killed => killed && |got| < target && extra == [] && queue == []
       case Asleep => !killed && |got| < target && extra == [] && queue == []
  }

  lemma {:induction false} StopsHere(stop: Stop, target: nat, bad: nat, killed: bool, got: seq<Byte>, more: seq<Byte>,
                                     extra: seq<Byte>, queue: seq<Byte>)
    requires |got| <= target && CTRL_D !in more && NL !in more && (more != [] && |got| - |more| <= bad ==> |got| <= bad)
    requires match stop
             case Enough => |got| == target && extra == []
             case Line => false
             case Eof => got == [] && extra == [CTRL_D]
             case Saved => got != [] && extra == [] && queue != [] && queue[0] == CTRL_D
             case Fault => |got| == bad < target && |extra| == 1 && extra[0] != CTRL_D
             case Killed => killed && |got| < target && extra == [] && queue == []
             case Asleep => !killed && |got| < target && extra == [] && queue == []
    ensures Stops(stop, target, bad, killed, got, more, extra, queue)
  {
  }

  lemma {:induction false} StopsAfter(target: nat, bad: nat, killed: bool, got: seq<Byte>, more: seq<Byte>,
                                      queue: seq<Byte>)
    requires |got| <= target && more != [] && more[|more| - 1] == NL && (|got| - |more| <= bad ==> |got| <= bad)
    requires CTRL_D !in more[..|more| - 1] && NL !in more[..|more| - 1]
    ensures Stops(Line, target, bad, killed, got, more, [], queue)
  {
    assert more == more[..|more| - 1] + [NL];
  }

  /** A read that finds an end-of-file first, as after one that saved it, returns 0 bytes and takes just that. */
  lemma {:induction false} EofReadsNothing(stop: Stop, target: nat, bad: nat, killed: bool, more: seq<Byte>,
                                           extra: seq<Byte>, queue: seq<Byte>, queue': seq<Byte>)
    requires Stops(stop, target, bad, killed, more, more, extra, queue') && target > 0
    requires queue == more + extra + queue' && queue != [] && queue[0] == CTRL_D
    ensures stop == Eof && more == [] && queue' == queue[1..]
  {
    FirstByte(more, extra + queue');
    if extra + queue' != [] {
      FirstByte(extra, queue');
    }
    assert queue == more + (extra + queue');
  }

  /** A read with room for the next line, and a place for every byte, returns exactly that line. */
  lemma {:induction false} ReadsWholeLine(stop: Stop, target: nat, bad: nat, killed: bool, more: seq<Byte>,
                                          extra: seq<Byte>, line: seq<Byte>, rest: seq<Byte>, queue': seq<Byte>)
    requires Stops(stop, target, bad, killed, more, more, extra, queue') && line + [NL] + rest == more + extra + queue'
    requires NL !in line && CTRL_D !in line && |line| < target <= bad
    ensures stop == Line && more == line + [NL] && queue' == rest
  {
    hide Stops;
    var queue := line + [NL] + rest;
    assert queue == more + (extra + queue');
    StopFacts(stop, target, bad, killed, more, extra, queue');
    if |more| <= |line| {
      assert (extra + queue')[0] == queue[|more|];
      NoEof(line, rest, |more|);
      KeepsReading(stop, target, bad, killed, more, extra, queue');
    } else {
      assert more[|line|] == queue[|line|] == NL;
    }
    OnlyNewline(line, rest, more);
    assert queue[|more|..] == rest;
  }

  lemma {:induction false} StopFacts(stop: Stop, target: nat, bad: nat, killed: bool, more: seq<Byte>, extra: seq<Byte>,
                                     queue: seq<Byte>)
    requires Stops(stop, target, bad, killed, more, more, extra, queue)
    ensures NL in more ==> stop == Line
    ensures stop == Line ==> more != [] && more[|more| - 1] == NL && NL !in more[..|more| - 1] && extra == []
  {
  }

  lemma {:induction false} NoEof(line: seq<Byte>, rest: seq<Byte>, n: nat)
    requires CTRL_D !in line && n <= |line|
    ensures (line + [NL] + rest)[n] != CTRL_D
  {
    var queue := line + [NL] + rest;
    assert queue[n] == if n < |line| then line[n] else NL;
  }

  lemma {:induction false} OnlyNewline(line: seq<Byte>, rest: seq<Byte>, more: seq<Byte>)
    requires NL !in line && more <= line + [NL] + rest
    requires more != [] && more[|more| - 1] == NL && NL !in more[..|more| - 1]
    ensures more == line + [NL]
  {
    var queue := line + [NL] + rest;
    assert forall i :: 0 <= i < |line| ==> queue[i] == line[i] && line[i] in line;
    assert forall i :: 0 <= i < |more| - 1 ==> more[i] == more[..|more| - 1][i];
    assert queue[|line|] == NL;
    assert |more| == |line| + 1;
  }

  /** With room left, and every byte in place, a read stops before a byte other than ^D only behind a newline. */
  lemma {:induction false} KeepsReading(stop: Stop, target: nat, bad: nat, killed: bool, more: seq<Byte>,
                                        extra: seq<Byte>, queue: seq<Byte>)
    requires Stops(stop, target, bad, killed, more, more, extra, queue) && |more| < target <= bad
    requires extra + queue != [] && (extra + queue)[0] != CTRL_D
    ensures stop == Line
  {
    FirstByte(extra, queue);
  }

  lemma {:induction false} FirstByte(a: seq<Byte>, b: seq<Byte>)
    requires a + b != []
    ensures if a == [] then (a + b)[0] == b[0] && a + b == b else (a + b)[0] == a[0] && a[0] in a
  {
  }

  class Console {
    const buf: array<Byte>
    var r: nat
    var w: nat
    var e: nat
    ghost var taken: nat       // bytes taken by reads so far
    ghost var input: Input

    /** The ring holds queue and line; r, w and e are where they start and end. */
    ghost predicate Holds()
      reads this, buf
    {
      && buf.Length == SIZE && |input.queue| + |input.line| <= SIZE
      && r == taken % WRAP && w == (taken + |input.queue|) % WRAP && e == (taken + |input.queue| + |input.line|) % WRAP
      && InRing(buf[..], taken, input.queue + input.line)
    }

    /** Between operations the line has no newline: one would have committed it. */
    ghost predicate Valid()
      reads this, buf
    {
      Holds() && NL !in input.line
    }

    constructor ()
      ensures Valid() && input == Input([], []) && fresh(buf)
    {
      buf := new Byte[SIZE];
      r, w, e := 0, 0, 0;
      taken, input := 0, Input([], []);
    }

    /** cons.e--: the last byte of the line is gone. */
    method Erase()
      requires Holds() && input.line != []
      modifies this`e, this`input
      ensures Holds() && input == Input(old(input.queue), old(input.line)[..|old(input.line)| - 1])
    {
      SlotBefore(taken + |input.queue| + |input.line|);
      e := (e - 1) % WRAP;
      ghost var line := input.line[..|input.line| - 1];
      RingLess(buf[..], taken, input.queue + input.line, input.queue + line);
      input := Input(input.queue, line);
    }

    /** cons.buf[cons.e++ % INPUT_BUF_SIZE] = c, when there is room. */
    method Append(c: Byte)
      requires Holds() && |input.queue| + |input.line| < SIZE
      modifies this`e, this`input, buf
      ensures Holds() && input == Input(old(input.queue), old(input.line) + [c])
    {
      ghost var end := taken + |input.queue| + |input.line|;
      SlotOf(end);
      NextIndex(end);
      RingStore(buf[..], taken, input.queue + input.line, c);
      buf[e % SIZE] := c;
      e := (e + 1) % WRAP;
      assert input.queue + (input.line + [c]) == (input.queue + input.line) + [c];
      input := Input(input.queue, input.line + [c]);
    }

    /** cons.w = cons.e. */
    method Commit()
      requires Holds()
      modifies this`w, this`input
      ensures Valid() && input == Input(old(input.queue) + old(input.line), [])
    {
      w := e;
      assert input.queue + input.line + [] == input.queue + input.line;
      input := Input(input.queue + input.line, []);
    }

    /** consoleintr */
    method Interrupt(c: Byte) returns (woken: bool)
      requires Valid()
      modifies this`e, this`w, this`input, buf
      ensures Valid() && input == Edited(old(input), c)
      ensures woken <==> input.queue != old(input.queue)
    {
      hide InRing;
      woken := false;
      if c == CTRL_P {
      } else if c == CTRL_U {
        KillLine();
      } else if c == CTRL_H || c == DEL {
        IndexTests(taken + |input.queue|, taken + |input.queue| + |input.line|);
        if e != w {
          Erase();
        }
      } else {
        IndexTests(taken, taken + |input.queue| + |input.line|);
        if c != 0 && (e - r) % WRAP < SIZE {
          var b := if c == CR then NL else c;
          Append(b);
          IndexTests(taken, taken + |input.queue| + |input.line|);
          if b == NL || b == CTRL_D || (e - r) % WRAP == SIZE {
            Commit();
            woken := true;
          }
        }
      }
    }

    /** The kill-line loop: stops at a newline or at w, and finds no newline first. */
    method KillLine()
      requires Valid()
      modifies this`e, this`input
      ensures Valid() && input == Input(old(input.queue), [])
    {
      while true
        invariant Valid() && input.queue == old(input.queue)
        decreases |input.line|
      {
        IndexTests(taken + |input.queue|, taken + |input.queue| + |input.line|);
        if e == w {
          break;
        }
        LastByte();
        if buf[(e - 1) % WRAP % SIZE] == NL {
          break;
        }
        Erase();
      }
    }

    lemma {:induction false} LastByte()
      requires Holds() && input.line != []
      ensures buf[(e - 1) % WRAP % SIZE] == input.line[|input.line| - 1]
    {
      var n := |input.queue| + |input.line|;
      SlotBefore(taken + n);
      SlotOf(taken + n - 1);
      assert buf[..][(taken + (n - 1)) % SIZE] == (input.queue + input.line)[n - 1];
    }

    /** c = cons.buf[cons.r++ % INPUT_BUF_SIZE], when there is a committed byte. */
    method Take() returns (c: Byte)
      requires Valid() && input.queue != []
      modifies this`r, this`taken, this`input
      ensures Valid() && taken == old(taken) + 1 && |input.queue| + |input.line| < SIZE && buf[(taken - 1) % SIZE] == c
      ensures old(input.queue) == [c] + input.queue && input.line == old(input.line)
    {
      SlotOf(taken);
      NextIndex(taken);
      RingLess(buf[..], taken, input.queue + input.line, []);
      c := buf[r % SIZE];
      r := (r + 1) % WRAP;
      assert (input.queue + input.line)[1..] == input.queue[1..] + input.line;
      taken, input := taken + 1, Input(input.queue[1..], input.line);
    }

    /** cons.r--: the byte just taken goes back. */
    method PutBack(c: Byte)
      requires Valid() && taken > 0 && |input.queue| + |input.line| < SIZE && buf[(taken - 1) % SIZE] == c
      modifies this`r, this`taken, this`input
      ensures Valid() && input == Input([c] + old(input.queue), old(input.line))
    {
      SlotBefore(taken);
      r := (r - 1) % WRAP;
      ghost var s := input.queue + input.line;
      assert [c] + input.queue + input.line == [c] + s;
      forall k | 0 <= k < |s| + 1 ensures buf[..][(taken - 1 + k) % SIZE] == ([c] + s)[k] {
        if k > 0 {
          assert buf[..][(taken + (k - 1)) % SIZE] == s[k - 1];
        }
      }
      taken, input := taken - 1, Input([c] + input.queue, input.line);
    }

    /**
     A stretch of consoleread for `target` bytes, of which got0 are copied out already;
     byte number `bad` cannot be copied out.  It takes `more`, which it copies out, and
     `extra`, which it does not, from the front of the queue.
     */
    method Read(target: nat, got0: seq<Byte>, bad: nat, killed: bool)
      returns (stop: Stop, got: seq<Byte>, ghost more: seq<Byte>, ghost extra: seq<Byte>)
      requires Valid() && |got0| <= target
      modifies this`r, this`taken, this`input
      ensures Valid() && input.line == old(input.line)
      ensures got == got0 + more && old(input.queue) == more + extra + input.queue
      ensures Stops(stop, target, bad, killed, got, more, extra, input.queue)
    {
      hide InRing, Stops;
      got, more, extra := got0, [], [];
      while |got| < target
        invariant Valid() && input.line == old(input.line)
        invariant got == got0 + more && |got| <= target && old(input.queue) == more + input.queue
        invariant CTRL_D !in more && NL !in more && (|got0| <= bad ==> |got| <= bad)
      {
        IndexTests(taken, taken + |input.queue|);
        if r == w {
          stop := if killed then Killed else Asleep;
          StopsHere(stop, target, bad, killed, got, more, extra, input.queue);
          return;
        }
        ghost var queue := input.queue;
        var c := Take();
        if c == CTRL_D {
          if |got| > 0 {
            PutBack(c);
            assert input.queue == queue;
            stop := Saved;
            StopsHere(stop, target, bad, killed, got, more, extra, input.queue);
            return;
          }
          extra := [c];
          stop := Eof;
          StopsHere(stop, target, bad, killed, got, more, extra, input.queue);
          return;
        }
        if |got| == bad {
          extra := [c];
          stop := Fault;
          StopsHere(stop, target, bad, killed, got, more, extra, input.queue);
          return;
        }
        assert more + [c] + input.queue == more + queue;
        got, more := got + [c], more + [c];
        if c == NL {
          stop := Line;
          StopsAfter(target, bad, killed, got, more, input.queue);
          return;
        }
      }
      stop := Enough;
      StopsHere(stop, target, bad, killed, got, more, extra, input.queue);
    }
  }
}
