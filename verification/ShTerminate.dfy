/** nulterminate of user/sh.c: the NULs it writes cut every word where gettoken ended it, and cut no other word. */
module ShTerminate {
  import opened ShLexer
  import opened ShParser

  /** The words recorded in a tree. */
  function Spans(cmd: Cmd<Span>): set<Span> {
    match cmd
    case Exec(args) => set i | 0 <= i < |args| :: args[i]
    case Redir(c, file, _) => Spans(c) + {file}
    case Pipe(l, r) => Spans(l) + Spans(r)
    case List(l, r) => Spans(l) + Spans(r)
    case Back(c) => Spans(c)
  }

  ghost predicate AreWords(s: string, spans: set<Span>) {
    forall w :: w in spans ==> IsWord(s, w.q, w.eq)
  }

  ghost predicate Files(s: string, rs: seq<To<Span>>) {
    forall i :: 0 <= i < |rs| ==> IsWord(s, rs[i].file.q, rs[i].file.eq)
  }

  // ---------------------------------------------------------------- what the parser records

  lemma {:induction false} RedirsRecordWords(s: Line, pos: nat, rs: seq<To<Span>>)
    requires pos <= |s| && Files(s, rs)
    ensures ParseRedirs(s, pos, rs).RedirsOk? ==> Files(s, ParseRedirs(s, pos, rs).rs)
    decreases |s| - pos
  {
    RedirStep(s, pos, rs);
    hide ParseRedirs, GetToken, SkipSpace, IsWord;
    if Peek(s, pos, "<>") {
      var t := GetToken(s, SkipSpace(s, pos));
      var f := GetToken(s, t.pos);
      if f.tok.WordTok? {
        RedirsRecordWords(s, f.pos, rs + [To(Span(f.q, f.eq), ModeOf(t.tok))]);
      }
    }
  }

  ghost predicate Words(s: string, args: seq<Span>) {
    forall i :: 0 <= i < |args| ==> IsWord(s, args[i].q, args[i].eq)
  }

  lemma {:induction false} ArgsRecordWords(s: Line, pos: nat, args: seq<Span>, rs: seq<To<Span>>)
    requires pos <= |s| && Words(s, args) && Files(s, rs)
    ensures var a := ParseArgs(s, pos, args, rs); a.ArgsOk? ==> Words(s, a.args) && Files(s, a.rs)
    decreases |s| - pos
  {
    hide GetToken, SkipSpace, IsWord, ParseRedirs;
    if !Peek(s, pos, "|)&;") {
      var t := GetToken(s, SkipSpace(s, pos));
      if t.tok.WordTok? && |args| + 1 < MAXARGS {
        RedirsRecordWords(s, t.pos, rs);
        var r := ParseRedirs(s, t.pos, rs);
        if r.RedirsOk? {
          ArgsRecordWords(s, r.pos, args + [Span(t.q, t.eq)], r.rs);
        }
      }
    }
  }

  lemma {:induction false} WrapSpans(s: string, cmd: Cmd<Span>, rs: seq<To<Span>>)
    requires AreWords(s, Spans(cmd)) && Files(s, rs)
    ensures AreWords(s, Spans(Wrap(cmd, rs)))
  {
    hide IsWord;
    if rs != [] {
      WrapSpans(s, cmd, rs[..|rs| - 1]);
    }
  }

  lemma {:induction false} ExecRecordsWords(s: Line, pos: nat)
    requires pos <= |s|
    ensures ParseExec(s, pos).Ok? ==> AreWords(s, Spans(ParseExec(s, pos).cmd))
    decreases |s| - pos, 1
  {
    hide GetToken, SkipSpace, IsWord, ParseRedirs, ParseArgs, ParseBlock;
    var p := SkipSpace(s, pos);
    if Peek(s, pos, "(") {
      BlockRecordsWords(s, p);
    } else {
      RedirsRecordWords(s, p, []);
      var r := ParseRedirs(s, p, []);
      if r.RedirsOk? {
        ArgsRecordWords(s, r.pos, [], r.rs);
        var a := ParseArgs(s, r.pos, [], r.rs);
        if a.ArgsOk? {
          WrapSpans(s, Exec(a.args), a.rs);
        }
      }
    }
  }

  lemma {:induction false} BlockRecordsWords(s: Line, pos: nat)
    requires pos <= |s|
    ensures ParseBlock(s, pos).Ok? ==> AreWords(s, Spans(ParseBlock(s, pos).cmd))
    decreases |s| - pos, 0
  {
    OpenMoves(s, pos);
    hide GetToken, SkipSpace, IsWord, ParseRedirs, ParseLine;
    if Peek(s, pos, "(") {
      var t := GetToken(s, SkipSpace(s, pos));
      LineRecordsWords(s, t.pos);
      var l := ParseLine(s, t.pos);
      if l.Ok? && Peek(s, l.pos, ")") {
        var u := GetToken(s, SkipSpace(s, l.pos));
        RedirsRecordWords(s, u.pos, []);
        var r := ParseRedirs(s, u.pos, []);
        if r.RedirsOk? {
          WrapSpans(s, l.cmd, r.rs);
        }
      }
    }
  }

  /** A token that is there moves the cursor on. */
  lemma OpenMoves(s: Line, pos: nat)
    requires pos <= |s|
    ensures SkipSpace(s, pos) < |s| ==> GetToken(s, SkipSpace(s, pos)).pos > pos
  {
    SkipTwice(s, pos);
  }

  lemma {:induction false} PipeRecordsWords(s: Line, pos: nat)
    requires pos <= |s|
    ensures ParsePipe(s, pos).Ok? ==> AreWords(s, Spans(ParsePipe(s, pos).cmd))
    decreases |s| - pos, 2
  {
    ExecRecordsWords(s, pos);
    var r := ParseExec(s, pos);
    if r.Ok? && Peek(s, r.pos, "|") {
      OpenMoves(s, r.pos);
      hide GetToken, SkipSpace, IsWord, ParseExec;
      PipeRecordsWords(s, GetToken(s, SkipSpace(s, r.pos)).pos);
    }
  }

  lemma {:induction false} BacksRecordWords(s: Line, pos: nat, cmd: Cmd<Span>)
    requires pos <= |s| && AreWords(s, Spans(cmd))
    ensures AreWords(s, Spans(ParseBacks(s, pos, cmd).cmd))
    decreases |s| - pos
  {
    if Peek(s, pos, "&") {
      OpenMoves(s, pos);
      hide GetToken, SkipSpace, IsWord;
      BacksRecordWords(s, GetToken(s, SkipSpace(s, pos)).pos, Back(cmd));
    }
  }

  lemma {:induction false} LineRecordsWords(s: Line, pos: nat)
    requires pos <= |s|
    ensures ParseLine(s, pos).Ok? ==> AreWords(s, Spans(ParseLine(s, pos).cmd))
    decreases |s| - pos, 3
  {
    hide IsWord, ParsePipe, ParseBacks, GetToken, SkipSpace;
    PipeRecordsWords(s, pos);
    var r := ParsePipe(s, pos);
    if r.Ok? {
      BacksRecordWords(s, r.pos, r.cmd);
      var b := ParseBacks(s, r.pos, r.cmd);
      if Peek(s, b.pos, ";") {
        OpenMoves(s, b.pos);
        LineRecordsWords(s, GetToken(s, SkipSpace(s, b.pos)).pos);
      }
    }
  }

  // ---------------------------------------------------------------- the code

  /** The buffer with a NUL at the end of every word of spans. */
  ghost predicate Cut(old_: seq<char>, new_: seq<char>, spans: set<Span>) {
    && |new_| == |old_|
    && (forall i :: 0 <= i < |old_| ==> new_[i] == if EndsAt(spans, i) then '\0' else old_[i])
  }

  ghost predicate EndsAt(spans: set<Span>, i: int) {
    exists w :: w in spans && w.eq == i
  }

  ghost predicate Inside(spans: set<Span>, n: nat) {
    forall w :: w in spans ==> w.eq < n
  }

  method Nulterminate(cmd: Cmd<Span>, buf: array<char>)
    requires Inside(Spans(cmd), buf.Length)
    modifies buf
    ensures Cut(old(buf[..]), buf[..], Spans(cmd))
    decreases cmd
  {
    match cmd
    case Exec(args) =>
      var i := 0;
      while i < |args|
        invariant i <= |args|
        invariant Cut(old(buf[..]), buf[..], set k | 0 <= k < i :: args[k])
      {
        assert args[i] in Spans(cmd);
        CutOne(old(buf[..]), buf[..], set k | 0 <= k < i :: args[k], args[i]);
        buf[args[i].eq] := '\0';
        i := i + 1;
        assert (set k | 0 <= k < i :: args[k]) == (set k | 0 <= k < i - 1 :: args[k]) + {args[i - 1]};
      }
      assert (set k | 0 <= k < i :: args[k]) == Spans(cmd);
    case Redir(c, file, _) =>
      Nulterminate(c, buf);
      CutOne(old(buf[..]), buf[..], Spans(c), file);
      buf[file.eq] := '\0';
    case Pipe(l, r) =>
      Nulterminate(l, buf);
      ghost var mid := buf[..];
      Nulterminate(r, buf);
      CutTwice(old(buf[..]), mid, buf[..], Spans(l), Spans(r));
    case List(l, r) =>
      Nulterminate(l, buf);
      ghost var mid := buf[..];
      Nulterminate(r, buf);
      CutTwice(old(buf[..]), mid, buf[..], Spans(l), Spans(r));
    case Back(c) =>
      Nulterminate(c, buf);
  }

  lemma CutOne(b0: seq<char>, b: seq<char>, spans: set<Span>, w: Span)
    requires Cut(b0, b, spans) && w.eq < |b|
    ensures Cut(b0, b[w.eq := '\0'], spans + {w})
  {
    forall i | 0 <= i < |b|
      ensures EndsAt(spans + {w}, i) <==> EndsAt(spans, i) || i == w.eq
    {
      if EndsAt(spans, i) {
        var v :| v in spans && v.eq == i;
        assert v in spans + {w};
      }
    }
  }

  lemma CutTwice(b0: seq<char>, b1: seq<char>, b2: seq<char>, s1: set<Span>, s2: set<Span>)
    requires Cut(b0, b1, s1) && Cut(b1, b2, s2)
    ensures Cut(b0, b2, s1 + s2)
  {
    forall i | 0 <= i < |b0|
      ensures EndsAt(s1 + s2, i) <==> EndsAt(s1, i) || EndsAt(s2, i)
    {
      if EndsAt(s1, i) {
        var v :| v in s1 && v.eq == i;
        assert v in s1 + s2;
      }
      if EndsAt(s2, i) {
        var v :| v in s2 && v.eq == i;
        assert v in s1 + s2;
      }
    }
  }

  // ---------------------------------------------------------------- what the words read as

  /** The C string at position q of a buffer. */
  function CStr(b: seq<char>, q: nat): string
    decreases |b| - q
  {
    if q >= |b| || b[q] == '\0' then "" else [b[q]] + CStr(b, q + 1)
  }

  lemma {:induction false} CStrIs(b: seq<char>, q: nat, eq: nat)
    requires q <= eq < |b| && b[eq] == '\0' && forall i :: q <= i < eq ==> b[i] != '\0'
    ensures CStr(b, q) == b[q..eq]
    decreases eq - q
  {
    if q < eq {
      CStrIs(b, q + 1, eq);
    }
  }

  /** For every accepted line, each argument and file name reads as exactly the word gettoken delimited. */
  lemma {:induction false} TerminationIsHarmless(s: Line, buf: seq<char>, w: Span)
    requires ParseCmd(s).Ok? && Cut(s + ['\0'], buf, Spans(ParseCmd(s).cmd)) && w in Spans(ParseCmd(s).cmd)
    ensures w.q < w.eq <= |s| && CStr(buf, w.q) == s[w.q..w.eq]
  {
    var spans := Spans(ParseCmd(s).cmd);
    LineRecordsWords(s, 0);
    assert IsWord(s, w.q, w.eq);
    var b := s + ['\0'];
    forall i | w.q <= i < w.eq
      ensures buf[i] == s[i]
    {
      forall v | v in spans
        ensures v.eq != i
      {
        assert IsWord(s, v.q, v.eq);
      }
    }
    assert EndsAt(spans, w.eq);
    CStrIs(buf, w.q, w.eq);
    assert buf[w.q..w.eq] == s[w.q..w.eq];
  }

  /** parsecmd: the line is in buf, with its NUL; on success every word in the tree can be read there as a C string. */
  method ParseCmdCode(buf: array<char>, s: Line) returns (r: Parsed)
    requires buf[..] == s + ['\0']
    modifies buf
    ensures r == ParseCmd(s)
    ensures r.Panic? ==> buf[..] == old(buf[..])
    ensures r.Ok? ==> forall w :: w in Spans(r.cmd) ==> w.q < w.eq <= |s| && CStr(buf[..], w.q) == s[w.q..w.eq]
  {
    r := ParseLineCode(s, 0);
    if r.Panic? {
      return;
    }
    var none, ps := PeekCode(s, r.pos, "");
    if ps != |s| {
      return Panic;
    }
    r := Ok(r.cmd, |s|);
    LineRecordsWords(s, 0);
    Nulterminate(r.cmd, buf);
    forall w | w in Spans(r.cmd)
      ensures w.q < w.eq <= |s| && CStr(buf[..], w.q) == s[w.q..w.eq]
    {
      TerminationIsHarmless(s, buf[..], w);
    }
  }
}
