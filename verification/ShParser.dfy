/** The recursive-descent parser of user/sh.c. A panic is a result; everything else is a tree and the new cursor. */
module ShParser {
  import opened ShLexer

  const MAXARGS: nat := 10

  /** O_RDONLY on 0; O_WRONLY|O_CREATE|O_TRUNC on 1; O_WRONLY|O_CREATE on 1. */
  datatype Mode = In | Out | Append

  /** A command tree over words W. */
  datatype Cmd<W> =
    | Exec(args: seq<W>)
    | Redir(cmd: Cmd<W>, file: W, mode: Mode)
    | Pipe(left: Cmd<W>, right: Cmd<W>)
    | List(left: Cmd<W>, right: Cmd<W>)
    | Back(cmd: Cmd<W>)

  /** A word as the parser records it: where it starts and ends in the line. */
  datatype Span = Span(q: nat, eq: nat)

  datatype To<W> = To(file: W, mode: Mode)

  datatype Parsed = Ok(cmd: Cmd<Span>, pos: nat) | Panic
  datatype Redirs = RedirsOk(rs: seq<To<Span>>, pos: nat) | RedirsPanic
  datatype Args = ArgsOk(args: seq<Span>, rs: seq<To<Span>>, pos: nat) | ArgsPanic

  /** cmd under the redirections rs, the first one innermost. */
  function Wrap<W>(cmd: Cmd<W>, rs: seq<To<W>>): Cmd<W> {
    if rs == [] then cmd else Redir(Wrap(cmd, rs[..|rs| - 1]), rs[|rs| - 1].file, rs[|rs| - 1].mode)
  }

  function ModeOf(t: Tok): Mode {
    if t == SymTok('<') then In else if t == AppendTok then Append else Out
  }

  function ParseRedirs(s: Line, pos: nat, rs: seq<To<Span>>): (r: Redirs)
    requires pos <= |s|
    ensures r.RedirsOk? ==> pos <= r.pos <= |s|
    decreases |s| - pos
  {
    if !Peek(s, pos, "<>") then RedirsOk(rs, SkipSpace(s, pos))
    else
      var t := GetToken(s, SkipSpace(s, pos));
      var f := GetToken(s, t.pos);
      if !f.tok.WordTok? then RedirsPanic
      else ParseRedirs(s, f.pos, rs + [To(Span(f.q, f.eq), ModeOf(t.tok))])
  }

  /** The argument loop of parseexec. */
  function ParseArgs(s: Line, pos: nat, args: seq<Span>, rs: seq<To<Span>>): (r: Args)
    requires pos <= |s|
    ensures r.ArgsOk? ==> pos <= r.pos <= |s|
    decreases |s| - pos
  {
    if Peek(s, pos, "|)&;") then ArgsOk(args, rs, SkipSpace(s, pos))
    else
      var t := GetToken(s, SkipSpace(s, pos));
      if t.tok.EndTok? then ArgsOk(args, rs, t.pos)
      else if !t.tok.WordTok? then ArgsPanic
      else if |args| + 1 >= MAXARGS then ArgsPanic
      else
        var r := ParseRedirs(s, t.pos, rs);
        if r.RedirsPanic? then ArgsPanic
        else ParseArgs(s, r.pos, args + [Span(t.q, t.eq)], r.rs)
  }

  function ParseExec(s: Line, pos: nat): (r: Parsed)
    requires pos <= |s|
    ensures r.Ok? ==> pos <= r.pos <= |s|
    decreases |s| - pos, 1
  {
    if Peek(s, pos, "(") then ParseBlock(s, SkipSpace(s, pos))
    else
      var r := ParseRedirs(s, SkipSpace(s, pos), []);
      if r.RedirsPanic? then Panic
      else
        var a := ParseArgs(s, r.pos, [], r.rs);
        if a.ArgsPanic? then Panic else Ok(Wrap(Exec(a.args), a.rs), a.pos)
  }

  function ParseBlock(s: Line, pos: nat): (r: Parsed)
    requires pos <= |s|
    ensures r.Ok? ==> pos <= r.pos <= |s|
    decreases |s| - pos, 0
  {
    if !Peek(s, pos, "(") then Panic
    else
      var t := GetToken(s, SkipSpace(s, pos));
      var l := ParseLine(s, t.pos);
      if l.Panic? then Panic
      else if !Peek(s, l.pos, ")") then Panic
      else
        var u := GetToken(s, SkipSpace(s, l.pos));
        var r := ParseRedirs(s, u.pos, []);
        if r.RedirsPanic? then Panic else Ok(Wrap(l.cmd, r.rs), r.pos)
  }

  function ParsePipe(s: Line, pos: nat): (r: Parsed)
    requires pos <= |s|
    ensures r.Ok? ==> pos <= r.pos <= |s|
    decreases |s| - pos, 2
  {
    var r := ParseExec(s, pos);
    if r.Panic? then Panic
    else if Peek(s, r.pos, "|") then
      var t := GetToken(s, SkipSpace(s, r.pos));
      var u := ParsePipe(s, t.pos);
      if u.Panic? then Panic else Ok(Pipe(r.cmd, u.cmd), u.pos)
    else Ok(r.cmd, SkipSpace(s, r.pos))
  }

  /** The & loop of parseline. */
  function ParseBacks(s: Line, pos: nat, cmd: Cmd<Span>): (r: Parsed)
    requires pos <= |s|
    ensures r.Ok? && pos <= r.pos <= |s|
    decreases |s| - pos
  {
    if Peek(s, pos, "&") then ParseBacks(s, GetToken(s, SkipSpace(s, pos)).pos, Back(cmd))
    else Ok(cmd, SkipSpace(s, pos))
  }

  function ParseLine(s: Line, pos: nat): (r: Parsed)
    requires pos <= |s|
    ensures r.Ok? ==> pos <= r.pos <= |s|
    decreases |s| - pos, 3
  {
    var r := ParsePipe(s, pos);
    if r.Panic? then Panic
    else
      var b := ParseBacks(s, r.pos, r.cmd);
      if Peek(s, b.pos, ";") then
        var t := GetToken(s, SkipSpace(s, b.pos));
        var u := ParseLine(s, t.pos);
        if u.Panic? then Panic else Ok(List(b.cmd, u.cmd), u.pos)
      else Ok(b.cmd, SkipSpace(s, b.pos))
  }

  /** parsecmd before nulterminate. */
  function ParseCmd(s: Line): (r: Parsed)
  {
    var r := ParseLine(s, 0);
    if r.Panic? then Panic else if SkipSpace(s, r.pos) != |s| then Panic else Ok(r.cmd, |s|)
  }

  // ---------------------------------------------------------------- the code

  lemma RedirStep(s: Line, pos: nat, rs: seq<To<Span>>)
    requires pos <= |s|
    ensures !Peek(s, pos, "<>") ==> ParseRedirs(s, pos, rs) == RedirsOk(rs, SkipSpace(s, pos))
    ensures Peek(s, pos, "<>") ==>
              var t := GetToken(s, SkipSpace(s, pos));
              var f := GetToken(s, t.pos);
              && t.tok in {SymTok('<'), SymTok('>'), AppendTok} && pos < t.pos
              && ParseRedirs(s, pos, rs) ==
                 (if f.tok.WordTok? then ParseRedirs(s, f.pos, rs + [To(Span(f.q, f.eq), ModeOf(t.tok))])
                  else RedirsPanic)
  {
    if Peek(s, pos, "<>") {
      RedirTok(s, pos);
    }
    hide GetToken, SkipSpace;
  }

  lemma WrapMore<W>(cmd: Cmd<W>, rs: seq<To<W>>, to: To<W>)
    ensures Wrap(cmd, rs + [to]) == Redir(Wrap(cmd, rs), to.file, to.mode)
  {
    assert (rs + [to])[..|rs|] == rs;
  }

  method ParseRedirsCode(cmd: Cmd<Span>, s: Line, ps: nat, ghost base: Cmd<Span>, ghost rs: seq<To<Span>>)
    returns (ok: bool, r: Cmd<Span>, ps': nat, ghost rs': seq<To<Span>>)
    requires ps <= |s| && cmd == Wrap(base, rs)
    ensures var p := ParseRedirs(s, ps, rs);
            ok == p.RedirsOk? && (ok ==> ps' == p.pos && rs' == p.rs && r == Wrap(base, rs'))
  {
    hide GetToken, SkipSpace, Peek, ParseRedirs, Wrap;
    r, ps', rs' := cmd, ps, rs;
    var more;
    while true
      invariant ps <= ps' <= |s| && r == Wrap(base, rs') && ParseRedirs(s, ps', rs') == ParseRedirs(s, ps, rs)
      decreases |s| - ps'
    {
      AfterSkip(s, ps');
      SkipTwice(s, ps');
      RedirStep(s, ps', rs');
      more, ps' := PeekCode(s, ps', "<>");
      if !more {
        break;
      }
      var tok, q, eq;
      tok, q, eq, ps' := GetTokenCode(s, ps');
      var file;
      file, q, eq, ps' := GetTokenCode(s, ps');
      if file != 'a' {
        return false, r, ps', rs';
      }
      var mode := if tok == '<' then In else if tok == '>' then Out else Append;
      WrapMore(base, rs', To(Span(q, eq), mode));
      r, rs' := Redir(r, Span(q, eq), mode), rs' + [To(Span(q, eq), mode)];
    }
    ok := true;
  }

  method ParseExecCode(s: Line, ps: nat) returns (r: Parsed)
    requires ps <= |s|
    ensures r == ParseExec(s, ps)
    decreases |s| - ps, 1
  {
    var block, ps' := PeekCode(s, ps, "(");
    if block {
      r := ParseBlockCode(s, ps');
      return;
    }
    // The execcmd is filled in after redirections may have been wrapped around it; rs says which.
    var args: seq<Span> := [];
    var ok, cmd;
    ghost var rs;
    ok, cmd, ps', rs := ParseRedirsCode(Exec([]), s, ps', Exec([]), []);
    if !ok {
      return Panic;
    }
    ghost var want := ParseArgs(s, ps', [], rs);
    while true
      invariant ps <= ps' <= |s| && cmd == Wrap(Exec(args), rs) && ParseArgs(s, ps', args, rs) == want
      decreases |s| - ps'
    {
      AfterSkip(s, ps');
      var stop;
      stop, ps' := PeekCode(s, ps', "|)&;");
      if stop {
        break;
      }
      var tok, q, eq;
      tok, q, eq, ps' := GetTokenCode(s, ps');
      if tok == '\0' {
        break;
      }
      if tok != 'a' {
        return Panic;
      }
      cmd := Refill(cmd, Span(q, eq), args, rs);
      args := args + [Span(q, eq)];
      if |args| >= MAXARGS {
        return Panic;
      }
      ok, cmd, ps', rs := ParseRedirsCode(cmd, s, ps', Exec(args), rs);
      if !ok {
        return Panic;
      }
    }
    return Ok(cmd, ps');
  }

  /** cmd->argv[argc] = word, seen through the redirections around the execcmd. */
  function Refill(cmd: Cmd<Span>, word: Span, ghost args: seq<Span>, ghost rs: seq<To<Span>>): (r: Cmd<Span>)
    requires cmd == Wrap(Exec(args), rs)
    ensures r == Wrap(Exec(args + [word]), rs)
  {
    match cmd
    case Exec(a) => Exec(a + [word])
    case Redir(c, file, mode) => Redir(Refill(c, word, args, rs[..|rs| - 1]), file, mode)
  }

  method ParseBlockCode(s: Line, ps: nat) returns (r: Parsed)
    requires ps <= |s|
    ensures r == ParseBlock(s, ps)
    decreases |s| - ps, 0
  {
    var open, ps' := PeekCode(s, ps, "(");
    if !open {
      return Panic;
    }
    var tok, q, eq;
    tok, q, eq, ps' := GetTokenCode(s, ps');
    var l := ParseLineCode(s, ps');
    if l.Panic? {
      return Panic;
    }
    var close;
    close, ps' := PeekCode(s, l.pos, ")");
    if !close {
      return Panic;
    }
    tok, q, eq, ps' := GetTokenCode(s, ps');
    var ok, cmd;
    ghost var rs;
    ok, cmd, ps', rs := ParseRedirsCode(l.cmd, s, ps', l.cmd, []);
    if !ok {
      return Panic;
    }
    return Ok(cmd, ps');
  }

  method ParsePipeCode(s: Line, ps: nat) returns (r: Parsed)
    requires ps <= |s|
    ensures r == ParsePipe(s, ps)
    decreases |s| - ps, 2
  {
    r := ParseExecCode(s, ps);
    if r.Panic? {
      return;
    }
    var more, ps' := PeekCode(s, r.pos, "|");
    if !more {
      return Ok(r.cmd, ps');
    }
    var tok, q, eq;
    tok, q, eq, ps' := GetTokenCode(s, ps');
    var u := ParsePipeCode(s, ps');
    if u.Panic? {
      return Panic;
    }
    return Ok(Pipe(r.cmd, u.cmd), u.pos);
  }

  method ParseLineCode(s: Line, ps: nat) returns (r: Parsed)
    requires ps <= |s|
    ensures r == ParseLine(s, ps)
    decreases |s| - ps, 3
  {
    r := ParsePipeCode(s, ps);
    if r.Panic? {
      return;
    }
    var cmd, ps' := r.cmd, r.pos;
    ghost var want := ParseBacks(s, ps', cmd);
    var tok, q, eq, more;
    while true
      invariant ps <= ps' <= |s| && ParseBacks(s, ps', cmd) == want
      decreases |s| - ps'
    {
      AfterSkip(s, ps');
      more, ps' := PeekCode(s, ps', "&");
      if !more {
        break;
      }
      tok, q, eq, ps' := GetTokenCode(s, ps');
      cmd := Back(cmd);
    }
    AfterSkip(s, ps');
    more, ps' := PeekCode(s, ps', ";");
    if !more {
      return Ok(cmd, ps');
    }
    tok, q, eq, ps' := GetTokenCode(s, ps');
    var u := ParseLineCode(s, ps');
    if u.Panic? {
      return Panic;
    }
    return Ok(List(cmd, u.cmd), u.pos);
  }
}
