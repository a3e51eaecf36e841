/** The grammar of command lines; the parser of user/sh.c reads exactly the lines of it, each as its one tree. */
module ShGrammar {
  import opened ShLexer
  import opened ShParser

  // ---------------------------------------------------------------- pieces

  datatype Piece = Sym(c: char) | More | Word(w: string)

  function PieceOf(s: Line, t: Token): Piece
    requires t.q <= t.eq <= |s|
  {
    match t.tok
    case SymTok(c) => Sym(c)
    case AppendTok => More
    case _ => Word(s[t.q..t.eq])
  }

  /** What gettoken reads from pos on. */
  function Pieces(s: Line, pos: nat): seq<Piece>
    requires pos <= |s|
    decreases |s| - pos
  {
    var t := GetToken(s, pos);
    if t.tok.EndTok? then [] else [PieceOf(s, t)] + Pieces(s, t.pos)
  }

  /** The first piece is the symbol c. */
  predicate At(ps: seq<Piece>, c: char) {
    ps != [] && ps[0] == Sym(c)
  }

  predicate AtRedir(ps: seq<Piece>) {
    At(ps, '<') || At(ps, '>') || (ps != [] && ps[0] == More)
  }

  /** What may follow a command, a pipeline, and a line. */
  predicate EndsExec(ps: seq<Piece>) {
    ps == [] || At(ps, '|') || At(ps, '&') || At(ps, ';') || At(ps, ')')
  }

  predicate EndsPipe(ps: seq<Piece>) {
    ps == [] || At(ps, '&') || At(ps, ';') || At(ps, ')')
  }

  predicate EndsLine(ps: seq<Piece>) {
    ps == [] || At(ps, ')')
  }

  // ---------------------------------------------------------------- the grammar

  /** A word of a simple command with the redirections behind it. */
  datatype Arg = Arg(w: string, rs: seq<To<string>>)

  /** How a line is put together. */
  datatype Syn =
    | Simple(pre: seq<To<string>>, args: seq<Arg>)
    | Block(line: Syn, rs: seq<To<string>>)
    | Piped(left: Syn, right: Syn)
    | Amp(cmd: Syn)
    | Semi(left: Syn, right: Syn)

  /** A command: words and redirections, or a line in parentheses with redirections behind it. */
  predicate IsExec(t: Syn)
    decreases t, 0
  {
    match t
    case Simple(_, args) => |args| < MAXARGS
    case Block(line, _) => IsLine(line)
    case _ => false
  }

  /** A pipeline: commands with | between them, grouped to the right. */
  predicate IsPipe(t: Syn)
    decreases t, 1
  {
    IsExec(t) || (t.Piped? && IsExec(t.left) && IsPipe(t.right))
  }

  /** A pipeline with any number of & behind it. */
  predicate IsItem(t: Syn)
    decreases t, 2
  {
    IsPipe(t) || (t.Amp? && IsItem(t.cmd))
  }

  /** A line: items with ; between them, grouped to the right. */
  predicate IsLine(t: Syn)
    decreases t, 3
  {
    IsItem(t) || (t.Semi? && IsItem(t.left) && IsLine(t.right))
  }

  lemma Levels(t: Syn)
    ensures t.Amp? ==> (IsItem(t) <==> IsItem(t.cmd))
    ensures t.Semi? ==> (IsLine(t) <==> IsItem(t.left) && IsLine(t.right))
  {
    assert t.Amp? || t.Semi? ==> !IsExec(t) && !IsPipe(t);
    assert t.Semi? ==> !IsItem(t);
  }

  function ModePiece(m: Mode): Piece {
    match m
    case In => Sym('<')
    case Out => Sym('>')
    case Append => More
  }

  function RedirPieces(rs: seq<To<string>>): seq<Piece> {
    if rs == [] then [] else [ModePiece(rs[0].mode), Word(rs[0].file)] + RedirPieces(rs[1..])
  }

  function ArgPieces(args: seq<Arg>): seq<Piece> {
    if args == [] then [] else [Word(args[0].w)] + RedirPieces(args[0].rs) + ArgPieces(args[1..])
  }

  /** The pieces of a line. */
  function Spell(t: Syn): seq<Piece> {
    match t
    case Simple(pre, args) => RedirPieces(pre) + ArgPieces(args)
    case Block(line, rs) => [Sym('(')] + Spell(line) + [Sym(')')] + RedirPieces(rs)
    case Piped(l, r) => Spell(l) + [Sym('|')] + Spell(r)
    case Amp(c) => Spell(c) + [Sym('&')]
    case Semi(l, r) => Spell(l) + [Sym(';')] + Spell(r)
  }

  function ArgWords(args: seq<Arg>): seq<string> {
    if args == [] then [] else [args[0].w] + ArgWords(args[1..])
  }

  function ArgRedirs(args: seq<Arg>): seq<To<string>> {
    if args == [] then [] else args[0].rs + ArgRedirs(args[1..])
  }

  /** The tree a line stands for: all words in one command, its redirections around it in the order they are read. */
  function Meaning(t: Syn): Cmd<string> {
    match t
    case Simple(pre, args) => Wrap(Exec(ArgWords(args)), pre + ArgRedirs(args))
    case Block(line, rs) => Wrap(Meaning(line), rs)
    case Piped(l, r) => Pipe(Meaning(l), Meaning(r))
    case Amp(c) => Back(Meaning(c))
    case Semi(l, r) => List(Meaning(l), Meaning(r))
  }

  // ---------------------------------------------------------------- reading a tree off the line

  function TextOf(s: string, w: Span): string {
    if w.q <= w.eq <= |s| then s[w.q..w.eq] else ""
  }

  function ArgTexts(s: string, args: seq<Span>): (r: seq<string>) {
    seq(|args|, i requires 0 <= i < |args| => TextOf(s, args[i]))
  }

  function ToTexts(s: string, rs: seq<To<Span>>): (r: seq<To<string>>) {
    seq(|rs|, i requires 0 <= i < |rs| => To(TextOf(s, rs[i].file), rs[i].mode))
  }

  /** The tree with words in place of positions. */
  function Tree(s: string, c: Cmd<Span>): Cmd<string> {
    match c
    case Exec(args) => Exec(ArgTexts(s, args))
    case Redir(b, file, mode) => Redir(Tree(s, b), TextOf(s, file), mode)
    case Pipe(l, r) => Pipe(Tree(s, l), Tree(s, r))
    case List(l, r) => List(Tree(s, l), Tree(s, r))
    case Back(b) => Back(Tree(s, b))
  }

  lemma {:induction false} TreeOfWrap(s: string, c: Cmd<Span>, rs: seq<To<Span>>)
    ensures Tree(s, Wrap(c, rs)) == Wrap(Tree(s, c), ToTexts(s, rs))
  {
    if rs != [] {
      TreeOfWrap(s, c, rs[..|rs| - 1]);
      assert ToTexts(s, rs)[..|rs| - 1] == ToTexts(s, rs[..|rs| - 1]);
    }
  }

  lemma ToTextsSnoc(s: string, rs: seq<To<Span>>, x: To<Span>)
    ensures ToTexts(s, rs + [x]) == ToTexts(s, rs) + [To(TextOf(s, x.file), x.mode)]
  {
  }

  lemma ArgTextsSnoc(s: string, args: seq<Span>, x: Span)
    ensures ArgTexts(s, args + [x]) == ArgTexts(s, args) + [TextOf(s, x)]
  {
  }

  // ---------------------------------------------------------------- peek and gettoken in pieces

  lemma PiecesSkip(s: Line, pos: nat)
    requires pos <= |s|
    ensures Pieces(s, SkipSpace(s, pos)) == Pieces(s, pos)
  {
    AfterSkip(s, pos);
    hide GetToken, SkipSpace;
  }

  /** gettoken gives the first piece and goes on to the others. */
  lemma Next(s: Line, pos: nat)
    requires pos <= |s|
    ensures var t, ps := GetToken(s, pos), Pieces(s, pos);
            && t == GetToken(s, SkipSpace(s, pos))
            && (t.tok.EndTok? <==> ps == []) && (ps == [] <==> SkipSpace(s, pos) == |s|)
            && (ps != [] ==> ps[0] == PieceOf(s, t) && ps[1..] == Pieces(s, t.pos) && pos < t.pos)
            && (t.tok.WordTok? <==> ps != [] && ps[0].Word?)
            && (t.tok.WordTok? ==> ps[0].w == TextOf(s, Span(t.q, t.eq)))
  {
    AfterSkip(s, pos);
  }

  /** peek looks at the first piece. */
  lemma Peeks(s: Line, pos: nat)
    requires pos <= |s|
    ensures var ps := Pieces(s, pos);
            && (forall c :: c in "|&;()" ==> (Peek(s, pos, [c]) <==> At(ps, c)))
            && (Peek(s, pos, "<>") <==> AtRedir(ps))
            && (Peek(s, pos, "|)&;") <==> ps != [] && EndsExec(ps))
  {
    AfterSkip(s, pos);
    Next(s, pos);
    var t := GetToken(s, pos);
    assert !t.tok.EndTok? ==> s[t.q] == s[SkipSpace(s, pos)];
    hide SkipSpace, WordEnd;
  }

  // ---------------------------------------------------------------- every parse is a line of the grammar

  /** r is a parse of tree c that leaves ts. */
  ghost predicate Gives(s: Line, r: Parsed, c: Cmd<string>, ts: seq<Piece>) {
    r.Ok? && r.pos <= |s| && Pieces(s, r.pos) == ts && Tree(s, r.cmd) == c
  }

  /** From pos on the line spells t and what is behind end. */
  ghost predicate Spells(s: Line, pos: nat, t: Syn, end: nat) {
    pos <= |s| && end <= |s| && Pieces(s, pos) == Spell(t) + Pieces(s, end)
  }

  /** One turn of parseredirs. */
  lemma RedirRead(s: Line, pos: nat, rs0: seq<To<Span>>) returns (x: To<Span>, pos': nat)
    requires pos <= |s| && AtRedir(Pieces(s, pos))
    ensures pos <= pos' <= |s|
    ensures var ps := Pieces(s, pos);
            if |ps| > 1 && ps[1].Word? then
              && pos < pos' && Pieces(s, pos') == ps[2..] && ParseRedirs(s, pos, rs0) == ParseRedirs(s, pos', rs0 + [x])
              && ps[0] == ModePiece(x.mode) && ps[1] == Word(TextOf(s, x.file))
            else ParseRedirs(s, pos, rs0) == RedirsPanic
  {
    RedirStep(s, pos, rs0);
    Peeks(s, pos);
    Next(s, pos);
    hide Pieces, GetToken, Peek, SkipSpace, ParseRedirs, TextOf;
    var t := GetToken(s, pos);
    Next(s, t.pos);
    var f := GetToken(s, t.pos);
    TailOfTail(Pieces(s, pos));
    x, pos' := To(Span(f.q, f.eq), ModeOf(t.tok)), f.pos;
  }

  lemma TailOfTail(ps: seq<Piece>)
    ensures |ps| > 1 ==> ps[1..][0] == ps[1] && ps[1..][1..] == ps[2..]
  {
  }

  lemma NoRedir(s: Line, pos: nat, rs0: seq<To<Span>>)
    requires pos <= |s| && !AtRedir(Pieces(s, pos))
    ensures ParseRedirs(s, pos, rs0) == RedirsOk(rs0, SkipSpace(s, pos))
    ensures Pieces(s, SkipSpace(s, pos)) == Pieces(s, pos)
  {
    RedirStep(s, pos, rs0);
    Peeks(s, pos);
    PiecesSkip(s, pos);
  }

  /** r has read rs, behind rs0, and leaves ts. */
  ghost predicate RedirsGive(s: Line, r: Redirs, rs0: seq<To<Span>>, rs: seq<To<string>>, ts: seq<Piece>) {
    r.RedirsOk? && r.pos <= |s| && Pieces(s, r.pos) == ts && ToTexts(s, r.rs) == ToTexts(s, rs0) + rs
  }

  lemma {:induction false} RedirsSound(s: Line, pos: nat, rs0: seq<To<Span>>) returns (rs: seq<To<string>>)
    requires pos <= |s| && ParseRedirs(s, pos, rs0).RedirsOk?
    ensures var r := ParseRedirs(s, pos, rs0);
            && Pieces(s, pos) == RedirPieces(rs) + Pieces(s, r.pos) && !AtRedir(Pieces(s, r.pos))
            && RedirsGive(s, r, rs0, rs, Pieces(s, r.pos))
    decreases |s| - pos
  {
    hide Pieces, ParseRedirs, ToTexts, TextOf, AtRedir;
    var r := ParseRedirs(s, pos, rs0);
    if AtRedir(Pieces(s, pos)) {
      var x, pos' := RedirRead(s, pos, rs0);
      rs := RedirsSound(s, pos', rs0 + [x]);
      RedirMore(s, rs0, x, rs);
      rs := [To(TextOf(s, x.file), x.mode)] + rs;
    } else {
      NoRedir(s, pos, rs0);
      rs := [];
      assert ToTexts(s, rs0) + rs == ToTexts(s, rs0);
    }
  }

  lemma {:induction false} RedirsComplete(s: Line, pos: nat, rs0: seq<To<Span>>, rs: seq<To<string>>, ts: seq<Piece>)
    requires pos <= |s| && Pieces(s, pos) == RedirPieces(rs) + ts && !AtRedir(ts)
    ensures RedirsGive(s, ParseRedirs(s, pos, rs0), rs0, rs, ts)
    decreases |rs|
  {
    hide Pieces, ParseRedirs, ToTexts, TextOf, AtRedir;
    if rs != [] {
      RedirsCons(rs, ts);
      var x, pos' := RedirRead(s, pos, rs0);
      RedirsComplete(s, pos', rs0 + [x], rs[1..], ts);
      RedirMore(s, rs0, x, rs[1..]);
      assert [rs[0]] + rs[1..] == rs;
      ModePieceIs(x.mode, rs[0].mode);
    } else {
      assert RedirPieces(rs) + ts == ts;
      NoRedir(s, pos, rs0);
      assert ToTexts(s, rs0) + rs == ToTexts(s, rs0);
    }
  }

  lemma ModePieceIs(m: Mode, n: Mode)
    ensures ModePiece(m) == ModePiece(n) ==> m == n
  {
  }

  lemma RedirsCons(rs: seq<To<string>>, ts: seq<Piece>)
    requires rs != []
    ensures var ps := RedirPieces(rs) + ts;
            && |ps| > 1 && ps[0] == ModePiece(rs[0].mode) && ps[1] == Word(rs[0].file) && AtRedir(ps)
            && ps[2..] == RedirPieces(rs[1..]) + ts
  {
    var a, b, rest := ModePiece(rs[0].mode), Word(rs[0].file), RedirPieces(rs[1..]);
    assert RedirPieces(rs) == [a, b] + rest;
    ModeIsRedir(rs[0].mode);
    hide RedirPieces, ModePiece;
    assert [a, b] + rest + ts == [a, b] + (rest + ts);
  }

  lemma ModeIsRedir(m: Mode)
    ensures forall ps :: ps != [] && ps[0] == ModePiece(m) ==> AtRedir(ps)
  {
  }

  lemma RedirMore(s: string, rs0: seq<To<Span>>, x: To<Span>, rs: seq<To<string>>)
    ensures var to := To(TextOf(s, x.file), x.mode);
            && ToTexts(s, rs0 + [x]) + rs == ToTexts(s, rs0) + ([to] + rs)
            && RedirPieces([to] + rs) == [ModePiece(to.mode), Word(to.file)] + RedirPieces(rs)
  {
    ToTextsSnoc(s, rs0, x);
    var to := To(TextOf(s, x.file), x.mode);
    assert ([to] + rs)[1..] == rs;
  }

  /** One turn of the argument loop. */
  lemma ArgRead(s: Line, pos: nat, args0: seq<Span>, rs0: seq<To<Span>>) returns (x: Span, pos': nat)
    requires pos <= |s|
    ensures pos <= pos' <= |s|
    ensures var ps, a := Pieces(s, pos), ParseArgs(s, pos, args0, rs0);
            if EndsExec(ps) then a == ArgsOk(args0, rs0, pos') && Pieces(s, pos') == ps
            else if !ps[0].Word? || |args0| + 1 >= MAXARGS then a == ArgsPanic
            else
              var r := ParseRedirs(s, pos', rs0);
              && pos < pos' && Pieces(s, pos') == ps[1..] && ps[0] == Word(TextOf(s, x))
              && a == if r.RedirsPanic? then ArgsPanic else ParseArgs(s, r.pos, args0 + [x], r.rs)
  {
    Peeks(s, pos);
    Next(s, pos);
    PiecesSkip(s, pos);
    var t := GetToken(s, pos);
    x, pos' := Span(t.q, t.eq), t.pos;
    if EndsExec(Pieces(s, pos)) {
      pos' := SkipSpace(s, pos);
      EndPos(s, pos);
    }
    hide Pieces, GetToken, Peek, SkipSpace, ParseRedirs, TextOf;
  }

  lemma EndPos(s: Line, pos: nat)
    requires pos <= |s|
    ensures GetToken(s, pos).tok.EndTok? ==> GetToken(s, pos).pos == SkipSpace(s, pos)
  {
  }

  /** a has read args, behind args0 and rs0, and leaves ts. */
  ghost predicate ArgsGive(s: Line, a: Args, args0: seq<Span>, rs0: seq<To<Span>>, args: seq<Arg>, ts: seq<Piece>) {
    && a.ArgsOk? && a.pos <= |s| && Pieces(s, a.pos) == ts
    && ArgTexts(s, a.args) == ArgTexts(s, args0) + ArgWords(args)
    && ToTexts(s, a.rs) == ToTexts(s, rs0) + ArgRedirs(args)
  }

  lemma NoArgs(s: Line, args0: seq<Span>, rs0: seq<To<Span>>, ts: seq<Piece>)
    ensures ArgTexts(s, args0) + ArgWords([]) == ArgTexts(s, args0)
    ensures ToTexts(s, rs0) + ArgRedirs([]) == ToTexts(s, rs0) && ArgPieces([]) + ts == ts
  {
  }

  /** One more argument with its redirections in front of args. */
  lemma ArgMore(s: Line, args0: seq<Span>, x: Span, ts0: seq<To<string>>, rs: seq<To<string>>, args: seq<Arg>,
                ts: seq<Piece>)
    ensures var all := [Arg(TextOf(s, x), rs)] + args;
            && ArgTexts(s, args0 + [x]) + ArgWords(args) == ArgTexts(s, args0) + ArgWords(all)
            && ts0 + rs + ArgRedirs(args) == ts0 + ArgRedirs(all)
            && ArgPieces(all) + ts == [Word(TextOf(s, x))] + (RedirPieces(rs) + (ArgPieces(args) + ts))
  {
    var all := [Arg(TextOf(s, x), rs)] + args;
    assert all[1..] == args;
    ArgTextsSnoc(s, args0, x);
    hide ArgTexts, RedirPieces, TextOf;
  }

  lemma {:induction false} ArgsSound(s: Line, pos: nat, args0: seq<Span>, rs0: seq<To<Span>>) returns (args: seq<Arg>)
    requires pos <= |s| && ParseArgs(s, pos, args0, rs0).ArgsOk? && |args0| < MAXARGS
    ensures var a := ParseArgs(s, pos, args0, rs0);
            && Pieces(s, pos) == ArgPieces(args) + Pieces(s, a.pos) && EndsExec(Pieces(s, a.pos))
            && ArgsGive(s, a, args0, rs0, args, Pieces(s, a.pos)) && |args0| + |args| < MAXARGS
    decreases |s| - pos
  {
    hide Pieces, ParseRedirs, ParseArgs, ToTexts, ArgTexts, TextOf, ArgPieces, ArgWords, ArgRedirs, RedirPieces;
    var x, pos' := ArgRead(s, pos, args0, rs0);
    if EndsExec(Pieces(s, pos)) {
      args := [];
      NoArgs(s, args0, rs0, Pieces(s, pos));
    } else {
      var rs := RedirsSound(s, pos', rs0);
      var r := ParseRedirs(s, pos', rs0);
      args := ArgsSound(s, r.pos, args0 + [x], r.rs);
      ArgMore(s, args0, x, ToTexts(s, rs0), rs, args, Pieces(s, ParseArgs(s, pos, args0, rs0).pos));
      args := [Arg(TextOf(s, x), rs)] + args;
    }
  }

  lemma {:induction false} ArgsComplete(s: Line, pos: nat, args0: seq<Span>, rs0: seq<To<Span>>, args: seq<Arg>,
                                        ts: seq<Piece>)
    requires pos <= |s| && Pieces(s, pos) == ArgPieces(args) + ts && EndsExec(ts) && |args0| + |args| < MAXARGS
    ensures ArgsGive(s, ParseArgs(s, pos, args0, rs0), args0, rs0, args, ts)
    decreases |args|
  {
    hide Pieces, ParseRedirs, ParseArgs, ToTexts, ArgTexts, TextOf, ArgPieces, ArgWords, ArgRedirs, RedirPieces;
    var x, pos' := ArgRead(s, pos, args0, rs0);
    if args == [] {
      NoArgs(s, args0, rs0, ts);
    } else {
      var rest := ArgPieces(args[1..]) + ts;
      ArgPiecesCons(args, ts);
      RedirsComplete(s, pos', rs0, args[0].rs, rest);
      var r := ParseRedirs(s, pos', rs0);
      ArgsComplete(s, r.pos, args0 + [x], r.rs, args[1..], ts);
      ArgMore(s, args0, x, ToTexts(s, rs0), args[0].rs, args[1..], ts);
      assert [Arg(TextOf(s, x), args[0].rs)] + args[1..] == args;
    }
  }

  lemma ArgPiecesCons(args: seq<Arg>, ts: seq<Piece>)
    requires args != [] && EndsExec(ts)
    ensures var ps, rest := ArgPieces(args) + ts, ArgPieces(args[1..]) + ts;
            && ps != [] && ps[0] == Word(args[0].w) && ps[1..] == RedirPieces(args[0].rs) + rest && !EndsExec(ps)
            && !AtRedir(rest)
  {
    var more := ArgPieces(args[1..]);
    assert more == [] || more[0].Word?;
    Behind(more, ts);
    Assoc([Word(args[0].w)], RedirPieces(args[0].rs), more, ts);
    hide RedirPieces;
  }

  lemma Behind(ps: seq<Piece>, ts: seq<Piece>)
    requires (ps == [] || ps[0].Word?) && EndsExec(ts)
    ensures !AtRedir(ps + ts)
  {
    assert ps == [] ==> ps + ts == ts;
  }

  lemma Assoc(a: seq<Piece>, b: seq<Piece>, c: seq<Piece>, ts: seq<Piece>)
    ensures a + b + c + ts == a + (b + (c + ts)) && a + b + ts == a + (b + ts)
  {
  }

  // ---------------------------------------------------------------- commands

  lemma Ends(ts: seq<Piece>)
    ensures EndsLine(ts) ==> EndsPipe(ts)
    ensures EndsPipe(ts) ==> EndsExec(ts) && !At(ts, '|')
    ensures EndsExec(ts) ==> !AtRedir(ts) && !At(ts, '(')
    ensures EndsPipe(ts) && !At(ts, '&') && !At(ts, ';') ==> EndsLine(ts)
    ensures EndsExec(ts) && !At(ts, '|') ==> EndsPipe(ts)
  {
  }

  /** parseexec on a simple command. */
  lemma SimpleStep(s: Line, pos: nat)
    requires pos <= |s| && !At(Pieces(s, pos), '(')
    ensures var q := SkipSpace(s, pos);
            var r := ParseRedirs(s, q, []);
            && Pieces(s, q) == Pieces(s, pos)
            && ParseExec(s, pos) ==
               if r.RedirsPanic? then Panic
               else
                 var a := ParseArgs(s, r.pos, [], r.rs);
                 if a.ArgsPanic? then Panic else Ok(Wrap(Exec(a.args), a.rs), a.pos)
  {
    Peeks(s, pos);
    PiecesSkip(s, pos);
    hide Pieces, GetToken, Peek, SkipSpace, ParseRedirs, ParseArgs, ParseBlock;
  }

  lemma SimpleTree(s: Line, pos: nat, pre: seq<To<string>>, args: seq<Arg>, a: Args, rs0: seq<To<Span>>, ts: seq<Piece>)
    requires ArgsGive(s, a, [], rs0, args, ts) && ToTexts(s, rs0) == ToTexts(s, []) + pre
    ensures Gives(s, Ok(Wrap(Exec(a.args), a.rs), a.pos), Meaning(Simple(pre, args)), ts)
  {
    TreeOfWrap(s, Exec(a.args), a.rs);
    assert ArgTexts(s, []) + ArgWords(args) == ArgWords(args);
    assert ToTexts(s, []) + pre == pre;
  }

  lemma SimpleSound(s: Line, pos: nat) returns (t: Syn)
    requires pos <= |s| && !At(Pieces(s, pos), '(') && ParseExec(s, pos).Ok?
    ensures var r := ParseExec(s, pos);
            IsExec(t) && Spells(s, pos, t, r.pos) && Gives(s, r, Meaning(t), Pieces(s, r.pos))
  {
    hide Pieces, ParseRedirs, ParseArgs, ParseExec, ToTexts, ArgTexts, TextOf, ArgPieces, RedirPieces, Meaning;
    hide SkipSpace;
    SimpleStep(s, pos);
    var q := SkipSpace(s, pos);
    var pre := RedirsSound(s, q, []);
    var r := ParseRedirs(s, q, []);
    var args := ArgsSound(s, r.pos, [], r.rs);
    var a := ParseArgs(s, r.pos, [], r.rs);
    SimpleTree(s, pos, pre, args, a, r.rs, Pieces(s, a.pos));
    t := Simple(pre, args);
    Assoc(RedirPieces(pre), ArgPieces(args), [], Pieces(s, a.pos));
  }

  lemma SimpleComplete(s: Line, pos: nat, pre: seq<To<string>>, args: seq<Arg>, ts: seq<Piece>)
    requires pos <= |s| && Pieces(s, pos) == Spell(Simple(pre, args)) + ts && EndsExec(ts) && |args| < MAXARGS
    ensures Gives(s, ParseExec(s, pos), Meaning(Simple(pre, args)), ts)
  {
    hide Pieces, ParseRedirs, ParseArgs, ParseExec, ToTexts, ArgTexts, TextOf, Meaning, SkipSpace, AtRedir;
    var rest := ArgPieces(args) + ts;
    Assoc(RedirPieces(pre), ArgPieces(args), [], ts);
    WordsFirst(args, ts);
    RedirsFirst(pre, rest);
    SimpleStep(s, pos);
    var q := SkipSpace(s, pos);
    hide RedirPieces, ArgPieces;
    RedirsComplete(s, q, [], pre, rest);
    var r := ParseRedirs(s, q, []);
    ArgsComplete(s, r.pos, [], r.rs, args, ts);
    SimpleTree(s, pos, pre, args, ParseArgs(s, r.pos, [], r.rs), r.rs, ts);
  }

  lemma WordsFirst(args: seq<Arg>, ts: seq<Piece>)
    requires EndsExec(ts)
    ensures !AtRedir(ArgPieces(args) + ts) && !At(ArgPieces(args) + ts, '(')
  {
    if args == [] {
      assert ArgPieces(args) + ts == ts;
    } else {
      ArgPiecesCons(args, ts);
    }
  }

  lemma RedirsFirst(pre: seq<To<string>>, rest: seq<Piece>)
    requires !At(rest, '(')
    ensures !At(RedirPieces(pre) + rest, '(')
  {
    if pre == [] {
      assert RedirPieces(pre) + rest == rest;
    } else {
      RedirsCons(pre, rest);
    }
  }

  /** parseexec at a (. */
  lemma BlockStep(s: Line, pos: nat)
    requires pos <= |s| && At(Pieces(s, pos), '(')
    ensures var t := GetToken(s, pos);
            && pos < t.pos && Pieces(s, t.pos) == Pieces(s, pos)[1..]
            && var l := ParseLine(s, t.pos);
            && (l.Panic? || !At(Pieces(s, l.pos), ')') ==> ParseExec(s, pos) == Panic)
            && (l.Ok? && At(Pieces(s, l.pos), ')') ==>
                  var u := GetToken(s, l.pos);
                  var r := ParseRedirs(s, u.pos, []);
                  && Pieces(s, u.pos) == Pieces(s, l.pos)[1..]
                  && ParseExec(s, pos) == if r.RedirsPanic? then Panic else Ok(Wrap(l.cmd, r.rs), r.pos))
  {
    var q := SkipSpace(s, pos);
    Peeks(s, pos);
    Peeks(s, q);
    PiecesSkip(s, pos);
    SkipTwice(s, pos);
    Next(s, pos);
    var t := GetToken(s, pos);
    var l := ParseLine(s, t.pos);
    if l.Ok? {
      Peeks(s, l.pos);
      Next(s, l.pos);
    }
    hide Pieces, GetToken, Peek, SkipSpace, ParseRedirs, ParseLine;
  }

  /** parsepipe behind its first command. */
  lemma PipeStep(s: Line, pos: nat)
    requires pos <= |s|
    ensures var r := ParseExec(s, pos);
            && (r.Panic? ==> ParsePipe(s, pos) == Panic)
            && (r.Ok? && !At(Pieces(s, r.pos), '|') ==>
                  ParsePipe(s, pos) == Ok(r.cmd, SkipSpace(s, r.pos))
                  && Pieces(s, SkipSpace(s, r.pos)) == Pieces(s, r.pos))
            && (r.Ok? && At(Pieces(s, r.pos), '|') ==>
                  var t := GetToken(s, r.pos);
                  var u := ParsePipe(s, t.pos);
                  && r.pos < t.pos && Pieces(s, t.pos) == Pieces(s, r.pos)[1..]
                  && ParsePipe(s, pos) == if u.Panic? then Panic else Ok(Pipe(r.cmd, u.cmd), u.pos))
  {
    var r := ParseExec(s, pos);
    if r.Ok? {
      Peeks(s, r.pos);
      Next(s, r.pos);
      PiecesSkip(s, r.pos);
    }
    hide Pieces, GetToken, Peek, SkipSpace, ParseExec;
  }

  /** One turn of the loop over &. */
  lemma BacksStep(s: Line, pos: nat, cmd: Cmd<Span>)
    requires pos <= |s|
    ensures !At(Pieces(s, pos), '&') ==>
              ParseBacks(s, pos, cmd) == Ok(cmd, SkipSpace(s, pos)) && Pieces(s, SkipSpace(s, pos)) == Pieces(s, pos)
    ensures At(Pieces(s, pos), '&') ==>
              var t := GetToken(s, pos);
              && pos < t.pos && Pieces(s, t.pos) == Pieces(s, pos)[1..]
              && ParseBacks(s, pos, cmd) == ParseBacks(s, t.pos, Back(cmd))
  {
    Peeks(s, pos);
    Next(s, pos);
    PiecesSkip(s, pos);
    hide Pieces, GetToken, Peek, SkipSpace;
  }

  /** parseline behind its first item. */
  lemma LineStep(s: Line, pos: nat)
    requires pos <= |s|
    ensures var r := ParsePipe(s, pos);
            && (r.Panic? ==> ParseLine(s, pos) == Panic)
            && (r.Ok? ==>
                  var b := ParseBacks(s, r.pos, r.cmd);
                  && (!At(Pieces(s, b.pos), ';') ==>
                        ParseLine(s, pos) == Ok(b.cmd, SkipSpace(s, b.pos))
                        && Pieces(s, SkipSpace(s, b.pos)) == Pieces(s, b.pos))
                  && (At(Pieces(s, b.pos), ';') ==>
                        var t := GetToken(s, b.pos);
                        var u := ParseLine(s, t.pos);
                        && b.pos < t.pos && Pieces(s, t.pos) == Pieces(s, b.pos)[1..]
                        && ParseLine(s, pos) == if u.Panic? then Panic else Ok(List(b.cmd, u.cmd), u.pos)))
  {
    var r := ParsePipe(s, pos);
    if r.Ok? {
      var b := ParseBacks(s, r.pos, r.cmd);
      Peeks(s, b.pos);
      Next(s, b.pos);
      PiecesSkip(s, b.pos);
    }
    hide Pieces, GetToken, Peek, SkipSpace, ParsePipe, ParseBacks;
  }

  /** a, the symbol c, and what follows it. */
  lemma Joined(a: seq<Piece>, c: char, b: seq<Piece>, ts: seq<Piece>)
    ensures a + [Sym(c)] + b + ts == a + ([Sym(c)] + (b + ts))
    ensures a + [Sym(c)] + ts == a + ([Sym(c)] + ts)
    ensures At([Sym(c)] + (b + ts), c) && ([Sym(c)] + (b + ts))[1..] == b + ts
    ensures At([Sym(c)] + ts, c) && ([Sym(c)] + ts)[1..] == ts
  {
  }

  lemma Uncons(ps: seq<Piece>, c: char)
    requires At(ps, c)
    ensures ps == [Sym(c)] + ps[1..]
  {
  }

  lemma {:induction false} ExecSound(s: Line, pos: nat) returns (t: Syn)
    requires pos <= |s| && ParseExec(s, pos).Ok?
    ensures var r := ParseExec(s, pos);
            IsExec(t) && Spells(s, pos, t, r.pos) && Gives(s, r, Meaning(t), Pieces(s, r.pos))
    decreases |s| - pos, 0
  {
    if !At(Pieces(s, pos), '(') {
      t := SimpleSound(s, pos);
      return;
    }
    hide Pieces, ParseRedirs, ParseExec, ParseLine, ToTexts, RedirPieces, SkipSpace, GetToken, Wrap;
    BlockStep(s, pos);
    var o := GetToken(s, pos);
    var line := LineSound(s, o.pos);
    var l := ParseLine(s, o.pos);
    var u := GetToken(s, l.pos);
    var rs := RedirsSound(s, u.pos, []);
    var r := ParseRedirs(s, u.pos, []);
    TreeOfWrap(s, l.cmd, r.rs);
    assert ToTexts(s, []) + rs == rs;
    t := Block(line, rs);
    Uncons(Pieces(s, pos), '(');
    Uncons(Pieces(s, l.pos), ')');
    BlockSpelled(Spell(line), RedirPieces(rs), Pieces(s, r.pos));
  }

  lemma BlockSpelled(a: seq<Piece>, b: seq<Piece>, ts: seq<Piece>)
    ensures [Sym('(')] + a + [Sym(')')] + b + ts == [Sym('(')] + (a + ([Sym(')')] + (b + ts)))
  {
  }

  lemma {:induction false} PipeSound(s: Line, pos: nat) returns (t: Syn)
    requires pos <= |s| && ParsePipe(s, pos).Ok?
    ensures var r := ParsePipe(s, pos);
            IsPipe(t) && Spells(s, pos, t, r.pos) && Gives(s, r, Meaning(t), Pieces(s, r.pos))
    decreases |s| - pos, 1
  {
    hide Pieces, ParseExec, ParsePipe, SkipSpace, GetToken;
    PipeStep(s, pos);
    t := ExecSound(s, pos);
    var r := ParseExec(s, pos);
    if At(Pieces(s, r.pos), '|') {
      var o := GetToken(s, r.pos);
      var right := PipeSound(s, o.pos);
      Uncons(Pieces(s, r.pos), '|');
      Joined(Spell(t), '|', Spell(right), Pieces(s, ParsePipe(s, o.pos).pos));
      t := Piped(t, right);
    }
  }

  lemma {:induction false} BacksSound(s: Line, pos: nat, t0: Syn, pos1: nat, cmd1: Cmd<Span>) returns (t: Syn)
    requires IsItem(t0) && Spells(s, pos, t0, pos1) && Tree(s, cmd1) == Meaning(t0)
    ensures var r := ParseBacks(s, pos1, cmd1);
            IsItem(t) && Spells(s, pos, t, r.pos) && Gives(s, r, Meaning(t), Pieces(s, r.pos))
    decreases |s| - pos1
  {
    hide Pieces, SkipSpace, GetToken, ParseBacks;
    BacksStep(s, pos1, cmd1);
    t := t0;
    if At(Pieces(s, pos1), '&') {
      var o := GetToken(s, pos1);
      Uncons(Pieces(s, pos1), '&');
      Joined(Spell(t0), '&', [], Pieces(s, o.pos));
      t := BacksSound(s, pos, Amp(t0), o.pos, Back(cmd1));
    }
  }

  /** What parseline accepts is a line of the grammar, and its tree is the meaning of that line. */
  lemma {:induction false} LineSound(s: Line, pos: nat) returns (t: Syn)
    requires pos <= |s| && ParseLine(s, pos).Ok?
    ensures var r := ParseLine(s, pos);
            IsLine(t) && Spells(s, pos, t, r.pos) && Gives(s, r, Meaning(t), Pieces(s, r.pos))
    decreases |s| - pos, 2
  {
    hide Pieces, ParsePipe, ParseLine, ParseBacks, SkipSpace, GetToken;
    LineStep(s, pos);
    t := PipeSound(s, pos);
    var r := ParsePipe(s, pos);
    t := BacksSound(s, pos, t, r.pos, r.cmd);
    var b := ParseBacks(s, r.pos, r.cmd);
    if At(Pieces(s, b.pos), ';') {
      var o := GetToken(s, b.pos);
      var right := LineSound(s, o.pos);
      Uncons(Pieces(s, b.pos), ';');
      Joined(Spell(t), ';', Spell(right), Pieces(s, ParseLine(s, o.pos).pos));
      t := Semi(t, right);
    }
  }

  // ---------------------------------------------------------------- every line of the grammar is parsed

  lemma {:induction false} ExecComplete(s: Line, pos: nat, t: Syn, ts: seq<Piece>)
    requires pos <= |s| && IsExec(t) && Pieces(s, pos) == Spell(t) + ts && EndsExec(ts)
    ensures Gives(s, ParseExec(s, pos), Meaning(t), ts)
    decreases t, 0
  {
    if t.Simple? {
      SimpleComplete(s, pos, t.pre, t.args, ts);
      return;
    }
    hide Pieces, ParseRedirs, ParseExec, ParseLine, ToTexts, RedirPieces, SkipSpace, GetToken, Wrap;
    var rest := RedirPieces(t.rs) + ts;
    var close := [Sym(')')] + rest;
    BlockSpelled(Spell(t.line), RedirPieces(t.rs), ts);
    Joined([], '(', Spell(t.line), close);
    Joined([], ')', [], rest);
    BlockStep(s, pos);
    var o := GetToken(s, pos);
    LineComplete(s, o.pos, t.line, close);
    var l := ParseLine(s, o.pos);
    var u := GetToken(s, l.pos);
    Ends(ts);
    RedirsComplete(s, u.pos, [], t.rs, ts);
    TreeOfWrap(s, l.cmd, ParseRedirs(s, u.pos, []).rs);
    assert ToTexts(s, []) + t.rs == t.rs;
  }

  lemma {:induction false} PipeComplete(s: Line, pos: nat, t: Syn, ts: seq<Piece>)
    requires pos <= |s| && IsPipe(t) && Pieces(s, pos) == Spell(t) + ts && EndsPipe(ts)
    ensures Gives(s, ParsePipe(s, pos), Meaning(t), ts)
    decreases t, 1
  {
    hide Pieces, ParseExec, ParsePipe, SkipSpace, GetToken;
    PipeStep(s, pos);
    Ends(ts);
    if t.Piped? {
      Joined(Spell(t.left), '|', Spell(t.right), ts);
      ExecComplete(s, pos, t.left, [Sym('|')] + (Spell(t.right) + ts));
      var o := GetToken(s, ParseExec(s, pos).pos);
      PipeComplete(s, o.pos, t.right, ts);
    } else {
      ExecComplete(s, pos, t, ts);
    }
  }

  /** parsepipe reads the pipeline of an item, and the loop over & comes to the end of it. */
  lemma {:induction false} ItemComplete(s: Line, pos: nat, t: Syn, ts: seq<Piece>) returns (pos1: nat, cmd1: Cmd<Span>)
    requires pos <= |s| && IsItem(t) && Pieces(s, pos) == Spell(t) + ts && EndsPipe(ts)
    ensures var r := ParsePipe(s, pos);
            && r.Ok? && pos1 <= |s| && ParseBacks(s, r.pos, r.cmd) == ParseBacks(s, pos1, cmd1)
            && Pieces(s, pos1) == ts && Tree(s, cmd1) == Meaning(t)
    decreases t, 2
  {
    hide Pieces, ParsePipe, SkipSpace, GetToken, ParseBacks;
    Levels(t);
    if t.Amp? {
      Joined(Spell(t.cmd), '&', [], ts);
      pos1, cmd1 := ItemComplete(s, pos, t.cmd, [Sym('&')] + ts);
      BacksStep(s, pos1, cmd1);
      pos1, cmd1 := GetToken(s, pos1).pos, Back(cmd1);
    } else {
      PipeComplete(s, pos, t, ts);
      pos1, cmd1 := ParsePipe(s, pos).pos, ParsePipe(s, pos).cmd;
    }
  }

  /** parseline on a line of the grammar gives its meaning and stops behind it. */
  lemma {:induction false} LineComplete(s: Line, pos: nat, t: Syn, ts: seq<Piece>)
    requires pos <= |s| && IsLine(t) && Pieces(s, pos) == Spell(t) + ts && EndsLine(ts)
    ensures Gives(s, ParseLine(s, pos), Meaning(t), ts)
    decreases t, 3
  {
    hide Pieces, ParsePipe, ParseLine, SkipSpace, GetToken, ParseBacks;
    LineStep(s, pos);
    Levels(t);
    Ends(ts);
    if t.Semi? {
      var rest := [Sym(';')] + (Spell(t.right) + ts);
      Joined(Spell(t.left), ';', Spell(t.right), ts);
      var pos1, cmd1 := ItemComplete(s, pos, t.left, rest);
      BacksStep(s, pos1, cmd1);
      var r := ParsePipe(s, pos);
      var o := GetToken(s, ParseBacks(s, r.pos, r.cmd).pos);
      LineComplete(s, o.pos, t.right, ts);
    } else {
      var pos1, cmd1 := ItemComplete(s, pos, t, ts);
      BacksStep(s, pos1, cmd1);
    }
  }

  // ---------------------------------------------------------------- the whole line

  /** s is a line of the grammar, put together as t. */
  ghost predicate Reads(s: Line, t: Syn) {
    IsLine(t) && Spell(t) == Pieces(s, 0)
  }

  /** A line is parsed exactly if it is a line of the grammar, and then as what that line stands for. */
  lemma ParsesIff(s: Line, c: Cmd<string>)
    ensures (ParseCmd(s).Ok? && Tree(s, ParseCmd(s).cmd) == c) <==> exists t: Syn :: Reads(s, t) && Meaning(t) == c
  {
    hide ParseLine, Meaning, IsLine, Spell, Tree, SkipSpace;
    var r := ParseLine(s, 0);
    if ParseCmd(s).Ok? && Tree(s, ParseCmd(s).cmd) == c {
      var t := LineSound(s, 0);
      Next(s, r.pos);
      assert Spell(t) + [] == Spell(t);
      assert Reads(s, t) && Meaning(t) == c;
    }
    if t: Syn :| Reads(s, t) && Meaning(t) == c {
      ReadIsParsed(s, t);
    }
  }

  lemma ReadIsParsed(s: Line, t: Syn)
    requires Reads(s, t)
    ensures ParseCmd(s).Ok? && Tree(s, ParseCmd(s).cmd) == Meaning(t)
  {
    hide ParseLine, Meaning, IsLine, Spell, Tree, SkipSpace;
    assert Spell(t) + [] == Spell(t);
    LineComplete(s, 0, t, []);
    Next(s, ParseLine(s, 0).pos);
  }

  /** A line of the grammar has one tree. */
  lemma OneTree(s: Line, t: Syn, u: Syn)
    requires Reads(s, t) && Reads(s, u)
    ensures Meaning(t) == Meaning(u)
  {
    ReadIsParsed(s, t);
    ReadIsParsed(s, u);
  }
}
