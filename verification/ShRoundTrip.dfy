/** Writing pieces down and reading them back, and a line for every command tree. */
module ShRoundTrip {
  import opened ShLexer
  import opened ShParser
  import opened ShGrammar

  // ---------------------------------------------------------------- pieces laid out on a line

  function Text(p: Piece): string {
    match p
    case Sym(c) => [c]
    case More => ">>"
    case Word(w) => w
  }

  /** A piece and the white space in front of it. */
  datatype Spaced = Spaced(gap: string, p: Piece)

  predicate Blank(gap: string) {
    forall i :: 0 <= i < |gap| ==> IsSpace(gap[i])
  }

  predicate LegalWord(w: string) {
    w != "" && forall i :: 0 <= i < |w| ==> IsWordChar(w[i])
  }

  predicate LegalPiece(p: Piece) {
    match p
    case Sym(c) => IsSymbol(c)
    case More => true
    case Word(w) => LegalWord(w)
  }

  predicate Legal(ps: seq<Piece>) {
    forall i :: 0 <= i < |ps| ==> LegalPiece(ps[i])
  }

  /** The pieces that run into each other without white space: two words, and > before > or >>. */
  predicate Clash(p: Piece, q: Piece) {
    (p.Word? && q.Word?) || (p == Sym('>') && q in {Sym('>'), More})
  }

  /** A layout needs white space only between pieces that would run into each other. */
  predicate Laid(gs: seq<Spaced>, end: string)
    decreases |gs|
  {
    if gs == [] then Blank(end)
    else
      && Blank(gs[0].gap) && LegalPiece(gs[0].p) && Laid(gs[1..], end)
      && (|gs| > 1 && Clash(gs[0].p, gs[1].p) ==> gs[1].gap != "")
  }

  function Lay(gs: seq<Spaced>, end: string): string {
    if gs == [] then end else gs[0].gap + (Text(gs[0].p) + Lay(gs[1..], end))
  }

  function PiecesOf(gs: seq<Spaced>): seq<Piece> {
    if gs == [] then [] else [gs[0].p] + PiecesOf(gs[1..])
  }

  lemma {:induction false} SkipsGap(s: Line, pos: nat, gap: string, rest: string)
    requires pos <= |s| && s[pos..] == gap + rest && Blank(gap) && (rest == "" || !IsSpace(rest[0]))
    ensures pos + |gap| <= |s| && SkipSpace(s, pos) == pos + |gap| && s[pos + |gap|..] == rest
    decreases |gap|
  {
    if gap != "" {
      assert s[pos] == s[pos..][0];
      assert s[pos + 1..] == s[pos..][1..];
      assert (gap + rest)[1..] == gap[1..] + rest;
      SkipsGap(s, pos + 1, gap[1..], rest);
    } else {
      assert gap + rest == rest;
      assert pos < |s| ==> s[pos] == s[pos..][0];
    }
  }

  /** What may follow word w or symbol p directly. */
  predicate Parted(p: Piece, rest: string) {
    && (p.Word? && rest != "" ==> !IsWordChar(rest[0]))
    && (p == Sym('>') && rest != "" ==> rest[0] != '>')
  }

  lemma Cut(s: string, pos: nat, w: string, rest: string)
    requires pos <= |s| && s[pos..] == w + rest
    ensures var eq := pos + |w|;
            && eq <= |s| && s[pos..eq] == w && s[eq..] == rest && (forall i :: pos <= i < eq ==> s[i] == w[i - pos])
            && (eq < |s| <==> rest != "") && (eq < |s| ==> s[eq] == rest[0])
  {
    var eq := pos + |w|;
    assert s[eq..] == s[pos..][|w|..];
    assert s[pos..eq] == s[pos..][..|w|];
    assert forall i :: pos <= i < eq ==> s[i] == s[pos..][i - pos];
    assert eq < |s| ==> s[eq] == s[eq..][0];
  }

  /** gettoken at the start of a piece. */
  lemma PieceAt(s: Line, pos: nat, p: Piece, rest: string)
    requires pos <= |s| && s[pos..] == Text(p) + rest && LegalPiece(p) && Parted(p, rest)
    ensures var t := GetToken(s, pos);
            && !t.tok.EndTok? && PieceOf(s, t) == p && SkipSpace(s, pos) == pos && t.eq == pos + |Text(p)|
            && t.pos == SkipSpace(s, t.eq) && s[t.eq..] == rest
  {
    Cut(s, pos, Text(p), rest);
    var eq := pos + |Text(p)|;
    assert SkipSpace(s, pos) == pos;
    hide SkipSpace, WordEnd;
    if p.Word? {
      WordEndIs(s, pos, eq);
    }
  }

  lemma {:induction false} WordEndIs(s: Line, pos: nat, eq: nat)
    requires pos <= eq <= |s| && (forall i :: pos <= i < eq ==> IsWordChar(s[i]))
    requires eq < |s| ==> !IsWordChar(s[eq])
    ensures WordEnd(s, pos) == eq
    decreases eq - pos
  {
    if pos < eq {
      WordEndIs(s, pos + 1, eq);
    }
  }

  /** The first character of a layout. */
  lemma LaidFirst(gs: seq<Spaced>, end: string)
    requires Laid(gs, end)
    ensures gs != [] && gs[0].gap == "" ==> Lay(gs, end) == Text(gs[0].p) + Lay(gs[1..], end)
    ensures gs != [] && gs[0].gap != "" ==> Lay(gs, end) != "" && IsSpace(Lay(gs, end)[0])
    ensures gs == [] && end != "" ==> IsSpace(Lay(gs, end)[0])
  {
  }

  lemma FirstChar(p: Piece, rest: string)
    requires LegalPiece(p)
    ensures var s := Text(p) + rest;
            && s != "" && !IsSpace(s[0]) && s[0] != '\0'
            && (p.Word? <==> IsWordChar(s[0])) && (s[0] == '>' <==> p in {Sym('>'), More})
  {
  }

  lemma LaidIsParted(gs: seq<Spaced>, end: string)
    requires Laid(gs, end) && gs != []
    ensures Parted(gs[0].p, Lay(gs[1..], end))
  {
    LaidFirst(gs[1..], end);
    if |gs| > 1 && gs[1].gap == "" {
      assert gs[1..][0] == gs[1];
      FirstChar(gs[1].p, Lay(gs[2..], end));
      assert gs[1..][1..] == gs[2..];
    }
  }

  lemma FirstAndRest(ps: seq<Piece>)
    ensures ps != [] ==> ps == [ps[0]] + ps[1..]
  {
  }

  lemma Unlaid(gs: seq<Spaced>, end: string)
    requires Laid(gs, end) && gs != []
    ensures Blank(gs[0].gap) && LegalPiece(gs[0].p) && Laid(gs[1..], end)
    ensures Lay(gs, end) == gs[0].gap + (Text(gs[0].p) + Lay(gs[1..], end))
  {
  }

  /** gettoken reads the first piece of a layout. */
  lemma FirstBack(s: Line, pos: nat, gs: seq<Spaced>, end: string)
    requires pos <= |s| && s[pos..] == Lay(gs, end) && Laid(gs, end) && gs != []
    ensures var eq := GetToken(s, pos).eq;
            && eq <= |s| && s[eq..] == Lay(gs[1..], end) && Laid(gs[1..], end)
            && Pieces(s, pos) == [gs[0].p] + Pieces(s, eq)
  {
    hide SkipSpace, GetToken, Pieces, Parted, Text, LegalPiece, Laid, Lay, Blank;
    Unlaid(gs, end);
    LaidIsParted(gs, end);
    var p, rest := gs[0].p, Lay(gs[1..], end);
    FirstChar(p, rest);
    SkipsGap(s, pos, gs[0].gap, Text(p) + rest);
    var q := pos + |gs[0].gap|;
    PieceAt(s, q, p, rest);
    var t := GetToken(s, pos);
    Next(s, pos);
    assert t == GetToken(s, q);
    PiecesSkip(s, t.eq);
    FirstAndRest(Pieces(s, pos));
    hide *;
  }

  /** The pieces of a line are the pieces it is laid out from, whatever white space there is. */
  lemma {:induction false} LexBack(s: Line, pos: nat, gs: seq<Spaced>, end: string)
    requires pos <= |s| && s[pos..] == Lay(gs, end) && Laid(gs, end)
    ensures Pieces(s, pos) == PiecesOf(gs)
    decreases |gs|
  {
    hide SkipSpace, GetToken, Pieces;
    if gs == [] {
      assert s[pos..] == end + "";
      SkipsGap(s, pos, end, "");
      Next(s, pos);
    } else {
      hide Lay, Laid;
      FirstBack(s, pos, gs, end);
      LexBack(s, GetToken(s, pos).eq, gs[1..], end);
    }
  }

  /** Every line is laid out from its pieces. */
  lemma {:induction false} LexAll(s: Line, pos: nat) returns (gs: seq<Spaced>, end: string)
    requires pos <= |s|
    ensures s[pos..] == Lay(gs, end) && Laid(gs, end) && PiecesOf(gs) == Pieces(s, pos)
    ensures gs != [] ==> gs[0].gap == s[pos..SkipSpace(s, pos)]
    decreases |s| - pos
  {
    hide SkipSpace, GetToken, Pieces, Text, LegalPiece, Clash;
    var q := SkipSpace(s, pos);
    Next(s, pos);
    BlankGap(s, pos);
    assert s[pos..] == s[pos..q] + s[q..];
    if q == |s| {
      gs, end := [], s[pos..];
      assert s[pos..] == s[pos..q];
    } else {
      var t := GetToken(s, pos);
      TokenText(s, pos);
      PiecesSkip(s, t.eq);
      gs, end := LexAll(s, t.eq);
      if gs != [] && gs[0].gap == "" {
        NoClash(s, pos, gs, end);
      }
      assert s[q..] == s[q..t.eq] + s[t.eq..];
      assert ([Spaced(s[pos..q], PieceOf(s, t))] + gs)[1..] == gs;
      gs := [Spaced(s[pos..q], PieceOf(s, t))] + gs;
      FirstAndRest(Pieces(s, pos));
    }
  }

  lemma {:induction false} BlankGap(s: Line, pos: nat)
    requires pos <= |s|
    ensures Blank(s[pos..SkipSpace(s, pos)])
    decreases |s| - pos
  {
    if pos < |s| && IsSpace(s[pos]) {
      BlankGap(s, pos + 1);
      assert s[pos..SkipSpace(s, pos)] == [s[pos]] + s[pos + 1..SkipSpace(s, pos)];
    }
  }

  lemma TokenText(s: Line, pos: nat)
    requires pos <= |s| && SkipSpace(s, pos) < |s|
    ensures var t := GetToken(s, pos);
            && t.q == SkipSpace(s, pos) < t.eq <= |s| && LegalPiece(PieceOf(s, t))
            && Text(PieceOf(s, t)) == s[t.q..t.eq]
            && t.pos == SkipSpace(s, t.eq)
  {
    hide SkipSpace, WordEnd;
  }

  /** No piece that would have run into the token before it begins right behind that token. */
  lemma NoClash(s: Line, pos: nat, gs: seq<Spaced>, end: string)
    requires pos <= |s| && SkipSpace(s, pos) < |s| && GetToken(s, pos).eq <= |s|
    requires gs != [] && gs[0].gap == "" && Laid(gs, end) && s[GetToken(s, pos).eq..] == Lay(gs, end)
    ensures !Clash(PieceOf(s, GetToken(s, pos)), gs[0].p)
  {
    var t, rest := GetToken(s, pos), Lay(gs[1..], end);
    LaidFirst(gs, end);
    FirstChar(gs[0].p, rest);
    assert s[t.eq] == s[t.eq..][0];
    hide SkipSpace, WordEnd, Laid, Lay;
  }

  // ---------------------------------------------------------------- lines and trees

  /** A line of the grammar is read as what it stands for, however it is laid out. */
  lemma ReadBack(t: Syn, gs: seq<Spaced>, end: string)
    requires IsLine(t) && Laid(gs, end) && PiecesOf(gs) == Spell(t)
    ensures forall i :: 0 <= i < |Lay(gs, end)| ==> Lay(gs, end)[i] != '\0'
    ensures var r := ParseCmd(Lay(gs, end)); r.Ok? && Tree(Lay(gs, end), r.cmd) == Meaning(t)
  {
    NoNul(gs, end);
    LexBack(Lay(gs, end), 0, gs, end);
    ReadIsParsed(Lay(gs, end), t);
  }

  lemma {:induction false} NoNul(gs: seq<Spaced>, end: string)
    requires Laid(gs, end)
    ensures forall i :: 0 <= i < |Lay(gs, end)| ==> Lay(gs, end)[i] != '\0'
    decreases |gs|
  {
    if gs != [] {
      NoNul(gs[1..], end);
    }
  }

  predicate LegalWords(ws: seq<string>) {
    forall i :: 0 <= i < |ws| ==> LegalWord(ws[i])
  }

  /** Words are legal and no command has too many of them. */
  predicate LegalTree(c: Cmd<string>) {
    match c
    case Exec(args) => |args| < MAXARGS && LegalWords(args)
    case Redir(b, file, _) => LegalTree(b) && LegalWord(file)
    case Pipe(l, r) => LegalTree(l) && LegalTree(r)
    case List(l, r) => LegalTree(l) && LegalTree(r)
    case Back(b) => LegalTree(b)
  }

  /** What redirections are wrapped around, and the redirections. */
  function Base(c: Cmd<string>): Cmd<string> {
    if c.Redir? then Base(c.cmd) else c
  }

  function Rs(c: Cmd<string>): seq<To<string>> {
    if c.Redir? then Rs(c.cmd) + [To(c.file, c.mode)] else []
  }

  function Size(c: Cmd<string>): nat {
    match c
    case Exec(_) => 1
    case Redir(b, _, _) => Size(b) + 1
    case Pipe(l, r) => Size(l) + Size(r) + 1
    case List(l, r) => Size(l) + Size(r) + 1
    case Back(b) => Size(b) + 1
  }

  lemma {:induction false} Unwrap(c: Cmd<string>)
    ensures Wrap(Base(c), Rs(c)) == c && !Base(c).Redir?
    ensures Size(Base(c)) <= Size(c) && (c.Redir? ==> Size(Base(c)) < Size(c))
    ensures LegalTree(c) ==> LegalTree(Base(c))
  {
    if c.Redir? {
      Unwrap(c.cmd);
      WrapMore(Base(c), Rs(c.cmd), To(c.file, c.mode));
    }
  }

  /** The words of a command, and all its redirections behind the last one. */
  function ArgsOf(words: seq<string>, rs: seq<To<string>>): seq<Arg> {
    if words == [] then []
    else if |words| == 1 then [Arg(words[0], rs)]
    else [Arg(words[0], [])] + ArgsOf(words[1..], rs)
  }

  /** The level of the grammar a tree is built at: command 0, pipeline 1, item 2, line 3. */
  function Level(c: Cmd<string>): (k: nat)
    ensures k <= 3
  {
    match c
    case Exec(_) => 0
    case Redir(_, _, _) => 0
    case Pipe(_, _) => 1
    case Back(_) => 2
    case List(_, _) => 3
  }

  /** A line of level k for a tree, with parentheses only where the tree is built at a higher level. */
  function Form(c: Cmd<string>, k: nat): Syn
    requires k <= 3
    decreases Size(c), (k + 4 - Level(c)) % 4
  {
    Unwrap(c);
    if Level(c) == k then
      match c
      case Exec(words) => Simple([], ArgsOf(words, []))
      case Redir(_, _, _) =>
        if !Base(c).Exec? then Block(Form(Base(c), 3), Rs(c))
        else if Base(c).args == [] then Simple(Rs(c), [])
        else Simple([], ArgsOf(Base(c).args, Rs(c)))
      case Pipe(l, r) => Piped(Form(l, 0), Form(r, 1))
      case Back(b) => Amp(Form(b, 2))
      case List(l, r) => Semi(Form(l, 2), Form(r, 3))
    else if k == 0 then Block(Form(c, 3), [])
    else Form(c, k - 1)
  }

  predicate IsAt(t: Syn, k: nat) {
    if k == 0 then IsExec(t) else if k == 1 then IsPipe(t) else if k == 2 then IsItem(t) else IsLine(t)
  }

  lemma {:induction false} ArgsOfIs(words: seq<string>, rs: seq<To<string>>)
    ensures ArgWords(ArgsOf(words, rs)) == words && |ArgsOf(words, rs)| == |words|
    ensures words != [] || rs == [] ==> ArgRedirs(ArgsOf(words, rs)) == rs
  {
    if |words| > 1 {
      ArgsOfIs(words[1..], rs);
      assert [words[0]] + words[1..] == words;
      var args := ArgsOf(words, rs);
      assert args[1..] == ArgsOf(words[1..], rs);
      assert args[0].rs + rs == rs;
    } else if |words| == 1 {
      assert rs + [] == rs;
      assert ArgsOf(words, rs)[1..] == [];
      assert [words[0]] == words;
    }
  }

  /** It is in the grammar and stands for the tree. */
  lemma {:induction false} FormIs(c: Cmd<string>, k: nat)
    requires k <= 3 && LegalTree(c)
    ensures IsAt(Form(c, k), k) && Meaning(Form(c, k)) == c
    decreases Size(c), (k + 4 - Level(c)) % 4
  {
    Unwrap(c);
    if Level(c) == k {
      match c
      case Exec(words) => ArgsOfIs(words, []);
      case Redir(_, _, _) =>
        if Base(c).Exec? {
          ArgsOfIs(Base(c).args, Rs(c));
          assert Rs(c) + [] == Rs(c) && [] + Rs(c) == Rs(c);
        } else {
          FormIs(Base(c), 3);
        }
      case Pipe(l, r) => FormIs(l, 0); FormIs(r, 1);
      case Back(b) => FormIs(b, 2);
      case List(l, r) => FormIs(l, 2); FormIs(r, 3);
    } else if k == 0 {
      FormIs(c, 3);
    } else {
      FormIs(c, k - 1);
    }
  }

  // ---------------------------------------------------------------- which trees there are

  predicate LegalTos(rs: seq<To<string>>) {
    forall i :: 0 <= i < |rs| ==> LegalWord(rs[i].file)
  }

  lemma LegalJoin(a: seq<Piece>, b: seq<Piece>)
    ensures Legal(a + b) <==> Legal(a) && Legal(b)
  {
    if Legal(a + b) {
      assert forall i :: 0 <= i < |a| ==> (a + b)[i] == a[i];
      assert forall i :: 0 <= i < |b| ==> (a + b)[|a| + i] == b[i];
    }
  }

  lemma LegalOne(p: Piece)
    ensures Legal([p]) <==> LegalPiece(p)
  {
    assert [p][0] == p;
  }

  lemma {:induction false} LegalRedirs(rs: seq<To<string>>)
    ensures Legal(RedirPieces(rs)) <==> LegalTos(rs)
  {
    if rs != [] {
      var ps := [ModePiece(rs[0].mode), Word(rs[0].file)];
      LegalRedirs(rs[1..]);
      LegalJoin(ps, RedirPieces(rs[1..]));
      LegalOne(ps[0]);
      LegalOne(ps[1]);
      LegalJoin([ps[0]], [ps[1]]);
      LegalTosJoin([rs[0]], rs[1..]);
      assert rs == [rs[0]] + rs[1..] && ps == [ps[0]] + [ps[1]];
      assert LegalTos([rs[0]]) <==> LegalWord([rs[0]][0].file);
    }
  }

  lemma {:induction false} LegalArgs(args: seq<Arg>)
    ensures Legal(ArgPieces(args)) <==> LegalWords(ArgWords(args)) && LegalTos(ArgRedirs(args))
  {
    if args != [] {
      var w, rs := args[0].w, args[0].rs;
      LegalArgs(args[1..]);
      LegalRedirs(rs);
      LegalJoin([Word(w)] + RedirPieces(rs), ArgPieces(args[1..]));
      LegalJoin([Word(w)], RedirPieces(rs));
      LegalOne(Word(w));
      LegalTosJoin(rs, ArgRedirs(args[1..]));
      LegalWordsCons(w, ArgWords(args[1..]));
      hide LegalWord, LegalTos, RedirPieces, Legal;
    }
  }

  lemma LegalWordsCons(w: string, ws: seq<string>)
    ensures LegalWords([w] + ws) <==> LegalWord(w) && LegalWords(ws)
  {
    if LegalWords([w] + ws) {
      assert ([w] + ws)[0] == w && forall i :: 0 <= i < |ws| ==> ([w] + ws)[i + 1] == ws[i];
    }
  }

  lemma LegalTosJoin(a: seq<To<string>>, b: seq<To<string>>)
    ensures LegalTos(a + b) <==> LegalTos(a) && LegalTos(b)
  {
    if LegalTos(a + b) {
      assert forall i :: 0 <= i < |a| ==> (a + b)[i] == a[i];
      assert forall i :: 0 <= i < |b| ==> (a + b)[|a| + i] == b[i];
    }
  }

  lemma {:induction false} LegalWrap(c: Cmd<string>, rs: seq<To<string>>)
    ensures LegalTree(Wrap(c, rs)) <==> LegalTree(c) && LegalTos(rs)
  {
    if rs != [] {
      var init, last := rs[..|rs| - 1], rs[|rs| - 1];
      LegalWrap(c, init);
      LegalTosJoin(init, [last]);
      assert init + [last] == rs;
      assert LegalTos([last]) <==> LegalWord(last.file);
    }
  }

  /** The parts of a line are lines. */
  lemma Parts(t: Syn)
    requires IsLine(t)
    ensures match t
            case Simple(_, args) => |args| < MAXARGS
            case Block(line, _) => IsLine(line)
            case Piped(l, r) => IsLine(l) && IsLine(r)
            case Amp(c) => IsLine(c)
            case Semi(l, r) => IsLine(l) && IsLine(r)
  {
    Levels(t);
    Up(t);
    if t.Piped? {
      Up(t.left);
      Up(t.right);
      assert !IsExec(t);
    }
    if t.Semi? {
      Up(t.left);
    }
  }

  lemma Up(t: Syn)
    ensures IsExec(t) ==> IsPipe(t)
    ensures IsPipe(t) ==> IsItem(t)
    ensures IsItem(t) ==> IsLine(t)
    ensures !t.Semi? && IsLine(t) ==> IsItem(t)
    ensures !t.Semi? && !t.Amp? && IsItem(t) ==> IsPipe(t)
    ensures t.Simple? || t.Block? ==> (IsPipe(t) ==> IsExec(t))
  {
  }

  /** A line of the grammar has legal pieces exactly if its tree is legal. */
  lemma {:induction false} LegalSpell(t: Syn)
    requires IsLine(t)
    ensures Legal(Spell(t)) <==> LegalTree(Meaning(t))
  {
    Parts(t);
    hide IsLine, Legal, LegalWords, LegalTos, RedirPieces, ArgPieces, Wrap;
    LegalOne(Sym('('));
    LegalOne(Sym(')'));
    LegalOne(Sym('|'));
    LegalOne(Sym('&'));
    LegalOne(Sym(';'));
    match t
    case Simple(pre, args) =>
      LegalJoin(RedirPieces(pre), ArgPieces(args));
      LegalRedirs(pre);
      LegalArgs(args);
      ArgWordsLength(args);
      LegalTosJoin(pre, ArgRedirs(args));
      LegalWrap(Exec(ArgWords(args)), pre + ArgRedirs(args));
    case Block(line, rs) =>
      LegalSpell(line);
      LegalRedirs(rs);
      LegalWrap(Meaning(line), rs);
      LegalJoin([Sym('(')] + Spell(line) + [Sym(')')], RedirPieces(rs));
      LegalJoin([Sym('(')] + Spell(line), [Sym(')')]);
      LegalJoin([Sym('(')], Spell(line));
    case Piped(l, r) =>
      LegalSpell(l);
      LegalSpell(r);
      LegalJoin(Spell(l) + [Sym('|')], Spell(r));
      LegalJoin(Spell(l), [Sym('|')]);
    case Amp(c) =>
      LegalSpell(c);
      LegalJoin(Spell(c), [Sym('&')]);
    case Semi(l, r) =>
      LegalSpell(l);
      LegalSpell(r);
      LegalJoin(Spell(l) + [Sym(';')], Spell(r));
      LegalJoin(Spell(l), [Sym(';')]);
  }

  lemma {:induction false} ArgWordsLength(args: seq<Arg>)
    ensures |ArgWords(args)| == |args|
  {
    if args != [] {
      ArgWordsLength(args[1..]);
    }
  }

  /** Every piece behind a blank. */
  function Plain(ps: seq<Piece>): seq<Spaced> {
    if ps == [] then [] else [Spaced(" ", ps[0])] + Plain(ps[1..])
  }

  lemma {:induction false} PlainIsLaid(ps: seq<Piece>)
    requires Legal(ps)
    ensures Laid(Plain(ps), "") && PiecesOf(Plain(ps)) == ps
  {
    if ps != [] {
      PlainIsLaid(ps[1..]);
      assert Plain(ps)[1..] == Plain(ps[1..]);
      assert LegalPiece(ps[0]);
    }
  }

  /** A legal tree, written with the parentheses the grammar needs, is read back. */
  lemma RoundTrip(c: Cmd<string>)
    requires LegalTree(c)
    ensures var gs := Plain(Spell(Form(c, 3)));
            && Laid(gs, "") && forall i :: 0 <= i < |Lay(gs, "")| ==> Lay(gs, "")[i] != '\0'
    ensures var s := Lay(Plain(Spell(Form(c, 3))), "");
            var r := ParseCmd(s);
            r.Ok? && Tree(s, r.cmd) == c
  {
    FormIs(c, 3);
    LegalSpell(Form(c, 3));
    PlainIsLaid(Spell(Form(c, 3)));
    ReadBack(Form(c, 3), Plain(Spell(Form(c, 3))), "");
  }

  lemma {:induction false} LaidIsLegal(gs: seq<Spaced>, end: string)
    requires Laid(gs, end)
    ensures Legal(PiecesOf(gs))
    decreases |gs|
  {
    if gs != [] {
      LaidIsLegal(gs[1..], end);
    }
  }

  /** The trees the parser gives are the legal ones. */
  lemma TreesAreLegal(c: Cmd<string>)
    ensures LegalTree(c) <==> exists s: Line :: ParseCmd(s).Ok? && Tree(s, ParseCmd(s).cmd) == c
  {
    if LegalTree(c) {
      RoundTrip(c);
      var s: Line := Lay(Plain(Spell(Form(c, 3))), "");
      assert ParseCmd(s).Ok? && Tree(s, ParseCmd(s).cmd) == c;
    }
    if s: Line :| ParseCmd(s).Ok? && Tree(s, ParseCmd(s).cmd) == c {
      ParsesIff(s, c);
      var t: Syn :| Reads(s, t) && Meaning(t) == c;
      LegalSpell(t);
      var gs, end := LexAll(s, 0);
      LaidIsLegal(gs, end);
    }
  }
}
