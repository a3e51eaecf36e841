/** gettoken and peek of user/sh.c over a line; positions are offsets into it, and the end of the line reads as NUL. */
module ShLexer {

  type Line = s: string | forall i :: 0 <= i < |s| ==> s[i] != '\0' witness ""

  predicate IsSpace(c: char) {
    c == ' ' || c == '\t' || c == '\r' || c == '\n' || c == '\U{B}'
  }

  predicate IsSymbol(c: char) {
    c == '<' || c == '|' || c == '>' || c == '&' || c == ';' || c == '(' || c == ')'
  }

  predicate IsWordChar(c: char) {
    !IsSpace(c) && !IsSymbol(c) && c != '\0'
  }

  datatype Tok = EndTok | SymTok(c: char) | AppendTok | WordTok

  datatype Token = Token(tok: Tok, q: nat, eq: nat, pos: nat)

  function SkipSpace(s: Line, pos: nat): (r: nat)
    requires pos <= |s|
    ensures pos <= r <= |s| && (r < |s| ==> !IsSpace(s[r]))
    decreases |s| - pos
  {
    if pos < |s| && IsSpace(s[pos]) then SkipSpace(s, pos + 1) else pos
  }

  function WordEnd(s: Line, pos: nat): (r: nat)
    requires pos <= |s|
    ensures pos <= r <= |s| && (forall i :: pos <= i < r ==> IsWordChar(s[i])) && (r < |s| ==> !IsWordChar(s[r]))
    decreases |s| - pos
  {
    if pos < |s| && !IsSpace(s[pos]) && !IsSymbol(s[pos]) then WordEnd(s, pos + 1) else pos
  }

  /** The token at or after pos: its kind, where it starts and ends, and where the next one starts. */
  function GetToken(s: Line, pos: nat): (t: Token)
    requires pos <= |s|
    ensures pos <= t.q <= t.eq <= t.pos <= |s|
    ensures t.tok.EndTok? <==> t.q == |s|
    ensures !t.tok.EndTok? ==> t.q < t.eq
    ensures t.tok.WordTok? ==> IsWord(s, t.q, t.eq)
    ensures t.tok.SymTok? ==> IsSymbol(t.tok.c)
  {
    var q := SkipSpace(s, pos);
    if q == |s| then Token(EndTok, q, q, q)
    else if s[q] == '>' then
      if q + 1 < |s| && s[q + 1] == '>' then Token(AppendTok, q, q + 2, SkipSpace(s, q + 2))
      else Token(SymTok('>'), q, q + 1, SkipSpace(s, q + 1))
    else if IsSymbol(s[q]) then Token(SymTok(s[q]), q, q + 1, SkipSpace(s, q + 1))
    else Token(WordTok, q, WordEnd(s, q), SkipSpace(s, WordEnd(s, q)))
  }

  /** s[q..eq] is a word of the line: word characters, as many as there are. */
  predicate IsWord(s: string, q: nat, eq: nat) {
    && q < eq <= |s| && (forall i :: q <= i < eq ==> IsWordChar(s[i]))
    && (eq < |s| ==> !IsWordChar(s[eq]))
  }

  /** The next character that is not white space is one of toks. */
  predicate Peek(s: Line, pos: nat, toks: string)
    requires pos <= |s|
  {
    var p := SkipSpace(s, pos);
    p < |s| && s[p] in toks
  }

  // ---------------------------------------------------------------- the code

  method SkipSpaceLoop(s: Line, pos: nat) returns (r: nat)
    requires pos <= |s|
    ensures r == SkipSpace(s, pos)
  {
    r := pos;
    while r < |s| && IsSpace(s[r])
      invariant pos <= r <= |s| && SkipSpace(s, r) == SkipSpace(s, pos)
    {
      r := r + 1;
    }
  }

  /** gettoken: ret is 0 at the end, the symbol, '+' for >>, or 'a' for a word. */
  method GetTokenCode(s: Line, ps: nat) returns (ret: char, q: nat, eq: nat, ps': nat)
    requires ps <= |s|
    ensures var t := GetToken(s, ps);
            && q == t.q && eq == t.eq && ps' == t.pos
            && ret == (match t.tok case EndTok => '\0' case SymTok(c) => c case AppendTok => '+' case WordTok => 'a')
  {
    var p := SkipSpaceLoop(s, ps);
    q := p;
    if p == |s| {
      ret := '\0';
    } else if s[p] == '|' || s[p] == '(' || s[p] == ')' || s[p] == ';' || s[p] == '&' || s[p] == '<' {
      ret := s[p];
      p := p + 1;
    } else if s[p] == '>' {
      ret := '>';
      p := p + 1;
      if p < |s| && s[p] == '>' {
        ret := '+';
        p := p + 1;
      }
    } else {
      ret := 'a';
      while p < |s| && !IsSpace(s[p]) && !IsSymbol(s[p])
        invariant q <= p <= |s| && WordEnd(s, p) == WordEnd(s, q)
      {
        p := p + 1;
      }
    }
    eq := p;
    ps' := SkipSpaceLoop(s, p);
  }

  method PeekCode(s: Line, ps: nat, toks: string) returns (r: bool, ps': nat)
    requires ps <= |s|
    ensures ps' == SkipSpace(s, ps) && r == Peek(s, ps, toks)
  {
    ps' := SkipSpaceLoop(s, ps);
    r := ps' < |s| && s[ps'] in toks;
  }

  lemma RedirTok(s: Line, pos: nat)
    requires pos <= |s| && Peek(s, pos, "<>")
    ensures GetToken(s, SkipSpace(s, pos)).tok in {SymTok('<'), SymTok('>'), AppendTok}
  {
    SkipTwice(s, pos);
  }

  lemma SkipTwice(s: Line, pos: nat)
    requires pos <= |s|
    ensures SkipSpace(s, SkipSpace(s, pos)) == SkipSpace(s, pos)
  {
  }

  /** Skipping white space first changes neither peek nor gettoken. */
  lemma AfterSkip(s: Line, pos: nat)
    requires pos <= |s|
    ensures GetToken(s, SkipSpace(s, pos)) == GetToken(s, pos)
    ensures forall toks :: Peek(s, SkipSpace(s, pos), toks) == Peek(s, pos, toks)
  {
  }
}
