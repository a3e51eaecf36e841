/** The regular-expression matcher of user/grep.c against a meaning stated by splitting the text. */
module Grep {

  /** A C string: the characters before the terminating NUL. */
  type CString = s: string | forall i :: 0 <= i < |s| ==> s[i] != '\0' witness ""

  /** One element of an expression: a character or '.', a starred one, or the final '$'. */
  datatype Item = One(c: char) | Star(c: char) | End

  function Items(re: string): seq<Item> {
    if re == "" then []
    else if |re| > 1 && re[1] == '*' then [Star(re[0])] + Items(re[2..])
    else if re == "$" then [End]
    else [One(re[0])] + Items(re[1..])
  }

  /** What the character c of an expression stands for. */
  predicate Fits(c: char, x: char) {
    c == '.' || c == x
  }

  predicate AllFit(c: char, w: string) {
    forall i :: 0 <= i < |w| ==> Fits(c, w[i])
  }

  /** The strings an element stands for. */
  predicate InLang(item: Item, w: string) {
    match item
    case One(c) => |w| == 1 && Fits(c, w[0])
    case Star(c) => AllFit(c, w)
    case End => w == ""
  }

  function Concat(ws: seq<string>): string {
    if ws == [] then "" else ws[0] + Concat(ws[1..])
  }

  /** The pieces ws, one per element, make up a beginning of text, and all of it after a final '$'. */
  ghost predicate Splits(items: seq<Item>, ws: seq<string>, text: string) {
    && |ws| == |items|
    && (forall i :: 0 <= i < |ws| ==> InLang(items[i], ws[i]))
    && Concat(ws) <= text
    && (items != [] && items[|items| - 1].End? ==> Concat(ws) == text)
  }

  /** text begins with something the elements stand for. */
  ghost predicate Begins(items: seq<Item>, text: string) {
    exists ws :: Splits(items, ws, text)
  }

  /** The meaning of an expression: '^' ties it to the start of the text, otherwise it may start anywhere. */
  ghost predicate Matches(re: string, text: string) {
    if re != "" && re[0] == '^' then Begins(Items(re[1..]), text)
    else exists i :: 0 <= i <= |text| && Begins(Items(re), text[i..])
  }

  // ---------------------------------------------------------------- one element at a time

  lemma BeginsNothing(text: string)
    ensures Begins([], text)
  {
    assert Splits([], [], text);
  }

  lemma BeginsEnd(text: string)
    ensures Begins([End], text) <==> text == ""
  {
    if Begins([End], text) {
      var ws :| Splits([End], ws, text);
      assert ws == [""] && Concat(ws[1..]) == "" && Concat(ws) == "" + "";
    }
    if text == "" {
      assert Concat([""][1..]) == "" && Concat([""]) == "" + "";
      assert Splits([End], [""], text);
    }
  }

  /** A split of x followed by rest is a piece of x and a split of rest. */
  lemma SplitFirst(x: Item, rest: seq<Item>, ws: seq<string>, text: string)
    requires Splits([x] + rest, ws, text) && !x.End?
    ensures |ws| > 0 && InLang(x, ws[0]) && |ws[0]| <= |text| && text[..|ws[0]|] == ws[0]
    ensures Splits(rest, ws[1..], text[|ws[0]|..])
  {
    var items := [x] + rest;
    assert items[0] == x;
    var w, tail := ws[0], Concat(ws[1..]);
    assert Concat(ws) == w + tail;
    assert text[..|w|] == (w + tail)[..|w|] == w;
    assert tail <= text[|w|..];
    forall i | 0 <= i < |ws[1..]|
      ensures InLang(rest[i], ws[1..][i])
    {
      assert items[i + 1] == rest[i];
    }
  }

  lemma SplitCons(x: Item, rest: seq<Item>, w: string, ws: seq<string>, text: string)
    requires !x.End? && InLang(x, w) && |w| <= |text| && text[..|w|] == w && Splits(rest, ws, text[|w|..])
    ensures Splits([x] + rest, [w] + ws, text)
  {
    var items, all := [x] + rest, [w] + ws;
    assert all[1..] == ws && Concat(all) == w + Concat(ws);
    assert text == w + text[|w|..];
    forall i | 0 <= i < |all|
      ensures InLang(items[i], all[i])
    {
      if i > 0 {
        assert items[i] == rest[i - 1] && all[i] == ws[i - 1];
      }
    }
  }

  lemma BeginsOne(c: char, rest: seq<Item>, text: string)
    ensures Begins([One(c)] + rest, text) <==> text != "" && Fits(c, text[0]) && Begins(rest, text[1..])
  {
    if Begins([One(c)] + rest, text) {
      var ws :| Splits([One(c)] + rest, ws, text);
      SplitFirst(One(c), rest, ws, text);
    }
    if text != "" && Fits(c, text[0]) && Begins(rest, text[1..]) {
      var ws :| Splits(rest, ws, text[1..]);
      SplitCons(One(c), rest, text[..1], ws, text);
    }
  }

  /** The rest of the expression begins after k characters that fit the starred one. */
  ghost predicate StarAt(c: char, rest: seq<Item>, text: string, k: nat) {
    k <= |text| && AllFit(c, text[..k]) && Begins(rest, text[k..])
  }

  lemma BeginsStar(c: char, rest: seq<Item>, text: string)
    ensures Begins([Star(c)] + rest, text) <==> exists k: nat :: StarAt(c, rest, text, k)
  {
    if Begins([Star(c)] + rest, text) {
      var ws :| Splits([Star(c)] + rest, ws, text);
      SplitFirst(Star(c), rest, ws, text);
      assert StarAt(c, rest, text, |ws[0]|);
    }
    if k: nat :| StarAt(c, rest, text, k) {
      var ws :| Splits(rest, ws, text[k..]);
      SplitCons(Star(c), rest, text[..k], ws, text);
    }
  }

  // ---------------------------------------------------------------- the matcher

  method MatchHere(re: CString, text: CString) returns (r: bool)
    ensures r <==> Begins(Items(re), text)
    decreases |re|, 0
  {
    if re == "" {
      BeginsNothing(text);
      return true;
    }
    if |re| > 1 && re[1] == '*' {
      r := MatchStar(re[0], re[2..], text);
      return;
    }
    if re[0] == '$' && |re| == 1 {
      BeginsEnd(text);
      return text == "";
    }
    BeginsOne(re[0], Items(re[1..]), text);
    if text != "" && (re[0] == '.' || re[0] == text[0]) {
      r := MatchHere(re[1..], text[1..]);
      return;
    }
    return false;
  }

  method MatchStar(c: char, re: CString, text: CString) returns (r: bool)
    ensures r <==> Begins([Star(c)] + Items(re), text)
    decreases |re|, 1
  {
    BeginsStar(c, Items(re), text);
    var i, more := 0, true;
    while more
      invariant i <= |text| && (more ==> AllFit(c, text[..i]))
      invariant forall k: nat :: k < i ==> !StarAt(c, Items(re), text, k)
      invariant !more ==> !AllFit(c, text[..i]) || (i == |text| && !StarAt(c, Items(re), text, i))
      decreases |text| - i, more
    {
      var here := MatchHere(re, text[i..]);
      if here {
        assert StarAt(c, Items(re), text, i);
        return true;
      }
      if i < |text| {
        more := text[i] == c || c == '.';
        assert text[..i + 1] == text[..i] + [text[i]];
        i := i + 1;
        assert !more ==> !AllFit(c, text[..i]) by {
          if !more {
            assert text[..i][i - 1] == text[i - 1];
          }
        }
      } else {
        more := false;
      }
    }
    forall k: nat
      ensures !StarAt(c, Items(re), text, k)
    {
      if i <= k <= |text| && !AllFit(c, text[..i]) {
        assert text[..k][..i] == text[..i];
        var j :| 0 <= j < i && !Fits(c, text[..i][j]);
        assert text[..k][j] == text[..i][j];
      }
    }
    return false;
  }

  /** Sound and complete: match answers exactly what the expression means. */
  method Match(re: CString, text: CString) returns (r: bool)
    ensures r <==> Matches(re, text)
  {
    if re != "" && re[0] == '^' {
      r := MatchHere(re[1..], text);
      return;
    }
    var i, more := 0, true;
    while more
      invariant i <= |text|
      invariant forall k: nat :: k < i ==> !Begins(Items(re), text[k..])
      invariant !more ==> i == |text| && !Begins(Items(re), text[i..])
      decreases |text| - i, more
    {
      r := MatchHere(re, text[i..]);
      if r {
        return;
      }
      if i < |text| {
        i := i + 1;
      } else {
        more := false;
      }
    }
    return false;
  }
}
