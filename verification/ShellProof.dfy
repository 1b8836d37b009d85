// Printing a command and parsing the text gives the command back, with every part in
// brackets or with brackets only where they are needed.
module ShellProof {
  import opened ShellSpec
  import opened ShellGrammar

  // --------------------------------------------------------- tokens as text

  // The tokens, a space after each.
  function Show(ls: seq<Lexeme>): string {
    if ls == [] then [] else ls[0].text + " " + Show(ls[1..])
  }

  predicate LegalLexeme(x: Lexeme) {
    if x.kind == 'a' then LegalWord(x.text)
    else if x.kind == '+' then x.text == ">>"
    else IsSymbol(x.kind) && x.text == [x.kind]
  }

  predicate AllLegal(ls: seq<Lexeme>) {
    forall k :: 0 <= k < |ls| ==> LegalLexeme(ls[k])
  }

  // w stands at place i of s.
  ghost predicate At(s: string, i: nat, w: string) {
    i + |w| <= |s| && forall k {:trigger w[k]} :: 0 <= k < |w| ==> s[i + k] == w[k]
  }

  lemma AtConcat(s: string, i: nat, a: string, b: string)
    requires At(s, i, a + b)
    ensures At(s, i, a) && At(s, i + |a|, b)
  {
    var w := a + b;
    forall k | 0 <= k < |a| ensures s[i + k] == a[k] {
      assert w[k] == a[k];
    }
    forall k | 0 <= k < |b| ensures s[i + |a| + k] == b[k] {
      assert w[|a| + k] == b[k];
    }
  }

  lemma AtText(s: string, i: nat, w: string)
    requires At(s, i, w)
    ensures s[i..i + |w|] == w
  {
    var t := s[i..i + |w|];
    assert forall k :: 0 <= k < |w| ==> t[k] == w[k];
  }

  lemma {:induction false} WordEndAt(s: string, i: nat, end: nat)
    requires i <= end < |s| && IsSpace(s[end]) && forall k :: i <= k < end ==> IsWord(s[k])
    ensures WordEnd(s, i) == end
    decreases end - i
  {
    if i < end {
      WordEndAt(s, i + 1, end);
    }
  }

  // A token with a space behind it is read as such.
  lemma TokenAt(s: string, i: nat, x: Lexeme)
    requires At(s, i, x.text) && LegalLexeme(x) && i + |x.text| < |s| && s[i + |x.text|] == ' '
    ensures GetToken(s, i) == Token(x.kind, i, i + |x.text|, SkipSpace(s, i + |x.text|))
  {
    assert x.text[0] == s[i];
    if x.kind == 'a' {
      forall k | i <= k < i + |x.text| ensures IsWord(s[k]) {
        assert x.text[k - i] == s[k];
      }
      WordEndAt(s, i, i + |x.text|);
    } else if x.kind == '+' {
      assert x.text[1] == s[i + 1];
    }
  }

  lemma {:induction false} LexShow(s: string, i: nat, ls: seq<Lexeme>)
    requires i <= |s| && AllLegal(ls) && At(s, i, Show(ls)) && i + |Show(ls)| == |s|
    ensures Lex(s, i) == ls
    decreases |ls|
  {
    if ls == [] {
      LexHead(s, i);
    } else {
      ShowFirst(s, i, ls);
      var j := i + |ls[0].text| + 1;
      LexShow(s, j, ls[1..]);
      FirstToken(s, i, ls[0], j);
      assert ls == [ls[0]] + ls[1..];
    }
  }

  lemma ShowFirst(s: string, i: nat, ls: seq<Lexeme>)
    requires ls != [] && At(s, i, Show(ls)) && i + |Show(ls)| == |s|
    ensures var j := i + |ls[0].text|;
            At(s, i, ls[0].text) && j < |s| && s[j] == ' ' && At(s, j + 1, Show(ls[1..]))
            && j + 1 + |Show(ls[1..])| == |s|
  {
    AtConcat(s, i, ls[0].text + " ", Show(ls[1..]));
    AtConcat(s, i, ls[0].text, " ");
    assert " "[0] == ' ';
  }

  lemma FirstToken(s: string, i: nat, x: Lexeme, j: nat)
    requires At(s, i, x.text) && LegalLexeme(x) && j == i + |x.text| + 1 <= |s| && s[j - 1] == ' '
    ensures Lex(s, i) == [x] + Lex(s, j)
  {
    TokenAt(s, i, x);
    AtText(s, i, x.text);
    LexSkip(s, j);
    assert SkipSpace(s, j - 1) == SkipSpace(s, j);
  }

  // ------------------------------------------------------ commands as lines

  function WordItems(ws: seq<string>): (r: seq<Item>)
    ensures |r| == |ws| && forall k :: 0 <= k < |r| ==> r[k] == Word(ws[k])
  {
    seq(|ws|, k requires 0 <= k < |ws| => Word(ws[k]))
  }

  lemma {:induction false} WordsBack(ws: seq<string>, items: seq<Item>)
    requires |items| == |ws| && forall k :: 0 <= k < |ws| ==> items[k] == Word(ws[k])
    ensures Words(items) == ws && Redirs(items) == []
    decreases |ws|
  {
    if ws != [] {
      WordsBack(ws[1..], items[1..]);
      assert ws == [ws[0]] + ws[1..];
    }
  }

  // Every part of a command in brackets.
  function Bracketed(t: Tree): Line {
    match t
    case TExec(ws) => Simple(WordItems(ws))
    case TRedir(u, k, f) => Block(Bracketed(u), [Redirection(k, f)])
    case TPipe(l, r) => PipeTo(Block(Bracketed(l), []), Block(Bracketed(r), []))
    case TList(l, r) => Then(Block(Bracketed(l), []), Block(Bracketed(r), []))
    case TBack(u) => Amp(Block(Bracketed(u), []))
  }

  lemma {:induction false} BracketedOk(t: Tree)
    requires Legal(t)
    ensures WellFormed(Bracketed(t)) && Meaning(Bracketed(t)) == t
    decreases t
  {
    match t
    case TExec(ws) => WordsBack(ws, WordItems(ws));
    case TRedir(u, k, f) =>
      BracketedOk(u);
      var rs := [Redirection(k, f)];
      assert rs[..0] == [] && Under(u, rs) == TRedir(Under(u, []), k, f);
    case TPipe(l, r) => BracketedOk(l); BracketedOk(r);
    case TList(l, r) => BracketedOk(l); BracketedOk(r);
    case TBack(u) => BracketedOk(u);
  }

  // The command without the redirections around it, and these, the innermost first.
  function Core(t: Tree): Tree {
    if t.TRedir? then Core(t.sub) else t
  }

  function Around(t: Tree): seq<Item> {
    if t.TRedir? then Around(t.sub) + [Redirection(t.kind, t.file)] else []
  }

  lemma {:induction false} CoreUnder(t: Tree)
    requires Legal(t)
    ensures Under(Core(t), Around(t)) == t && AllRedirs(Around(t)) && LegalItems(Around(t)) && Legal(Core(t))
    ensures !Core(t).TRedir?
    decreases t
  {
    if t.TRedir? {
      CoreUnder(t.sub);
      assert Around(t)[..|Around(t)| - 1] == Around(t.sub);
    }
  }

  // Brackets only where the grammar needs them: around a list, a background command or a
  // pipeline that stands where one binds too loosely, or has redirections.
  function Plain(t: Tree, level: nat): Line
    decreases t, 1
  {
    match t
    case TList(l, r) => if level >= 3 then Then(Plain(l, 2), Plain(r, 3)) else Block(Then(Plain(l, 2), Plain(r, 3)), [])
    case TBack(u) => if level >= 2 then Amp(Plain(u, 2)) else Block(Amp(Plain(u, 2)), [])
    case TPipe(l, r) => if level >= 1 then PipeTo(Plain(l, 0), Plain(r, 1)) else Block(PipeTo(Plain(l, 0), Plain(r, 1)), [])
    case TExec(ws) => Simple(WordItems(ws))
    case TRedir(_, _, _) =>
      CoreSmaller(t);
      if Core(t).TExec? then Simple(WordItems(Core(t).words) + Around(t)) else Block(Plain(Core(t), 3), Around(t))
  }

  lemma {:induction false} CoreSmaller(t: Tree)
    requires t.TRedir?
    ensures Core(t) < t
    decreases t
  {
    if t.sub.TRedir? {
      CoreSmaller(t.sub);
    }
  }

  lemma {:induction false} PlainOk(t: Tree, level: nat)
    requires Legal(t)
    ensures WellFormed(Plain(t, level)) && Meaning(Plain(t, level)) == t && Level(Plain(t, level)) <= level
    decreases t
  {
    match t
    case TExec(ws) => WordsBack(ws, WordItems(ws));
    case TRedir(_, _, _) =>
      CoreSmaller(t);
      CoreUnder(t);
      if Core(t).TExec? {
        PlainSimple(Core(t).words, Around(t));
      } else {
        PlainOk(Core(t), 3);
      }
    case TPipe(l, r) => PlainOk(l, 0); PlainOk(r, 1);
    case TList(l, r) => PlainOk(l, 2); PlainOk(r, 3);
    case TBack(u) => PlainOk(u, 2);
  }

  lemma PlainSimple(ws: seq<string>, rs: seq<Item>)
    requires LegalWords(ws) && AllRedirs(rs) && LegalItems(rs)
    ensures WellFormed(Simple(WordItems(ws) + rs)) && Meaning(Simple(WordItems(ws) + rs)) == Under(TExec(ws), rs)
  {
    WordsBack(ws, WordItems(ws));
    WordsConcat(WordItems(ws), rs);
    RedirsConcat(WordItems(ws), rs);
    OnlyRedirs(rs);
    assert ws + [] == ws && [] + rs == rs;
  }

  // --------------------------------------------------- their tokens are legal

  predicate LegalTexts(items: seq<Item>) {
    forall k :: 0 <= k < |items| ==>
      match items[k] case Word(w) => LegalWord(w) case Redirection(k, f) => LegalKind(k) && LegalWord(f)
  }

  // All words of the line are words.
  predicate LegalLine(x: Line) {
    match x
    case Simple(items) => LegalTexts(items)
    case Block(b, rs) => LegalLine(b) && LegalTexts(rs)
    case PipeTo(f, r) => LegalLine(f) && LegalLine(r)
    case Amp(u) => LegalLine(u)
    case Then(f, r) => LegalLine(f) && LegalLine(r)
  }

  lemma LegalConcat(a: seq<Lexeme>, b: seq<Lexeme>)
    requires AllLegal(a) && AllLegal(b)
    ensures AllLegal(a + b)
  {
  }

  lemma {:induction false} ItemsLegal(items: seq<Item>)
    requires LegalTexts(items)
    ensures AllLegal(ItemsToks(items))
    decreases |items|
  {
    if items != [] {
      ItemsLegal(items[1..]);
      LegalConcat(ItemToks(items[0]), ItemsToks(items[1..]));
    }
  }

  lemma {:induction false} ToksLegal(x: Line)
    requires LegalLine(x)
    ensures AllLegal(Toks(x))
    decreases x
  {
    match x
    case Simple(items) => ItemsLegal(items);
    case Block(b, rs) =>
      ToksLegal(b);
      ItemsLegal(rs);
      LegalConcat([Sym(')')], ItemsToks(rs));
      LegalConcat(Toks(b), [Sym(')')] + ItemsToks(rs));
      LegalConcat([Sym('(')], Toks(b) + ([Sym(')')] + ItemsToks(rs)));
    case PipeTo(f, r) =>
      ToksLegal(f);
      ToksLegal(r);
      LegalConcat([Sym('|')], Toks(r));
      LegalConcat(Toks(f), [Sym('|')] + Toks(r));
    case Amp(u) =>
      ToksLegal(u);
      LegalConcat(Toks(u), [Sym('&')]);
    case Then(f, r) =>
      ToksLegal(f);
      ToksLegal(r);
      LegalConcat([Sym(';')], Toks(r));
      LegalConcat(Toks(f), [Sym(';')] + Toks(r));
  }

  lemma {:induction false} AroundLegal(t: Tree)
    requires Legal(t)
    ensures LegalTexts(Around(t)) && Legal(Core(t))
    decreases t
  {
    if t.TRedir? {
      AroundLegal(t.sub);
    }
  }

  lemma {:induction false} PlainLegal(t: Tree, level: nat)
    requires Legal(t)
    ensures LegalLine(Plain(t, level))
    decreases t
  {
    match t
    case TExec(ws) =>
    case TRedir(_, _, _) =>
      CoreSmaller(t);
      AroundLegal(t);
      if !Core(t).TExec? {
        PlainLegal(Core(t), 3);
      }
    case TPipe(l, r) => PlainLegal(l, 0); PlainLegal(r, 1);
    case TList(l, r) => PlainLegal(l, 2); PlainLegal(r, 3);
    case TBack(u) => PlainLegal(u, 2);
  }

  lemma {:induction false} BracketedLegal(t: Tree)
    requires Legal(t)
    ensures LegalLine(Bracketed(t))
    decreases t
  {
    match t
    case TExec(ws) =>
    case TRedir(u, _, _) => BracketedLegal(u);
    case TPipe(l, r) => BracketedLegal(l); BracketedLegal(r);
    case TList(l, r) => BracketedLegal(l); BracketedLegal(r);
    case TBack(u) => BracketedLegal(u);
  }

  // ------------------------------------------------------------- round trip

  function Print(x: Line): string {
    Show(Toks(x))
  }

  lemma PrintLex(x: Line)
    requires LegalLine(x)
    ensures Lex(Print(x), 0) == Toks(x)
  {
    ToksLegal(x);
    LexShow(Print(x), 0, Toks(x));
  }

  // Each legal command comes back from its text in brackets and from its text with as few
  // as the grammar needs.
  lemma RoundTrip(t: Tree)
    requires Legal(t)
    ensures var s := Print(Bracketed(t)); ParseCmd(s).Ok? && TreeOf(ParseCmd(s).value, s) == t
    ensures var s := Print(Plain(t, 3)); ParseCmd(s).Ok? && TreeOf(ParseCmd(s).value, s) == t
  {
    BracketedOk(t);
    BracketedLegal(t);
    PrintLex(Bracketed(t));
    Accepts(Print(Bracketed(t)), Bracketed(t));
    PlainOk(t, 3);
    PlainLegal(t, 3);
    PrintLex(Plain(t, 3));
    Accepts(Print(Plain(t, 3)), Plain(t, 3));
  }

  // The grammar is not ambiguous: the tokens determine the command.
  lemma Unambiguous(x: Line, y: Line)
    requires WellFormed(x) && WellFormed(y) && LegalLine(x) && Toks(x) == Toks(y)
    ensures Meaning(x) == Meaning(y)
  {
    PrintLex(x);
    Accepts(Print(x), x);
    Accepts(Print(x), y);
  }
}
