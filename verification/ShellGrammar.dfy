// The grammar of command lines on tokens, whatever the spaces between them, and what the
// parser makes of a line: it accepts exactly the lines of the grammar.
module ShellGrammar {
  import opened ShellSpec

  // ----------------------------------------------------------------- tokens

  // A token without its place: kind is as in Token.
  datatype Lexeme = Lexeme(kind: char, text: string)

  // The tokens of the line from i on.
  function Lex(s: string, i: nat): (ls: seq<Lexeme>)
    requires i <= |s|
    decreases |s| - i
  {
    var t := GetToken(s, i);
    if t.kind == '\0' then [] else [Lexeme(t.kind, s[t.q..t.eq])] + Lex(s, t.next)
  }

  function Sym(c: char): Lexeme {
    Lexeme(c, [c])
  }

  predicate Proper(x: Lexeme) {
    if x.kind == 'a' then x.text != [] && !IsSymbol(x.text[0])
    else if x.kind == '+' then x.text == ">>"
    else IsSymbol(x.kind) && x.text == [x.kind]
  }

  // The next token is one of these.
  predicate Starts(ls: seq<Lexeme>, kinds: string) {
    ls != [] && ls[0].kind in kinds
  }

  lemma LexSkip(s: string, i: nat)
    requires i <= |s|
    ensures Lex(s, SkipSpace(s, i)) == Lex(s, i)
  {
    TokenSkip(s, i);
  }

  lemma TokenSkip(s: string, i: nat)
    requires i <= |s|
    ensures GetToken(s, SkipSpace(s, i)) == GetToken(s, i)
  {
    SkipTwice(s, i);
  }

  // The first token, and the others behind it.
  lemma LexHead(s: string, i: nat)
    requires i <= |s|
    ensures Lex(s, i) == [] <==> GetToken(s, i).kind == '\0'
    ensures Lex(s, i) != [] ==>
      var t := GetToken(s, i);
      Lex(s, i)[0] == Lexeme(t.kind, TextOf(Span(t.q, t.eq), s)) && Lex(s, t.next) == Lex(s, i)[1..]
      && Proper(Lex(s, i)[0])
  {
    var t := GetToken(s, i);
    if t.kind != '\0' {
      TokenProper(s, i);
    }
  }

  lemma TokenProper(s: string, i: nat)
    requires i <= |s| && GetToken(s, i).kind != '\0'
    ensures var t := GetToken(s, i); Proper(Lexeme(t.kind, s[t.q..t.eq]))
  {
    var t := GetToken(s, i);
    if t.kind == '+' {
      assert s[t.q..t.eq] == ">>";
    }
  }

  // peek() looks at the next token.
  lemma PeekIs(s: string, i: nat)
    requires i <= |s|
    ensures Peek(s, i, "<>") <==> Starts(Lex(s, i), "<>+")
    ensures Peek(s, i, "(") <==> Starts(Lex(s, i), "(")
    ensures Peek(s, i, ")") <==> Starts(Lex(s, i), ")")
    ensures Peek(s, i, "|") <==> Starts(Lex(s, i), "|")
    ensures Peek(s, i, "&") <==> Starts(Lex(s, i), "&")
    ensures Peek(s, i, ";") <==> Starts(Lex(s, i), ";")
    ensures Peek(s, i, "|)&;") <==> Starts(Lex(s, i), "|)&;")
  {
    LexHead(s, i);
    if Lex(s, i) != [] {
      var t := GetToken(s, i);
      assert s[t.q..t.eq][0] == s[t.q];
    }
  }

  // ---------------------------------------------------------------- grammar

  datatype Item = Word(text: string) | Redirection(kind: char, file: string)

  // A simple command has words and redirections in any order. A block has redirections
  // behind it. | binds tighter than &, and & tighter than ;.
  datatype Line =
    | Simple(items: seq<Item>)
    | Block(body: Line, redirs: seq<Item>)
    | PipeTo(first: Line, rest: Line)
    | Amp(sub: Line)
    | Then(first: Line, rest: Line)

  function Level(x: Line): nat {
    match x
    case Simple(_) => 0
    case Block(_, _) => 0
    case PipeTo(_, _) => 1
    case Amp(_) => 2
    case Then(_, _) => 3
  }

  predicate LegalItems(items: seq<Item>) {
    forall k :: 0 <= k < |items| && items[k].Redirection? ==> LegalKind(items[k].kind)
  }

  predicate AllRedirs(items: seq<Item>) {
    forall k :: 0 <= k < |items| ==> items[k].Redirection?
  }

  function WordOf(x: Item): seq<string> {
    if x.Word? then [x.text] else []
  }

  function RedirOf(x: Item): seq<Item> {
    if x.Word? then [] else [x]
  }

  function Words(items: seq<Item>): seq<string> {
    if items == [] then [] else WordOf(items[0]) + Words(items[1..])
  }

  function Redirs(items: seq<Item>): seq<Item> {
    if items == [] then [] else RedirOf(items[0]) + Redirs(items[1..])
  }

  predicate WellFormed(x: Line) {
    match x
    case Simple(items) => LegalItems(items) && |Words(items)| < MAXARGS
    case Block(b, rs) => WellFormed(b) && LegalItems(rs) && AllRedirs(rs)
    case PipeTo(f, r) => WellFormed(f) && WellFormed(r) && Level(f) == 0 && Level(r) <= 1
    case Amp(u) => WellFormed(u) && Level(u) <= 2
    case Then(f, r) => WellFormed(f) && WellFormed(r) && Level(f) <= 2
  }

  function ItemToks(x: Item): seq<Lexeme> {
    match x
    case Word(w) => [Lexeme('a', w)]
    case Redirection(k, f) => [Lexeme(k, KindText(k)), Lexeme('a', f)]
  }

  function ItemsToks(items: seq<Item>): seq<Lexeme> {
    if items == [] then [] else ItemToks(items[0]) + ItemsToks(items[1..])
  }

  function Toks(x: Line): seq<Lexeme> {
    match x
    case Simple(items) => ItemsToks(items)
    case Block(b, rs) => [Sym('(')] + (Toks(b) + ([Sym(')')] + ItemsToks(rs)))
    case PipeTo(f, r) => Toks(f) + ([Sym('|')] + Toks(r))
    case Amp(u) => Toks(u) + [Sym('&')]
    case Then(f, r) => Toks(f) + ([Sym(';')] + Toks(r))
  }

  // The command that the line stands for; the first redirection is innermost.
  function Under(t: Tree, rs: seq<Item>): Tree
    decreases |rs|
  {
    if rs == [] || !rs[|rs| - 1].Redirection? then t
    else TRedir(Under(t, rs[..|rs| - 1]), rs[|rs| - 1].kind, rs[|rs| - 1].file)
  }

  function Meaning(x: Line): Tree {
    match x
    case Simple(items) => Under(TExec(Words(items)), Redirs(items))
    case Block(b, rs) => Under(Meaning(b), rs)
    case PipeTo(f, r) => TPipe(Meaning(f), Meaning(r))
    case Amp(u) => TBack(Meaning(u))
    case Then(f, r) => TList(Meaning(f), Meaning(r))
  }

  // ----------------------------------------------------------- redirections

  function ItemOf(r: Redirect, s: string): Item {
    Redirection(KindOf(r.mode, r.fd), TextOf(r.file, s))
  }

  function ItemsOf(rs: seq<Redirect>, s: string): (xs: seq<Item>)
    ensures |xs| == |rs|
  {
    if rs == [] then [] else ItemsOf(rs[..|rs| - 1], s) + [ItemOf(rs[|rs| - 1], s)]
  }

  lemma ItemsAppend(rs: seq<Redirect>, r: Redirect, s: string)
    ensures ItemsOf(rs + [r], s) == ItemsOf(rs, s) + [ItemOf(r, s)]
  {
    assert (rs + [r])[..|rs|] == rs;
  }

  lemma {:induction false} WrapTree(c: Cmd, rs: seq<Redirect>, s: string)
    ensures TreeOf(Wrap(c, rs), s) == Under(TreeOf(c, s), ItemsOf(rs, s))
    decreases |rs|
  {
    if rs != [] {
      var n := |rs| - 1;
      WrapTree(c, rs[..n], s);
      assert ItemsOf(rs, s)[..n] == ItemsOf(rs[..n], s) && ItemsOf(rs, s)[n] == ItemOf(rs[n], s);
    }
  }

  lemma RedirectItem(k: char, x: Span, s: string)
    requires LegalKind(k)
    ensures ItemOf(MakeRedirect(k, x), s) == Redirection(k, TextOf(x, s))
  {
  }

  lemma RedirStep(s: string, i: nat, rs: seq<Redirect>)
    requires i <= |s| && Peek(s, i, "<>")
    ensures var t := GetToken(s, i);
            var f := GetToken(s, t.next);
            if f.kind == 'a'
            then ParseRedirs(s, i, rs) == ParseRedirs(s, f.next, rs + [MakeRedirect(t.kind, Span(f.q, f.eq))])
            else !ParseRedirs(s, i, rs).Ok?
  {
  }

  lemma LexTwo(s: string, i: nat)
    requires i <= |s| && |Lex(s, i)| >= 2
    ensures var t := GetToken(s, i);
            var f := GetToken(s, t.next);
            && Lex(s, i)[0] == Lexeme(t.kind, TextOf(Span(t.q, t.eq), s)) && Proper(Lex(s, i)[0])
            && Lex(s, i)[1] == Lexeme(f.kind, TextOf(Span(f.q, f.eq), s)) && Lex(s, f.next) == Lex(s, i)[2..]
            && i < f.next
  {
    LexHead(s, i);
    LexHead(s, GetToken(s, i).next);
  }

  // One redirection is read.
  lemma OneRedir(s: string, i: nat, rs: seq<Redirect>, x: Item, rest: seq<Lexeme>) returns (j: nat, r: Redirect)
    requires i <= |s| && x.Redirection? && LegalKind(x.kind) && Lex(s, i) == ItemToks(x) + rest
    ensures i < j <= |s| && Lex(s, j) == rest && ItemOf(r, s) == x
    ensures ParseRedirs(s, i, rs) == ParseRedirs(s, j, rs + [r])
  {
    PeekIs(s, i);
    LexTwo(s, i);
    RedirStep(s, i, rs);
    var t := GetToken(s, i);
    var f := GetToken(s, t.next);
    j, r := f.next, MakeRedirect(t.kind, Span(f.q, f.eq));
    RedirectItem(t.kind, Span(f.q, f.eq), s);
    assert (ItemToks(x) + rest)[2..] == rest;
  }

  // Reading on from i ends with these redirections, before these tokens.
  ghost predicate RedirsAt(s: string, i: nat, rs: seq<Redirect>, items: seq<Item>, rest: seq<Lexeme>) {
    && i <= |s| && ParseRedirs(s, i, rs).Ok?
    && Lex(s, ParseRedirs(s, i, rs).next) == rest && ItemsOf(ParseRedirs(s, i, rs).value, s) == items
  }

  lemma RedirsSame(s: string, i: nat, rs: seq<Redirect>, j: nat, rs': seq<Redirect>, items: seq<Item>,
      rest: seq<Lexeme>)
    requires i <= |s| && j <= |s| && ParseRedirs(s, i, rs) == ParseRedirs(s, j, rs') && RedirsAt(s, j, rs', items, rest)
    ensures RedirsAt(s, i, rs, items, rest)
  {
  }

  lemma NoRedirs(s: string, i: nat, rs: seq<Redirect>)
    requires i <= |s| && !Starts(Lex(s, i), "<>+")
    ensures RedirsAt(s, i, rs, ItemsOf(rs, s), Lex(s, i))
  {
    PeekIs(s, i);
    LexSkip(s, i);
  }

  lemma ItemsFirst(items: seq<Item>, rest: seq<Lexeme>)
    requires items != []
    ensures ItemsToks(items) + rest == ItemToks(items[0]) + (ItemsToks(items[1..]) + rest)
    ensures LegalItems(items) ==> LegalItems(items[1..])
    ensures AllRedirs(items) ==> AllRedirs(items[1..])
  {
  }

  lemma {:induction false} ReadRedirs(s: string, i: nat, rs: seq<Redirect>, items: seq<Item>, rest: seq<Lexeme>,
      all: seq<Item>)
    requires i <= |s| && LegalItems(items) && AllRedirs(items) && Lex(s, i) == ItemsToks(items) + rest
    requires !Starts(rest, "<>+") && all == ItemsOf(rs, s) + items
    ensures RedirsAt(s, i, rs, all, rest)
    decreases |items|
  {
    if items == [] {
      assert ItemsToks(items) + rest == rest;
      assert all == ItemsOf(rs, s);
      NoRedirs(s, i, rs);
    } else {
      var j, r := FirstRedir(s, i, rs, items, rest, all);
      ReadRedirs(s, j, rs + [r], items[1..], rest, all);
      RedirsSame(s, i, rs, j, rs + [r], all, rest);
    }
  }

  lemma FirstRedir(s: string, i: nat, rs: seq<Redirect>, items: seq<Item>, rest: seq<Lexeme>, all: seq<Item>)
      returns (j: nat, r: Redirect)
    requires i <= |s| && LegalItems(items) && AllRedirs(items) && items != [] && Lex(s, i) == ItemsToks(items) + rest
    requires all == ItemsOf(rs, s) + items
    ensures j <= |s| && Lex(s, j) == ItemsToks(items[1..]) + rest && LegalItems(items[1..]) && AllRedirs(items[1..])
    ensures all == ItemsOf(rs + [r], s) + items[1..] && ParseRedirs(s, i, rs) == ParseRedirs(s, j, rs + [r])
  {
    ItemsFirst(items, rest);
    j, r := OneRedir(s, i, rs, items[0], ItemsToks(items[1..]) + rest);
    ItemsAppend(rs, r, s);
    Split(ItemsOf(rs, s), items);
  }

  lemma Split<T>(a: seq<T>, b: seq<T>)
    requires b != []
    ensures a + b == a + [b[0]] + b[1..]
  {
  }

  // --------------------------------------------------------- simple commands

  ghost predicate Reads(s: string, r: Result<Cmd>, t: Tree, rest: seq<Lexeme>) {
    r.Ok? && r.next <= |s| && Lex(s, r.next) == rest && TreeOf(r.value, s) == t
  }

  // How many redirections come first.
  function Run(items: seq<Item>): (n: nat)
    ensures n <= |items| && AllRedirs(items[..n]) && (n < |items| ==> items[n].Word?)
  {
    if items == [] || items[0].Word? then 0
    else
      var n := 1 + Run(items[1..]);
      assert items[..n] == [items[0]] + items[1..][..n - 1];
      n
  }

  lemma {:induction false} ToksConcat(a: seq<Item>, b: seq<Item>)
    ensures ItemsToks(a + b) == ItemsToks(a) + ItemsToks(b)
    decreases |a|
  {
    if a == [] {
      assert a + b == b;
    } else {
      ToksConcat(a[1..], b);
      assert (a + b)[0] == a[0] && (a + b)[1..] == a[1..] + b;
      Assoc(ItemToks(a[0]), ItemsToks(a[1..]), ItemsToks(b));
    }
  }

  lemma Assoc<T>(a: seq<T>, b: seq<T>, c: seq<T>)
    ensures a + b + c == a + (b + c)
  {
  }

  lemma Chain(l0: seq<Lexeme>, a: seq<Lexeme>, l1: seq<Lexeme>, c: Lexeme, l2: seq<Lexeme>, b: seq<Lexeme>,
      l3: seq<Lexeme>)
    requires l0 == a + l1 && l1 == [c] + l2 && l2 == b + l3
    ensures l0 == a + ([c] + b) + l3
  {
    Between(a, c, b, l3);
  }

  // Two parts with a symbol between them.
  lemma Between(a: seq<Lexeme>, c: Lexeme, b: seq<Lexeme>, rest: seq<Lexeme>)
    ensures a + ([c] + b) + rest == a + ([c] + (b + rest))
  {
    Assoc(a, [c] + b, rest);
    Assoc([c], b, rest);
  }

  lemma {:induction false} WordsConcat(a: seq<Item>, b: seq<Item>)
    ensures Words(a + b) == Words(a) + Words(b)
    decreases |a|
  {
    if a == [] {
      assert a + b == b;
    } else {
      WordsConcat(a[1..], b);
      assert (a + b)[0] == a[0] && (a + b)[1..] == a[1..] + b;
      Assoc(WordOf(a[0]), Words(a[1..]), Words(b));
    }
  }

  lemma {:induction false} RedirsConcat(a: seq<Item>, b: seq<Item>)
    ensures Redirs(a + b) == Redirs(a) + Redirs(b)
    decreases |a|
  {
    if a == [] {
      assert a + b == b;
    } else {
      RedirsConcat(a[1..], b);
      assert (a + b)[0] == a[0] && (a + b)[1..] == a[1..] + b;
      Assoc(RedirOf(a[0]), Redirs(a[1..]), Redirs(b));
    }
  }

  lemma {:induction false} OnlyRedirs(items: seq<Item>)
    requires AllRedirs(items)
    ensures Words(items) == [] && Redirs(items) == items
    decreases |items|
  {
    if items != [] {
      OnlyRedirs(items[1..]);
      assert items == [items[0]] + items[1..];
    }
  }

  // The items up to the next word, and the others.
  lemma RunFirst(items: seq<Item>, rest: seq<Lexeme>, run: seq<Item>, more: seq<Item>)
    requires LegalItems(items)
    requires (rest == [] || Starts(rest, "|)&;")) && run == items[..Run(items)] && more == items[Run(items)..]
    ensures LegalItems(run) && AllRedirs(run) && LegalItems(more) && (more == [] || more[0].Word?)
    ensures ItemsToks(items) + rest == ItemsToks(run) + (ItemsToks(more) + rest)
    ensures Words(items) == Words(more) && Redirs(items) == run + Redirs(more) && !Starts(ItemsToks(more) + rest, "<>+")
  {
    assert items == run + more;
    RunLists(run, more, rest);
    NotRedir(more, rest);
  }

  // Redirections, then other items.
  lemma RunLists(run: seq<Item>, more: seq<Item>, rest: seq<Lexeme>)
    requires LegalItems(run) && AllRedirs(run) && LegalItems(more)
    ensures LegalItems(run + more) && Words(run + more) == Words(more) && Redirs(run + more) == run + Redirs(more)
    ensures ItemsToks(run + more) + rest == ItemsToks(run) + (ItemsToks(more) + rest)
  {
    WordsConcat(run, more);
    RedirsConcat(run, more);
    OnlyRedirs(run);
    ToksConcat(run, more);
    Assoc(ItemsToks(run), ItemsToks(more), rest);
  }

  lemma NotRedir(more: seq<Item>, rest: seq<Lexeme>)
    requires (more == [] || more[0].Word?) && (rest == [] || Starts(rest, "|)&;"))
    ensures !Starts(ItemsToks(more) + rest, "<>+")
  {
    if more == [] {
      assert ItemsToks(more) + rest == rest;
    } else {
      assert (ItemsToks(more) + rest)[0] == Lexeme('a', more[0].text);
    }
  }

  // Reading on from i ends in one simple command with these words and redirections.
  ghost predicate ArgsAt(s: string, i: nat, args: seq<Span>, rs: seq<Redirect>, ws: seq<string>, items: seq<Item>,
      rest: seq<Lexeme>)
  {
    i <= |s| && Reads(s, ParseArgs(s, i, args, rs), Under(TExec(ws), items), rest)
  }

  lemma ArgsSame(s: string, i: nat, args: seq<Span>, rs: seq<Redirect>, j: nat, args': seq<Span>, rs': seq<Redirect>,
      ws: seq<string>, items: seq<Item>, rest: seq<Lexeme>)
    requires i <= |s| && j <= |s| && ParseArgs(s, i, args, rs) == ParseArgs(s, j, args', rs')
    requires ArgsAt(s, j, args', rs', ws, items, rest)
    ensures ArgsAt(s, i, args, rs, ws, items, rest)
  {
  }

  lemma {:induction false} ReadArgs(s: string, i: nat, args: seq<Span>, rs: seq<Redirect>, items: seq<Item>, rest: seq<Lexeme>,
      ws: seq<string>, all: seq<Item>)
    requires i <= |s| && LegalItems(items) && (items == [] || items[0].Word?) && Lex(s, i) == ItemsToks(items) + rest
    requires rest == [] || Starts(rest, "|)&;")
    requires |args| + |Words(items)| < MAXARGS && ws == TextsOf(args, s) + Words(items)
    requires all == ItemsOf(rs, s) + Redirs(items)
    ensures ArgsAt(s, i, args, rs, ws, all, rest)
    decreases |items|
  {
    if items == [] {
      ArgsEnd(s, i, args, rs, rest, ws, all);
    } else {
      var run, more := items[1..][..Run(items[1..])], items[1..][Run(items[1..])..];
      FirstWord(items, rest, run, more);
      var j, args', rs' := ArgsNext(s, i, args, rs, items[0].text, run, ItemsToks(more) + rest);
      Assoc(TextsOf(args, s), [items[0].text], Words(more));
      Assoc(ItemsOf(rs, s), run, Redirs(more));
      ReadArgs(s, j, args', rs', more, rest, ws, all);
      ArgsSame(s, i, args, rs, j, args', rs', ws, all, rest);
    }
  }

  // A word, a run of redirections, and the other items.
  lemma FirstWord(items: seq<Item>, rest: seq<Lexeme>, run: seq<Item>, more: seq<Item>)
    requires LegalItems(items) && items != [] && items[0].Word? && (rest == [] || Starts(rest, "|)&;"))
    requires run == items[1..][..Run(items[1..])] && more == items[1..][Run(items[1..])..]
    ensures LegalItems(run) && AllRedirs(run) && LegalItems(more) && (more == [] || more[0].Word?) && |more| < |items|
    ensures ItemsToks(items) + rest == [Lexeme('a', items[0].text)] + (ItemsToks(run) + (ItemsToks(more) + rest))
    ensures Words(items) == [items[0].text] + Words(more) && Redirs(items) == run + Redirs(more)
    ensures !Starts(ItemsToks(more) + rest, "<>+")
  {
    ItemsFirst(items, rest);
    RunFirst(items[1..], rest, run, more);
  }

  lemma ArgsEnd(s: string, i: nat, args: seq<Span>, rs: seq<Redirect>, rest: seq<Lexeme>, ws: seq<string>,
      all: seq<Item>)
    requires i <= |s| && Lex(s, i) == ItemsToks([]) + rest && (rest == [] || Starts(rest, "|)&;"))
    requires ws == TextsOf(args, s) + Words([]) && all == ItemsOf(rs, s) + Redirs([])
    ensures ArgsAt(s, i, args, rs, ws, all, rest)
  {
    assert ItemsToks([]) + rest == rest;
    PeekIs(s, i);
    LexHead(s, i);
    LexSkip(s, i);
    WrapTree(Exec(args), rs, s);
    assert ws == TextsOf(args, s) && all == ItemsOf(rs, s);
  }

  // One word and the redirections behind it are read.
  lemma ArgsNext(s: string, i: nat, args: seq<Span>, rs: seq<Redirect>, w: string, run: seq<Item>, rest: seq<Lexeme>)
      returns (j: nat, args': seq<Span>, rs': seq<Redirect>)
    requires i <= |s| && |args| + 1 < MAXARGS && LegalItems(run) && AllRedirs(run)
    requires Lex(s, i) == [Lexeme('a', w)] + (ItemsToks(run) + rest) && !Starts(rest, "<>+")
    ensures j <= |s| && Lex(s, j) == rest && |args'| == |args| + 1
    ensures TextsOf(args', s) == TextsOf(args, s) + [w] && ItemsOf(rs', s) == ItemsOf(rs, s) + run
    ensures ParseArgs(s, i, args, rs) == ParseArgs(s, j, args', rs')
  {
    LexHead(s, i);
    var t := GetToken(s, i);
    assert Lex(s, i)[1..] == ItemsToks(run) + rest;
    ReadRedirs(s, t.next, rs, run, rest, ItemsOf(rs, s) + run);
    j, args', rs' := WordStep(s, i, args, rs, ItemsOf(rs, s) + run, rest);
    assert args'[..|args|] == args;
  }

  lemma WordStep(s: string, i: nat, args: seq<Span>, rs: seq<Redirect>, all: seq<Item>, rest: seq<Lexeme>)
      returns (j: nat, args': seq<Span>, rs': seq<Redirect>)
    requires i <= |s| && |args| + 1 < MAXARGS && Starts(Lex(s, i), "a")
    requires RedirsAt(s, GetToken(s, i).next, rs, all, rest)
    ensures j <= |s| && Lex(s, j) == rest && ItemsOf(rs', s) == all
    ensures args' == args + [Span(GetToken(s, i).q, GetToken(s, i).eq)]
    ensures ParseArgs(s, i, args, rs) == ParseArgs(s, j, args', rs')
  {
    PeekIs(s, i);
    LexHead(s, i);
    var t := GetToken(s, i);
    var r := ParseRedirs(s, t.next, rs);
    j, args', rs' := r.next, args + [Span(t.q, t.eq)], r.value;
  }

  ghost predicate ExecAt(s: string, i: nat, t: Tree, rest: seq<Lexeme>) {
    i <= |s| && Reads(s, ParseExec(s, i), t, rest)
  }

  ghost predicate PipeAt(s: string, i: nat, t: Tree, rest: seq<Lexeme>) {
    i <= |s| && Reads(s, ParsePipe(s, i), t, rest)
  }

  ghost predicate LineAt(s: string, i: nat, t: Tree, rest: seq<Lexeme>) {
    i <= |s| && Reads(s, ParseLine(s, i), t, rest)
  }

  lemma ReadSimple(s: string, i: nat, items: seq<Item>, rest: seq<Lexeme>)
    requires i <= |s| && WellFormed(Simple(items)) && Lex(s, i) == ItemsToks(items) + rest
    requires rest == [] || Starts(rest, "|)&;")
    ensures ExecAt(s, i, Meaning(Simple(items)), rest)
  {
    var run, more := items[..Run(items)], items[Run(items)..];
    RunFirst(items, rest, run, more);
    NotBlock(items, rest);
    LeadingRun(s, i, run, ItemsToks(more) + rest);
    var j, rs := SimpleStart(s, i, run, ItemsToks(more) + rest);
    SimpleRest(s, i, j, rs, run, more, Words(items), Redirs(items), rest);
  }

  lemma LeadingRun(s: string, i: nat, run: seq<Item>, rest: seq<Lexeme>)
    requires i <= |s| && LegalItems(run) && AllRedirs(run) && Lex(s, i) == ItemsToks(run) + rest && !Starts(rest, "<>+")
    ensures RedirsAt(s, i, [], run, rest)
  {
    assert run == ItemsOf([], s) + run;
    ReadRedirs(s, i, [], run, rest, run);
  }

  lemma SimpleRest(s: string, i: nat, j: nat, rs: seq<Redirect>, run: seq<Item>, more: seq<Item>, ws: seq<string>,
      all: seq<Item>, rest: seq<Lexeme>)
    requires i <= |s| && j <= |s| && ParseExec(s, i) == ParseArgs(s, j, [], rs) && ItemsOf(rs, s) == run
    requires LegalItems(more) && (more == [] || more[0].Word?) && Lex(s, j) == ItemsToks(more) + rest
    requires (rest == [] || Starts(rest, "|)&;")) && ws == Words(more) && |ws| < MAXARGS && all == run + Redirs(more)
    ensures ExecAt(s, i, Under(TExec(ws), all), rest)
  {
    assert ws == TextsOf([], s) + Words(more);
    ReadArgs(s, j, [], rs, more, rest, ws, all);
    SimpleEnd(s, i, j, rs, ws, all, rest);
  }

  lemma SimpleEnd(s: string, i: nat, j: nat, rs: seq<Redirect>, ws: seq<string>, all: seq<Item>, rest: seq<Lexeme>)
    requires i <= |s| && j <= |s| && ParseExec(s, i) == ParseArgs(s, j, [], rs) && ArgsAt(s, j, [], rs, ws, all, rest)
    ensures ExecAt(s, i, Under(TExec(ws), all), rest)
  {
  }

  lemma SimpleStart(s: string, i: nat, run: seq<Item>, rest: seq<Lexeme>) returns (j: nat, rs: seq<Redirect>)
    requires RedirsAt(s, i, [], run, rest) && !Starts(Lex(s, i), "(")
    ensures j <= |s| && Lex(s, j) == rest && ItemsOf(rs, s) == run && ParseExec(s, i) == ParseArgs(s, j, [], rs)
  {
    PeekIs(s, i);
    var r := ParseRedirs(s, i, []);
    j, rs := r.next, r.value;
  }

  lemma NotBlock(items: seq<Item>, rest: seq<Lexeme>)
    requires LegalItems(items) && (rest == [] || Starts(rest, "|)&;"))
    ensures !Starts(ItemsToks(items) + rest, "(")
  {
    if items == [] {
      assert ItemsToks(items) + rest == rest;
    } else {
      assert (ItemsToks(items) + rest)[0] == ItemToks(items[0])[0];
    }
  }

  // ------------------------------------------- the parser reads the grammar

  lemma {:induction false} ReadExec(s: string, i: nat, x: Line, rest: seq<Lexeme>)
    requires i <= |s| && WellFormed(x) && Level(x) == 0 && Lex(s, i) == Toks(x) + rest
    requires rest == [] || Starts(rest, "|)&;")
    ensures ExecAt(s, i, Meaning(x), rest)
    decreases x, 0
  {
    match x
    case Simple(items) => ReadSimple(s, i, items, rest);
    case Block(b, rs) =>
      var tail := [Sym(')')] + (ItemsToks(rs) + rest);
      Assoc([Sym('(')], Toks(b) + ([Sym(')')] + ItemsToks(rs)), rest);
      Between(Toks(b), Sym(')'), ItemsToks(rs), rest);
      var j := Symbol(s, i, '(', Toks(b) + tail);
      ReadLine(s, j, b, tail);
      BlockEnd(s, i, j, b, rs, rest);
  }

  // A symbol is next.
  lemma Symbol(s: string, i: nat, c: char, rest: seq<Lexeme>) returns (j: nat)
    requires i <= |s| && Lex(s, i) == [Sym(c)] + rest
    ensures j == GetToken(s, i).next && i < j <= |s| && Lex(s, j) == rest && Starts(Lex(s, i), [c])
  {
    LexHead(s, i);
    j := GetToken(s, i).next;
    assert ([Sym(c)] + rest)[1..] == rest;
  }

  lemma BlockEnd(s: string, i: nat, j: nat, b: Line, rs: seq<Item>, rest: seq<Lexeme>)
    requires i < j <= |s| && j == GetToken(s, i).next && Starts(Lex(s, i), "(")
    requires LegalItems(rs) && AllRedirs(rs) && (rest == [] || Starts(rest, "|)&;"))
    requires LineAt(s, j, Meaning(b), [Sym(')')] + (ItemsToks(rs) + rest))
    ensures ExecAt(s, i, Meaning(Block(b, rs)), rest)
  {
    var next := ParseLine(s, j).next;
    var k := Symbol(s, next, ')', ItemsToks(rs) + rest);
    LeadingRun(s, k, rs, rest);
    BlockClose(s, i, j, k, Meaning(b), rs, rest);
  }

  lemma BlockClose(s: string, i: nat, j: nat, k: nat, t: Tree, rs: seq<Item>, rest: seq<Lexeme>)
    requires i < j <= |s| && j == GetToken(s, i).next && Starts(Lex(s, i), "(") && ParseLine(s, j).Ok?
    requires TreeOf(ParseLine(s, j).value, s) == t && Starts(Lex(s, ParseLine(s, j).next), ")")
    requires k == GetToken(s, ParseLine(s, j).next).next && RedirsAt(s, k, [], rs, rest)
    ensures ExecAt(s, i, Under(t, rs), rest)
  {
    PeekIs(s, i);
    PeekIs(s, ParseLine(s, j).next);
    WrapTree(ParseLine(s, j).value, ParseRedirs(s, k, []).value, s);
    assert ParseExec(s, i) == ParseBlock(s, i);
  }

  lemma {:induction false} ReadPipe(s: string, i: nat, x: Line, rest: seq<Lexeme>)
    requires i <= |s| && WellFormed(x) && Level(x) <= 1 && Lex(s, i) == Toks(x) + rest
    requires rest == [] || Starts(rest, ")&;")
    ensures PipeAt(s, i, Meaning(x), rest)
    decreases x, 1
  {
    if x.PipeTo? {
      var more := Toks(x.rest) + rest;
      Between(Toks(x.first), Sym('|'), Toks(x.rest), rest);
      ReadExec(s, i, x.first, [Sym('|')] + more);
      var j := Bar(s, i, Meaning(x.first), more);
      ReadPipe(s, j, x.rest, rest);
      PipeJoin(s, i, j, Meaning(x.first), more, Meaning(x.rest), rest);
    } else {
      ReadExec(s, i, x, rest);
      PipeOne(s, i, Meaning(x), rest);
    }
  }

  // Where the command after the bar begins.
  predicate AfterBar(s: string, i: nat, j: nat) {
    && i <= |s| && ParseExec(s, i).Ok? && Peek(s, ParseExec(s, i).next, "|")
    && j == GetToken(s, ParseExec(s, i).next).next
  }

  lemma Bar(s: string, i: nat, t: Tree, more: seq<Lexeme>) returns (j: nat)
    requires ExecAt(s, i, t, [Sym('|')] + more)
    ensures j <= |s| && Lex(s, j) == more && AfterBar(s, i, j)
  {
    var c := ParseExec(s, i);
    PeekIs(s, c.next);
    j := Symbol(s, c.next, '|', more);
  }

  lemma PipeJoin(s: string, i: nat, j: nat, t: Tree, more: seq<Lexeme>, u: Tree, rest: seq<Lexeme>)
    requires ExecAt(s, i, t, [Sym('|')] + more) && AfterBar(s, i, j) && PipeAt(s, j, u, rest)
    ensures PipeAt(s, i, TPipe(t, u), rest)
  {
  }

  lemma PipeOne(s: string, i: nat, t: Tree, rest: seq<Lexeme>)
    requires ExecAt(s, i, t, rest) && !Starts(rest, "|")
    ensures PipeAt(s, i, t, rest)
  {
    PeekIs(s, ParseExec(s, i).next);
    LexSkip(s, ParseExec(s, i).next);
  }

  // The parser is in its loop at j, with c read so far.
  ghost predicate InLoop(s: string, i: nat, c: Cmd, j: nat, t: Tree, rest: seq<Lexeme>) {
    i <= j <= |s| && ParseLine(s, i) == ParseBacks(s, j, c) && TreeOf(c, s) == t && Lex(s, j) == rest
  }

  lemma {:induction false} ReadAmps(s: string, i: nat, x: Line, rest: seq<Lexeme>) returns (c: Cmd, j: nat)
    requires i <= |s| && WellFormed(x) && Level(x) <= 2 && Lex(s, i) == Toks(x) + rest
    requires rest == [] || Starts(rest, ")&;")
    ensures InLoop(s, i, c, j, Meaning(x), rest)
    decreases x, 2
  {
    if x.Amp? {
      Assoc(Toks(x.sub), [Sym('&')], rest);
      c, j := ReadAmps(s, i, x.sub, [Sym('&')] + rest);
      c, j := LoopAmp(s, i, c, j, Meaning(x.sub), rest);
    } else {
      ReadPipe(s, i, x, rest);
      c, j := LoopStart(s, i, Meaning(x), rest);
    }
  }

  lemma LoopStart(s: string, i: nat, t: Tree, rest: seq<Lexeme>) returns (c: Cmd, j: nat)
    requires PipeAt(s, i, t, rest)
    ensures InLoop(s, i, c, j, t, rest)
  {
    c, j := ParsePipe(s, i).value, ParsePipe(s, i).next;
  }

  lemma LoopAmp(s: string, i: nat, d: Cmd, k: nat, t: Tree, rest: seq<Lexeme>) returns (c: Cmd, j: nat)
    requires InLoop(s, i, d, k, t, [Sym('&')] + rest)
    ensures InLoop(s, i, c, j, TBack(t), rest)
  {
    PeekIs(s, k);
    j := Symbol(s, k, '&', rest);
    c := Back(d);
  }

  lemma LoopEnd(s: string, i: nat, c: Cmd, j: nat, t: Tree, rest: seq<Lexeme>)
    requires InLoop(s, i, c, j, t, rest) && !Starts(rest, "&;")
    ensures LineAt(s, i, t, rest)
  {
    PeekIs(s, j);
    LexSkip(s, j);
  }

  lemma LoopThen(s: string, i: nat, c: Cmd, j: nat, t: Tree, more: seq<Lexeme>, k: nat, u: Tree, rest: seq<Lexeme>)
    requires InLoop(s, i, c, j, t, [Sym(';')] + more) && k == GetToken(s, j).next && LineAt(s, k, u, rest)
    ensures LineAt(s, i, TList(t, u), rest)
  {
    PeekIs(s, j);
  }

  lemma {:induction false} ReadLine(s: string, i: nat, x: Line, rest: seq<Lexeme>)
    requires i <= |s| && WellFormed(x) && Lex(s, i) == Toks(x) + rest && (rest == [] || Starts(rest, ")"))
    ensures LineAt(s, i, Meaning(x), rest)
    decreases x, 3
  {
    if x.Then? {
      var more := Toks(x.rest) + rest;
      Between(Toks(x.first), Sym(';'), Toks(x.rest), rest);
      var c, j := ReadAmps(s, i, x.first, [Sym(';')] + more);
      var k := Symbol(s, j, ';', more);
      ReadLine(s, k, x.rest, rest);
      LoopThen(s, i, c, j, Meaning(x.first), more, k, Meaning(x.rest), rest);
    } else {
      var c, j := ReadAmps(s, i, x, rest);
      LoopEnd(s, i, c, j, Meaning(x), rest);
    }
  }

  // A line with the tokens of x, whatever the spaces, is parsed as x.
  lemma Accepts(s: string, x: Line)
    requires WellFormed(x) && Lex(s, 0) == Toks(x)
    ensures ParseCmd(s).Ok? && TreeOf(ParseCmd(s).value, s) == Meaning(x)
  {
    assert Toks(x) + [] == Toks(x);
    ReadLine(s, 0, x, []);
    AllRead(s, Meaning(x));
  }

  lemma AllRead(s: string, t: Tree)
    requires LineAt(s, 0, t, [])
    ensures ParseCmd(s).Ok? && TreeOf(ParseCmd(s).value, s) == t
  {
    LexHead(s, ParseLine(s, 0).next);
  }

  // --------------------------------------------- and reads nothing else

  lemma {:induction false} RedirsSound(s: string, i: nat, rs: seq<Redirect>) returns (items: seq<Item>)
    requires i <= |s| && ParseRedirs(s, i, rs).Ok?
    ensures LegalItems(items) && AllRedirs(items) && Lex(s, i) == ItemsToks(items) + Lex(s, ParseRedirs(s, i, rs).next)
    ensures ItemsOf(ParseRedirs(s, i, rs).value, s) == ItemsOf(rs, s) + items
    decreases |s| - i
  {
    PeekIs(s, i);
    if !Peek(s, i, "<>") {
      items := [];
      LexSkip(s, i);
      assert ItemsToks(items) + Lex(s, i) == Lex(s, i) && ItemsOf(rs, s) + items == ItemsOf(rs, s);
    } else {
      var j, r, x := RedirToken(s, i, rs);
      var more := RedirsSound(s, j, rs + [r]);
      items := [x] + more;
      ItemsAppend(rs, r, s);
      ItemsFirst(items, Lex(s, ParseRedirs(s, i, rs).next));
      Split(ItemsOf(rs, s), items);
    }
  }

  lemma RedirToken(s: string, i: nat, rs: seq<Redirect>) returns (j: nat, r: Redirect, x: Item)
    requires i <= |s| && ParseRedirs(s, i, rs).Ok? && Peek(s, i, "<>")
    ensures i < j <= |s| && ParseRedirs(s, i, rs) == ParseRedirs(s, j, rs + [r]) && ItemOf(r, s) == x
    ensures x.Redirection? && LegalKind(x.kind) && Lex(s, i) == ItemToks(x) + Lex(s, j)
  {
    RedirStep(s, i, rs);
    PeekIs(s, i);
    TwoTokens(s, i);
    LexTwo(s, i);
    var t := GetToken(s, i);
    var f := GetToken(s, t.next);
    j, r := f.next, MakeRedirect(t.kind, Span(f.q, f.eq));
    x := Redirection(t.kind, TextOf(Span(f.q, f.eq), s));
    RedirectItem(t.kind, Span(f.q, f.eq), s);
    assert Lex(s, i) == Lex(s, i)[..2] + Lex(s, i)[2..];
  }

  lemma TwoTokens(s: string, i: nat)
    requires i <= |s| && GetToken(s, i).kind != '\0' && GetToken(s, GetToken(s, i).next).kind != '\0'
    ensures |Lex(s, i)| >= 2
  {
    LexHead(s, i);
    LexHead(s, GetToken(s, i).next);
  }

  // A simple command is read from here, with these items.
  ghost predicate ArgsFrom(s: string, i: nat, args: seq<Span>, rs: seq<Redirect>, items: seq<Item>) {
    && i <= |s| && ParseArgs(s, i, args, rs).Ok? && LegalItems(items) && |args| + |Words(items)| < MAXARGS
    && Lex(s, i) == ItemsToks(items) + Lex(s, ParseArgs(s, i, args, rs).next)
    && TreeOf(ParseArgs(s, i, args, rs).value, s)
       == Under(TExec(TextsOf(args, s) + Words(items)), ItemsOf(rs, s) + Redirs(items))
  }

  lemma {:induction false} ArgsSound(s: string, i: nat, args: seq<Span>, rs: seq<Redirect>) returns (items: seq<Item>)
    requires i <= |s| && ParseArgs(s, i, args, rs).Ok? && |args| < MAXARGS
    ensures ArgsFrom(s, i, args, rs, items)
    decreases |s| - i
  {
    if Peek(s, i, "|)&;") || GetToken(s, i).kind == '\0' {
      items := [];
      ArgsStop(s, i, args, rs);
    } else {
      var run := RedirsSound(s, GetToken(s, i).next, rs);
      var j, args', rs', w := WordToken(s, i, args, rs, run);
      var more := ArgsSound(s, j, args', rs');
      items := [Word(w)] + (run + more);
      ArgsMore(s, i, args, rs, j, args', rs', w, run, more);
    }
  }

  lemma ArgsStop(s: string, i: nat, args: seq<Span>, rs: seq<Redirect>)
    requires i <= |s| && |args| < MAXARGS && (Peek(s, i, "|)&;") || GetToken(s, i).kind == '\0')
    ensures ArgsFrom(s, i, args, rs, [])
  {
    LexHead(s, i);
    LexSkip(s, i);
    WrapTree(Exec(args), rs, s);
    assert ItemsToks([]) + Lex(s, i) == Lex(s, i);
    assert TextsOf(args, s) + Words([]) == TextsOf(args, s) && ItemsOf(rs, s) + Redirs([]) == ItemsOf(rs, s);
  }

  lemma WordToken(s: string, i: nat, args: seq<Span>, rs: seq<Redirect>, run: seq<Item>)
      returns (j: nat, args': seq<Span>, rs': seq<Redirect>, w: string)
    requires i <= |s| && ParseArgs(s, i, args, rs).Ok? && !Peek(s, i, "|)&;") && GetToken(s, i).kind != '\0'
    requires var n := GetToken(s, i).next; ParseRedirs(s, n, rs).Ok? ==>
      Lex(s, n) == ItemsToks(run) + Lex(s, ParseRedirs(s, n, rs).next)
      && ItemsOf(ParseRedirs(s, n, rs).value, s) == ItemsOf(rs, s) + run
    ensures i < j <= |s| && ParseArgs(s, i, args, rs) == ParseArgs(s, j, args', rs') && |args'| == |args| + 1 < MAXARGS
    ensures TextsOf(args', s) == TextsOf(args, s) + [w] && ItemsOf(rs', s) == ItemsOf(rs, s) + run
    ensures Lex(s, i) == [Lexeme('a', w)] + (ItemsToks(run) + Lex(s, j))
  {
    LexHead(s, i);
    var t := GetToken(s, i);
    var r := ParseRedirs(s, t.next, rs);
    j, args', rs', w := r.next, args + [Span(t.q, t.eq)], r.value, TextOf(Span(t.q, t.eq), s);
    assert args'[..|args|] == args;
  }

  lemma ArgsMore(s: string, i: nat, args: seq<Span>, rs: seq<Redirect>, j: nat, args': seq<Span>, rs': seq<Redirect>, w: string,
      run: seq<Item>, more: seq<Item>)
    requires i <= |s| && j <= |s| && ParseArgs(s, i, args, rs) == ParseArgs(s, j, args', rs') && |args'| == |args| + 1
    requires TextsOf(args', s) == TextsOf(args, s) + [w] && ItemsOf(rs', s) == ItemsOf(rs, s) + run
    requires Lex(s, i) == [Lexeme('a', w)] + (ItemsToks(run) + Lex(s, j))
    requires LegalItems(run) && AllRedirs(run) && ArgsFrom(s, j, args', rs', more)
    ensures ArgsFrom(s, i, args, rs, [Word(w)] + (run + more))
  {
    var items := [Word(w)] + (run + more);
    var rest := Lex(s, ParseArgs(s, j, args', rs').next);
    ItemsLists(w, run, more, rest);
    Assoc(TextsOf(args, s), [w], Words(more));
    Assoc(ItemsOf(rs, s), run, Redirs(more));
  }

  lemma ItemsLists(w: string, run: seq<Item>, more: seq<Item>, rest: seq<Lexeme>)
    requires LegalItems(run) && AllRedirs(run) && LegalItems(more)
    ensures var items := [Word(w)] + (run + more);
            && LegalItems(items) && Words(items) == [w] + Words(more) && Redirs(items) == run + Redirs(more)
            && ItemsToks(items) + rest == [Lexeme('a', w)] + (ItemsToks(run) + (ItemsToks(more) + rest))
  {
    var items := [Word(w)] + (run + more);
    assert items[1..] == run + more;
    RunLists(run, more, rest);
    Assoc([Lexeme('a', w)], ItemsToks(run + more), rest);
  }

  // The command c is what x stands for, and the tokens of x lead from from to to.
  ghost predicate Shows(s: string, from: seq<Lexeme>, to: seq<Lexeme>, c: Cmd, x: Line) {
    WellFormed(x) && from == Toks(x) + to && TreeOf(c, s) == Meaning(x)
  }

  ghost predicate Parses(s: string, i: nat, r: Result<Cmd>, x: Line) {
    i <= |s| && r.Ok? && r.next <= |s| && Shows(s, Lex(s, i), Lex(s, r.next), r.value, x)
  }

  lemma {:induction false} ExecSound(s: string, i: nat) returns (x: Line)
    requires i <= |s| && ParseExec(s, i).Ok?
    ensures Parses(s, i, ParseExec(s, i), x) && Level(x) == 0
    decreases |s| - i, 1
  {
    if Peek(s, i, "(") {
      PeekIs(s, i);
      LexHead(s, i);
      var b := LineSound(s, GetToken(s, i).next);
      x := BlockSound(s, i, b);
    } else {
      var run := RedirsSound(s, i, []);
      var r := ParseRedirs(s, i, []);
      var more := ArgsSound(s, r.next, [], r.value);
      x := SimpleSound(s, i, run, more);
    }
  }

  lemma SimpleSound(s: string, i: nat, run: seq<Item>, more: seq<Item>) returns (x: Line)
    requires i <= |s| && !Peek(s, i, "(") && ParseRedirs(s, i, []).Ok? && LegalItems(run) && AllRedirs(run)
    requires Lex(s, i) == ItemsToks(run) + Lex(s, ParseRedirs(s, i, []).next)
    requires ItemsOf(ParseRedirs(s, i, []).value, s) == ItemsOf([], s) + run
    requires ArgsFrom(s, ParseRedirs(s, i, []).next, [], ParseRedirs(s, i, []).value, more)
    ensures Parses(s, i, ParseExec(s, i), x) && Level(x) == 0
  {
    var r := ParseRedirs(s, i, []);
    x := Simple(run + more);
    var c := ParseArgs(s, r.next, [], r.value);
    SimpleShows(s, r.value, c.value, run, more, Lex(s, i), Lex(s, r.next), Lex(s, c.next));
  }

  lemma SimpleShows(s: string, rs: seq<Redirect>, c: Cmd, run: seq<Item>, more: seq<Item>, l0: seq<Lexeme>, l1: seq<Lexeme>,
      l2: seq<Lexeme>)
    requires LegalItems(run) && AllRedirs(run) && LegalItems(more) && |Words(more)| < MAXARGS
    requires l0 == ItemsToks(run) + l1 && l1 == ItemsToks(more) + l2 && ItemsOf(rs, s) == ItemsOf([], s) + run
    requires TreeOf(c, s) == Under(TExec(TextsOf([], s) + Words(more)), ItemsOf(rs, s) + Redirs(more))
    ensures Shows(s, l0, l2, c, Simple(run + more))
  {
    RunLists(run, more, l2);
    assert TextsOf([], s) + Words(more) == Words(more);
    assert ItemsOf(rs, s) == run;
  }

  lemma BlockSound(s: string, i: nat, b: Line) returns (x: Line)
    requires i <= |s| && Peek(s, i, "(") && ParseExec(s, i).Ok?
    requires Parses(s, GetToken(s, i).next, ParseLine(s, GetToken(s, i).next), b)
    ensures Parses(s, i, ParseExec(s, i), x) && Level(x) == 0
  {
    var j := OneSymbol(s, i, '(');
    var line := ParseLine(s, j);
    assert Peek(s, line.next, ")");
    var k := OneSymbol(s, line.next, ')');
    var rs := RedirsSound(s, k, []);
    x := Block(b, rs);
    var r := ParseRedirs(s, k, []);
    BlockShows(s, line.value, b, r.value, rs, Lex(s, i), Lex(s, j), Lex(s, line.next), Lex(s, k), Lex(s, r.next));
  }

  // The symbol that peek() sees.
  lemma OneSymbol(s: string, i: nat, c: char) returns (j: nat)
    requires i <= |s| && c in "()|&;" && Peek(s, i, [c])
    ensures j == GetToken(s, i).next && i < j <= |s| && Lex(s, i) == [Sym(c)] + Lex(s, j)
  {
    PeekIs(s, i);
    LexHead(s, i);
    j := GetToken(s, i).next;
  }

  lemma BlockShows(s: string, c: Cmd, b: Line, r: seq<Redirect>, rs: seq<Item>, l0: seq<Lexeme>, l1: seq<Lexeme>,
      l2: seq<Lexeme>, l3: seq<Lexeme>, l4: seq<Lexeme>)
    requires l0 == [Sym('(')] + l1 && Shows(s, l1, l2, c, b) && l2 == [Sym(')')] + l3 && l3 == ItemsToks(rs) + l4
    requires LegalItems(rs) && AllRedirs(rs) && ItemsOf(r, s) == ItemsOf([], s) + rs
    ensures Shows(s, l0, l4, Wrap(c, r), Block(b, rs))
  {
    assert ItemsOf([], s) + rs == rs;
    WrapTree(c, r, s);
    Chain(l1, Toks(b), l2, Sym(')'), l3, ItemsToks(rs), l4);
    Assoc([Sym('(')], Toks(b) + ([Sym(')')] + ItemsToks(rs)), l4);
  }

  lemma {:induction false} PipeSound(s: string, i: nat) returns (x: Line)
    requires i <= |s| && ParsePipe(s, i).Ok?
    ensures Parses(s, i, ParsePipe(s, i), x) && Level(x) <= 1
    decreases |s| - i, 2
  {
    var f := ExecSound(s, i);
    var c := ParseExec(s, i);
    if Peek(s, c.next, "|") {
      var j := OneSymbol(s, c.next, '|');
      var r := PipeSound(s, j);
      x := PipeTo(f, r);
      var d := ParsePipe(s, j);
      PipeShows(s, c.value, f, d.value, r, Lex(s, i), Lex(s, c.next), Lex(s, j), Lex(s, d.next));
    } else {
      x := f;
      LexSkip(s, c.next);
    }
  }

  lemma PipeShows(s: string, c: Cmd, f: Line, d: Cmd, r: Line, l0: seq<Lexeme>, l1: seq<Lexeme>, l2: seq<Lexeme>,
      l3: seq<Lexeme>)
    requires Shows(s, l0, l1, c, f) && Level(f) == 0 && l1 == [Sym('|')] + l2 && Shows(s, l2, l3, d, r) && Level(r) <= 1
    ensures Shows(s, l0, l3, Pipe(c, d), PipeTo(f, r))
  {
    Chain(l0, Toks(f), l1, Sym('|'), l2, Toks(r), l3);
  }

  lemma {:induction false} LineSound(s: string, i: nat) returns (x: Line)
    requires i <= |s| && ParseLine(s, i).Ok?
    ensures Parses(s, i, ParseLine(s, i), x)
    decreases |s| - i, 4
  {
    var f := PipeSound(s, i);
    x := BacksSound(s, i, ParsePipe(s, i).next, ParsePipe(s, i).value, f);
  }

  // The loop: x continues what was read as f from i0 to i.
  lemma {:induction false} BacksSound(s: string, i0: nat, i: nat, c: Cmd, f: Line) returns (x: Line)
    requires i0 <= i <= |s| && ParseBacks(s, i, c).Ok? && Parses(s, i0, Ok(c, i), f) && Level(f) <= 2
    ensures Parses(s, i0, ParseBacks(s, i, c), x)
    decreases |s| - i, 3
  {
    if Peek(s, i, "&") {
      var j := OneSymbol(s, i, '&');
      AmpShows(s, c, f, Lex(s, i0), Lex(s, i), Lex(s, j));
      x := BacksSound(s, i0, j, Back(c), Amp(f));
    } else if Peek(s, i, ";") {
      var j := OneSymbol(s, i, ';');
      var r := LineSound(s, j);
      x := Then(f, r);
      var d := ParseLine(s, j);
      ThenShows(s, c, f, d.value, r, Lex(s, i0), Lex(s, i), Lex(s, j), Lex(s, d.next));
    } else {
      x := f;
      LexSkip(s, i);
    }
  }

  lemma AmpShows(s: string, c: Cmd, f: Line, l0: seq<Lexeme>, l1: seq<Lexeme>, l2: seq<Lexeme>)
    requires Shows(s, l0, l1, c, f) && Level(f) <= 2 && l1 == [Sym('&')] + l2
    ensures Shows(s, l0, l2, Back(c), Amp(f))
  {
    Assoc(Toks(f), [Sym('&')], l2);
  }

  lemma ThenShows(s: string, c: Cmd, f: Line, d: Cmd, r: Line, l0: seq<Lexeme>, l1: seq<Lexeme>, l2: seq<Lexeme>,
      l3: seq<Lexeme>)
    requires Shows(s, l0, l1, c, f) && Level(f) <= 2 && l1 == [Sym(';')] + l2 && Shows(s, l2, l3, d, r)
    ensures Shows(s, l0, l3, List(c, d), Then(f, r))
  {
    Chain(l0, Toks(f), l1, Sym(';'), l2, Toks(r), l3);
  }

  // The parser accepts exactly the lines of the grammar, whatever the spaces, and makes of
  // each what it stands for.
  lemma AcceptsExactly(s: string)
    ensures ParseCmd(s).Ok? <==> exists x :: WellFormed(x) && Toks(x) == Lex(s, 0)
    ensures forall x :: WellFormed(x) && Toks(x) == Lex(s, 0) ==>
              ParseCmd(s).Ok? && TreeOf(ParseCmd(s).value, s) == Meaning(x)
  {
    forall x | WellFormed(x) && Toks(x) == Lex(s, 0)
      ensures ParseCmd(s).Ok? && TreeOf(ParseCmd(s).value, s) == Meaning(x)
    {
      Accepts(s, x);
    }
    if ParseCmd(s).Ok? {
      var x := LineSound(s, 0);
      LexHead(s, ParseLine(s, 0).next);
      assert Toks(x) + [] == Toks(x);
    }
  }
}
