// The grammar that the shell parses, as functions on a NUL-free line, and
// commands as trees of words.
module ShellSpec {

  const MAXARGS := 10

  predicate IsSpace(c: char) {
    c == ' ' || c == '\t' || c == '\r' || c == '\n' || c == 11 as char
  }

  predicate IsSymbol(c: char) {
    c in "<|>&;()"
  }

  predicate IsWord(c: char) {
    !IsSpace(c) && !IsSymbol(c) && c != '\0'
  }

  // A token's place in the line, from q up to eq.
  datatype Span = Span(q: nat, eq: nat)

  datatype Redirect = Redirect(file: Span, mode: nat, fd: nat)

  datatype Cmd =
    | Exec(argv: seq<Span>)
    | Redir(cmd: Cmd, file: Span, mode: nat, fd: nat)
    | Pipe(left: Cmd, right: Cmd)
    | List(left: Cmd, right: Cmd)
    | Back(cmd: Cmd)

  const O_RDONLY := 0x000
  const O_WRONLY := 0x001
  const O_CREATE := 0x200
  const O_TRUNC := 0x400

  // ----------------------------------------------------------------- tokens

  function SkipSpace(s: string, i: nat): (j: nat)
    requires i <= |s|
    ensures i <= j <= |s| && (j < |s| ==> !IsSpace(s[j]))
    decreases |s| - i
  {
    if i < |s| && IsSpace(s[i]) then SkipSpace(s, i + 1) else i
  }

  lemma {:induction false} SkipTwice(s: string, i: nat)
    requires i <= |s|
    ensures SkipSpace(s, SkipSpace(s, i)) == SkipSpace(s, i)
    decreases |s| - i
  {
    if i < |s| && IsSpace(s[i]) {
      SkipTwice(s, i + 1);
    }
  }

  function WordEnd(s: string, i: nat): (j: nat)
    requires i <= |s|
    ensures i <= j <= |s| && (j < |s| ==> IsSpace(s[j]) || IsSymbol(s[j]))
    decreases |s| - i
  {
    if i < |s| && !IsSpace(s[i]) && !IsSymbol(s[i]) then WordEnd(s, i + 1) else i
  }

  // kind is '\0' at the end, 'a' for a word, '+' for >>, or the symbol.
  datatype Token = Token(kind: char, q: nat, eq: nat, next: nat)

  function GetToken(s: string, i: nat): (t: Token)
    requires i <= |s|
    ensures i <= t.q <= t.eq <= t.next <= |s|
    ensures t.kind != '\0' ==> i < t.next
  {
    var q := SkipSpace(s, i);
    if q == |s| then Token('\0', q, q, q)
    else if s[q] == '>' && q + 1 < |s| && s[q + 1] == '>' then Token('+', q, q + 2, SkipSpace(s, q + 2))
    else if IsSymbol(s[q]) then Token(s[q], q, q + 1, SkipSpace(s, q + 1))
    else
      var eq := WordEnd(s, q);
      Token('a', q, eq, SkipSpace(s, eq))
  }

  // The next token begins with one of these characters.
  predicate Peek(s: string, i: nat, toks: string)
    requires i <= |s|
  {
    SkipSpace(s, i) < |s| && s[SkipSpace(s, i)] in toks
  }

  // --------------------------------------------------- where the words are

  // The span covers a whole word of the line.
  ghost predicate WordSpan(x: Span, s: string) {
    && x.q < x.eq <= |s|
    && (forall k :: x.q <= k < x.eq ==> !IsSpace(s[k]) && !IsSymbol(s[k]))
    && (x.eq < |s| ==> IsSpace(s[x.eq]) || IsSymbol(s[x.eq]))
  }

  ghost predicate CmdOk(c: Cmd, s: string) {
    match c
    case Exec(argv) => |argv| < MAXARGS && forall i :: 0 <= i < |argv| ==> WordSpan(argv[i], s)
    case Redir(d, file, _, _) => CmdOk(d, s) && WordSpan(file, s)
    case Pipe(l, r) => CmdOk(l, s) && CmdOk(r, s)
    case List(l, r) => CmdOk(l, s) && CmdOk(r, s)
    case Back(d) => CmdOk(d, s)
  }

  ghost predicate RedirsOk(rs: seq<Redirect>, s: string) {
    forall i :: 0 <= i < |rs| ==> WordSpan(rs[i].file, s)
  }

  // ---------------------------------------------------------------- parsing

  datatype Result<T> = Ok(value: T, next: nat) | Panic(message: string)

  predicate InBounds<T>(r: Result<T>, s: string, i: nat) {
    r.Ok? ==> i <= r.next <= |s|
  }

  function MakeRedirect(kind: char, file: Span): Redirect {
    if kind == '<' then Redirect(file, O_RDONLY, 0)
    else if kind == '>' then Redirect(file, O_WRONLY + O_CREATE + O_TRUNC, 1)
    else Redirect(file, O_WRONLY + O_CREATE, 1)
  }

  // The redirections, the first one innermost.
  function Wrap(c: Cmd, rs: seq<Redirect>): Cmd
    decreases |rs|
  {
    if rs == [] then c
    else var r := rs[|rs| - 1]; Redir(Wrap(c, rs[..|rs| - 1]), r.file, r.mode, r.fd)
  }

  function ParseRedirs(s: string, i: nat, rs: seq<Redirect>): (r: Result<seq<Redirect>>)
    requires i <= |s|
    ensures InBounds(r, s, i)
    decreases |s| - i
  {
    if !Peek(s, i, "<>") then Ok(rs, SkipSpace(s, i))
    else
      var t := GetToken(s, i);
      var f := GetToken(s, t.next);
      if f.kind != 'a' then Panic("missing file for redirection")
      else ParseRedirs(s, f.next, rs + [MakeRedirect(t.kind, Span(f.q, f.eq))])
  }

  function ParseArgs(s: string, i: nat, args: seq<Span>, rs: seq<Redirect>): (r: Result<Cmd>)
    requires i <= |s|
    ensures InBounds(r, s, i)
    decreases |s| - i
  {
    if Peek(s, i, "|)&;") then Ok(Wrap(Exec(args), rs), SkipSpace(s, i))
    else
      var t := GetToken(s, i);
      if t.kind == '\0' then Ok(Wrap(Exec(args), rs), t.next)
      else if t.kind != 'a' then Panic("syntax")
      else if |args| + 1 >= MAXARGS then Panic("too many args")
      else match ParseRedirs(s, t.next, rs)
        case Panic(m) => Panic(m)
        case Ok(rs', next) => ParseArgs(s, next, args + [Span(t.q, t.eq)], rs')
  }

  function ParseExec(s: string, i: nat): (r: Result<Cmd>)
    requires i <= |s|
    ensures InBounds(r, s, i)
    decreases |s| - i, 1
  {
    if Peek(s, i, "(") then ParseBlock(s, i)
    else match ParseRedirs(s, i, [])
      case Panic(m) => Panic(m)
      case Ok(rs, next) => ParseArgs(s, next, [], rs)
  }

  function ParseBlock(s: string, i: nat): (r: Result<Cmd>)
    requires i <= |s|
    ensures InBounds(r, s, i)
    decreases |s| - i, 0
  {
    if !Peek(s, i, "(") then Panic("parseblock")
    else match ParseLine(s, GetToken(s, i).next)
      case Panic(m) => Panic(m)
      case Ok(c, j) =>
        if !Peek(s, j, ")") then Panic("syntax - missing )")
        else match ParseRedirs(s, GetToken(s, j).next, [])
          case Panic(m) => Panic(m)
          case Ok(rs, k) => Ok(Wrap(c, rs), k)
  }

  function ParsePipe(s: string, i: nat): (r: Result<Cmd>)
    requires i <= |s|
    ensures InBounds(r, s, i)
    decreases |s| - i, 2
  {
    match ParseExec(s, i)
    case Panic(m) => Panic(m)
    case Ok(c, j) =>
      if !Peek(s, j, "|") then Ok(c, SkipSpace(s, j))
      else match ParsePipe(s, GetToken(s, j).next)
        case Panic(m) => Panic(m)
        case Ok(d, k) => Ok(Pipe(c, d), k)
  }

  function ParseLine(s: string, i: nat): (r: Result<Cmd>)
    requires i <= |s|
    ensures InBounds(r, s, i)
    decreases |s| - i, 4
  {
    match ParsePipe(s, i)
    case Panic(m) => Panic(m)
    case Ok(c, j) => ParseBacks(s, j, c)
  }

  // Any number of &, then perhaps a ; and another line.
  function ParseBacks(s: string, i: nat, c: Cmd): (r: Result<Cmd>)
    requires i <= |s|
    ensures InBounds(r, s, i)
    decreases |s| - i, 3
  {
    if Peek(s, i, "&") then ParseBacks(s, GetToken(s, i).next, Back(c))
    else if !Peek(s, i, ";") then Ok(c, SkipSpace(s, i))
    else match ParseLine(s, GetToken(s, i).next)
      case Panic(m) => Panic(m)
      case Ok(d, j) => Ok(List(c, d), j)
  }

  function ParseCmd(s: string): (r: Result<Cmd>)
    ensures r.Ok? ==> r.next == |s|
  {
    match ParseLine(s, 0)
    case Panic(m) => Panic(m)
    case Ok(c, j) => if SkipSpace(s, j) != |s| then Panic("syntax") else Ok(c, |s|)
  }

  // -------------------------------------------------------- trees of words

  datatype Tree =
    | TExec(words: seq<string>)
    | TRedir(sub: Tree, kind: char, file: string)
    | TPipe(left: Tree, right: Tree)
    | TList(left: Tree, right: Tree)
    | TBack(sub: Tree)

  predicate LegalWord(w: string) {
    w != [] && forall i :: 0 <= i < |w| ==> IsWord(w[i])
  }

  predicate LegalKind(k: char) {
    k == '<' || k == '>' || k == '+'
  }

  predicate LegalWords(ws: seq<string>) {
    |ws| < MAXARGS && forall i :: 0 <= i < |ws| ==> LegalWord(ws[i])
  }

  predicate Legal(t: Tree) {
    match t
    case TExec(ws) => LegalWords(ws)
    case TRedir(u, k, f) => Legal(u) && LegalKind(k) && LegalWord(f)
    case TPipe(l, r) => Legal(l) && Legal(r)
    case TList(l, r) => Legal(l) && Legal(r)
    case TBack(u) => Legal(u)
  }

  function KindText(k: char): string {
    if k == '+' then ">>" else [k]
  }

  predicate SpanOk(x: Span, s: string) {
    x.q <= x.eq <= |s|
  }

  function TextOf(x: Span, s: string): string {
    if SpanOk(x, s) then s[x.q..x.eq] else []
  }

  function TextsOf(xs: seq<Span>, s: string): (ws: seq<string>)
    ensures |ws| == |xs| && forall i {:trigger ws[i]} :: 0 <= i < |ws| ==> ws[i] == TextOf(xs[i], s)
  {
    if xs == [] then [] else TextsOf(xs[..|xs| - 1], s) + [TextOf(xs[|xs| - 1], s)]
  }

  function KindOf(mode: nat, fd: nat): char {
    if mode == O_RDONLY && fd == 0 then '<'
    else if mode == O_WRONLY + O_CREATE + O_TRUNC && fd == 1 then '>'
    else if mode == O_WRONLY + O_CREATE && fd == 1 then '+'
    else '?'
  }

  // The command as a tree of words.
  function TreeOf(c: Cmd, s: string): Tree {
    match c
    case Exec(argv) => TExec(TextsOf(argv, s))
    case Redir(d, file, mode, fd) => TRedir(TreeOf(d, s), KindOf(mode, fd), TextOf(file, s))
    case Pipe(l, r) => TPipe(TreeOf(l, s), TreeOf(r, s))
    case List(l, r) => TList(TreeOf(l, s), TreeOf(r, s))
    case Back(d) => TBack(TreeOf(d, s))
  }
}
