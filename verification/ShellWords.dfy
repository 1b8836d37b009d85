// The parser's tokens are whole words, and terminating them in place makes
// each a string of its own.
module ShellWords {
  import opened ShellSpec

  lemma {:induction false} WordEndAll(s: string, i: nat)
    requires i <= |s|
    ensures forall k :: i <= k < WordEnd(s, i) ==> !IsSpace(s[k]) && !IsSymbol(s[k])
    decreases |s| - i
  {
    if i < |s| && !IsSpace(s[i]) && !IsSymbol(s[i]) {
      WordEndAll(s, i + 1);
    }
  }

  lemma TokenSpan(s: string, i: nat)
    requires i <= |s| && GetToken(s, i).kind == 'a'
    ensures var t := GetToken(s, i); WordSpan(Span(t.q, t.eq), s)
  {
    var q := SkipSpace(s, i);
    WordEndAll(s, q);
    assert WordEnd(s, q) > q;
  }

  lemma {:induction false} WrapOk(c: Cmd, rs: seq<Redirect>, s: string)
    requires CmdOk(c, s) && RedirsOk(rs, s)
    ensures CmdOk(Wrap(c, rs), s)
    decreases |rs|
  {
    if rs != [] {
      WrapOk(c, rs[..|rs| - 1], s);
    }
  }

  lemma {:induction false} RedirsWords(s: string, i: nat, rs: seq<Redirect>)
    requires i <= |s| && RedirsOk(rs, s) && ParseRedirs(s, i, rs).Ok?
    ensures RedirsOk(ParseRedirs(s, i, rs).value, s)
    decreases |s| - i
  {
    if Peek(s, i, "<>") {
      var t := GetToken(s, i);
      var f := GetToken(s, t.next);
      TokenSpan(s, t.next);
      RedirsWords(s, f.next, rs + [MakeRedirect(t.kind, Span(f.q, f.eq))]);
    }
  }

  lemma {:induction false} ArgsWords(s: string, i: nat, args: seq<Span>, rs: seq<Redirect>)
    requires i <= |s| && CmdOk(Exec(args), s) && RedirsOk(rs, s) && ParseArgs(s, i, args, rs).Ok?
    ensures CmdOk(ParseArgs(s, i, args, rs).value, s)
    decreases |s| - i
  {
    var t := GetToken(s, i);
    if Peek(s, i, "|)&;") || t.kind == '\0' {
      WrapOk(Exec(args), rs, s);
    } else {
      TokenSpan(s, i);
      RedirsWords(s, t.next, rs);
      var r := ParseRedirs(s, t.next, rs);
      ArgsWords(s, r.next, args + [Span(t.q, t.eq)], r.value);
    }
  }

  lemma {:induction false} ExecWords(s: string, i: nat)
    requires i <= |s| && ParseExec(s, i).Ok?
    ensures CmdOk(ParseExec(s, i).value, s)
    decreases |s| - i, 1
  {
    if Peek(s, i, "(") {
      BlockWords(s, i);
    } else {
      RedirsWords(s, i, []);
      var r := ParseRedirs(s, i, []);
      ArgsWords(s, r.next, [], r.value);
    }
  }

  lemma {:induction false} BlockWords(s: string, i: nat)
    requires i <= |s| && ParseBlock(s, i).Ok?
    ensures CmdOk(ParseBlock(s, i).value, s)
    decreases |s| - i, 0
  {
    var j := GetToken(s, i).next;
    LineWords(s, j);
    var r := ParseLine(s, j);
    var k := GetToken(s, r.next).next;
    RedirsWords(s, k, []);
    WrapOk(r.value, ParseRedirs(s, k, []).value, s);
  }

  lemma {:induction false} PipeWords(s: string, i: nat)
    requires i <= |s| && ParsePipe(s, i).Ok?
    ensures CmdOk(ParsePipe(s, i).value, s)
    decreases |s| - i, 2
  {
    ExecWords(s, i);
    var r := ParseExec(s, i);
    if Peek(s, r.next, "|") {
      PipeWords(s, GetToken(s, r.next).next);
    }
  }

  // Every argument and file name is a whole word of the line, and no command has too many.
  lemma {:induction false} LineWords(s: string, i: nat)
    requires i <= |s| && ParseLine(s, i).Ok?
    ensures CmdOk(ParseLine(s, i).value, s)
    decreases |s| - i, 4
  {
    PipeWords(s, i);
    var r := ParsePipe(s, i);
    BacksWords(s, r.next, r.value);
  }

  lemma {:induction false} BacksWords(s: string, i: nat, c: Cmd)
    requires i <= |s| && CmdOk(c, s) && ParseBacks(s, i, c).Ok?
    ensures CmdOk(ParseBacks(s, i, c).value, s)
    decreases |s| - i, 3
  {
    if Peek(s, i, "&") {
      BacksWords(s, GetToken(s, i).next, Back(c));
    } else if Peek(s, i, ";") {
      LineWords(s, GetToken(s, i).next);
    }
  }

  // ------------------------------------------------------------ nulterminate

  predicate NulFree(s: string) {
    forall i :: 0 <= i < |s| ==> s[i] != '\0'
  }

  // buf is the line s with some characters between words, and the end, set to NUL.
  ghost predicate LineBuffer(buf: seq<char>, s: string) {
    && |buf| == |s| + 1 && buf[|s|] == '\0'
    && forall k :: 0 <= k < |s| ==> buf[k] == s[k] || (buf[k] == '\0' && (IsSpace(s[k]) || IsSymbol(s[k])))
  }

  // The string that starts at q in buf is the text of the span.
  ghost predicate IsString(buf: seq<char>, x: Span, s: string) {
    && x.q < x.eq < |buf| && x.eq <= |s| && buf[x.eq] == '\0'
    && (forall k :: x.q <= k < x.eq ==> buf[k] == s[k] && buf[k] != '\0')
  }

  ghost predicate AllStrings(buf: seq<char>, c: Cmd, s: string) {
    match c
    case Exec(argv) => forall i :: 0 <= i < |argv| ==> IsString(buf, argv[i], s)
    case Redir(d, file, _, _) => AllStrings(buf, d, s) && IsString(buf, file, s)
    case Pipe(l, r) => AllStrings(buf, l, s) && AllStrings(buf, r, s)
    case List(l, r) => AllStrings(buf, l, s) && AllStrings(buf, r, s)
    case Back(d) => AllStrings(buf, d, s)
  }

  // More NULs in the right places.
  ghost predicate MoreNuls(buf: seq<char>, buf': seq<char>) {
    |buf| == |buf'| && forall k :: 0 <= k < |buf| ==> buf'[k] == buf[k] || buf'[k] == '\0'
  }

  lemma StringStays(buf: seq<char>, buf': seq<char>, x: Span, s: string)
    requires NulFree(s) && WordSpan(x, s) && IsString(buf, x, s) && MoreNuls(buf, buf') && LineBuffer(buf', s)
    ensures IsString(buf', x, s)
  {
  }

  lemma {:induction false} StringsStay(buf: seq<char>, buf': seq<char>, c: Cmd, s: string)
    requires NulFree(s) && CmdOk(c, s) && AllStrings(buf, c, s) && MoreNuls(buf, buf') && LineBuffer(buf', s)
    ensures AllStrings(buf', c, s)
    decreases c
  {
    match c
    case Exec(argv) =>
      forall i | 0 <= i < |argv| ensures IsString(buf', argv[i], s) {
        StringStays(buf, buf', argv[i], s);
      }
    case Redir(d, file, _, _) =>
      StringsStay(buf, buf', d, s);
      StringStays(buf, buf', file, s);
    case Pipe(l, r) =>
      StringsStay(buf, buf', l, s);
      StringsStay(buf, buf', r, s);
    case List(l, r) =>
      StringsStay(buf, buf', l, s);
      StringsStay(buf, buf', r, s);
    case Back(d) => StringsStay(buf, buf', d, s);
  }

  method PutNul(buf: array<char>, x: Span, ghost s: string)
    requires NulFree(s) && WordSpan(x, s) && LineBuffer(buf[..], s)
    modifies buf
    ensures LineBuffer(buf[..], s) && MoreNuls(old(buf[..]), buf[..]) && IsString(buf[..], x, s)
  {
    buf[x.eq] := '\0';
  }

  // nulterminate(): every string of the command becomes exactly its token's text.
  method Nulterminate(c: Cmd, buf: array<char>, ghost s: string)
    requires NulFree(s) && CmdOk(c, s) && LineBuffer(buf[..], s)
    modifies buf
    ensures LineBuffer(buf[..], s) && MoreNuls(old(buf[..]), buf[..]) && AllStrings(buf[..], c, s)
    decreases c
  {
    match c
    case Exec(argv) =>
      for i := 0 to |argv|
        invariant LineBuffer(buf[..], s) && MoreNuls(old(buf[..]), buf[..])
        invariant forall k :: 0 <= k < i ==> IsString(buf[..], argv[k], s)
      {
        ghost var before := buf[..];
        PutNul(buf, argv[i], s);
        forall k | 0 <= k < i ensures IsString(buf[..], argv[k], s) {
          StringStays(before, buf[..], argv[k], s);
        }
      }
    case Redir(d, file, _, _) =>
      Nulterminate(d, buf, s);
      ghost var before := buf[..];
      PutNul(buf, file, s);
      StringsStay(before, buf[..], d, s);
    case Pipe(l, r) =>
      Nulterminate(l, buf, s);
      ghost var before := buf[..];
      Nulterminate(r, buf, s);
      StringsStay(before, buf[..], l, s);
    case List(l, r) =>
      Nulterminate(l, buf, s);
      ghost var before := buf[..];
      Nulterminate(r, buf, s);
      StringsStay(before, buf[..], l, s);
    case Back(d) => Nulterminate(d, buf, s);
  }
}
