// The recursive descent parser: a cursor moves through the line, and each
// procedure returns what the grammar says.
module ShellParser {
  import opened ShellSpec
  import opened ShellWords

  // Blanks before the cursor's place make no difference.
  lemma PastSpace(s: string, i: nat)
    requires i <= |s|
    ensures var j := SkipSpace(s, i); SkipSpace(s, j) == j && GetToken(s, j) == GetToken(s, i)
  {
    SkipTwice(s, i);
  }

  method Skip(s: string, ps: nat) returns (i: nat)
    requires ps <= |s|
    ensures i == SkipSpace(s, ps)
  {
    i := ps;
    while i < |s| && IsSpace(s[i])
      invariant ps <= i <= |s| && SkipSpace(s, i) == SkipSpace(s, ps)
    {
      i := i + 1;
    }
  }

  // gettoken(): the kind of the token, its span, and the place after it.
  method NextToken(s: string, ps: nat) returns (t: Token)
    requires ps <= |s|
    ensures t == GetToken(s, ps)
  {
    var q := Skip(s, ps);
    if q == |s| {
      return Token('\0', q, q, q);
    }
    var i, kind := q, s[q];
    if kind == '>' {
      i := i + 1;
      if i < |s| && s[i] == '>' {
        kind := '+';
        i := i + 1;
      }
    } else if IsSymbol(kind) {
      i := i + 1;
    } else {
      kind := 'a';
      while i < |s| && !IsSpace(s[i]) && !IsSymbol(s[i])
        invariant q <= i <= |s| && WordEnd(s, i) == WordEnd(s, q)
      {
        i := i + 1;
      }
    }
    var next := Skip(s, i);
    return Token(kind, q, i, next);
  }

  method LookAhead(s: string, ps: nat, toks: string) returns (hit: bool, i: nat)
    requires ps <= |s|
    ensures hit == Peek(s, ps, toks) && i == SkipSpace(s, ps)
  {
    i := Skip(s, ps);
    hit := i < |s| && s[i] in toks;
  }

  method Redirs(s: string, ps: nat, rs: seq<Redirect>) returns (r: Result<seq<Redirect>>)
    requires ps <= |s|
    ensures r == ParseRedirs(s, ps, rs)
  {
    var i, all := ps, rs;
    var hit, j := LookAhead(s, i, "<>");
    while hit
      invariant i <= |s| && hit == Peek(s, i, "<>") && j == SkipSpace(s, i)
      invariant ParseRedirs(s, i, all) == ParseRedirs(s, ps, rs)
      decreases |s| - i
    {
      PastSpace(s, i);
      var t := NextToken(s, j);
      var f := NextToken(s, t.next);
      if f.kind != 'a' {
        return Panic("missing file for redirection");
      }
      all := all + [MakeRedirect(t.kind, Span(f.q, f.eq))];
      i := f.next;
      hit, j := LookAhead(s, i, "<>");
    }
    return Ok(all, j);
  }

  method ExecPart(s: string, ps: nat) returns (r: Result<Cmd>)
    requires ps <= |s|
    ensures r == ParseExec(s, ps)
    decreases |s| - ps, 1
  {
    var block, start := LookAhead(s, ps, "(");
    if block {
      r := Block(s, ps);
      return;
    }
    var first := Redirs(s, ps, []);
    if first.Panic? {
      return Panic(first.message);
    }
    var i, rs, argv := first.next, first.value, [];
    while true
      invariant i <= |s| && |argv| < MAXARGS && ParseArgs(s, i, argv, rs) == ParseExec(s, ps)
      decreases |s| - i
    {
      var done, j := LookAhead(s, i, "|)&;");
      if done {
        return Ok(Wrap(Exec(argv), rs), j);
      }
      PastSpace(s, i);
      var t := NextToken(s, j);
      if t.kind == '\0' {
        return Ok(Wrap(Exec(argv), rs), t.next);
      }
      if t.kind != 'a' {
        return Panic("syntax");
      }
      if |argv| + 1 >= MAXARGS {
        return Panic("too many args");
      }
      var more := Redirs(s, t.next, rs);
      if more.Panic? {
        return Panic(more.message);
      }
      argv, rs, i := argv + [Span(t.q, t.eq)], more.value, more.next;
    }
  }

  method Block(s: string, ps: nat) returns (r: Result<Cmd>)
    requires ps <= |s|
    ensures r == ParseBlock(s, ps)
    decreases |s| - ps, 0
  {
    var open, i := LookAhead(s, ps, "(");
    if !open {
      return Panic("parseblock");
    }
    PastSpace(s, ps);
    var t := NextToken(s, i);
    var line := Line(s, t.next);
    if line.Panic? {
      return line;
    }
    var closed, j := LookAhead(s, line.next, ")");
    if !closed {
      return Panic("syntax - missing )");
    }
    PastSpace(s, line.next);
    var u := NextToken(s, j);
    var rs := Redirs(s, u.next, []);
    if rs.Panic? {
      return Panic(rs.message);
    }
    return Ok(Wrap(line.value, rs.value), rs.next);
  }

  method PipePart(s: string, ps: nat) returns (r: Result<Cmd>)
    requires ps <= |s|
    ensures r == ParsePipe(s, ps)
    decreases |s| - ps, 2
  {
    var left := ExecPart(s, ps);
    if left.Panic? {
      return left;
    }
    var hit, j := LookAhead(s, left.next, "|");
    if !hit {
      return Ok(left.value, j);
    }
    PastSpace(s, left.next);
    var t := NextToken(s, j);
    var right := PipePart(s, t.next);
    if right.Panic? {
      return right;
    }
    return Ok(Pipe(left.value, right.value), right.next);
  }

  method Line(s: string, ps: nat) returns (r: Result<Cmd>)
    requires ps <= |s|
    ensures r == ParseLine(s, ps)
    decreases |s| - ps, 3
  {
    var first := PipePart(s, ps);
    if first.Panic? {
      return first;
    }
    var c, i := first.value, first.next;
    var hit, j := LookAhead(s, i, "&");
    while hit
      invariant ps <= i <= |s| && hit == Peek(s, i, "&") && j == SkipSpace(s, i)
      invariant ParseBacks(s, i, c) == ParseLine(s, ps)
      decreases |s| - i
    {
      PastSpace(s, i);
      var t := NextToken(s, j);
      c, i := Back(c), t.next;
      hit, j := LookAhead(s, i, "&");
    }
    hit, j := LookAhead(s, i, ";");
    if !hit {
      return Ok(c, j);
    }
    PastSpace(s, i);
    var t := NextToken(s, j);
    var rest := Line(s, t.next);
    if rest.Panic? {
      return rest;
    }
    return Ok(List(c, rest.value), rest.next);
  }

  // parsecmd(): the whole line, its words made into strings.
  method Command(buf: array<char>, ghost s: string) returns (r: Result<Cmd>)
    requires NulFree(s) && buf.Length == |s| + 1 && buf[..] == s + ['\0']
    modifies buf
    ensures r == ParseCmd(s)
    ensures r.Ok? ==> CmdOk(r.value, s) && AllStrings(buf[..], r.value, s)
    ensures r.Panic? ==> buf[..] == old(buf[..])
  {
    var text := buf[..buf.Length - 1];
    assert text == s;
    var line := Line(text, 0);
    if line.Panic? {
      return line;
    }
    var end := Skip(text, line.next);
    if end != |text| {
      return Panic("syntax");
    }
    LineWords(s, 0);
    assert LineBuffer(buf[..], s);
    Nulterminate(line.value, buf, s);
    return Ok(line.value, end);
  }
}
