// The ^ . * $ matcher and the line filter of grep.
module Grep {

  // ------------------------------------------------- what a pattern means

  // One character, any number of copies of it, or the end of the text.
  datatype Item = One(c: char) | Star(c: char) | End

  function Items(re: string): seq<Item> {
    if re == [] then []
    else if |re| >= 2 && re[1] == '*' then [Star(re[0])] + Items(re[2..])
    else if re == "$" then [End]
    else [One(re[0])] + Items(re[1..])
  }

  predicate Accepts(c: char, x: char) {
    c == '.' || c == x
  }

  // The piece text[from..to] is one that the item stands for.
  ghost predicate Piece(item: Item, text: string, from: nat, to: nat) {
    && from <= to <= |text|
    && match item
       case One(c) => to == from + 1 && Accepts(c, text[from])
       case Star(c) => forall i :: from <= i < to ==> Accepts(c, text[i])
       case End => to == from == |text|
  }

  // The text from cuts[0] on begins with one piece per item, cut at these places.
  ghost predicate Cut(items: seq<Item>, text: string, cuts: seq<nat>) {
    && |cuts| == |items| + 1 && cuts[|items|] <= |text|
    && forall i :: 0 <= i < |items| ==> Piece(items[i], text, cuts[i], cuts[i + 1])
  }

  ghost predicate HereAt(items: seq<Item>, text: string, t: nat) {
    exists cuts: seq<nat> :: Cut(items, text, cuts) && cuts[0] == t
  }

  // The pattern occurs in the text, at its start if the pattern begins with ^.
  ghost predicate Matches(re: string, text: string) {
    if re != [] && re[0] == '^' then HereAt(Items(re[1..]), text, 0)
    else exists t: nat :: HereAt(Items(re), text, t)
  }

  lemma HereNil(text: string, t: nat)
    ensures HereAt([], text, t) <==> t <= |text|
  {
    if t <= |text| {
      assert Cut([], text, [t]);
    }
  }

  // The first piece ends at some u, and the other items match from there.
  lemma HereCons(item: Item, items: seq<Item>, text: string, t: nat)
    ensures HereAt([item] + items, text, t) <==> exists u: nat :: Piece(item, text, t, u) && HereAt(items, text, u)
  {
    var all := [item] + items;
    if HereAt(all, text, t) {
      var cuts: seq<nat> :| Cut(all, text, cuts) && cuts[0] == t;
      assert Piece(all[0], text, cuts[0], cuts[1]);
      assert Cut(items, text, cuts[1..]) by {
        forall i | 0 <= i < |items| ensures Piece(items[i], text, cuts[1..][i], cuts[1..][i + 1]) {
          assert Piece(all[i + 1], text, cuts[i + 1], cuts[i + 2]);
        }
      }
      assert HereAt(items, text, cuts[1]);
    }
    if u: nat :| Piece(item, text, t, u) && HereAt(items, text, u) {
      var cuts: seq<nat> :| Cut(items, text, cuts) && cuts[0] == u;
      var more := [t] + cuts;
      forall i | 0 <= i < |all| ensures Piece(all[i], text, more[i], more[i + 1]) {
        if i > 0 {
          assert Piece(items[i - 1], text, cuts[i - 1], cuts[i]);
        }
      }
      assert Cut(all, text, more);
    }
  }

  lemma HereBounded(items: seq<Item>, text: string, t: nat)
    requires HereAt(items, text, t)
    ensures t <= |text|
  {
    if items == [] {
      HereNil(text, t);
    } else {
      assert items == [items[0]] + items[1..];
      HereCons(items[0], items[1..], text, t);
    }
  }

  // --------------------------------------------------------- the matcher

  method MatchHere(re: string, text: string, t: nat) returns (r: bool)
    requires t <= |text|
    ensures r <==> HereAt(Items(re), text, t)
    decreases |re|, 0
  {
    if re == [] {
      HereNil(text, t);
      return true;
    }
    if |re| >= 2 && re[1] == '*' {
      HereCons(Star(re[0]), Items(re[2..]), text, t);
      r := MatchStar(re[0], re[2..], text, t);
      return;
    }
    if re == "$" {
      HereCons(End, [], text, t);
      HereNil(text, t);
      return t == |text|;
    }
    HereCons(One(re[0]), Items(re[1..]), text, t);
    if t < |text| && Accepts(re[0], text[t]) {
      r := MatchHere(re[1..], text, t + 1);
      return;
    }
    return false;
  }

  method MatchStar(c: char, re: string, text: string, t: nat) returns (r: bool)
    requires t <= |text|
    ensures r <==> exists u: nat :: Piece(Star(c), text, t, u) && HereAt(Items(re), text, u)
    decreases |re|, 1
  {
    var u := t;
    while true
      invariant t <= u <= |text| && Piece(Star(c), text, t, u)
      invariant forall v: nat :: v < u && Piece(Star(c), text, t, v) ==> !HereAt(Items(re), text, v)
      decreases |text| - u
    {
      r := MatchHere(re, text, u);
      if r || !(u < |text| && Accepts(c, text[u])) {
        return;
      }
      u := u + 1;
    }
  }

  method Match(re: string, text: string) returns (r: bool)
    ensures r <==> Matches(re, text)
  {
    if re != [] && re[0] == '^' {
      r := MatchHere(re[1..], text, 0);
      return;
    }
    var t := 0;
    while true
      invariant t <= |text|
      invariant forall v: nat :: v < t ==> !HereAt(Items(re), text, v)
      decreases |text| - t
    {
      r := MatchHere(re, text, t);
      if r || t == |text| {
        forall v: nat | HereAt(Items(re), text, v) ensures v <= |text| {
          HereBounded(Items(re), text, v);
        }
        return;
      }
      t := t + 1;
    }
  }

  // ------------------------------------------------------------ the lines

  const BUF_SIZE := 1024

  predicate NulFree(s: string) {
    forall i :: 0 <= i < |s| ==> s[i] != '\0'
  }

  function FirstNewline(s: string): (i: nat)
    ensures i <= |s| && (i < |s| ==> s[i] == '\n')
  {
    if s == [] || s[0] == '\n' then 0 else 1 + FirstNewline(s[1..])
  }

  lemma {:induction false} FirstNewlineIs(s: string, i: nat)
    requires i <= |s| && (i < |s| ==> s[i] == '\n') && forall j :: 0 <= j < i ==> s[j] != '\n'
    ensures FirstNewline(s) == i
  {
    if i > 0 {
      FirstNewlineIs(s[1..], i - 1);
    }
  }

  lemma {:induction false} BeforeFirstNewline(s: string)
    ensures forall j :: 0 <= j < FirstNewline(s) ==> s[j] != '\n'
  {
    if s != [] && s[0] != '\n' {
      BeforeFirstNewline(s[1..]);
    }
  }

  ghost function Language(re: string): iset<string> {
    iset text | Matches(re, text)
  }

  ghost predicate IsLanguage(keep: iset<string>, re: string) {
    forall text {:trigger Matches(re, text)} :: text in keep <==> Matches(re, text)
  }

  // A line of i bytes fits the buffer and ends only at its newline.
  predicate Fits(s: string, i: nat)
    requires i <= |s|
  {
    i + 1 < BUF_SIZE && NulFree(s[..i])
  }

  // The terminated lines in keep, up to the first one that does not fit.
  ghost function Filtered(keep: iset<string>, s: string): string
    decreases |s|
  {
    var i := FirstNewline(s);
    if i == |s| || !Fits(s, i) then []
    else (if s[..i] in keep then s[..i + 1] else []) + Filtered(keep, s[i + 1..])
  }

  // A file whose reads may return any part of what is left.
  class File {
    const input: string
    var pos: nat

    ghost predicate Valid()
      reads this
    {
      pos <= |input|
    }

    constructor (input: string)
      ensures Valid() && this.input == input && pos == 0
    {
      this.input := input;
      pos := 0;
    }

    method Read(max: nat) returns (bytes: string)
      requires Valid()
      modifies this
      ensures Valid() && |bytes| <= max && pos == old(pos) + |bytes| && bytes == input[old(pos)..pos]
      ensures bytes == [] <==> max == 0 || old(pos) == |input|
    {
      if max == 0 || pos == |input| {
        return [];
      }
      var n: nat :| 1 <= n <= max && n <= |input| - pos;
      bytes := input[pos..pos + n];
      pos := pos + n;
    }
  }

  // Where strchr(s, '\n') finds a newline; |s| if a NUL comes first or there is none.
  function NewlineAt(s: string): (i: nat)
    ensures i <= |s|
  {
    if NulFree(s[..FirstNewline(s)]) then FirstNewline(s) else |s|
  }

  // strchr(p, '\n') in a buffer with a NUL at m, which stands for the null pointer.
  method Strchr(buf: array<char>, p: nat, m: nat) returns (q: nat)
    requires p <= m < buf.Length && buf[m] == '\0'
    ensures q == p + NewlineAt(buf[p..m])
  {
    q := p;
    ghost var s := buf[p..m];
    while buf[q] != '\0' && buf[q] != '\n'
      invariant p <= q <= m && forall j :: 0 <= j < q - p ==> s[j] != '\n' && s[j] != '\0'
      decreases m - q
    {
      assert q < m ==> buf[q] == s[q - p];
      q := q + 1;
    }
    assert q < m ==> buf[q] == s[q - p];
    if q == m || buf[q] == '\n' {
      FirstNewlineIs(s, q - p);
    } else {
      BeforeFirstNewline(s);
      assert s[..FirstNewline(s)][q - p] == '\0';
      q := m;
    }
  }

  // The first newline of s + rest is that of s, if s has one.
  lemma FirstNewlineAppend(s: string, rest: string)
    ensures FirstNewline(s) < |s| ==> FirstNewline(s + rest) == FirstNewline(s)
    ensures FirstNewline(s) == |s| ==> FirstNewline(s + rest) >= |s|
  {
    BeforeFirstNewline(s);
    BeforeFirstNewline(s + rest);
    var i, j := FirstNewline(s), FirstNewline(s + rest);
    if i < |s| {
      FirstNewlineIs(s + rest, i);
    }
  }

  // One line of the buffer is filtered; the rest of the buffer and the input stay.
  lemma FilteredLine(keep: iset<string>, data: string, p: nat, q: nat, rest: string)
    requires p <= |data| < BUF_SIZE && q == p + NewlineAt(data[p..]) && q < |data|
    ensures Filtered(keep, data[p..] + rest)
         == (if data[p..q] in keep then data[p..q + 1] else []) + Filtered(keep, data[q + 1..] + rest)
  {
    var s := data[p..] + rest;
    FirstNewlineAppend(data[p..], rest);
    assert s[..q - p] == data[p..q] == data[p..][..q - p] && s[..q - p + 1] == data[p..q + 1];
    assert s[q - p + 1..] == data[q + 1..] + rest;
  }

  // Nothing is left to print when no newline is found in the buffer and it cannot grow.
  lemma FilteredStuck(keep: iset<string>, data: string, rest: string)
    requires NewlineAt(data) == |data| && (rest == [] || |data| + 1 == BUF_SIZE)
    ensures Filtered(keep, data + rest) == []
  {
    FirstNewlineAppend(data, rest);
    assert rest == [] ==> data + rest == data;
    var i, j := FirstNewline(data), FirstNewline(data + rest);
    if !NulFree(data[..i]) {
      var k :| 0 <= k < i && data[k] == '\0';
      assert (data + rest)[..j][k] == '\0';
    }
  }

  // The line buf[p..q] and its newline, if it matches.
  method FilterLine(re: string, buf: array<char>, p: nat, q: nat, ghost keep: iset<string>) returns (out: string)
    requires IsLanguage(keep, re) && p <= q < buf.Length && buf[q] == '\n'
    modifies buf
    ensures out == if old(buf[p..q]) in keep then old(buf[p..q + 1]) else []
    ensures forall j :: 0 <= j < buf.Length && j != q ==> buf[j] == old(buf[j])
  {
    buf[q] := '\0';
    assert buf[p..q] == old(buf[p..q]);
    var hit := Match(re, buf[p..q]);
    out := [];
    if hit {
      buf[q] := '\n';
      assert buf[p..q + 1] == old(buf[p..q + 1]);
      out := buf[p..q + 1];
    }
  }

  method NextLine(re: string, buf: array<char>, p: nat, q: nat, m: nat, ghost keep: iset<string>, ghost data: string,
      ghost rest: string) returns (out: string)
    requires IsLanguage(keep, re) && p <= q < m < BUF_SIZE == buf.Length && |data| == m
    requires buf[p..m] == data[p..] && q == p + NewlineAt(data[p..])
    modifies buf
    ensures buf[q + 1..m] == data[q + 1..] && buf[m] == old(buf[m])
    ensures Filtered(keep, data[p..] + rest) == out + Filtered(keep, data[q + 1..] + rest)
  {
    SameSlice(buf, data, p, q, m);
    assert data[q] == '\n' by {
      assert data[p..][q - p] == '\n';
    }
    out := FilterLine(re, buf, p, q, keep);
    SameTail(buf, data, q + 1, m);
    FilteredLine(keep, data, p, q, rest);
  }

  lemma SameTail(buf: array<char>, data: string, p: nat, m: nat)
    requires p <= m == |data| && m <= buf.Length && forall j :: p <= j < m ==> buf[j] == data[j]
    ensures buf[p..m] == data[p..]
  {
  }

  lemma SameSlice(buf: array<char>, data: string, p: nat, q: nat, m: nat)
    requires p <= q < m == |data| && m <= buf.Length && buf[p..m] == data[p..]
    ensures buf[p..q] == data[p..q] && buf[p..q + 1] == data[p..q + 1]
    ensures forall j :: p <= j < m ==> buf[j] == data[j]
  {
    forall j | p <= j < m ensures buf[j] == data[j] {
      assert buf[p..m][j - p] == data[p..][j - p];
    }
  }

  lemma DropMore(s: string, p: nat, q: nat)
    requires p <= q <= |s|
    ensures s[p..][q - p..] == s[q..]
  {
  }

  lemma Assoc(a: string, b: string, c: string)
    ensures (a + b) + c == a + (b + c)
  {
  }

  // The complete lines among the first m bytes of buf, which hold data.
  method Drain(re: string, buf: array<char>, m: nat, ghost keep: iset<string>, ghost data: string, ghost rest: string)
      returns (out: string, p: nat)
    requires IsLanguage(keep, re) && buf.Length == BUF_SIZE && m < BUF_SIZE && buf[m] == '\0'
    requires buf[..m] == data
    modifies buf
    ensures p <= m && buf[p..m] == data[p..] && NewlineAt(data[p..]) == m - p
    ensures Filtered(keep, data + rest) == out + Filtered(keep, data[p..] + rest)
  {
    out, p := [], 0;
    assert buf[0..m] == data[0..] == data;
    var q := Strchr(buf, p, m);
    while q < m
      invariant p <= m && buf[m] == '\0' && buf[p..m] == data[p..] && q == p + NewlineAt(data[p..])
      invariant Filtered(keep, data + rest) == out + Filtered(keep, data[p..] + rest)
      decreases m - p
    {
      var line := NextLine(re, buf, p, q, m, keep, data, rest);
      DropMore(data, p, q + 1);
      Assoc(out, line, Filtered(keep, data[q + 1..] + rest));
      out := out + line;
      p := q + 1;
      q := Strchr(buf, p, m);
    }
  }

  method CopyIn(buf: array<char>, m: nat, bytes: string)
    requires m + |bytes| <= buf.Length
    modifies buf
    ensures buf[..m + |bytes|] == old(buf[..m]) + bytes
  {
    for i := 0 to |bytes|
      invariant buf[..m + i] == old(buf[..m]) + bytes[..i]
    {
      buf[m + i] := bytes[i];
    }
  }

  method Memmove(buf: array<char>, p: nat, n: nat)
    requires p + n <= buf.Length
    modifies buf
    ensures buf[..n] == old(buf[p..p + n])
  {
    for i := 0 to n
      invariant forall j :: 0 <= j < i ==> buf[j] == old(buf[p + j])
      invariant forall j :: i <= j < buf.Length ==> buf[j] == old(buf[j])
    {
      buf[i] := buf[p + i];
    }
  }

  // One read: the bytes join the data in the buffer, the complete lines leave it.
  method Round(re: string, buf: array<char>, m: nat, bytes: string, ghost keep: iset<string>, ghost data: string,
      ghost rest: string) returns (lines: string, left: nat)
    requires IsLanguage(keep, re) && buf.Length == BUF_SIZE && m + |bytes| < BUF_SIZE
    requires buf[..m] == data && bytes != []
    modifies buf
    ensures left < BUF_SIZE && NewlineAt(buf[..left]) == left
    ensures Filtered(keep, data + bytes + rest) == lines + Filtered(keep, buf[..left] + rest)
  {
    CopyIn(buf, m, bytes);
    var n := m + |bytes|;
    assert buf[..n] == data + bytes;
    buf[n] := '\0';
    assert buf[..n] == data + bytes;
    var p;
    lines, p := Drain(re, buf, n, keep, data + bytes, rest);
    DropMore(data + bytes, 0, p);
    left := n;
    if n > 0 {
      left := n - p;
      Memmove(buf, p, left);
    }
  }

  // grep(pattern, fd): exactly the matching lines up to the first one that does not fit,
  // however the reads split the input.
  method Run(re: string, f: File) returns (out: string)
    requires f.Valid()
    modifies f
    ensures out == Filtered(Language(re), old(f.input[f.pos..]))
  {
    assert IsLanguage(Language(re), re);
    out := Loop(re, f, Language(re));
  }

  method Loop(re: string, f: File, ghost keep: iset<string>) returns (out: string)
    requires f.Valid() && IsLanguage(keep, re)
    modifies f
    ensures out == Filtered(keep, old(f.input[f.pos..]))
  {
    ghost var whole := f.input[f.pos..];
    var buf := new char[BUF_SIZE];
    var m := 0;
    out := [];
    ghost var data, rest := [], whole;
    assert data + rest == whole;
    while true
      invariant f.Valid() && m == |data| < BUF_SIZE && buf[..m] == data && rest == f.input[f.pos..]
      invariant NewlineAt(data) == m
      invariant Filtered(keep, whole) == out + Filtered(keep, data + rest)
      decreases |f.input| - f.pos
    {
      ghost var pos := f.pos;
      var bytes := f.Read(BUF_SIZE - m - 1);
      if bytes == [] {
        FilteredStuck(keep, data, rest);
        return;
      }
      SplitInput(f.input, pos, f.pos, data, bytes);
      rest := f.input[f.pos..];
      var lines;
      lines, m := Round(re, buf, m, bytes, keep, data, rest);
      data := buf[..m];
      Assoc(out, lines, Filtered(keep, data + rest));
      out := out + lines;
    }
  }

  lemma SplitInput(input: string, pos: nat, next: nat, data: string, bytes: string)
    requires pos <= next <= |input| && bytes == input[pos..next]
    ensures data + input[pos..] == data + bytes + input[next..]
  {
    assert input[pos..] == bytes + input[next..];
  }

  // -------------------------------------------------- lines that do not fit

  // All terminated lines in keep, whatever their length and bytes.
  ghost function MatchingLines(keep: iset<string>, s: string): string
    decreases |s|
  {
    var i := FirstNewline(s);
    if i == |s| then []
    else (if s[..i] in keep then s[..i + 1] else []) + MatchingLines(keep, s[i + 1..])
  }

  // What is left from the first line that does not fit.
  function Beyond(s: string): string
    decreases |s|
  {
    var i := FirstNewline(s);
    if i == |s| then [] else if !Fits(s, i) then s else Beyond(s[i + 1..])
  }

  // grep prints all of the matching lines exactly when none lies beyond a line that does not fit.
  lemma {:induction false} FilteredPart(keep: iset<string>, s: string)
    ensures MatchingLines(keep, s) == Filtered(keep, s) + MatchingLines(keep, Beyond(s))
    ensures Filtered(keep, s) == MatchingLines(keep, s) <==> MatchingLines(keep, Beyond(s)) == []
    decreases |s|
  {
    var i := FirstNewline(s);
    if i < |s| && Fits(s, i) {
      FilteredPart(keep, s[i + 1..]);
      var line := if s[..i] in keep then s[..i + 1] else [];
      Assoc(line, Filtered(keep, s[i + 1..]), MatchingLines(keep, Beyond(s)));
    }
  }

  ghost predicate FittingLines(s: string)
    decreases |s|
  {
    var i := FirstNewline(s);
    i < |s| ==> Fits(s, i) && FittingLines(s[i + 1..])
  }

  lemma {:induction false} FittingLinesAllPrinted(keep: iset<string>, s: string)
    requires FittingLines(s)
    ensures Filtered(keep, s) == MatchingLines(keep, s)
    decreases |s|
  {
    var i := FirstNewline(s);
    if i < |s| {
      FittingLinesAllPrinted(keep, s[i + 1..]);
    }
  }

  // A line of more than 1023 bytes or with a NUL is all it takes to lose output for some pattern.
  lemma AllPrintedIffFitting(s: string)
    ensures (forall re :: Filtered(Language(re), s) == MatchingLines(Language(re), s)) <==> FittingLines(s)
  {
    if FittingLines(s) {
      forall re ensures Filtered(Language(re), s) == MatchingLines(Language(re), s) {
        FittingLinesAllPrinted(Language(re), s);
      }
    } else {
      FilteredPart(Language(""), s);
      LongLineLeft(s);
    }
  }

  // The empty pattern matches every line, so also the one that does not fit.
  lemma {:induction false} LongLineLeft(s: string)
    requires !FittingLines(s)
    ensures MatchingLines(Language(""), Beyond(s)) != []
    decreases |s|
  {
    var i := FirstNewline(s);
    if !Fits(s, i) {
      HereNil(s[..i], 0);
      assert HereAt(Items(""), s[..i], 0);
    } else {
      LongLineLeft(s[i + 1..]);
    }
  }

  // One such input: 1023 x's on a line, then a line that matches and is not printed.
  lemma LongLineHides()
    ensures var s := seq(BUF_SIZE - 1, _ => 'x') + "\nab\n";
            Filtered(Language("b"), s) == [] && MatchingLines(Language("b"), s) == "ab\n"
  {
    var long := seq(BUF_SIZE - 1, _ => 'x');
    var s := long + "\nab\n";
    FirstNewlineIs(s, BUF_SIZE - 1);
    assert s[..BUF_SIZE - 1] == long && s[BUF_SIZE..] == "ab\n";
    OneChar('b', long);
    OneChar('b', "ab");
    assert "ab"[1] == 'b';
    FirstNewlineIs("ab\n", 2);
    assert "ab\n"[..2] == "ab" && "ab\n"[..3] == "ab\n" && "ab\n"[3..] == [];
  }

  lemma OneChar(c: char, text: string)
    requires c != '^' && c != '.' && c != '$'
    ensures Matches([c], text) <==> c in text
  {
    assert Items([c]) == [One(c)] + [];
    forall t: nat ensures HereAt(Items([c]), text, t) <==> t < |text| && text[t] == c {
      HereCons(One(c), [], text, t);
      if t < |text| {
        HereNil(text, t + 1);
        assert text[t] == c ==> Piece(One(c), text, t, t + 1);
      }
    }
  }
}
