/** The parser of sh.c. A line is a stream of tokens; the parser is a recursive descent
    over it that the methods of class Parser run with a cursor into the line. Printing a
    command with parentheses and parsing it gives the command back; and nulterminate,
    which ends every word with a NUL in the line itself, spoils none of the words. */
module Shell {
  import opened Options

  // ----- Tokens -----

  const NUL: char := 0 as char
  const MAXARGS: nat := 10

  predicate White(c: char) {
    c == ' ' || c == '\t' || c == '\r' || c == '\n' || c == 11 as char
  }

  predicate Symbol(c: char) {
    c == '<' || c == '|' || c == '>' || c == '&' || c == ';' || c == '(' || c == ')'
  }

  predicate Plain(c: char) {
    !White(c) && !Symbol(c) && c != NUL
  }

  /** A C string as strlen sees it: no NUL before its end. */
  predicate Line(s: string) {
    forall k :: 0 <= k < |s| ==> s[k] != NUL
  }

  /** A word of the line, from q up to eq. */
  datatype Span = Span(at: nat, end: nat)

  /** A symbol, with '+' for >>, or a word. */
  datatype Tok<W> = Op(c: char) | Word(w: W)

  function Skip(s: string, p: nat): (q: nat)
    requires p <= |s|
    ensures p <= q <= |s| && (q < |s| ==> !White(s[q]))
    decreases |s| - p
  {
    if p < |s| && White(s[p]) then Skip(s, p + 1) else p
  }

  function WordEnd(s: string, p: nat): (q: nat)
    requires p <= |s|
    ensures p <= q <= |s| && (q < |s| ==> White(s[q]) || Symbol(s[q]))
    ensures forall k :: p <= k < q ==> !White(s[k]) && !Symbol(s[k])
    decreases |s| - p
  {
    if p < |s| && !White(s[p]) && !Symbol(s[p]) then WordEnd(s, p + 1) else p
  }

  predicate Doubled(s: string, q: nat)
    requires q < |s|
  {
    s[q] == '>' && q + 1 < |s| && s[q + 1] == '>'
  }

  function TokAt(s: string, q: nat): Tok<Span>
    requires q < |s| && !White(s[q])
  {
    if Doubled(s, q) then Op('+') else if Symbol(s[q]) then Op(s[q]) else Word(Span(q, WordEnd(s, q)))
  }

  function Next(s: string, q: nat): (r: nat)
    requires q < |s| && !White(s[q])
    ensures q < r <= |s|
  {
    if Doubled(s, q) then q + 2 else if Symbol(s[q]) then q + 1 else WordEnd(s, q)
  }

  /** The tokens from position p on. */
  function Tokens(s: string, p: nat): seq<Tok<Span>>
    requires p <= |s|
    decreases |s| - p
  {
    var q := Skip(s, p);
    if q == |s| then [] else [TokAt(s, q)] + Tokens(s, Next(s, q))
  }

  lemma TokensSkip(s: string, p: nat)
    requires p <= |s|
    ensures Skip(s, Skip(s, p)) == Skip(s, p) && Tokens(s, Skip(s, p)) == Tokens(s, p)
  {
  }

  // ----- Commands -----

  datatype Cmd<W> =
    | Exec(args: seq<W>)
    | Redir(cmd: Cmd<W>, file: W, write: bool)
    | Pipe(left: Cmd<W>, right: Cmd<W>)
    | List(left: Cmd<W>, right: Cmd<W>)
    | Back(cmd: Cmd<W>)

  /** A redirection read but not yet wrapped around its command. Words may still follow
      for an execcmd, which lies under the redcmds already wrapped around it. */
  datatype To<W> = To(file: W, write: bool)

  function Wrap<W>(c: Cmd<W>, rs: seq<To<W>>): Cmd<W>
    decreases |rs|
  {
    if rs == [] then c else Wrap(Redir(c, rs[0].file, rs[0].write), rs[1..])
  }

  predicate Is<W>(ts: seq<Tok<W>>, c: char) {
    ts != [] && ts[0].Op? && ts[0].c == c
  }

  /** peek(ps, es, "<>") */
  predicate IsRedir<W>(ts: seq<Tok<W>>) {
    Is(ts, '<') || Is(ts, '>') || Is(ts, '+')
  }

  /** peek(ps, es, "|)&;") */
  predicate IsEnd<W>(ts: seq<Tok<W>>) {
    Is(ts, '|') || Is(ts, ')') || Is(ts, '&') || Is(ts, ';')
  }

  /** parseredirs; None is a panic, here and below. */
  function Redirs<W>(ts: seq<Tok<W>>): (r: Option<(seq<To<W>>, seq<Tok<W>>)>)
    ensures r.Some? ==> |r.value.1| <= |ts| && !IsRedir(r.value.1)
    decreases |ts|
  {
    if !IsRedir(ts) then Some(([], ts))
    else if |ts| < 2 || !ts[1].Word? then None
    else
      var more := Redirs(ts[2..]);
      if more.None? then None else Some(([To(ts[1].w, ts[0].c != '<')] + more.value.0, more.value.1))
  }

  /** The loop of parseexec. */
  function Args<W>(ts: seq<Tok<W>>, args: seq<W>, rs: seq<To<W>>): (r: Option<(Cmd<W>, seq<Tok<W>>)>)
    ensures r.Some? ==> |r.value.1| <= |ts|
    decreases |ts|
  {
    if ts == [] || IsEnd(ts) then Some((Wrap(Exec(args), rs), ts))
    else if !ts[0].Word? || |args| + 1 >= MAXARGS then None
    else
      var more := Redirs(ts[1..]);
      if more.None? then None else Args(more.value.1, args + [ts[0].w], rs + more.value.0)
  }

  function ParseExec<W>(ts: seq<Tok<W>>): (r: Option<(Cmd<W>, seq<Tok<W>>)>)
    ensures r.Some? ==> |r.value.1| <= |ts|
    decreases |ts|, 1
  {
    if Is(ts, '(') then ParseBlock(ts)
    else
      var more := Redirs(ts);
      if more.None? then None else Args(more.value.1, [], more.value.0)
  }

  function ParseBlock<W>(ts: seq<Tok<W>>): (r: Option<(Cmd<W>, seq<Tok<W>>)>)
    requires Is(ts, '(')
    ensures r.Some? ==> |r.value.1| <= |ts|
    decreases |ts|, 0
  {
    var c := ParseLine(ts[1..]);
    if c.None? || !Is(c.value.1, ')') then None
    else
      var more := Redirs(c.value.1[1..]);
      if more.None? then None else Some((Wrap(c.value.0, more.value.0), more.value.1))
  }

  function ParsePipe<W>(ts: seq<Tok<W>>): (r: Option<(Cmd<W>, seq<Tok<W>>)>)
    ensures r.Some? ==> |r.value.1| <= |ts|
    decreases |ts|, 2
  {
    var c := ParseExec(ts);
    if c.None? || !Is(c.value.1, '|') then c
    else
      var d := ParsePipe(c.value.1[1..]);
      if d.None? then None else Some((Pipe(c.value.0, d.value.0), d.value.1))
  }

  /** The loop of parseline over the ampersands. */
  function Backs<W>(c: Cmd<W>, ts: seq<Tok<W>>): (r: (Cmd<W>, seq<Tok<W>>))
    ensures |r.1| <= |ts|
    decreases |ts|
  {
    if Is(ts, '&') then Backs(Back(c), ts[1..]) else (c, ts)
  }

  function ParseLine<W>(ts: seq<Tok<W>>): (r: Option<(Cmd<W>, seq<Tok<W>>)>)
    ensures r.Some? ==> |r.value.1| <= |ts|
    decreases |ts|, 3
  {
    var c := ParsePipe(ts);
    if c.None? then None
    else
      var b := Backs(c.value.0, c.value.1);
      if !Is(b.1, ';') then Some(b)
      else
        var d := ParseLine(b.1[1..]);
        if d.None? then None else Some((List(b.0, d.value.0), d.value.1))
  }

  /** parsecmd without nulterminate. */
  function ParseCmd<W>(ts: seq<Tok<W>>): Option<Cmd<W>> {
    var c := ParseLine(ts);
    if c.None? || c.value.1 != [] then None else Some(c.value.0)
  }

  // ----- The parser as it runs -----

  /** The code gettoken returns. */
  function Code<W>(t: Tok<W>): char {
    if t.Op? then t.c else 'a'
  }

  class Parser {
    const s: string
    var pos: nat

    ghost predicate Valid()
      reads this
    {
      Line(s) && pos <= |s|
    }

    /** What is still to be read. */
    ghost function Rest(): seq<Tok<Span>>
      requires Valid()
      reads this
    {
      Tokens(s, pos)
    }

    constructor (line: string)
      requires Line(line)
      ensures Valid() && s == line && pos == 0
    {
      s, pos := line, 0;
    }

    method SkipWhite()
      requires Valid()
      modifies this
      ensures Valid() && pos == Skip(s, old(pos)) && Rest() == old(Rest())
    {
      while pos < |s| && White(s[pos])
        invariant Valid() && Skip(s, pos) == Skip(s, old(pos))
      {
        pos := pos + 1;
      }
      TokensSkip(s, old(pos));
    }

    method GetToken() returns (ret: char, q: nat, eq: nat)
      requires Valid()
      modifies this
      ensures Valid() && Rest() == if old(Rest()) == [] then [] else old(Rest())[1..]
      ensures ret == if old(Rest()) == [] then NUL else Code(old(Rest())[0])
      ensures ret == 'a' <==> old(Rest()) != [] && old(Rest())[0].Word?
      ensures ret == 'a' ==> old(Rest())[0] == Word(Span(q, eq))
    {
      SkipWhite();
      q := pos;
      ret := if pos < |s| then s[pos] else NUL;
      ghost var next := pos;
      if pos < |s| {
        next := Next(s, pos);
        if s[pos] == '>' {
          pos := pos + 1;
          if pos < |s| && s[pos] == '>' {
            ret := '+';
            pos := pos + 1;
          }
        } else if Symbol(s[pos]) {
          pos := pos + 1;
        } else {
          ret := 'a';
          while pos < |s| && !White(s[pos]) && !Symbol(s[pos])
            invariant Valid() && q <= pos && WordEnd(s, pos) == WordEnd(s, q)
          {
            pos := pos + 1;
          }
        }
      }
      eq := pos;
      assert pos == next;
      SkipWhite();
    }

    /** peek: the next token starts with one of these characters. */
    method Peek(toks: string) returns (found: bool)
      requires Valid()
      modifies this
      ensures Valid() && Rest() == old(Rest()) && pos == Skip(s, old(pos))
      ensures found == (pos < |s| && s[pos] in toks)
      ensures toks == "<>" ==> found == IsRedir(Rest())
      ensures toks == "|)&;" ==> found == IsEnd(Rest())
      ensures forall c :: toks == [c] && c in "(|)&;" ==> found == Is(Rest(), c)
      ensures toks == "" ==> (pos == |s| <==> Rest() == [])
    {
      SkipWhite();
      found := pos < |s| && s[pos] in toks;
    }

    method RunRedirs(cmd: Cmd<Span>) returns (ok: bool, cmd': Cmd<Span>, ghost rs: seq<To<Span>>)
      requires Valid()
      modifies this
      ensures Valid() && ok == Redirs(old(Rest())).Some?
      ensures ok ==> Redirs(old(Rest())) == Some((rs, Rest())) && cmd' == Wrap(cmd, rs)
    {
      cmd', rs := cmd, [];
      var more := Peek("<>");
      AfterLaws([], [], Redirs(Rest()));
      while more
        invariant Valid() && more == IsRedir(Rest()) && cmd' == Wrap(cmd, rs)
        invariant Redirs(old(Rest())) == After(rs, Redirs(Rest()))
        decreases |Rest()|
      {
        ghost var ts := Rest();
        var tok, _, _ := GetToken();
        var tok2, q, eq := GetToken();
        if tok2 != 'a' {
          return false, cmd, [];
        }
        WrapMore(cmd, rs, To(Span(q, eq), tok != '<'));
        AfterLaws(rs, [To(Span(q, eq), tok != '<')], Redirs(Rest()));
        assert Rest() == ts[2..];
        rs := rs + [To(Span(q, eq), tok != '<')];
        cmd' := Redir(cmd', Span(q, eq), tok != '<');
        more := Peek("<>");
      }
      assert rs + [] == rs;
      ok := true;
    }

    /** The outcome of a parsing routine is what its function gives. */
    ghost predicate Agrees(want: Option<(Cmd<Span>, seq<Tok<Span>>)>, ok: bool, cmd: Cmd<Span>)
      requires Valid()
      reads this
    {
      ok == want.Some? && (ok ==> want.value == (cmd, Rest()))
    }

    method RunExec() returns (ok: bool, cmd: Cmd<Span>)
      requires Valid()
      modifies this
      ensures Valid() && Agrees(ParseExec(old(Rest())), ok, cmd)
      decreases |Rest()|, 1
    {
      cmd := Exec([]);
      var block := Peek("(");
      if block {
        ok, cmd := RunBlock();
        return;
      }
      var args: seq<Span> := [];
      ghost var rs: seq<To<Span>>;
      ok, cmd, rs := RunRedirs(Exec([]));
      if !ok {
        return;
      }
      var end := Peek("|)&;");
      while !end
        invariant Valid() && end == IsEnd(Rest()) && |args| < MAXARGS
        invariant ParseExec(old(Rest())) == Args(Rest(), args, rs) && cmd == Wrap(Exec(args), rs)
        decreases |Rest()|, !end
      {
        var tok, q, eq := GetToken();
        if tok == NUL {
          break;
        }
        if tok != 'a' {
          return false, cmd;
        }
        args := args + [Span(q, eq)];
        FilledWrap(Exec(args[..|args| - 1]), rs, args);
        cmd := Filled(cmd, args);
        if |args| >= MAXARGS {
          return false, cmd;
        }
        ghost var rs': seq<To<Span>>;
        ok, cmd, rs' := RunRedirs(cmd);
        if !ok {
          return;
        }
        WrapWrap(Exec(args), rs, rs');
        rs := rs + rs';
        end := Peek("|)&;");
      }
      ok := true;
    }

    method RunBlock() returns (ok: bool, cmd: Cmd<Span>)
      requires Valid() && Is(Rest(), '(')
      modifies this
      ensures Valid() && Agrees(ParseBlock(old(Rest())), ok, cmd)
      decreases |Rest()|, 0
    {
      var _, _, _ := GetToken();
      ok, cmd := RunLine();
      if !ok {
        return;
      }
      ok := Peek(")");
      if !ok {
        return;
      }
      var _, _, _ := GetToken();
      ghost var rs;
      ok, cmd, rs := RunRedirs(cmd);
    }

    method RunPipe() returns (ok: bool, cmd: Cmd<Span>)
      requires Valid()
      modifies this
      ensures Valid() && Agrees(ParsePipe(old(Rest())), ok, cmd)
      decreases |Rest()|, 2
    {
      ok, cmd := RunExec();
      if !ok {
        return;
      }
      var more := Peek("|");
      if more {
        var _, _, _ := GetToken();
        var right: Cmd<Span>;
        ok, right := RunPipe();
        cmd := Pipe(cmd, right);
      }
    }

    method RunLine() returns (ok: bool, cmd: Cmd<Span>)
      requires Valid()
      modifies this
      ensures Valid() && Agrees(ParseLine(old(Rest())), ok, cmd)
      decreases |Rest()|, 3
    {
      ok, cmd := RunPipe();
      if !ok {
        return;
      }
      ghost var c, ts := cmd, Rest();
      var amp := Peek("&");
      while amp
        invariant Valid() && amp == Is(Rest(), '&') && Backs(c, ts) == Backs(cmd, Rest()) && |Rest()| <= |ts|
        decreases |Rest()|
      {
        var _, _, _ := GetToken();
        cmd := Back(cmd);
        amp := Peek("&");
      }
      var semi := Peek(";");
      if semi {
        var _, _, _ := GetToken();
        var right: Cmd<Span>;
        ok, right := RunLine();
        cmd := List(cmd, right);
      }
    }
  }

  /** The execcmd under the redirections gets its words. */
  function Filled<W>(c: Cmd<W>, args: seq<W>): Cmd<W> {
    match c
    case Redir(d, file, write) => Redir(Filled(d, args), file, write)
    case Exec(_) => Exec(args)
    case _ => c
  }

  ghost function After<W>(rs: seq<To<W>>, r: Option<(seq<To<W>>, seq<Tok<W>>)>): Option<(seq<To<W>>, seq<Tok<W>>)> {
    if r.None? then None else Some((rs + r.value.0, r.value.1))
  }

  lemma {:induction false} FilledWrap<W>(c: Cmd<W>, rs: seq<To<W>>, args: seq<W>)
    ensures Filled(Wrap(c, rs), args) == Wrap(Filled(c, args), rs)
    decreases |rs|
  {
    if rs != [] {
      FilledWrap(Redir(c, rs[0].file, rs[0].write), rs[1..], args);
    }
  }

  lemma {:induction false} WrapWrap<W>(c: Cmd<W>, rs: seq<To<W>>, rs': seq<To<W>>)
    ensures Wrap(Wrap(c, rs), rs') == Wrap(c, rs + rs')
    decreases |rs|
  {
    if rs == [] {
      assert rs + rs' == rs';
    } else {
      assert (rs + rs')[1..] == rs[1..] + rs';
      WrapWrap(Redir(c, rs[0].file, rs[0].write), rs[1..], rs');
    }
  }

  lemma AfterLaws<W>(a: seq<To<W>>, b: seq<To<W>>, r: Option<(seq<To<W>>, seq<Tok<W>>)>)
    ensures After([], r) == r && After(a, After(b, r)) == After(a + b, r)
  {
    if r.Some? {
      assert [] + r.value.0 == r.value.0;
      assert a + (b + r.value.0) == a + b + r.value.0;
    }
  }

  lemma {:induction false} WrapMore<W>(c: Cmd<W>, rs: seq<To<W>>, r: To<W>)
    ensures Wrap(c, rs + [r]) == Redir(Wrap(c, rs), r.file, r.write)
    decreases |rs|
  {
    if rs != [] {
      assert (rs + [r])[1..] == rs[1..] + [r];
      WrapMore(Redir(c, rs[0].file, rs[0].write), rs[1..], r);
    }
  }

  // ----- Words as texts -----

  function Text(s: string, w: Span): string {
    if w.at <= w.end <= |s| then s[w.at..w.end] else ""
  }

  function TokText(s: string, t: Tok<Span>): Tok<string> {
    if t.Op? then Op(t.c) else Word(Text(s, t.w))
  }

  function TokTexts(s: string, ts: seq<Tok<Span>>): (us: seq<Tok<string>>)
    ensures |us| == |ts|
  {
    seq(|ts|, i requires 0 <= i < |ts| => TokText(s, ts[i]))
  }

  function Texts(s: string, ws: seq<Span>): (us: seq<string>)
    ensures |us| == |ws|
  {
    seq(|ws|, i requires 0 <= i < |ws| => Text(s, ws[i]))
  }

  function ToTexts(s: string, rs: seq<To<Span>>): (us: seq<To<string>>)
    ensures |us| == |rs|
  {
    seq(|rs|, i requires 0 <= i < |rs| => To(Text(s, rs[i].file), rs[i].write))
  }

  /** The command the shell runs: the words themselves. */
  function CmdText(s: string, c: Cmd<Span>): Cmd<string> {
    match c
    case Exec(args) => Exec(Texts(s, args))
    case Redir(d, file, write) => Redir(CmdText(s, d), Text(s, file), write)
    case Pipe(l, r) => Pipe(CmdText(s, l), CmdText(s, r))
    case List(l, r) => List(CmdText(s, l), CmdText(s, r))
    case Back(d) => Back(CmdText(s, d))
  }

  function ParsedText(s: string, r: Option<(Cmd<Span>, seq<Tok<Span>>)>): Option<(Cmd<string>, seq<Tok<string>>)> {
    if r.None? then None else Some((CmdText(s, r.value.0), TokTexts(s, r.value.1)))
  }

  lemma TextsDrop(s: string, ts: seq<Tok<Span>>, k: nat)
    requires k <= |ts|
    ensures TokTexts(s, ts)[k..] == TokTexts(s, ts[k..])
  {
  }

  lemma {:induction false} RedirsText(s: string, ts: seq<Tok<Span>>)
    ensures Redirs(TokTexts(s, ts)) ==
            if Redirs(ts).None? then None else Some((ToTexts(s, Redirs(ts).value.0), TokTexts(s, Redirs(ts).value.1)))
    decreases |ts|
  {
    if IsRedir(ts) && |ts| >= 2 && ts[1].Word? {
      RedirsText(s, ts[2..]);
      TextsDrop(s, ts, 2);
      var more := Redirs(ts[2..]);
      if more.Some? {
        var r := To(ts[1].w, ts[0].c != '<');
        assert ToTexts(s, [r] + more.value.0) == [To(Text(s, r.file), r.write)] + ToTexts(s, more.value.0);
      }
    }
  }

  lemma {:induction false} WrapText(s: string, c: Cmd<Span>, rs: seq<To<Span>>)
    ensures CmdText(s, Wrap(c, rs)) == Wrap(CmdText(s, c), ToTexts(s, rs))
    decreases |rs|
  {
    if rs != [] {
      WrapText(s, Redir(c, rs[0].file, rs[0].write), rs[1..]);
      assert ToTexts(s, rs)[1..] == ToTexts(s, rs[1..]);
    }
  }

  lemma {:induction false} ArgsText(s: string, ts: seq<Tok<Span>>, args: seq<Span>, rs: seq<To<Span>>)
    ensures Args(TokTexts(s, ts), Texts(s, args), ToTexts(s, rs)) == ParsedText(s, Args(ts, args, rs))
    decreases |ts|
  {
    if ts == [] || IsEnd(ts) {
      WrapText(s, Exec(args), rs);
    } else if ts[0].Word? && |args| + 1 < MAXARGS {
      TextsDrop(s, ts, 1);
      RedirsText(s, ts[1..]);
      var more := Redirs(ts[1..]);
      if more.Some? {
        ArgsText(s, more.value.1, args + [ts[0].w], rs + more.value.0);
        assert Texts(s, args + [ts[0].w]) == Texts(s, args) + [Text(s, ts[0].w)];
        assert ToTexts(s, rs + more.value.0) == ToTexts(s, rs) + ToTexts(s, more.value.0);
      }
    }
  }

  /** The parser does not look into words. */
  lemma {:induction false} ExecText(s: string, ts: seq<Tok<Span>>)
    ensures ParseExec(TokTexts(s, ts)) == ParsedText(s, ParseExec(ts))
    decreases |ts|, 1
  {
    if Is(ts, '(') {
      BlockText(s, ts);
    } else {
      RedirsText(s, ts);
      if Redirs(ts).Some? {
        ArgsText(s, Redirs(ts).value.1, [], Redirs(ts).value.0);
        assert Texts(s, []) == [];
      }
    }
  }

  lemma {:induction false} BlockText(s: string, ts: seq<Tok<Span>>)
    requires Is(ts, '(')
    ensures ParseBlock(TokTexts(s, ts)) == ParsedText(s, ParseBlock(ts))
    decreases |ts|, 0
  {
    TextsDrop(s, ts, 1);
    LineText(s, ts[1..]);
    var c := ParseLine(ts[1..]);
    if c.Some? && Is(c.value.1, ')') {
      TextsDrop(s, c.value.1, 1);
      RedirsText(s, c.value.1[1..]);
      if Redirs(c.value.1[1..]).Some? {
        WrapText(s, c.value.0, Redirs(c.value.1[1..]).value.0);
      }
    }
  }

  lemma {:induction false} PipeText(s: string, ts: seq<Tok<Span>>)
    ensures ParsePipe(TokTexts(s, ts)) == ParsedText(s, ParsePipe(ts))
    decreases |ts|, 2
  {
    ExecText(s, ts);
    var c := ParseExec(ts);
    if c.Some? && Is(c.value.1, '|') {
      TextsDrop(s, c.value.1, 1);
      PipeText(s, c.value.1[1..]);
    }
  }

  lemma {:induction false} BacksText(s: string, c: Cmd<Span>, ts: seq<Tok<Span>>)
    ensures Backs(CmdText(s, c), TokTexts(s, ts)) == (CmdText(s, Backs(c, ts).0), TokTexts(s, Backs(c, ts).1))
    decreases |ts|
  {
    if Is(ts, '&') {
      TextsDrop(s, ts, 1);
      BacksText(s, Back(c), ts[1..]);
    }
  }

  lemma {:induction false} LineText(s: string, ts: seq<Tok<Span>>)
    ensures ParseLine(TokTexts(s, ts)) == ParsedText(s, ParseLine(ts))
    decreases |ts|, 3
  {
    PipeText(s, ts);
    var c := ParsePipe(ts);
    if c.Some? {
      BacksText(s, c.value.0, c.value.1);
      var b := Backs(c.value.0, c.value.1);
      if Is(b.1, ';') {
        TextsDrop(s, b.1, 1);
        LineText(s, b.1[1..]);
      }
    }
  }

  // ----- Printing -----

  function Words<W>(ws: seq<W>): (ts: seq<Tok<W>>)
    ensures |ts| == |ws|
  {
    if ws == [] then [] else [Word(ws[0])] + Words(ws[1..])
  }

  function RedirToks<W>(rs: seq<To<W>>): seq<Tok<W>> {
    if rs == [] then [] else [Op(if rs[0].write then '>' else '<'), Word(rs[0].file)] + RedirToks(rs[1..])
  }

  /** A command where parseexec can read it: in parentheses unless it is a plain command
      with redirections. */
  function Atom<W>(c: Cmd<W>): seq<Tok<W>>
    decreases c, 1
  {
    match c
    case Exec(args) => Words(args)
    case Redir(d, file, write) => Atom(d) + RedirToks([To(file, write)])
    case _ => [Op('(')] + Body(c) + [Op(')')]
  }

  function Body<W>(c: Cmd<W>): seq<Tok<W>>
    requires c.Pipe? || c.List? || c.Back?
    decreases c, 0
  {
    match c
    case Pipe(l, r) => Atom(l) + [Op('|')] + Atom(r)
    case List(l, r) => Atom(l) + [Op(';')] + Atom(r)
    case Back(d) => Atom(d) + [Op('&')]
  }

  function Print<W>(c: Cmd<W>): seq<Tok<W>> {
    if c.Pipe? || c.List? || c.Back? then Body(c) else Atom(c)
  }

  /** No plain command has more words than argv holds. */
  predicate Small<W>(c: Cmd<W>) {
    match c
    case Exec(args) => |args| < MAXARGS
    case Redir(d, _, _) => Small(d)
    case Pipe(l, r) => Small(l) && Small(r)
    case List(l, r) => Small(l) && Small(r)
    case Back(d) => Small(d)
  }

  predicate Ends<W>(ts: seq<Tok<W>>) {
    ts == [] || IsEnd(ts)
  }

  lemma RedirsNone<W>(ts: seq<Tok<W>>)
    requires !IsRedir(ts)
    ensures Redirs(ts) == Some(([], ts))
  {
  }

  lemma RedirsStep<W>(r: To<W>, tail: seq<Tok<W>>)
    ensures Redirs([Op(if r.write then '>' else '<'), Word(r.file)] + tail) ==
            if Redirs(tail).None? then None else Some(([r] + Redirs(tail).value.0, Redirs(tail).value.1))
  {
    var ts := [Op(if r.write then '>' else '<'), Word(r.file)] + tail;
    assert ts[2..] == tail;
  }

  lemma {:induction false} ParseRedirToks<W>(rs: seq<To<W>>, rest: seq<Tok<W>>)
    requires !IsRedir(rest)
    ensures Redirs(RedirToks(rs) + rest) == Some((rs, rest))
  {
    hide Redirs;
    if rs == [] {
      assert RedirToks(rs) + rest == rest;
      RedirsNone(rest);
    } else {
      var r, tail := rs[0], RedirToks(rs[1..]) + rest;
      assert RedirToks(rs) + rest == [Op(if r.write then '>' else '<'), Word(r.file)] + tail;
      RedirsStep(r, tail);
      ParseRedirToks(rs[1..], rest);
      assert [r] + rs[1..] == rs;
    }
  }

  lemma ArgsWord<W>(w: W, tail: seq<Tok<W>>, had: seq<W>, rs: seq<To<W>>, rest: seq<Tok<W>>)
    requires |had| + 1 < MAXARGS && Redirs(tail) == Some((rs, rest))
    ensures Args([Word(w)] + tail, had, []) == Args(rest, had + [w], rs)
  {
    var ts := [Word(w)] + tail;
    assert ts[1..] == tail;
    var none: seq<To<W>> := [];
    assert none + rs == rs;
  }

  lemma {:induction false} ParseWords<W>(args: seq<W>, had: seq<W>, rs: seq<To<W>>, rest: seq<Tok<W>>)
    requires args != [] && |had| + |args| < MAXARGS && Ends(rest)
    ensures Args(Words(args) + RedirToks(rs) + rest, had, []) == Some((Wrap(Exec(had + args), rs), rest))
    decreases |args|
  {
    hide RedirToks, Wrap;
    var w, tail := args[0], Words(args[1..]) + RedirToks(rs) + rest;
    assert Words(args) + RedirToks(rs) + rest == [Word(w)] + tail;
    if |args| == 1 {
      assert had + args == had + [w] && tail == RedirToks(rs) + rest;
      ParseRedirToks(rs, rest);
      ArgsWord(w, tail, had, rs, rest);
    } else {
      hide Args;
      assert tail[0] == Word(args[1]) && had + [w] + args[1..] == had + args;
      ArgsWord(w, tail, had, [], tail);
      ParseWords(args[1..], had + [w], rs, rest);
    }
  }

  /** A printed command followed by redirections, up to a token that ends it. */
  lemma {:induction false} ParseAtom<W>(c: Cmd<W>, rs: seq<To<W>>, rest: seq<Tok<W>>)
    requires Small(c) && Ends(rest)
    ensures ParseExec(Atom(c) + RedirToks(rs) + rest) == Some((Wrap(c, rs), rest))
    decreases c, 1
  {
    match c
    case Exec(args) =>
      ParseArgs(args, rs, rest);
    case Redir(d, file, write) =>
      hide ParseExec, RedirToks;
      var r := To(file, write);
      RedirToksMore(r, rs);
      assert Atom(c) + RedirToks(rs) + rest == Atom(d) + RedirToks([r] + rs) + rest;
      ParseAtom(d, [r] + rs, rest);
      assert ([r] + rs)[1..] == rs;
    case _ =>
      ParseBody(c, [Op(')')] + RedirToks(rs) + rest);
      ParseParens(c, rs, rest);
  }

  lemma ParseArgs<W>(args: seq<W>, rs: seq<To<W>>, rest: seq<Tok<W>>)
    requires |args| < MAXARGS && Ends(rest)
    ensures ParseExec(Words(args) + RedirToks(rs) + rest) == Some((Wrap(Exec(args), rs), rest))
  {
    hide Wrap, RedirToks, Redirs, ParseExec, Args;
    var ts := Words(args) + RedirToks(rs) + rest;
    if args == [] {
      assert ts == RedirToks(rs) + rest;
      ParseRedirToks(rs, rest);
      NotBlock(rs, rest);
      ExecStep(ts, rs, rest);
      ArgsNone([], rs, rest);
    } else {
      assert ts[0] == Word(args[0]);
      ParseWords(args, [], rs, rest);
      assert [] + args == args;
      RedirsNone(ts);
      ExecStep(ts, [], ts);
    }
  }

  lemma ExecStep<W>(ts: seq<Tok<W>>, rs: seq<To<W>>, rest: seq<Tok<W>>)
    requires !Is(ts, '(') && Redirs(ts) == Some((rs, rest))
    ensures ParseExec(ts) == Args(rest, [], rs)
  {
  }

  lemma ArgsNone<W>(args: seq<W>, rs: seq<To<W>>, rest: seq<Tok<W>>)
    requires Ends(rest)
    ensures Args(rest, args, rs) == Some((Wrap(Exec(args), rs), rest))
  {
  }

  lemma NotBlock<W>(rs: seq<To<W>>, rest: seq<Tok<W>>)
    requires Ends(rest)
    ensures !Is(RedirToks(rs) + rest, '(')
  {
  }

  lemma ParseParens<W>(c: Cmd<W>, rs: seq<To<W>>, rest: seq<Tok<W>>)
    requires (c.Pipe? || c.List? || c.Back?) && Ends(rest)
    requires ParseLine(Body(c) + ([Op(')')] + RedirToks(rs) + rest)) == Some((c, [Op(')')] + RedirToks(rs) + rest))
    ensures ParseExec(Atom(c) + RedirToks(rs) + rest) == Some((Wrap(c, rs), rest))
  {
    hide ParseLine, ParseExec, Body, Wrap, Redirs, RedirToks;
    var tail := RedirToks(rs) + rest;
    var inner := Body(c) + ([Op(')')] + tail);
    ParseRedirToks(rs, rest);
    assert Atom(c) + RedirToks(rs) + rest == [Op('(')] + inner;
    assert [Op(')')] + RedirToks(rs) + rest == [Op(')')] + tail;
    BlockStep(inner, c, tail, rs, rest);
  }

  lemma BlockStep<W>(inner: seq<Tok<W>>, c: Cmd<W>, tail: seq<Tok<W>>, rs: seq<To<W>>, rest: seq<Tok<W>>)
    requires ParseLine(inner) == Some((c, [Op(')')] + tail)) && Redirs(tail) == Some((rs, rest))
    ensures ParseExec([Op('(')] + inner) == Some((Wrap(c, rs), rest))
  {
    hide ParseLine, Redirs, Wrap, Args;
    var ts := [Op('(')] + inner;
    assert ts[1..] == inner && ([Op(')')] + tail)[1..] == tail;
    assert ParseBlock(ts) == Some((Wrap(c, rs), rest));
  }

  lemma RedirToksMore<W>(r: To<W>, rs: seq<To<W>>)
    ensures RedirToks([r] + rs) == RedirToks([r]) + RedirToks(rs)
  {
    assert ([r] + rs)[1..] == rs;
  }

  lemma {:induction false} ParseBody<W>(c: Cmd<W>, rest: seq<Tok<W>>)
    requires Small(c) && (c.Pipe? || c.List? || c.Back?) && (rest == [] || Is(rest, ')'))
    ensures ParseLine(Body(c) + rest) == Some((c, rest))
    decreases c, 0
  {
    hide Atom, ParseExec;
    var ts := Body(c) + rest;
    match c
    case Pipe(l, r) =>
      var tail := [Op('|')] + Atom(r) + rest;
      assert ts == Atom(l) + tail && tail[1..] == Atom(r) + rest;
      ParsePlain(l, tail);
      ParsePlain(r, rest);
      assert ParsePipe(tail[1..]) == Some((r, rest));
      assert ParsePipe(ts) == Some((c, rest));
    case List(l, r) =>
      var tail := [Op(';')] + Atom(r) + rest;
      assert ts == Atom(l) + tail && tail[1..] == Atom(r) + rest;
      ParsePlain(l, tail);
      ParsePlain(r, rest);
      assert ParsePipe(tail[1..]) == Some((r, rest));
      assert ParseLine(tail[1..]) == Some((r, rest));
      assert ParsePipe(ts) == Some((l, tail));
    case Back(d) =>
      var tail := [Op('&')] + rest;
      assert ts == Atom(d) + tail && tail[1..] == rest;
      ParsePlain(d, tail);
      assert ParsePipe(ts) == Some((d, tail));
      assert Backs(d, tail) == (c, rest);
  }

  lemma ParsePlain<W>(c: Cmd<W>, rest: seq<Tok<W>>)
    requires Small(c) && Ends(rest)
    ensures ParseExec(Atom(c) + rest) == Some((c, rest))
    decreases c, 2
  {
    ParseAtom(c, [], rest);
    assert Atom(c) + RedirToks([]) + rest == Atom(c) + rest;
  }

  lemma PrintParses<W>(c: Cmd<W>)
    requires Small(c)
    ensures ParseCmd(Print(c)) == Some(c)
  {
    if c.Pipe? || c.List? || c.Back? {
      ParseBody(c, []);
      assert Body(c) + [] == Body(c);
    } else {
      hide ParseExec, Atom;
      ParsePlain(c, []);
      assert Atom(c) + [] == Atom(c);
      assert ParsePipe(Atom(c)) == Some((c, []));
    }
  }

  // ----- The grammar -----

  /** A word or a redirection of a plain command. */
  datatype Item<W> = Arg(w: W) | Dir(op: char, file: W)

  /** How a line can be derived. An exec is words and redirections in any order, or a line in
      parentheses with redirections after it; a pipe is execs with bars between them; a line
      is pipes with semicolons between them, each with any number of ampersands after it. */
  datatype ExecTree<W> = Simple(items: seq<Item<W>>) | Paren(line: LineTree<W>, dirs: seq<Item<W>>)
  datatype PipeTree<W> = One(e: ExecTree<W>) | Bar(e: ExecTree<W>, more: PipeTree<W>)
  datatype LineTree<W> = LineTree(p: PipeTree<W>, amps: nat, more: Option<LineTree<W>>)

  predicate ItemOk<W>(x: Item<W>) {
    x.Dir? ==> x.op == '<' || x.op == '>' || x.op == '+'
  }

  function ItemArgs<W>(items: seq<Item<W>>): seq<W> {
    if items == [] then [] else (if items[0].Arg? then [items[0].w] else []) + ItemArgs(items[1..])
  }

  /** < reads its file; > and >> write it. */
  function ItemDirs<W>(items: seq<Item<W>>): seq<To<W>> {
    if items == [] then [] else (if items[0].Dir? then [To(items[0].file, items[0].op != '<')] else []) + ItemDirs(items[1..])
  }

  predicate ExecOk<W>(e: ExecTree<W>) {
    match e
    case Simple(items) => (forall k :: 0 <= k < |items| ==> ItemOk(items[k])) && |ItemArgs(items)| < MAXARGS
    case Paren(line, dirs) => LineOk(line) && forall k :: 0 <= k < |dirs| ==> ItemOk(dirs[k]) && dirs[k].Dir?
  }

  predicate PipeOk<W>(p: PipeTree<W>) {
    ExecOk(p.e) && (p.Bar? ==> PipeOk(p.more))
  }

  predicate LineOk<W>(l: LineTree<W>) {
    PipeOk(l.p) && (l.more.Some? ==> LineOk(l.more.value))
  }

  /** The tokens a derivation yields. */
  function ItemYield<W>(x: Item<W>): seq<Tok<W>> {
    if x.Arg? then [Word(x.w)] else [Op(x.op), Word(x.file)]
  }

  function ItemsYield<W>(items: seq<Item<W>>): seq<Tok<W>> {
    if items == [] then []
    else ItemYield(items[0]) + ItemsYield(items[1..])
  }

  function ExecYield<W>(e: ExecTree<W>): seq<Tok<W>> {
    match e
    case Simple(items) => ItemsYield(items)
    case Paren(line, dirs) => [Op('(')] + LineYield(line) + [Op(')')] + ItemsYield(dirs)
  }

  function PipeYield<W>(p: PipeTree<W>): seq<Tok<W>> {
    ExecYield(p.e) + if p.Bar? then [Op('|')] + PipeYield(p.more) else []
  }

  function LineYield<W>(l: LineTree<W>): seq<Tok<W>> {
    PipeYield(l.p) + seq(l.amps, _ => Op('&')) + if l.more.Some? then [Op(';')] + LineYield(l.more.value) else []
  }

  /** The command it stands for: the last redirection is the outermost, pipes and lists lean
      to the right, and an ampersand takes the whole pipe before it. */
  function Nest<W>(c: Cmd<W>, rs: seq<To<W>>): Cmd<W> {
    if rs == [] then c
    else
      var m := |rs| - 1;
      Redir(Nest(c, rs[..m]), rs[m].file, rs[m].write)
  }

  function InBack<W>(c: Cmd<W>, n: nat): Cmd<W> {
    if n == 0 then c else Back(InBack(c, n - 1))
  }

  function ExecMeans<W>(e: ExecTree<W>): Cmd<W> {
    match e
    case Simple(items) => Nest(Exec(ItemArgs(items)), ItemDirs(items))
    case Paren(line, dirs) => Nest(LineMeans(line), ItemDirs(dirs))
  }

  function PipeMeans<W>(p: PipeTree<W>): Cmd<W> {
    if p.Bar? then Pipe(ExecMeans(p.e), PipeMeans(p.more)) else ExecMeans(p.e)
  }

  function LineMeans<W>(l: LineTree<W>): Cmd<W> {
    var c := InBack(PipeMeans(l.p), l.amps);
    if l.more.Some? then List(c, LineMeans(l.more.value)) else c
  }

  /** The grammar derives these tokens, as this command. */
  ghost predicate Derives<W(!new)>(ts: seq<Tok<W>>, c: Cmd<W>) {
    exists l: LineTree<W> :: LineOk(l) && LineYield(l) == ts && LineMeans(l) == c
  }

  // ----- What the grammar derives is parsed -----

  lemma {:induction false} NestIsWrap<W>(c: Cmd<W>, rs: seq<To<W>>)
    ensures Nest(c, rs) == Wrap(c, rs)
  {
    if rs != [] {
      var m := |rs| - 1;
      NestIsWrap(c, rs[..m]);
      WrapMore(c, rs[..m], rs[m]);
      assert rs[..m] + [rs[m]] == rs;
    }
  }

  /** The words and redirections still to come, after those that were read. */
  ghost predicate ItemsRead<W>(items: seq<Item<W>>, args: seq<W>, rs: seq<To<W>>, rest: seq<Tok<W>>) {
    var r := Redirs(ItemsYield(items) + rest);
    && r.Some?
    && Args(r.value.1, args, rs + r.value.0) == Some((Wrap(Exec(args + ItemArgs(items)), rs + ItemDirs(items)), rest))
  }

  lemma NoItems<W>(args: seq<W>, rs: seq<To<W>>, rest: seq<Tok<W>>)
    requires Ends(rest)
    ensures ItemsRead([], args, rs, rest)
  {
    hide Redirs, Args, Wrap;
    assert ItemsYield<W>([]) + rest == rest && args + [] == args && rs + [] == rs;
    RedirsNone(rest);
    ArgsEnd(args, rs, rest);
  }

  lemma DirRead<W>(op: char, file: W, t: seq<Item<W>>, args: seq<W>, rs: seq<To<W>>, rest: seq<Tok<W>>)
    requires (op == '<' || op == '>' || op == '+') && ItemsRead(t, args, rs + [To(file, op != '<')], rest)
    ensures ItemsRead([Dir(op, file)] + t, args, rs, rest)
  {
    hide Redirs, Args, Wrap, ItemArgs, ItemDirs, ItemsYield;
    var d, tail := To(file, op != '<'), ItemsYield(t) + rest;
    ItemsHead(Dir(op, file), t);
    Assoc([Op(op), Word(file)], ItemsYield(t), rest);
    RedirsTake(op, file, tail);
    Assoc(rs, [d], Redirs(tail).value.0);
    Assoc(rs, [d], ItemDirs(t));
    assert [] + ItemArgs(t) == ItemArgs(t);
  }

  lemma ArgRead<W>(w: W, t: seq<Item<W>>, args: seq<W>, rs: seq<To<W>>, rest: seq<Tok<W>>)
    requires |args| + 1 < MAXARGS && ItemsRead(t, args + [w], rs, rest)
    ensures ItemsRead([Arg(w)] + t, args, rs, rest)
  {
    hide Redirs, Args, Wrap, ItemArgs, ItemDirs, ItemsYield;
    var tail := ItemsYield(t) + rest;
    ItemsHead(Arg(w), t);
    Assoc([Word(w)], ItemsYield(t), rest);
    RedirsNone([Word(w)] + tail);
    ArgsTake(w, tail, args, rs);
    Assoc(args, [w], ItemArgs(t));
    assert rs + [] == rs && [] + ItemDirs(t) == ItemDirs(t);
  }

  lemma {:induction false} ItemsParsed<W>(items: seq<Item<W>>, args: seq<W>, rs: seq<To<W>>, rest: seq<Tok<W>>)
    requires (forall k :: 0 <= k < |items| ==> ItemOk(items[k])) && |args| + |ItemArgs(items)| < MAXARGS && Ends(rest)
    ensures ItemsRead(items, args, rs, rest)
    decreases |items|
  {
    hide ItemsRead;
    if items == [] {
      NoItems(args, rs, rest);
    } else {
      var x, t := items[0], items[1..];
      assert items == [x] + t && ItemOk(x);
      forall k | 0 <= k < |t| ensures ItemOk(t[k]) {
        assert ItemOk(items[k + 1]);
      }
      hide ItemArgs, ItemDirs, ItemsYield;
      ItemsHead(x, t);
      if x.Dir? {
        ItemsParsed(t, args, rs + [To(x.file, x.op != '<')], rest);
        DirRead(x.op, x.file, t, args, rs, rest);
      } else {
        ItemsParsed(t, args + [x.w], rs, rest);
        ArgRead(x.w, t, args, rs, rest);
      }
    }
  }

  lemma ArgsEnd<W>(args: seq<W>, rs: seq<To<W>>, rest: seq<Tok<W>>)
    requires Ends(rest)
    ensures Args(rest, args, rs) == Some((Wrap(Exec(args), rs), rest))
  {
  }

  lemma ArgsTake<W>(w: W, tail: seq<Tok<W>>, args: seq<W>, rs: seq<To<W>>)
    requires |args| + 1 < MAXARGS && Redirs(tail).Some?
    ensures Args([Word(w)] + tail, args, rs) == Args(Redirs(tail).value.1, args + [w], rs + Redirs(tail).value.0)
  {
    assert ([Word(w)] + tail)[1..] == tail;
  }

  lemma RedirsTake<W>(op: char, file: W, tail: seq<Tok<W>>)
    requires op == '<' || op == '>' || op == '+'
    ensures Redirs([Op(op), Word(file)] + tail) ==
            if Redirs(tail).None? then None else Some(([To(file, op != '<')] + Redirs(tail).value.0, Redirs(tail).value.1))
  {
    assert ([Op(op), Word(file)] + tail)[2..] == tail;
  }

  /** Redirections alone. */
  lemma {:induction false} DirsParsed<W>(dirs: seq<Item<W>>, rest: seq<Tok<W>>)
    requires (forall k :: 0 <= k < |dirs| ==> ItemOk(dirs[k]) && dirs[k].Dir?) && !IsRedir(rest)
    ensures Redirs(ItemsYield(dirs) + rest) == Some((ItemDirs(dirs), rest))
  {
    hide Redirs;
    if dirs == [] {
      assert ItemsYield(dirs) + rest == rest;
      RedirsNone(rest);
    } else {
      var x, tail := dirs[0], ItemsYield(dirs[1..]) + rest;
      assert ItemsYield(dirs) + rest == [Op(x.op), Word(x.file)] + tail;
      DirsParsed(dirs[1..], rest);
      RedirsTake(x.op, x.file, tail);
    }
  }

  lemma {:induction false} ExecParsed<W>(e: ExecTree<W>, rest: seq<Tok<W>>)
    requires ExecOk(e) && Ends(rest)
    ensures ParseExec(ExecYield(e) + rest) == Some((ExecMeans(e), rest))
    decreases e, 0
  {
    hide Redirs, Args, Wrap;
    var ts := ExecYield(e) + rest;
    match e
    case Simple(items) =>
      ItemsParsed(items, [], [], rest);
      NestIsWrap(Exec(ItemArgs(items)), ItemDirs(items));
      assert [] + ItemArgs(items) == ItemArgs(items) && [] + ItemDirs(items) == ItemDirs(items);
      assert [] + Redirs(ts).value.0 == Redirs(ts).value.0;
      NotParen(items, rest);
    case Paren(line, dirs) =>
      var tail := ItemsYield(dirs) + rest;
      var after := [Op(')')] + tail;
      assert ts[1..] == LineYield(line) + after && Is(ts, '(');
      LineParsed(line, after);
      assert after[1..] == tail;
      DirsParsed(dirs, rest);
      NestIsWrap(LineMeans(line), ItemDirs(dirs));
  }

  lemma NotParen<W>(items: seq<Item<W>>, rest: seq<Tok<W>>)
    requires (forall k :: 0 <= k < |items| ==> ItemOk(items[k])) && Ends(rest)
    ensures !Is(ItemsYield(items) + rest, '(')
  {
    if items != [] {
      assert ItemOk(items[0]);
    } else {
      assert ItemsYield(items) + rest == rest;
    }
  }

  lemma {:induction false} PipeParsed<W>(p: PipeTree<W>, rest: seq<Tok<W>>)
    requires PipeOk(p) && Ends(rest) && !Is(rest, '|')
    ensures ParsePipe(PipeYield(p) + rest) == Some((PipeMeans(p), rest))
    decreases p, 1
  {
    hide ParseExec;
    if p.Bar? {
      var tail := PipeYield(p.more) + rest;
      assert PipeYield(p) + rest == ExecYield(p.e) + ([Op('|')] + tail);
      ExecParsed(p.e, [Op('|')] + tail);
      assert ([Op('|')] + tail)[1..] == tail;
      PipeParsed(p.more, rest);
    } else {
      assert PipeYield(p) + rest == ExecYield(p.e) + rest;
      ExecParsed(p.e, rest);
    }
  }

  lemma {:induction false} BacksRead<W>(c: Cmd<W>, n: nat, rest: seq<Tok<W>>)
    requires !Is(rest, '&')
    ensures Backs(c, seq(n, _ => Op('&')) + rest) == (InBack(c, n), rest)
    decreases n
  {
    var ts := seq(n, _ => Op('&')) + rest;
    if n == 0 {
      assert ts == rest;
    } else {
      assert ts[1..] == seq(n - 1, _ => Op('&')) + rest;
      BacksRead(Back(c), n - 1, rest);
      InBackNext(c, n - 1);
    }
  }

  lemma {:induction false} InBackNext<W>(c: Cmd<W>, n: nat)
    ensures InBack(Back(c), n) == InBack(c, n + 1)
  {
    if n > 0 {
      InBackNext(c, n - 1);
    }
  }

  /** A line is followed by nothing or by the parenthesis that ends it. */
  lemma {:induction false} LineParsed<W>(l: LineTree<W>, rest: seq<Tok<W>>)
    requires LineOk(l) && (rest == [] || Is(rest, ')'))
    ensures ParseLine(LineYield(l) + rest) == Some((LineMeans(l), rest))
    decreases l, 2
  {
    hide ParsePipe, Backs;
    var after := if l.more.Some? then [Op(';')] + (LineYield(l.more.value) + rest) else rest;
    var amps := seq(l.amps, _ => Op('&'));
    assert LineYield(l) + rest == PipeYield(l.p) + (amps + after);
    AmpsEnd(l.amps, after);
    PipeParsed(l.p, amps + after);
    BacksRead(PipeMeans(l.p), l.amps, after);
    if l.more.Some? {
      assert after[1..] == LineYield(l.more.value) + rest;
      LineParsed(l.more.value, rest);
    }
  }

  lemma AmpsEnd<W>(n: nat, after: seq<Tok<W>>)
    requires after == [] || Is(after, ')') || Is(after, ';')
    ensures Ends(seq(n, _ => Op('&')) + after) && !Is(seq(n, _ => Op('&')) + after, '|')
  {
    if n == 0 {
      assert seq(n, _ => Op('&')) + after == after;
    }
  }

  // ----- What is parsed the grammar derives -----

  lemma {:induction false} DirsFound<W>(ts: seq<Tok<W>>) returns (dirs: seq<Item<W>>)
    requires Redirs(ts).Some?
    ensures forall k :: 0 <= k < |dirs| ==> ItemOk(dirs[k]) && dirs[k].Dir?
    ensures ItemDirs(dirs) == Redirs(ts).value.0 && ItemArgs(dirs) == [] && ts == ItemsYield(dirs) + Redirs(ts).value.1
    decreases |ts|
  {
    dirs := [];
    if IsRedir(ts) {
      var more := DirsFound(ts[2..]);
      hide ItemDirs, ItemArgs, ItemsYield;
      var x := Dir(ts[0].c, ts[1].w);
      ItemsHead(x, more);
      assert ts == [Op(x.op), Word(x.file)] + ts[2..];
      Assoc([Op(x.op), Word(x.file)], ItemsYield(more), Redirs(ts).value.1);
      assert [] + ItemArgs(more) == ItemArgs(more);
      dirs := [x] + more;
    } else {
      assert ItemsYield(dirs) + ts == ts;
    }
  }

  lemma ItemsHead<W>(x: Item<W>, tail: seq<Item<W>>)
    ensures ItemArgs([x] + tail) == (if x.Arg? then [x.w] else []) + ItemArgs(tail)
    ensures ItemDirs([x] + tail) == (if x.Dir? then [To(x.file, x.op != '<')] else []) + ItemDirs(tail)
    ensures ItemsYield([x] + tail) == ItemYield(x) + ItemsYield(tail)
  {
    assert ([x] + tail)[1..] == tail;
  }

  lemma {:induction false} ItemsAdd<W>(a: seq<Item<W>>, b: seq<Item<W>>)
    ensures ItemArgs(a + b) == ItemArgs(a) + ItemArgs(b) && ItemDirs(a + b) == ItemDirs(a) + ItemDirs(b)
    ensures ItemsYield(a + b) == ItemsYield(a) + ItemsYield(b)
  {
    if a == [] {
      assert a + b == b;
    } else {
      var x, t := a[0], a[1..];
      ItemsAdd(t, b);
      assert a + b == [x] + (t + b) && a == [x] + t;
      hide ItemArgs, ItemDirs, ItemsYield, ItemYield;
      ItemsHead(x, t + b);
      ItemsHead(x, t);
      Assoc(if x.Arg? then [x.w] else [], ItemArgs(t), ItemArgs(b));
      Assoc(if x.Dir? then [To(x.file, x.op != '<')] else [], ItemDirs(t), ItemDirs(b));
      Assoc(ItemYield(x), ItemsYield(t), ItemsYield(b));
    }
  }

  lemma Assoc<T>(a: seq<T>, b: seq<T>, c: seq<T>)
    ensures a + b + c == a + (b + c)
  {
  }

  lemma {:induction false} ItemsFound<W>(ts: seq<Tok<W>>, args: seq<W>, rs: seq<To<W>>) returns (items: seq<Item<W>>)
    requires Args(ts, args, rs).Some? && |args| < MAXARGS
    ensures (forall k :: 0 <= k < |items| ==> ItemOk(items[k])) && |args| + |ItemArgs(items)| < MAXARGS
    ensures ts == ItemsYield(items) + Args(ts, args, rs).value.1
    ensures Args(ts, args, rs).value.0 == Wrap(Exec(args + ItemArgs(items)), rs + ItemDirs(items))
    decreases |ts|
  {
    items := [];
    if ts == [] || IsEnd(ts) {
      assert args + [] == args && rs + [] == rs && ItemsYield(items) + ts == ts;
    } else {
      hide Redirs, ItemArgs, ItemDirs, ItemsYield, Wrap;
      var w := ts[0].w;
      var dirs := DirsFound(ts[1..]);
      var more := Redirs(ts[1..]).value;
      var tail := ItemsFound(more.1, args + [w], rs + more.0);
      items := [Arg(w)] + (dirs + tail);
      ItemsAdd(dirs, tail);
      ItemsHead(Arg(w), dirs + tail);
      assert ts == [Word(w)] + ts[1..];
      assert [] + ItemArgs(tail) == ItemArgs(tail) && [] + (ItemDirs(dirs) + ItemDirs(tail)) == ItemDirs(dirs) + ItemDirs(tail);
      Assoc(args, [w], ItemArgs(tail));
      Assoc(rs, ItemDirs(dirs), ItemDirs(tail));
      var rest := Args(ts, args, rs).value.1;
      Assoc(ItemsYield(dirs), ItemsYield(tail), rest);
      Assoc([Word(w)], ItemsYield(dirs) + ItemsYield(tail), rest);
    }
  }

  lemma ParenFound<W>(ts: seq<Tok<W>>, line: LineTree<W>, dirs: seq<Item<W>>)
    requires Is(ts, '(') && ParseBlock(ts).Some? && LineOk(line)
    requires ts[1..] == LineYield(line) + ParseLine(ts[1..]).value.1 && ParseLine(ts[1..]).value.0 == LineMeans(line)
    requires forall k :: 0 <= k < |dirs| ==> ItemOk(dirs[k]) && dirs[k].Dir?
    requires var r := Redirs(ParseLine(ts[1..]).value.1[1..]).value;
             ItemDirs(dirs) == r.0 && ParseLine(ts[1..]).value.1[1..] == ItemsYield(dirs) + r.1
    ensures var e := Paren(line, dirs);
            ExecOk(e) && ts == ExecYield(e) + ParseBlock(ts).value.1 && ParseBlock(ts).value.0 == ExecMeans(e)
  {
    hide Redirs, ParseLine, LineYield, LineMeans, ItemsYield, ItemDirs, Wrap, Nest, LineOk;
    var c := ParseLine(ts[1..]).value;
    NestIsWrap(c.0, ItemDirs(dirs));
    var rest := ParseBlock(ts).value.1;
    assert ts == [Op('(')] + ts[1..] && c.1 == [Op(')')] + c.1[1..];
    Glue(ts, Op('('), LineYield(line), c.1, Op(')'), ItemsYield(dirs), rest);
  }

  lemma Glue<T>(ts: seq<T>, a: T, l: seq<T>, mid: seq<T>, b: T, d: seq<T>, rest: seq<T>)
    requires ts == [a] + (l + mid) && mid == [b] + (d + rest)
    ensures ts == [a] + l + [b] + d + rest
  {
  }

  lemma {:induction false} ExecFound<W>(ts: seq<Tok<W>>) returns (e: ExecTree<W>)
    requires ParseExec(ts).Some?
    ensures ExecOk(e) && ts == ExecYield(e) + ParseExec(ts).value.1 && ParseExec(ts).value.0 == ExecMeans(e)
    decreases |ts|, 1
  {
    hide Wrap, Nest, Redirs, Args, ItemArgs, ItemDirs, ItemsYield, LineYield, LineMeans;
    if Is(ts, '(') {
      var line := LineFound(ts[1..]);
      var dirs := DirsFound(ParseLine(ts[1..]).value.1[1..]);
      e := Paren(line, dirs);
      ParenFound(ts, line, dirs);
    } else {
      var dirs := DirsFound(ts);
      var more := Redirs(ts).value;
      var tail := ItemsFound(more.1, [], more.0);
      e := Simple(dirs + tail);
      ItemsAdd(dirs, tail);
      assert [] + ItemArgs(tail) == ItemArgs(tail);
      NestIsWrap(Exec(ItemArgs(dirs + tail)), ItemDirs(dirs + tail));
      Assoc(ItemsYield(dirs), ItemsYield(tail), ParseExec(ts).value.1);
    }
  }

  lemma {:induction false} PipeFound<W>(ts: seq<Tok<W>>) returns (p: PipeTree<W>)
    requires ParsePipe(ts).Some?
    ensures PipeOk(p) && ts == PipeYield(p) + ParsePipe(ts).value.1 && ParsePipe(ts).value.0 == PipeMeans(p)
    decreases |ts|, 2
  {
    hide ParseExec, ExecYield, ExecMeans, ExecOk;
    var e := ExecFound(ts);
    var c := ParseExec(ts).value;
    if Is(c.1, '|') {
      var more := PipeFound(c.1[1..]);
      p := Bar(e, more);
      assert c.1 == [Op('|')] + c.1[1..];
      var rest := ParsePipe(ts).value.1;
      Assoc([Op('|')], PipeYield(more), rest);
      Assoc(ExecYield(e), [Op('|')] + PipeYield(more), rest);
    } else {
      p := One(e);
      assert ExecYield(e) + [] == ExecYield(e);
    }
  }

  lemma {:induction false} BacksFound<W>(c: Cmd<W>, ts: seq<Tok<W>>) returns (n: nat)
    ensures Backs(c, ts).0 == InBack(c, n) && ts == seq(n, _ => Op('&')) + Backs(c, ts).1
    decreases |ts|
  {
    n := 0;
    if Is(ts, '&') {
      n := BacksFound(Back(c), ts[1..]);
      InBackNext(c, n);
      assert ts == [ts[0]] + ts[1..];
      var amps: seq<Tok<W>> := seq(n, _ => Op('&'));
      assert seq(n + 1, _ => Op('&')) == [Op('&')] + amps;
      n := n + 1;
    }
  }

  lemma {:induction false} LineFound<W>(ts: seq<Tok<W>>) returns (l: LineTree<W>)
    requires ParseLine(ts).Some?
    ensures LineOk(l) && ts == LineYield(l) + ParseLine(ts).value.1 && ParseLine(ts).value.0 == LineMeans(l)
    decreases |ts|, 3
  {
    hide ParsePipe, Backs, PipeYield, PipeMeans, PipeOk, InBack;
    var p := PipeFound(ts);
    var c := ParsePipe(ts).value;
    var n := BacksFound(c.0, c.1);
    var b := Backs(c.0, c.1);
    var amps: seq<Tok<W>> := seq(n, _ => Op('&'));
    Assoc(PipeYield(p), amps, b.1);
    if Is(b.1, ';') {
      var more := LineFound(b.1[1..]);
      l := LineTree(p, n, Some(more));
      hide LineYield, LineMeans;
      LineMore(p, n, more);
      assert b.1 == [Op(';')] + b.1[1..];
      var rest := ParseLine(ts).value.1;
      Assoc([Op(';')], LineYield(more), rest);
      Assoc(PipeYield(p) + amps, [Op(';')] + LineYield(more), rest);
    } else {
      l := LineTree(p, n, None);
      assert PipeYield(p) + amps + [] == PipeYield(p) + amps;
    }
  }

  lemma LineMore<W>(p: PipeTree<W>, n: nat, more: LineTree<W>)
    ensures var l := LineTree(p, n, Some(more));
            && LineYield(l) == PipeYield(p) + seq(n, _ => Op('&')) + ([Op(';')] + LineYield(more))
            && LineMeans(l) == List(InBack(PipeMeans(p), n), LineMeans(more)) && LineOk(l) == (PipeOk(p) && LineOk(more))
  {
  }

  /** The parser accepts exactly what the grammar derives, and gives the command it stands
      for; so no line stands for two. */
  lemma ParsesGrammar<W(!new)>(ts: seq<Tok<W>>, c: Cmd<W>)
    ensures ParseCmd(ts) == Some(c) <==> Derives(ts, c)
  {
    hide ParseLine, LineYield, LineMeans;
    if Derives(ts, c) {
      var l: LineTree<W> :| LineOk(l) && LineYield(l) == ts && LineMeans(l) == c;
      LineParsed(l, []);
      assert LineYield(l) + [] == ts;
    }
    if ParseCmd(ts) == Some(c) {
      var l := LineFound(ts);
      assert LineYield(l) + [] == LineYield(l);
    }
  }

  // ----- Text to tokens -----

  predicate PlainWord(w: string) {
    w != "" && forall k :: 0 <= k < |w| ==> Plain(w[k])
  }

  predicate Spellable(t: Tok<string>) {
    match t
    case Op(c) => Symbol(c) || c == '+'
    case Word(w) => PlainWord(w)
  }

  function Spell(t: Tok<string>): string {
    match t
    case Op(c) => if c == '+' then ">>" else [c]
    case Word(w) => w
  }

  /** The tokens as a line, a space after each. */
  function Render(us: seq<Tok<string>>): string {
    if us == [] then "" else Spell(us[0]) + " " + Render(us[1..])
  }

  lemma WordEndIs(s: string, p: nat, q: nat)
    requires p <= q < |s| && (White(s[q]) || Symbol(s[q])) && forall k :: p <= k < q ==> !White(s[k]) && !Symbol(s[k])
    ensures WordEnd(s, p) == q
  {
  }

  lemma TokensWhite(s: string, p: nat)
    requires p < |s| && White(s[p])
    ensures Tokens(s, p) == Tokens(s, p + 1)
  {
  }

  /** One spelled token and a space. */
  lemma ReadBackToken(s: string, p: nat, u: Tok<string>)
    requires Spellable(u) && p + |Spell(u)| < |s| && s[p..p + |Spell(u)|] == Spell(u) && s[p + |Spell(u)|] == ' '
    ensures !White(s[p]) && Next(s, p) == p + |Spell(u)| && TokText(s, TokAt(s, p)) == u
  {
    var n := |Spell(u)|;
    forall k | p <= k < p + n ensures s[k] == Spell(u)[k - p] {
      assert s[p..p + n][k - p] == s[k];
    }
    if u.Word? {
      WordEndIs(s, p, p + n);
    }
  }

  lemma TokensNext(s: string, p: nat, u: Tok<string>)
    requires Spellable(u) && p + |Spell(u)| < |s| && s[p..p + |Spell(u)|] == Spell(u) && s[p + |Spell(u)|] == ' '
    ensures var ts := Tokens(s, p + |Spell(u)| + 1);
            TokTexts(s, Tokens(s, p)) == [u] + TokTexts(s, ts)
  {
    hide TokText, TokAt, Next, Spell, Spellable;
    ReadBackToken(s, p, u);
    TokensWhite(s, p + |Spell(u)|);
    var ts := Tokens(s, p + |Spell(u)| + 1);
    assert Tokens(s, p) == [TokAt(s, p)] + ts;
    assert TokTexts(s, [TokAt(s, p)] + ts) == [u] + TokTexts(s, ts);
  }

  lemma {:induction false} Lexes(pre: string, us: seq<Tok<string>>)
    requires forall i :: 0 <= i < |us| ==> Spellable(us[i])
    ensures TokTexts(pre + Render(us), Tokens(pre + Render(us), |pre|)) == us
    decreases |us|
  {
    hide TokTexts, Spell, Spellable, Next, TokAt;
    var s := pre + Render(us);
    if us == [] {
      assert Tokens(s, |pre|) == [];
    } else {
      hide Tokens;
      var w, rest := Spell(us[0]), Render(us[1..]);
      var pre' := pre + w + " ";
      assert s == pre' + rest;
      assert s[|pre|..|pre| + |w|] == w && s[|pre| + |w|] == ' ';
      TokensNext(s, |pre|, us[0]);
      Lexes(pre', us[1..]);
      assert [us[0]] + us[1..] == us;
    }
  }

  lemma {:induction false} RenderLine(us: seq<Tok<string>>)
    requires forall i :: 0 <= i < |us| ==> Spellable(us[i])
    ensures Line(Render(us))
  {
    if us != [] {
      RenderLine(us[1..]);
      assert Spellable(us[0]);
    }
  }

  /** Words that the shell reads as words. */
  predicate Printable(c: Cmd<string>) {
    match c
    case Exec(args) => |args| < MAXARGS && forall i :: 0 <= i < |args| ==> PlainWord(args[i])
    case Redir(d, file, _) => Printable(d) && PlainWord(file)
    case Pipe(l, r) => Printable(l) && Printable(r)
    case List(l, r) => Printable(l) && Printable(r)
    case Back(d) => Printable(d)
  }

  predicate AllSpellable(us: seq<Tok<string>>) {
    forall i :: 0 <= i < |us| ==> Spellable(us[i])
  }

  lemma {:induction false} WordsSpellable(args: seq<string>)
    requires forall i :: 0 <= i < |args| ==> PlainWord(args[i])
    ensures AllSpellable(Words(args))
  {
    if args != [] {
      WordsSpellable(args[1..]);
    }
  }

  lemma {:induction false} AtomSpellable(c: Cmd<string>)
    requires Printable(c)
    ensures Small(c) && AllSpellable(Atom(c))
    ensures c.Pipe? || c.List? || c.Back? ==> AllSpellable(Body(c))
  {
    match c
    case Exec(args) => WordsSpellable(args);
    case Redir(d, file, write) =>
      AtomSpellable(d);
      assert RedirToks([To(file, write)]) == [Op(if write then '>' else '<'), Word(file)];
    case Pipe(l, r) => AtomSpellable(l); AtomSpellable(r);
    case List(l, r) => AtomSpellable(l); AtomSpellable(r);
    case Back(d) => AtomSpellable(d);
  }

  function Shown(c: Cmd<string>): string {
    Render(Print(c))
  }

  /** A command printed and parsed is the command, and nothing of the line is left. */
  lemma RoundTrip(c: Cmd<string>)
    requires Printable(c)
    ensures Line(Shown(c))
    ensures var r := ParseCmd(Tokens(Shown(c), 0));
            r.Some? && CmdText(Shown(c), r.value) == c
  {
    hide Tokens, Render, TokTexts, ParseLine, Atom, Body, Spellable;
    AtomSpellable(c);
    PrintParses(c);
    RenderLine(Print(c));
    var s := Shown(c);
    Lexes("", Print(c));
    assert "" + Render(Print(c)) == s;
    LineText(s, Tokens(s, 0));
  }

  // ----- The tokens of a line -----

  /** Two tokens that need a blank between them: words would become one, and > would take a >
      after it. */
  predicate RunOn(t: Tok<string>, u: Tok<string>) {
    (t.Word? && u.Word?) || (t == Op('>') && (u == Op('>') || u == Op('+')))
  }

  predicate Blank(g: string) {
    forall k :: 0 <= k < |g| ==> White(g[k])
  }

  /** The blanks before, between and after tokens. */
  predicate GapsOk(us: seq<Tok<string>>, gaps: seq<string>) {
    && |gaps| == |us| + 1 && AllSpellable(us) && (forall i :: 0 <= i < |gaps| ==> Blank(gaps[i]))
    && forall i :: 0 < i < |us| && gaps[i] == "" ==> !RunOn(us[i - 1], us[i])
  }

  function Spelled(us: seq<Tok<string>>, gaps: seq<string>): string
    requires |gaps| == |us| + 1
  {
    if us == [] then gaps[0] else gaps[0] + Spell(us[0]) + Spelled(us[1..], gaps[1..])
  }

  lemma {:induction false} BlanksSkipped(s: string, p: nat, q: nat)
    requires p <= q <= |s| && forall k :: p <= k < q ==> White(s[k])
    ensures Tokens(s, p) == Tokens(s, q)
    decreases q - p
  {
    if p < q {
      TokensWhite(s, p);
      BlanksSkipped(s, p + 1, q);
    }
  }

  lemma WordEndLast(s: string, p: nat)
    requires p <= |s| && forall k :: p <= k < |s| ==> !White(s[k]) && !Symbol(s[k])
    ensures WordEnd(s, p) == |s|
  {
  }

  /** A spelled token that nothing runs on to. */
  lemma ReadToken(s: string, p: nat, u: Tok<string>)
    requires Spellable(u) && p + |Spell(u)| <= |s| && s[p..p + |Spell(u)|] == Spell(u)
    requires var n := p + |Spell(u)|; n < |s| && u.Word? ==> White(s[n]) || Symbol(s[n])
    requires var n := p + |Spell(u)|; n < |s| && u == Op('>') ==> s[n] != '>'
    ensures p < |s| && !White(s[p]) && Next(s, p) == p + |Spell(u)| && TokText(s, TokAt(s, p)) == u
  {
    var n := |Spell(u)|;
    forall k | p <= k < p + n ensures s[k] == Spell(u)[k - p] {
      assert s[p..p + n][k - p] == s[k];
    }
    if u.Word? {
      if p + n < |s| {
        WordEndIs(s, p, p + n);
      } else {
        WordEndLast(s, p);
      }
    }
  }

  lemma TokensOne(s: string, p: nat)
    requires p < |s| && !White(s[p])
    ensures TokTexts(s, Tokens(s, p)) == [TokText(s, TokAt(s, p))] + TokTexts(s, Tokens(s, Next(s, p)))
  {
    hide TokAt, Next, TokText;
    assert Tokens(s, p) == [TokAt(s, p)] + Tokens(s, Next(s, p));
  }

  /** What comes after a token in such a line. */
  lemma AfterToken(us: seq<Tok<string>>, gaps: seq<string>)
    requires GapsOk(us, gaps) && us != []
    ensures var t := Spelled(us[1..], gaps[1..]);
            && GapsOk(us[1..], gaps[1..])
            && (t != "" && us[0].Word? ==> White(t[0]) || Symbol(t[0])) && (t != "" && us[0] == Op('>') ==> t[0] != '>')
  {
    var vs, hs := us[1..], gaps[1..];
    forall i | 0 <= i < |hs| ensures Blank(hs[i]) {
      assert Blank(gaps[i + 1]);
    }
    forall i | 0 < i < |vs| && hs[i] == "" ensures !RunOn(vs[i - 1], vs[i]) {
      assert gaps[i + 1] == "" && us[i] == vs[i - 1] && us[i + 1] == vs[i];
    }
    if hs[0] != "" {
      assert White(hs[0][0]);
    } else if vs != [] {
      assert !RunOn(us[0], us[1]) && Spellable(us[1]);
    }
  }

  lemma FirstGap(pre: string, us: seq<Tok<string>>, gaps: seq<string>)
    requires GapsOk(us, gaps)
    ensures var s := pre + Spelled(us, gaps); |pre| + |gaps[0]| <= |s| && Tokens(s, |pre|) == Tokens(s, |pre| + |gaps[0]|)
  {
    hide Tokens;
    var s, q := pre + Spelled(us, gaps), |pre| + |gaps[0]|;
    assert Blank(gaps[0]);
    forall k | |pre| <= k < q ensures White(s[k]) {
      assert s[k] == gaps[0][k - |pre|];
    }
    BlanksSkipped(s, |pre|, q);
  }

  /** The first token after its blank, with the rest of the line. */
  lemma FirstToken(pre: string, us: seq<Tok<string>>, gaps: seq<string>)
    requires GapsOk(us, gaps) && us != []
    ensures var t, pre' := Spelled(us[1..], gaps[1..]), pre + gaps[0] + Spell(us[0]);
            && pre + Spelled(us, gaps) == pre' + t
            && TokTexts(pre' + t, Tokens(pre' + t, |pre|)) == [us[0]] + TokTexts(pre' + t, Tokens(pre' + t, |pre'|))
  {
    hide Tokens, TokTexts, TokText, TokAt, Next, AllSpellable, Blank, RunOn, Spell, Spellable;
    FirstGap(pre, us, gaps);
    var w, t := Spell(us[0]), Spelled(us[1..], gaps[1..]);
    var s, q := pre + gaps[0] + w + t, |pre| + |gaps[0]|;
    assert pre + Spelled(us, gaps) == s;
    AfterToken(us, gaps);
    FirstSpellable(us, gaps);
    assert s[q..q + |w|] == w && (t != "" ==> s[q + |w|] == t[0]);
    ReadToken(s, q, us[0]);
    TokensOne(s, q);
  }

  /** Tokens spelled with such blanks are the tokens of the line. */
  lemma {:induction false} SpelledLexes(pre: string, us: seq<Tok<string>>, gaps: seq<string>)
    requires GapsOk(us, gaps)
    ensures var s := pre + Spelled(us, gaps); TokTexts(s, Tokens(s, |pre|)) == us
    decreases |us|
  {
    if us == [] {
      FirstGap(pre, us, gaps);
      assert Tokens(pre + gaps[0], |pre| + |gaps[0]|) == [];
    } else {
      hide Tokens, TokTexts, Spelled, AllSpellable, Blank, RunOn, Spell;
      FirstToken(pre, us, gaps);
      AfterToken(us, gaps);
      SpelledLexes(pre + gaps[0] + Spell(us[0]), us[1..], gaps[1..]);
      assert [us[0]] + us[1..] == us;
    }
  }

  lemma FirstSpellable(us: seq<Tok<string>>, gaps: seq<string>)
    requires GapsOk(us, gaps) && us != []
    ensures Spellable(us[0])
  {
  }

  /** The token at q is spelled there, and nothing runs on to it. */
  lemma TokenSpelled(s: string, q: nat)
    requires Line(s) && q < |s| && !White(s[q])
    ensures var u, n := TokText(s, TokAt(s, q)), Next(s, q);
            && Spellable(u) && s[q..n] == Spell(u)
            && (n < |s| && u.Word? ==> White(s[n]) || Symbol(s[n])) && (n < |s| && u == Op('>') ==> s[n] != '>')
  {
    if Doubled(s, q) {
      assert s[q..q + 2] == ">>";
    } else if !Symbol(s[q]) {
      assert WordEnd(s, q) > q;
      forall k | 0 <= k < WordEnd(s, q) - q ensures Plain(s[q..WordEnd(s, q)][k]) {
      }
    }
  }

  /** These are the blanks of s from p on. */
  ghost predicate Spaced(s: string, p: nat, gaps: seq<string>)
    requires p <= |s|
  {
    GapsOk(TokTexts(s, Tokens(s, p)), gaps) && s[p..] == Spelled(TokTexts(s, Tokens(s, p)), gaps)
  }

  lemma SpacedEnd(s: string, p: nat)
    requires p <= |s| && Skip(s, p) == |s|
    ensures Spaced(s, p, [s[p..]])
  {
    SkipBlank(s, p);
    assert s[p..|s|] == s[p..];
  }

  lemma SpacedNext(s: string, p: nat, more: seq<string>)
    requires Line(s) && p <= |s| && Skip(s, p) < |s| && Spaced(s, Next(s, Skip(s, p)), more)
    ensures Spaced(s, p, [s[p..Skip(s, p)]] + more)
  {
    hide Tokens, TokTexts, TokText, TokAt, Spell, Skip, Next, Spellable, Line, Blank, RunOn, AllSpellable;
    var q := Skip(s, p);
    SkipBlank(s, p);
    TokensSkip(s, p);
    var n, u := Next(s, q), TokText(s, TokAt(s, q));
    TokensOne(s, q);
    TokenSpelled(s, q);
    var us := TokTexts(s, Tokens(s, n));
    assert s[n..] != "" ==> s[n..][0] == s[n];
    GapsMore(s[p..q], u, us, more);
    SpelledMore(s[p..q], u, us, more);
    assert s[p..] == s[p..q] + s[q..n] + s[n..];
  }

  lemma {:induction false} GapsFound(s: string, p: nat) returns (gaps: seq<string>)
    requires Line(s) && p <= |s|
    ensures Spaced(s, p, gaps)
    decreases |s| - p
  {
    hide Spaced, Skip, Next;
    var q := Skip(s, p);
    if q == |s| {
      gaps := [s[p..]];
      SpacedEnd(s, p);
    } else {
      var more := GapsFound(s, Next(s, q));
      gaps := [s[p..q]] + more;
      SpacedNext(s, p, more);
    }
  }

  lemma SpelledMore(g: string, u: Tok<string>, us: seq<Tok<string>>, gaps: seq<string>)
    requires |gaps| == |us| + 1
    ensures Spelled([u] + us, [g] + gaps) == g + Spell(u) + Spelled(us, gaps)
  {
    hide Spell;
    assert ([u] + us)[1..] == us && ([g] + gaps)[1..] == gaps;
  }

  lemma SkipBlank(s: string, p: nat)
    requires p <= |s|
    ensures Blank(s[p..Skip(s, p)])
    decreases |s| - p
  {
    if p < |s| && White(s[p]) {
      SkipBlank(s, p + 1);
      assert s[p..Skip(s, p)] == [s[p]] + s[p + 1..Skip(s, p)];
    }
  }

  lemma GapsMore(g: string, u: Tok<string>, us: seq<Tok<string>>, gaps: seq<string>)
    requires Blank(g) && Spellable(u) && GapsOk(us, gaps)
    requires var t := Spelled(us, gaps);
             (t != "" && u.Word? ==> White(t[0]) || Symbol(t[0])) && (t != "" && u == Op('>') ==> t[0] != '>')
    ensures GapsOk([u] + us, [g] + gaps)
  {
    var vs, hs := [u] + us, [g] + gaps;
    forall i | 0 < i < |vs| && hs[i] == "" ensures !RunOn(vs[i - 1], vs[i]) {
      if i == 1 {
        assert Spellable(us[0]) && Spell(us[0]) != "";
        assert Spelled(us, gaps)[0] == Spell(us[0])[0];
      }
    }
  }

  /** The line stands for this command: its tokens, with blanks where there must be and
      wherever else, are ones the grammar derives as the command. */
  ghost predicate Stands(s: string, c: Cmd<string>) {
    exists us, gaps :: GapsOk(us, gaps) && Spelled(us, gaps) == s && Derives(us, c)
  }

  /** The shell reads a line as a command exactly if it stands for it. */
  lemma ParsesLine(s: string, c: Cmd<string>)
    requires Line(s)
    ensures Stands(s, c) <==> ParseCmd(Tokens(s, 0)).Some? && CmdText(s, ParseCmd(Tokens(s, 0)).value) == c
  {
    hide Tokens, TokTexts, ParseLine, Spelled, Derives, CmdText, AllSpellable, Blank, RunOn;
    var ts := Tokens(s, 0);
    LineText(s, ts);
    ParsesGrammar(TokTexts(s, ts), c);
    if Stands(s, c) {
      var us, gaps :| GapsOk(us, gaps) && Spelled(us, gaps) == s && Derives(us, c);
      SpelledLexes("", us, gaps);
      assert "" + Spelled(us, gaps) == s;
    }
    if Derives(TokTexts(s, ts), c) {
      var gaps := GapsFound(s, 0);
      assert s[0..] == s;
    }
  }

  lemma StandsParses(s: string)
    requires Line(s)
    ensures (exists c :: Stands(s, c)) <==> ParseCmd(Tokens(s, 0)).Some?
    ensures ParseCmd(Tokens(s, 0)).Some? ==> Stands(s, CmdText(s, ParseCmd(Tokens(s, 0)).value))
  {
    hide Stands, Tokens, ParseCmd, CmdText;
    forall c ensures Stands(s, c) <==> ParseCmd(Tokens(s, 0)).Some? && CmdText(s, ParseCmd(Tokens(s, 0)).value) == c {
      ParsesLine(s, c);
    }
    if ParseCmd(Tokens(s, 0)).Some? {
      assert Stands(s, CmdText(s, ParseCmd(Tokens(s, 0)).value));
    }
  }

  // ----- nulterminate -----

  function Elems<T(==)>(xs: seq<T>): set<T> {
    set x | x in xs
  }

  /** The words in a command. */
  function Spans(c: Cmd<Span>): set<Span> {
    match c
    case Exec(args) => Elems(args)
    case Redir(d, file, _) => Spans(d) + {file}
    case Pipe(l, r) => Spans(l) + Spans(r)
    case List(l, r) => Spans(l) + Spans(r)
    case Back(d) => Spans(d)
  }

  function WordSet(ts: seq<Tok<Span>>): set<Span> {
    set t | t in ts && t.Word? :: t.w
  }

  /** Position k is the end of one of the words. */
  ghost predicate EndIn(ws: set<Span>, k: nat) {
    exists w :: w in ws && w.end == k
  }

  /** buf is was with a NUL at the end of each of the words. */
  ghost predicate Ended(was: seq<char>, ws: set<Span>, buf: seq<char>) {
    |buf| == |was| && forall k :: 0 <= k < |was| ==> buf[k] == if EndIn(ws, k) then NUL else was[k]
  }

  lemma EndedThen(a: seq<char>, v: set<Span>, b: seq<char>, w: set<Span>, c: seq<char>)
    requires Ended(a, v, b) && Ended(b, w, c)
    ensures Ended(a, v + w, c)
  {
    forall k: nat ensures EndIn(v + w, k) <==> EndIn(v, k) || EndIn(w, k) {
      if x :| x in v && x.end == k {
        assert x in v + w;
      }
      if x :| x in w && x.end == k {
        assert x in v + w;
      }
    }
  }

  lemma EndedOne(a: seq<char>, w: Span)
    requires w.end < |a|
    ensures Ended(a, {w}, a[w.end := NUL])
  {
    assert w in {w};
  }

  method Nulterminate(c: Cmd<Span>, buf: array<char>)
    requires forall w :: w in Spans(c) ==> w.end < buf.Length
    modifies buf
    ensures Ended(old(buf[..]), Spans(c), buf[..])
    decreases c
  {
    hide Ended;
    ghost var was := buf[..];
    match c
    case Exec(args) =>
      TerminateArgs(args, buf);
    case Redir(d, file, write) =>
      Nulterminate(d, buf);
      EndedOne(buf[..], file);
      ghost var mid := buf[..];
      buf[file.end] := NUL;
      assert buf[..] == mid[file.end := NUL];
      EndedThen(was, Spans(d), mid, {file}, buf[..]);
    case Pipe(l, r) =>
      Nulterminate(l, buf);
      ghost var mid := buf[..];
      Nulterminate(r, buf);
      EndedThen(was, Spans(l), mid, Spans(r), buf[..]);
    case List(l, r) =>
      Nulterminate(l, buf);
      ghost var mid := buf[..];
      Nulterminate(r, buf);
      EndedThen(was, Spans(l), mid, Spans(r), buf[..]);
    case Back(d) =>
      Nulterminate(d, buf);
  }

  method TerminateArgs(args: seq<Span>, buf: array<char>)
    requires forall w :: w in args ==> w.end < buf.Length
    modifies buf
    ensures Ended(old(buf[..]), Elems(args), buf[..])
  {
    ghost var was := buf[..];
    var i := 0;
    EndedNone(was);
    assert Elems(args[..0]) == {};
    while i < |args|
      invariant 0 <= i <= |args| && Ended(was, Elems(args[..i]), buf[..])
    {
      ghost var mid := buf[..];
      EndedOne(mid, args[i]);
      buf[args[i].end] := NUL;
      assert buf[..] == mid[args[i].end := NUL];
      EndedThen(was, Elems(args[..i]), mid, {args[i]}, buf[..]);
      assert Elems(args[..i + 1]) == Elems(args[..i]) + {args[i]};
      i := i + 1;
    }
    assert args[..i] == args;
  }

  lemma EndedNone(a: seq<char>)
    ensures Ended(a, {}, a)
  {
  }

  /** The C string at p. */
  function CString(b: seq<char>, p: nat): string
    decreases |b| - p
  {
    if p >= |b| || b[p] == NUL then "" else [b[p]] + CString(b, p + 1)
  }

  lemma {:induction false} CStringIs(b: seq<char>, p: nat, q: nat)
    requires p <= q < |b| && b[q] == NUL && forall k :: p <= k < q ==> b[k] != NUL
    ensures CString(b, p) == b[p..q]
    decreases q - p
  {
    if p < q {
      CStringIs(b, p + 1, q);
      assert b[p..q] == [b[p]] + b[p + 1..q];
    }
  }

  /** Words of the line lie apart: between the end of one and the start of another there
      is a blank, a symbol or another word. */
  ghost predicate Apart(s: string, p: nat, ws: set<Span>) {
    && (forall w :: w in ws ==> p <= w.at < w.end <= |s|)
    && (forall v, w :: v in ws && w in ws && v.at < w.at ==> v.end < w.at)
    && (forall v, w :: v in ws && w in ws && v.at == w.at ==> v == w)
  }

  lemma {:induction false} TokensApart(s: string, p: nat)
    requires p <= |s|
    ensures Apart(s, p, WordSet(Tokens(s, p)))
    decreases |s| - p
  {
    var q := Skip(s, p);
    if q < |s| {
      var r := Next(s, q);
      TokensApart(s, r);
      var ts := Tokens(s, r);
      WordSetNext(TokAt(s, q), ts);
      if TokAt(s, q).Word? {
        AfterWord(s, r);
        assert WordEnd(s, q) > q;
      }
    }
  }

  lemma WordSetNext(t: Tok<Span>, ts: seq<Tok<Span>>)
    ensures WordSet([t] + ts) == WordSet(ts) + if t.Word? then {t.w} else {}
  {
    forall w | w in WordSet([t] + ts) ensures w in WordSet(ts) + if t.Word? then {t.w} else {} {
      var u :| u in [t] + ts && u.Word? && u.w == w;
    }
    forall w | w in WordSet(ts) + if t.Word? then {t.w} else {} ensures w in WordSet([t] + ts) {
      if w in WordSet(ts) {
        var u :| u in ts && u.Word? && u.w == w;
        assert u in [t] + ts;
      } else {
        assert t in [t] + ts;
      }
    }
  }

  /** No word starts where another ends. */
  lemma AfterWord(s: string, r: nat)
    requires r <= |s| && (r < |s| ==> White(s[r]) || Symbol(s[r]))
    ensures forall w :: w in WordSet(Tokens(s, r)) ==> r < w.at
  {
    var q := Skip(s, r);
    if q < |s| {
      WordsFrom(s, Next(s, q));
      WordSetNext(TokAt(s, q), Tokens(s, Next(s, q)));
    }
  }

  lemma {:induction false} WordsFrom(s: string, p: nat)
    requires p <= |s|
    ensures forall w :: w in WordSet(Tokens(s, p)) ==> p <= w.at
    decreases |s| - p
  {
    var q := Skip(s, p);
    if q < |s| {
      WordsFrom(s, Next(s, q));
      WordSetNext(TokAt(s, q), Tokens(s, Next(s, q)));
    }
  }

  // ----- Whose words a command has -----

  function ToSpans(rs: seq<To<Span>>): set<Span> {
    set r | r in rs :: r.file
  }

  /** Everything parsed, and everything left, comes from the tokens. */
  ghost predicate From(ts: seq<Tok<Span>>, r: Option<(Cmd<Span>, seq<Tok<Span>>)>) {
    r.Some? ==> Spans(r.value.0) <= WordSet(ts) && WordSet(r.value.1) <= WordSet(ts)
  }

  lemma WordSetDrop(ts: seq<Tok<Span>>, k: nat)
    requires k <= |ts|
    ensures WordSet(ts[k..]) <= WordSet(ts)
  {
    forall w | w in WordSet(ts[k..]) ensures w in WordSet(ts) {
      var t :| t in ts[k..] && t.Word? && t.w == w;
      assert t in ts;
    }
  }

  lemma WordIn(ts: seq<Tok<Span>>, k: nat)
    requires k < |ts| && ts[k].Word?
    ensures ts[k].w in WordSet(ts)
  {
  }

  lemma {:induction false} RedirsFrom(ts: seq<Tok<Span>>)
    ensures Redirs(ts).Some? ==> ToSpans(Redirs(ts).value.0) <= WordSet(ts) && WordSet(Redirs(ts).value.1) <= WordSet(ts)
    decreases |ts|
  {
    if IsRedir(ts) && |ts| >= 2 && ts[1].Word? {
      hide WordSet;
      RedirsFrom(ts[2..]);
      WordSetDrop(ts, 2);
      WordIn(ts, 1);
      var more := Redirs(ts[2..]);
      if more.Some? {
        forall w | w in ToSpans(Redirs(ts).value.0) ensures w == ts[1].w || w in ToSpans(more.value.0) {
          var r :| r in Redirs(ts).value.0 && r.file == w;
          assert Redirs(ts).value.0 == [To(ts[1].w, ts[0].c != '<')] + more.value.0;
        }
      }
    }
  }

  lemma {:induction false} WrapSpans(c: Cmd<Span>, rs: seq<To<Span>>)
    ensures Spans(Wrap(c, rs)) <= Spans(c) + ToSpans(rs)
    decreases |rs|
  {
    if rs != [] {
      WrapSpans(Redir(c, rs[0].file, rs[0].write), rs[1..]);
      assert rs[0].file in ToSpans(rs);
      assert ToSpans(rs[1..]) <= ToSpans(rs);
    }
  }

  lemma {:induction false} ArgsFrom(ts: seq<Tok<Span>>, args: seq<Span>, rs: seq<To<Span>>)
    ensures var r := Args(ts, args, rs);
            r.Some? ==> Spans(r.value.0) <= WordSet(ts) + Elems(args) + ToSpans(rs) && WordSet(r.value.1) <= WordSet(ts)
    decreases |ts|
  {
    hide WordSet;
    if ts == [] || IsEnd(ts) {
      WrapSpans(Exec(args), rs);
    } else if ts[0].Word? && |args| + 1 < MAXARGS {
      WordSetDrop(ts, 1);
      WordIn(ts, 0);
      RedirsFrom(ts[1..]);
      var more := Redirs(ts[1..]);
      if more.Some? {
        ArgsFrom(more.value.1, args + [ts[0].w], rs + more.value.0);
        ToSpansMore(rs, more.value.0);
        assert Elems(args + [ts[0].w]) == Elems(args) + {ts[0].w};
      }
    }
  }

  lemma ToSpansMore(a: seq<To<Span>>, b: seq<To<Span>>)
    ensures ToSpans(a + b) <= ToSpans(a) + ToSpans(b)
  {
  }

  lemma {:induction false} ExecFrom(ts: seq<Tok<Span>>)
    ensures From(ts, ParseExec(ts))
    decreases |ts|, 1
  {
    hide WordSet, Args;
    if Is(ts, '(') {
      BlockFrom(ts);
    } else {
      RedirsFrom(ts);
      if Redirs(ts).Some? {
        ArgsFrom(Redirs(ts).value.1, [], Redirs(ts).value.0);
        var none: seq<Span> := [];
        assert Elems(none) == {};
      }
    }
  }

  lemma {:induction false} BlockFrom(ts: seq<Tok<Span>>)
    requires Is(ts, '(')
    ensures From(ts, ParseBlock(ts))
    decreases |ts|, 0
  {
    hide WordSet, Redirs;
    WordSetDrop(ts, 1);
    LineFrom(ts[1..]);
    var c := ParseLine(ts[1..]);
    if c.Some? && Is(c.value.1, ')') {
      WordSetDrop(c.value.1, 1);
      RedirsFrom(c.value.1[1..]);
      if Redirs(c.value.1[1..]).Some? {
        WrapSpans(c.value.0, Redirs(c.value.1[1..]).value.0);
      }
    }
  }

  lemma {:induction false} PipeFrom(ts: seq<Tok<Span>>)
    ensures From(ts, ParsePipe(ts))
    decreases |ts|, 2
  {
    hide WordSet;
    ExecFrom(ts);
    var c := ParseExec(ts);
    if c.Some? && Is(c.value.1, '|') {
      WordSetDrop(c.value.1, 1);
      PipeFrom(c.value.1[1..]);
    }
  }

  lemma {:induction false} BacksFrom(c: Cmd<Span>, ts: seq<Tok<Span>>)
    ensures Spans(Backs(c, ts).0) == Spans(c) && WordSet(Backs(c, ts).1) <= WordSet(ts)
    decreases |ts|
  {
    hide WordSet;
    if Is(ts, '&') {
      WordSetDrop(ts, 1);
      BacksFrom(Back(c), ts[1..]);
    }
  }

  lemma {:induction false} LineFrom(ts: seq<Tok<Span>>)
    ensures From(ts, ParseLine(ts))
    decreases |ts|, 3
  {
    hide WordSet;
    PipeFrom(ts);
    var c := ParsePipe(ts);
    if c.Some? {
      BacksFrom(c.value.0, c.value.1);
      var b := Backs(c.value.0, c.value.1);
      if Is(b.1, ';') {
        WordSetDrop(b.1, 1);
        LineFrom(b.1[1..]);
      }
    }
  }

  /** However the ends of some of the words of a line are overwritten, each of them reads
      back whole as a C string. */
  lemma ReadsBack(s: string, ws: set<Span>, buf: seq<char>, w: Span)
    requires Line(s) && Apart(s, 0, ws) && w in ws && Ended(s + [NUL], ws, buf)
    ensures CString(buf, w.at) == s[w.at..w.end]
  {
    assert EndIn(ws, w.end);
    forall k | w.at <= k < w.end ensures buf[k] == s[k] {
      forall v | v in ws ensures v.end != k {
        assert v.at < w.at || v.at == w.at || w.at < v.at;
      }
      assert (s + [NUL])[k] == s[k];
    }
    CStringIs(buf, w.at, w.end);
    assert buf[w.at..w.end] == s[w.at..w.end];
  }

  lemma ParsedApart(s: string, c: Cmd<Span>)
    requires ParseCmd(Tokens(s, 0)) == Some(c)
    ensures Apart(s, 0, Spans(c))
  {
    hide Tokens, ParseLine;
    LineFrom(Tokens(s, 0));
    TokensApart(s, 0);
  }

  /** parsecmd on the line s, which lies in buf with its NUL: the command the tokens spell,
      each of its words a C string of its own in buf; or a syntax error and buf as it was. */
  method RunCmd(buf: array<char>, s: string) returns (ok: bool, cmd: Cmd<Span>)
    requires Line(s) && buf[..] == s + [NUL]
    modifies buf
    ensures ok <==> exists c :: Stands(s, c)
    ensures ok ==> Stands(s, CmdText(s, cmd)) && ParseCmd(Tokens(s, 0)) == Some(cmd)
    ensures ok ==> forall w :: w in Spans(cmd) ==> CString(buf[..], w.at) == Text(s, w) != ""
    ensures !ok ==> buf[..] == old(buf[..])
  {
    hide Tokens, ParseLine, Ended, CString, Stands, CmdText;
    StandsParses(s);
    var parser := new Parser(s);
    ok, cmd := parser.RunLine();
    if !ok {
      return;
    }
    var _ := parser.Peek("");
    ok := parser.pos == |s|;
    if !ok {
      return;
    }
    ParsedApart(s, cmd);
    Nulterminate(cmd, buf);
    forall w | w in Spans(cmd) ensures CString(buf[..], w.at) == Text(s, w) != "" {
      ReadsBack(s, Spans(cmd), buf[..], w);
    }
  }
}
