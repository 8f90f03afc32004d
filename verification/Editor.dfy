/** editor.c: loading a file in whatever pieces read returns, saving it, and the in-place
    edits of the table of lines. A line is the C string in its buffer of 256 bytes. */
module Editor {
  import opened Blocks
  import opened Options

  const MAX_LINE_NUMBER: nat := 256
  const MAX_LINE_LENGTH: nat := 256
  const NEWLINE: Byte := 10

  type Bytes = seq<Byte>

  // ----- Files and lines -----

  /** The pieces of a file between its newlines; one more than there are newlines. */
  function Split(bs: Bytes): (ls: seq<Bytes>)
    ensures |ls| > 0
  {
    if bs == [] then [[]]
    else
      var b, ls := bs[|bs| - 1], Split(bs[..|bs| - 1]);
      if b == NEWLINE then ls + [[]] else ls[..|ls| - 1] + [ls[|ls| - 1] + [b]]
  }

  /** The lines with newlines between them. */
  function Join(ls: seq<Bytes>): Bytes
    requires |ls| > 0
  {
    if |ls| == 1 then ls[0] else Join(ls[..|ls| - 1]) + [NEWLINE] + ls[|ls| - 1]
  }

  predicate NoNewline(l: Bytes) {
    forall i :: 0 <= i < |l| ==> l[i] != NEWLINE
  }

  lemma {:induction false} JoinSplit(bs: Bytes)
    ensures Join(Split(bs)) == bs
  {
    if bs != [] {
      var m := |bs| - 1;
      var b, ls := bs[m], Split(bs[..m]);
      JoinSplit(bs[..m]);
      if b == NEWLINE {
        assert Split(bs)[..|ls|] == ls;
        assert Join(ls) + [NEWLINE] + [] == bs;
      } else {
        JoinLast(ls, [b]);
        assert bs[..m] + [b] == bs;
      }
    }
  }

  /** More text on the last line. */
  lemma JoinLast(ls: seq<Bytes>, p: Bytes)
    requires |ls| > 0
    ensures Join(ls[..|ls| - 1] + [ls[|ls| - 1] + p]) == Join(ls) + p
  {
    var m := |ls| - 1;
    var ls' := ls[..m] + [ls[m] + p];
    if m > 0 {
      assert ls'[..m] == ls[..m];
      assert Join(ls[..m]) + [NEWLINE] + (ls[m] + p) == Join(ls[..m]) + [NEWLINE] + ls[m] + p;
    }
  }

  lemma {:induction false} SplitPiece(bs: Bytes, p: Bytes)
    requires NoNewline(p)
    ensures var ls := Split(bs); Split(bs + p) == ls[..|ls| - 1] + [ls[|ls| - 1] + p]
    decreases |p|
  {
    var ls := Split(bs);
    var m := |ls| - 1;
    if p == [] {
      assert bs + p == bs && ls[m] + p == ls[m];
    } else {
      var k := |p| - 1;
      SplitPiece(bs, p[..k]);
      assert (bs + p)[..|bs + p| - 1] == bs + p[..k];
      var mid := ls[..m] + [ls[m] + p[..k]];
      assert mid[..m] == ls[..m] && mid[m] == ls[m] + p[..k];
      assert ls[m] + p[..k] + [p[k]] == ls[m] + p;
    }
  }

  lemma SplitNewline(bs: Bytes)
    ensures Split(bs + [NEWLINE]) == Split(bs) + [[]]
  {
    assert (bs + [NEWLINE])[..|bs|] == bs;
  }

  lemma {:induction false} SplitJoin(ls: seq<Bytes>)
    requires |ls| > 0 && forall i :: 0 <= i < |ls| ==> NoNewline(ls[i])
    ensures Split(Join(ls)) == ls
  {
    hide Split, NoNewline;
    var m := |ls| - 1;
    if m == 0 {
      SplitNone();
      SplitPiece([], ls[0]);
      assert [] + ls[0] == ls[0];
      assert ls == [ls[0]];
    } else {
      SplitJoin(ls[..m]);
      var bs := Join(ls[..m]);
      SplitNewline(bs);
      SplitPiece(bs + [NEWLINE], ls[m]);
      var mid := ls[..m] + [[]];
      assert mid[..m] == ls[..m] && mid[m] + ls[m] == ls[m];
      assert ls == ls[..m] + [ls[m]];
    }
  }

  lemma SplitNone()
    ensures Split([]) == [[]]
  {
  }

  // ----- What the table of lines can hold -----

  /** A C string that fits its buffer. */
  predicate FitsBuffer(l: Bytes) {
    |l| < MAX_LINE_LENGTH && forall i :: 0 <= i < |l| ==> l[i] != 0
  }

  predicate FitsTable(ls: seq<Bytes>) {
    |ls| <= MAX_LINE_NUMBER && forall i :: 0 <= i < |ls| ==> FitsBuffer(ls[i])
  }

  /** A file that fits: at most 256 lines, none longer than 255 bytes, no NUL. */
  predicate FitsFile(bs: Bytes) {
    FitsTable(Split(bs))
  }

  lemma {:induction false} FitsShorter(bs: Bytes, k: nat)
    requires k <= |bs| && FitsFile(bs)
    ensures FitsFile(bs[..k])
    decreases |bs| - k
  {
    if k == |bs| {
      assert bs[..k] == bs;
    } else {
      FitsShorter(bs, k + 1);
      var c := bs[..k + 1];
      assert c[..k] == bs[..k];
      var ls, ls' := Split(bs[..k]), Split(c);
      forall i | 0 <= i < |ls| ensures FitsBuffer(ls[i]) {
        assert FitsBuffer(ls'[i]);
        if i == |ls| - 1 && c[k] != NEWLINE {
          assert ls'[i] == ls[i] + [c[k]];
          assert forall j :: 0 <= j < |ls[i]| ==> ls'[i][j] == ls[i][j];
        }
      }
    }
  }

  /** The bytes up to the first NUL. */
  function Cut(l: Bytes): (r: Bytes)
    ensures |r| <= |l| && r == l[..|r|] && (forall i :: 0 <= i < |r| ==> r[i] != 0) && (|r| < |l| ==> l[|r|] == 0)
  {
    if l == [] || l[0] == 0 then [] else [l[0]] + Cut(l[1..])
  }

  // ----- The editor -----

  function Contents(text: seq<Option<Bytes>>, n: nat): (ls: seq<Bytes>)
    requires n <= |text| && forall i :: 0 <= i < n ==> text[i].Some?
    ensures |ls| == n && forall i :: 0 <= i < n ==> ls[i] == text[i].value
  {
    if n == 0 then [] else Contents(text, n - 1) + [text[n - 1].value]
  }

  /** Lines up to number last, then NULL. */
  predicate Table(text: seq<Option<Bytes>>, last: nat) {
    && |text| == MAX_LINE_NUMBER && last < MAX_LINE_NUMBER
    && (forall i :: 0 <= i < |text| ==> (text[i].Some? <==> i <= last))
    && (forall i :: 0 <= i <= last ==> FitsBuffer(text[i].value))
  }

  /** The last line with a piece on it, as strcat_n does it. */
  function Onto(ls: seq<Bytes>, p: Bytes): seq<Bytes>
    requires |ls| > 0
  {
    var m := |ls| - 1;
    if |ls[m]| + |p| >= MAX_LINE_LENGTH then ls else ls[m := Cut(ls[m] + p)]
  }

  lemma CutWhole(l: Bytes)
    requires forall i :: 0 <= i < |l| ==> l[i] != 0
    ensures Cut(l) == l
  {
  }

  /** In a file that fits, no piece is lost. */
  lemma PieceFits(file: Bytes, done: Bytes, p: Bytes)
    requires FitsFile(file) && done + p <= file && NoNewline(p)
    ensures Onto(Split(done), p) == Split(done + p)
  {
    hide Split;
    assert file[..|done + p|] == done + p;
    FitsShorter(file, |done + p|);
    SplitPiece(done, p);
    var ls, ls' := Split(done), Split(done + p);
    var m := |ls| - 1;
    assert ls' == ls[..m] + [ls[m] + p] && FitsBuffer(ls'[m]);
    CutWhole(ls[m] + p);
    assert ls[m := ls[m] + p] == ls[..m] + [ls[m] + p];
  }

  /** Nor is a line. */
  lemma LineFits(file: Bytes, done: Bytes)
    requires FitsFile(file) && done + [NEWLINE] <= file
    ensures |Split(done)| < MAX_LINE_NUMBER && Split(done + [NEWLINE]) == Split(done) + [[]]
  {
    hide Split;
    assert file[..|done| + 1] == done + [NEWLINE];
    FitsShorter(file, |done| + 1);
    SplitNewline(done);
  }

  /** The load loop from next to i, up to a newline or the end of the buffer. */
  lemma Advance(done: Bytes, buf: Bytes, next: nat, i: nat, file: Bytes)
    requires next <= i <= |buf| && done + buf <= file && forall k :: next <= k < i ==> buf[k] != NEWLINE
    ensures FitsFile(file) ==> Onto(Split(done + buf[..next]), buf[next..i]) == Split(done + buf[..i])
    ensures FitsFile(file) && i < |buf| && buf[i] == NEWLINE ==>
              && |Split(done + buf[..i])| < MAX_LINE_NUMBER
              && Split(done + buf[..i + 1]) == Split(done + buf[..i]) + [[]]
    ensures buf[..|buf|] == buf
  {
    hide Split, FitsFile, Onto;
    if FitsFile(file) {
      assert done + buf[..next] + buf[next..i] == done + buf[..i];
      assert done + buf[..i] <= file;
      PieceFits(file, done + buf[..next], buf[next..i]);
      if i < |buf| && buf[i] == NEWLINE {
        assert done + buf[..i] + [NEWLINE] == done + buf[..i + 1];
        assert done + buf[..i + 1] <= file;
        LineFits(file, done + buf[..i]);
      }
    }
  }

  /** What a command comes to; past the table the source reads or writes what is not its. */
  datatype Outcome = Done | Invalid | PastTable

  function InsOutcome(lines: nat, n: int): Outcome {
    if n <= 0 || n > lines + 1 then Invalid else if n > MAX_LINE_NUMBER then PastTable else Done
  }

  function DelOutcome(lines: nat, n: int): Outcome {
    if n <= 0 || n > lines then Invalid else if lines == MAX_LINE_NUMBER then PastTable else Done
  }

  /** What a table has room for. */
  function Kept(ls: seq<Bytes>): seq<Bytes> {
    if |ls| > MAX_LINE_NUMBER then ls[..MAX_LINE_NUMBER] else ls
  }

  /** The lines from n on have been moved down. */
  predicate Down(text: seq<Option<Bytes>>, text': seq<Option<Bytes>>, last: nat, n: int) {
    && Table(text, last) && 1 <= n <= last + 2 && n <= MAX_LINE_NUMBER && |text'| == MAX_LINE_NUMBER
    && (forall j :: 0 <= j < n ==> text'[j] == text[j])
    && (forall j :: n <= j < MAX_LINE_NUMBER ==> text'[j] == text[j - 1])
  }

  lemma InsertedAt(ls: seq<Bytes>, n: int, x: Bytes, i: nat)
    requires 1 <= n <= |ls| + 1 && !(n == |ls| + 1 && ls != [] && ls[|ls| - 1] == []) && i <= |ls|
    ensures |Inserted(ls, n, x)| == |ls| + 1
    ensures Inserted(ls, n, x)[i] == if i < n - 1 then ls[i] else if i == n - 1 then x else ls[i - 1]
  {
  }

  /** The last line once another has been put in. */
  function More(last: nat): nat {
    if last < MAX_LINE_NUMBER - 1 then last + 1 else last
  }

  lemma DownPlain(text: seq<Option<Bytes>>, text': seq<Option<Bytes>>, last: nat, n: int, x: Bytes)
    requires Down(text, text', last, n) && FitsBuffer(x) && !(n == last + 2 && text[last].value == [])
    ensures var t := text'[n - 1 := Some(x)];
            Table(t, More(last)) && Contents(t, More(last) + 1) == Kept(Inserted(Contents(text, last + 1), n, x))
  {
    hide FitsBuffer, Contents, Inserted;
    var t, ls := text'[n - 1 := Some(x)], Contents(text, last + 1);
    DownTable(text, text', last, n, x);
    InsertedAt(ls, n, x, 0);
    var ms := Contents(t, More(last) + 1);
    forall i | 0 <= i < More(last) + 1 ensures ms[i] == Inserted(ls, n, x)[i] {
      InsertedAt(ls, n, x, i);
    }
  }

  lemma DownTable(text: seq<Option<Bytes>>, text': seq<Option<Bytes>>, last: nat, n: int, x: Bytes)
    requires Down(text, text', last, n) && FitsBuffer(x)
    ensures Table(text'[n - 1 := Some(x)], More(last))
  {
    hide FitsBuffer;
    var t := text'[n - 1 := Some(x)];
    forall i | 0 <= i < |t| ensures t[i] == if i < n - 1 then text[i] else if i == n - 1 then Some(x) else text[i - 1] {
    }
  }

  lemma DownLast(text: seq<Option<Bytes>>, text': seq<Option<Bytes>>, last: nat, n: int, x: Bytes)
    requires Down(text, text', last, n) && FitsBuffer(x) && n == last + 2 && text[last].value == []
    ensures var t := text'[n - 1 := Some([])][n - 2 := Some(x)];
            Table(t, last + 1) && Contents(t, last + 2) == Inserted(Contents(text, last + 1), n, x)
  {
    hide FitsBuffer, Contents;
    EmptyFits();
    var t := text'[n - 1 := Some([])][n - 2 := Some(x)];
    var ls := Contents(text, last + 1);
    forall i | 0 <= i <= last + 1 ensures t[i].Some? && FitsBuffer(t[i].value) && t[i].value == Inserted(ls, n, x)[i] {
    }
    assert Table(t, last + 1);
    assert Contents(t, last + 2) == Inserted(ls, n, x);
  }

  lemma DownNull(text: seq<Option<Bytes>>, text': seq<Option<Bytes>>, last: nat, n: int)
    requires Down(text, text', last, n)
    ensures text'[n - 1].None? <==> n == last + 2
    ensures n == last + 2 ==> text'[n - 2] == text[last] && text[last].Some?
  {
    assert text'[n - 1] == text[n - 1];
  }

  lemma EmptyFits()
    ensures FitsBuffer([])
  {
  }

  /** The lines after n have been moved up, and the last place emptied. */
  lemma Closed(text: seq<Option<Bytes>>, text': seq<Option<Bytes>>, last: nat, n: int)
    requires Table(text, last) && 1 <= n <= last + 1 && |text'| == MAX_LINE_NUMBER
    requires forall j :: 0 <= j < n - 1 ==> text'[j] == text[j]
    requires forall j :: n - 1 <= j < last ==> text'[j] == text[j + 1]
    requires text'[last] == Some([]) && forall j :: last < j < MAX_LINE_NUMBER ==> text'[j] == text[j]
    ensures last == 0 ==> Table(text', 0) && Contents(text', 1) == Deleted(Contents(text, 1), n)
    ensures last > 0 ==> Table(text'[last := None], last - 1)
                         && Contents(text'[last := None], last) == Deleted(Contents(text, last + 1), n)
  {
    hide FitsBuffer;
    EmptyFits();
    var t := text'[last := None];
    forall i | 0 <= i < last ensures t[i].Some? && FitsBuffer(t[i].value) {
      assert i < n - 1 ==> text'[i] == text[i];
      assert i >= n - 1 ==> text'[i] == text[i + 1];
    }
    if last > 0 {
      var ls, ms := Deleted(Contents(text, last + 1), n), Contents(t, last);
      forall i | 0 <= i < last ensures ms[i] == ls[i] {
        assert ms[i] == t[i].value;
      }
    }
  }

  class Text {
    /** The buffers, none where the pointer is NULL. */
    var text: seq<Option<Bytes>>
    var lineNumber: nat

    ghost predicate Valid()
      reads this
    {
      Table(text, lineNumber)
    }

    ghost function Lines(): (ls: seq<Bytes>)
      requires Valid()
      reads this
      ensures |ls| == lineNumber + 1 && FitsTable(ls) && forall i :: 0 <= i < |ls| ==> ls[i] == text[i].value
    {
      Contents(text, lineNumber + 1)
    }

    /** One empty line. */
    constructor ()
      ensures Valid() && Lines() == [[]]
    {
      text := [Some([])] + seq(MAX_LINE_NUMBER - 1, _ => None);
      lineNumber := 0;
      new;
      assert Lines() == [[]];
    }

    /** strcat_n onto the current line: all of src, or nothing if it does not fit. */
    method StrcatN(src: Bytes)
      requires Valid()
      modifies this`text
      ensures Valid()
      ensures Lines() == Onto(old(Lines()), src)
    {
      if |src| == 0 {
        assert text[lineNumber].value + src == text[lineNumber].value;
        CutWhole(text[lineNumber].value);
        assert Onto(Lines(), src) == Lines();
        return;
      }
      var dest := text[lineNumber].value;
      if |src| + |dest| >= MAX_LINE_LENGTH {
        return;
      }
      var i := 0;
      var r := dest;
      while i < |src|
        invariant 0 <= i <= |src| && r == dest + src[..i] && text == old(text)
      {
        r := r + [src[i]];
        i := i + 1;
      }
      assert src[..i] == src;
      text := text[lineNumber := Some(Cut(r))];
      assert Lines() == Onto(old(Lines()), src);
    }

    /** A new, empty line. */
    method NewLine() returns (full: bool)
      requires Valid()
      modifies this
      ensures Valid() && full == (|old(Lines())| == MAX_LINE_NUMBER)
      ensures Lines() == if full then old(Lines()) else old(Lines()) + [[]]
    {
      full := lineNumber >= MAX_LINE_NUMBER - 1;
      if !full {
        lineNumber := lineNumber + 1;
        text := text[lineNumber := Some([])];
        assert Lines() == old(Lines()) + [[]];
      }
    }

    /** One buffer of the load loop, after the bytes `done`. If the whole file fits the
        lines are those of the file so far, wherever the buffer was cut. */
    method LoadChunk(buf: Bytes, ghost done: Bytes, ghost file: Bytes) returns (full: bool)
      requires Valid() && 0 < |buf| && done + buf <= file && (FitsFile(file) ==> Lines() == Split(done))
      modifies this
      ensures Valid() && (FitsFile(file) ==> !full && Lines() == Split(done + buf))
    {
      hide Split, FitsFile, FitsBuffer, Onto, Contents, FitsTable;
      var i, next := 0, 0;
      full := false;
      assert done + buf[..0] == done;
      while i < |buf|
        invariant Valid() && 0 <= i <= |buf| && 0 <= next < |buf| && !full && (i == 0 || next == i + 1)
        invariant FitsFile(file) ==> Lines() == Split(done + buf[..next])
        decreases |buf| - next
      {
        i := next;
        while i < |buf| && buf[i] != NEWLINE
          invariant next <= i <= |buf| && forall k :: next <= k < i ==> buf[k] != NEWLINE
        {
          i := i + 1;
        }
        Advance(done, buf, next, i, file);
        StrcatN(buf[next..i]);
        if i < |buf| && buf[i] == NEWLINE {
          full := NewLine();
        }
        if full || i >= |buf| - 1 {
          break;
        } else {
          next := i + 1;
        }
      }
    }

    /** The load loop of main on what read returns, chunk by chunk. The lines are those of
        the file exactly if the file fits. */
    method Load(chunks: seq<Bytes>)
      requires Valid() && Lines() == [[]] && forall k :: 0 <= k < |chunks| ==> chunks[k] != []
      modifies this
      ensures Valid() && (Lines() == Split(Joined(chunks)) <==> FitsFile(Joined(chunks)))
    {
      hide Split, FitsBuffer, Onto, Contents;
      SplitNone();
      ghost var file := Joined(chunks);
      var k := 0;
      while k < |chunks|
        invariant 0 <= k <= |chunks| && Valid() && (FitsFile(file) ==> Lines() == Split(Joined(chunks[..k])))
      {
        JoinedNext(chunks, k);
        var full := LoadChunk(chunks[k], Joined(chunks[..k]), file);
        if full {
          return;
        }
        k := k + 1;
      }
      assert chunks[..k] == chunks;
    }

    /** com_save: the bytes written. It stops at the first NULL; ok is false where there is
        none and it reads past the table. */
    method Save() returns (ok: bool, out: Bytes)
      requires Valid()
      ensures out == Join(Lines()) && (ok <==> |Lines()| < MAX_LINE_NUMBER)
    {
      hide FitsBuffer, FitsTable;
      out := text[0].value;
      assert Lines()[..1] == [text[0].value];
      var i := 1;
      while i < MAX_LINE_NUMBER && text[i].Some?
        invariant 1 <= i <= lineNumber + 1 && out == Join(Lines()[..i])
        decreases lineNumber + 1 - i
      {
        assert Lines()[..i + 1][..i] == Lines()[..i];
        out := out + [NEWLINE] + text[i].value;
        i := i + 1;
      }
      assert Lines()[..i] == Lines();
      ok := i < MAX_LINE_NUMBER;
    }

    /** com_ins at line n, counted from 1. A full table loses its last line; one line after
        it there is no place to write to. */
    method Ins(n: int, input: Bytes) returns (r: Outcome)
      requires Valid() && FitsBuffer(input)
      modifies this
      ensures Valid() && r == InsOutcome(old(|Lines()|), n)
      ensures Lines() == if r == Done then Kept(Inserted(old(Lines()), n, input)) else old(Lines())
    {
      hide FitsBuffer, Contents, Inserted;
      if n <= 0 || n > lineNumber + 2 {
        return Invalid;
      }
      if n > MAX_LINE_NUMBER {
        return PastTable;
      }
      var i := MAX_LINE_NUMBER - 1;
      while i > n - 1
        invariant n - 1 <= i <= MAX_LINE_NUMBER - 1 && |text| == MAX_LINE_NUMBER && lineNumber == old(lineNumber)
        invariant forall j :: 0 <= j <= i ==> text[j] == old(text)[j]
        invariant forall j :: i < j < MAX_LINE_NUMBER ==> text[j] == old(text)[j - 1]
      {
        if text[i - 1].Some? {
          text := text[i := text[i - 1]];
        }
        i := i - 1;
      }
      DownNull(old(text), text, lineNumber, n);
      if text[n - 1].None? && text[n - 2].value == [] {
        DownLast(old(text), text, lineNumber, n, input);
        text := text[n - 1 := Some([])][n - 2 := Some(input)];
      } else {
        DownPlain(old(text), text, lineNumber, n, input);
        text := text[n - 1 := Some(input)];
      }
      if lineNumber < MAX_LINE_NUMBER - 1 {
        lineNumber := lineNumber + 1;
      }
      r := Done;
    }

    /** com_del of line n. The last line left is emptied instead. A full table has no NULL
        to stop at. */
    method Del(n: int) returns (r: Outcome)
      requires Valid()
      modifies this
      ensures r == DelOutcome(old(|Lines()|), n)
      ensures r != PastTable ==> Valid() && Lines() == if r == Done then Deleted(old(Lines()), n) else old(Lines())
    {
      hide FitsBuffer, Contents, Deleted;
      if n <= 0 || n > lineNumber + 1 {
        return Invalid;
      }
      text := text[n - 1 := Some([])];
      var i := n - 1;
      while i + 1 < MAX_LINE_NUMBER && text[i + 1].Some?
        invariant n - 1 <= i <= lineNumber && |text| == MAX_LINE_NUMBER && lineNumber == old(lineNumber)
        invariant forall j :: 0 <= j < n - 1 ==> text[j] == old(text)[j]
        invariant forall j :: n - 1 <= j < i ==> text[j] == old(text)[j + 1]
        invariant text[i] == Some([])
        invariant forall j :: i < j < MAX_LINE_NUMBER ==> text[j] == old(text)[j]
        decreases lineNumber - i
      {
        text := text[i := text[i + 1]][i + 1 := Some([])];
        i := i + 1;
      }
      if i + 1 == MAX_LINE_NUMBER {
        return PastTable;
      }
      Closed(old(text), text, lineNumber, n);
      if i != 0 {
        text := text[i := None];
        lineNumber := lineNumber - 1;
      }
      r := Done;
    }
  }

  // ----- What the commands come to -----

  function Joined(chunks: seq<Bytes>): Bytes {
    if chunks == [] then [] else Joined(chunks[..|chunks| - 1]) + chunks[|chunks| - 1]
  }

  lemma {:induction false} JoinedPrefix(chunks: seq<Bytes>, k: nat)
    requires k <= |chunks|
    ensures Joined(chunks[..k]) <= Joined(chunks)
    decreases |chunks| - k
  {
    if k < |chunks| {
      JoinedPrefix(chunks, k + 1);
      assert chunks[..k + 1][..k] == chunks[..k];
    } else {
      assert chunks[..k] == chunks;
    }
  }

  lemma JoinedNext(chunks: seq<Bytes>, k: nat)
    requires k < |chunks|
    ensures Joined(chunks[..k]) + chunks[k] == Joined(chunks[..k + 1]) <= Joined(chunks)
  {
    assert chunks[..k + 1][..k] == chunks[..k];
    JoinedPrefix(chunks, k + 1);
  }

  /** Inserting after an empty last line fills that line and leaves an empty one after. */
  function Inserted(ls: seq<Bytes>, n: int, x: Bytes): seq<Bytes>
    requires 1 <= n <= |ls| + 1
  {
    if n == |ls| + 1 && ls != [] && ls[n - 2] == [] then ls[..n - 2] + [x] + [[]]
    else ls[..n - 1] + [x] + ls[n - 1..]
  }

  function Deleted(ls: seq<Bytes>, n: int): seq<Bytes>
    requires 1 <= n <= |ls|
  {
    if |ls| == 1 then [[]] else ls[..n - 1] + ls[n..]
  }

  /** Deleting an inserted line gives the text back, except where the insertion filled an
      empty last line and the text inserted was not itself empty; and the deletion stays
      in the table exactly if the insertion left an entry NULL. */
  lemma DeleteInserted(ls: seq<Bytes>, n: int, x: Bytes)
    requires ls != [] && 1 <= n <= |ls| + 1
    ensures n <= MAX_LINE_NUMBER ==> (DelOutcome(|Kept(Inserted(ls, n, x))|, n) == Done <==> |ls| + 1 < MAX_LINE_NUMBER)
    ensures Deleted(Inserted(ls, n, x), n) == ls <==> n <= |ls| || ls[|ls| - 1] != [] || x == []
  {
    var ms := Inserted(ls, n, x);
    var m := |ls| - 1;
    if n == |ls| + 1 && ls[m] == [] {
      assert Deleted(ms, n) == ls[..m] + [x];
      assert ls == ls[..m] + [ls[m]];
      assert (ls[..m] + [x])[m] == x;
    } else {
      assert Deleted(ms, n) == ls[..n - 1] + ls[n - 1..];
      assert ls[..n - 1] + ls[n - 1..] == ls;
    }
  }

  /** What is saved and loaded again is the same text. */
  lemma SavedLoads(ls: seq<Bytes>)
    requires FitsTable(ls) && ls != [] && forall i :: 0 <= i < |ls| ==> NoNewline(ls[i])
    ensures FitsFile(Join(ls)) && Split(Join(ls)) == ls
  {
    SplitJoin(ls);
  }

  /** A file that fits, loaded and saved again, in whatever chunks it was read, is the same
      file; saving it stays in the table exactly if it leaves the last entry NULL. */
  method LoadSave(chunks: seq<Bytes>) returns (saved: bool, out: Bytes)
    requires forall k :: 0 <= k < |chunks| ==> chunks[k] != []
    ensures FitsFile(Joined(chunks)) ==> out == Joined(chunks) && (saved <==> |Split(Joined(chunks))| < MAX_LINE_NUMBER)
  {
    hide Split, FitsFile, Joined, Contents, FitsBuffer;
    var t := new Text();
    t.Load(chunks);
    saved, out := t.Save();
    JoinSplit(Joined(chunks));
  }

  /** A line that does not fit is loaded as the chunks have it: strcat_n drops whole pieces. */
  lemma LongLine(l: Bytes)
    requires |l| == 300 && forall i :: 0 <= i < |l| ==> l[i] != 0
    ensures Onto(Onto([[]], l[..256]), l[256..]) == [l[256..]]
    ensures Onto(Onto([[]], l[..200]), l[200..]) == [l[..200]]
  {
    CutWhole(l[256..]);
    CutWhole(l[..200]);
    assert [] + l[256..] == l[256..] && [] + l[..200] == l[..200];
  }
}
