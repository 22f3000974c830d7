/**
 The SQL script splitter of internal/store/store.go: a one-pass scanner with
 doubled-quote lookahead and comment skipping, proved equal to a two-pass
 specification that knows only plain quote toggling.
 */
module Splitter {
  import opened Seqs

  /** unicode.IsSpace, the set strings.TrimSpace cuts. */
  predicate IsSpace(c: char) {
    var n := c as int;
    9 <= n <= 13 || n in {0x20, 0x85, 0xA0, 0x1680, 0x2028, 0x2029, 0x202F, 0x205F, 0x3000} || 0x2000 <= n <= 0x200A
  }

  function TrimLeft(s: string): string {
    if s != "" && IsSpace(s[0]) then TrimLeft(s[1..]) else s
  }

  function TrimRight(s: string): string {
    if s != "" && IsSpace(s[|s| - 1]) then TrimRight(s[..|s| - 1]) else s
  }

  function TrimSpace(s: string): string {
    TrimRight(TrimLeft(s))
  }

  // ---------- the two-pass specification ----------

  /** Quote state after reading c: every single quote toggles it. */
  function Toggle(q: bool, c: char): bool {
    if c == '\'' then !q else q
  }

  /** What follows the current line, its newline included in the cut. */
  function AfterLine(s: string): (r: string)
    ensures s != "" ==> |r| < |s|
  {
    if s == "" then "" else if s[0] == '\n' then s[1..] else AfterLine(s[1..])
  }

  predicate CommentAt(s: string) {
    |s| >= 2 && s[0] == '-' && s[1] == '-'
  }

  /** Pass one: drop every comment that starts outside a string. */
  function Strip(s: string, q: bool): string
    decreases |s|
  {
    if s == "" then ""
    else if !q && CommentAt(s) then Strip(AfterLine(s), false)
    else [s[0]] + Strip(s[1..], Toggle(q, s[0]))
  }

  function Prepend(head: string, segs: seq<string>): seq<string>
    requires segs != []
  {
    [head + segs[0]] + segs[1..]
  }

  lemma PrependNothing(segs: seq<string>)
    requires segs != []
    ensures Prepend("", segs) == segs
  {
    assert "" + segs[0] == segs[0];
  }

  /** Pass two: cut at the semicolons outside strings. */
  function Segments(t: string, q: bool): (segs: seq<string>)
    ensures segs != []
  {
    if t == "" then [""]
    else if t[0] == ';' && !q then [""] + Segments(t[1..], false)
    else Prepend([t[0]], Segments(t[1..], Toggle(q, t[0])))
  }

  /** Trim each segment and drop the empty ones. */
  function Kept(segs: seq<string>): seq<string> {
    if segs == [] then []
    else
      var s := TrimSpace(segs[0]);
      (if s == "" then [] else [s]) + Kept(segs[1..])
  }

  function SplitScript(raw: string): seq<string> {
    Kept(Segments(Strip(raw, false), false))
  }

  // ---------- the scanner ----------

  /** The input still to be read; the index may stand one past the end. */
  function Rest(raw: string, i: nat): string {
    if i <= |raw| then raw[i..] else ""
  }

  /** What the scanner will have produced when it finishes from this state. */
  ghost function Remaining(out: seq<string>, buf: string, rest: string, q: bool): seq<string> {
    out + Kept(Prepend(buf, Segments(Strip(rest, q), q)))
  }

  /** The inner loop of statements: from a comment start to past its newline. */
  method SkipComment(raw: string, start: nat) returns (i: nat)
    requires start < |raw|
    ensures start < i <= |raw| + 1 && Rest(raw, i) == AfterLine(Rest(raw, start))
  {
    i := start;
    while i < |raw| && raw[i] != '\n'
      invariant start <= i <= |raw|
      invariant AfterLine(Rest(raw, start)) == AfterLine(Rest(raw, i))
    {
      assert Rest(raw, i)[1..] == Rest(raw, i + 1);
      i := i + 1;
    }
    assert i < |raw| ==> Rest(raw, i)[0] == raw[i] && Rest(raw, i)[1..] == Rest(raw, i + 1);
    i := i + 1;
  }

  /** statements(raw). */
  method Statements(raw: string) returns (out: seq<string>)
    ensures out == SplitScript(raw)
  {
    out := [];
    var buf, inString, i := "", false, 0;
    StartOfScript(raw);
    while i < |raw|
      invariant 0 <= i <= |raw| + 1
      invariant ScanInvariant(raw, out, buf, i, inString)
    {
      var c := raw[i];
      if inString {
        KeepAt(raw, out, buf, i, true);
        buf := buf + [c];
        if c == '\'' {
          if i + 1 < |raw| && raw[i + 1] == '\'' {
            KeepAt(raw, out, buf, i + 1, false);
            buf := buf + [raw[i + 1]];
            i := i + 2;
            continue;
          }
          inString := false;
        }
        i := i + 1;
        continue;
      }
      if c == '\'' {
        KeepAt(raw, out, buf, i, false);
        buf := buf + [c];
        inString := true;
        i := i + 1;
        continue;
      }
      if c == '-' && i + 1 < |raw| && raw[i + 1] == '-' {
        StepComment(out, buf, Rest(raw, i));
        i := SkipComment(raw, i);
        continue;
      }
      if c == ';' {
        StepCut(out, buf, Rest(raw, i));
        var stmt := TrimSpace(buf);
        if stmt != "" {
          out := out + [stmt];
        }
        buf := "";
        i := i + 1;
        continue;
      }
      KeepAt(raw, out, buf, i, false);
      buf := buf + [c];
      i := i + 1;
    }
    EndOfScript(out, buf, inString);
    var last := TrimSpace(buf);
    if last != "" {
      out := out + [last];
    }
  }

  /** Finishing from here gives the specified statements. */
  ghost predicate ScanInvariant(raw: string, out: seq<string>, buf: string, i: nat, q: bool) {
    Remaining(out, buf, Rest(raw, i), q) == SplitScript(raw)
  }

  lemma KeepAt(raw: string, out: seq<string>, buf: string, i: nat, q: bool)
    requires i < |raw| && ScanInvariant(raw, out, buf, i, q)
    requires q || (raw[i] != ';' && !CommentAt(raw[i..]))
    ensures ScanInvariant(raw, out, buf + [raw[i]], i + 1, Toggle(q, raw[i]))
  {
    var rest := Rest(raw, i);
    StepKeep(out, buf, rest, q);
    assert rest[0] == raw[i] && rest[1..] == Rest(raw, i + 1);
  }

  lemma StartOfScript(raw: string)
    ensures ScanInvariant(raw, [], "", 0, false)
  {
    assert Rest(raw, 0) == raw;
    PrependNothing(Segments(Strip(raw, false), false));
  }

  lemma EndOfScript(out: seq<string>, buf: string, q: bool)
    ensures Remaining(out, buf, "", q) == if TrimSpace(buf) == "" then out else out + [TrimSpace(buf)]
  {
    assert Prepend(buf, Segments("", q)) == [buf] by { assert buf + "" == buf; }
    assert Kept([buf]) == (if TrimSpace(buf) == "" then [] else [TrimSpace(buf)]) + Kept([]);
  }

  /** Reading a comment and its newline. */
  lemma StepComment(out: seq<string>, buf: string, rest: string)
    requires CommentAt(rest)
    ensures Remaining(out, buf, rest, false) == Remaining(out, buf, AfterLine(rest), false)
  {
  }

  /** Reading a character that is neither a cut nor a comment start. */
  lemma StepKeep(out: seq<string>, buf: string, rest: string, q: bool)
    requires rest != ""
    requires q || (rest[0] != ';' && !CommentAt(rest))
    ensures Remaining(out, buf, rest, q) == Remaining(out, buf + [rest[0]], rest[1..], Toggle(q, rest[0]))
  {
    var c, q' := rest[0], Toggle(q, rest[0]);
    var t := Strip(rest[1..], q');
    assert Strip(rest, q) == [c] + t && ([c] + t)[1..] == t;
    var segs := Segments(t, q');
    assert buf + ([c] + segs[0]) == buf + [c] + segs[0];
    assert Prepend(buf, Prepend([c], segs)) == Prepend(buf + [c], segs);
  }

  /** Reading a semicolon outside a string. */
  lemma StepCut(out: seq<string>, buf: string, rest: string)
    requires rest != "" && rest[0] == ';'
    ensures var stmt := TrimSpace(buf);
            Remaining(out, buf, rest, false)
            == Remaining(if stmt == "" then out else out + [stmt], "", rest[1..], false)
  {
    var t := Strip(rest[1..], false);
    assert Strip(rest, false) == [';'] + t && ([';'] + t)[1..] == t;
    var segs := Segments(t, false);
    assert Prepend(buf, [""] + segs) == [buf] + segs by { assert buf + "" == buf; }
    assert ([buf] + segs)[1..] == segs;
    PrependNothing(segs);
  }

  // ---------- what the outputs look like ----------

  /** Quote state after reading all of s. */
  ghost function Ends(s: string, q: bool): bool {
    if s == "" then q else Ends(s[1..], Toggle(q, s[0]))
  }

  /** No "--" starts outside a string. */
  ghost predicate NoComment(s: string, q: bool) {
    s != "" ==> !(!q && CommentAt(s)) && NoComment(s[1..], Toggle(q, s[0]))
  }

  /** Neither ";" nor "--" outside a string. */
  ghost predicate Plain(s: string, q: bool) {
    s != "" ==>
      && !(!q && (s[0] == ';' || CommentAt(s)))
      && Plain(s[1..], Toggle(q, s[0]))
  }

  lemma {:induction false} StripNoComment(s: string, q: bool)
    ensures NoComment(Strip(s, q), q)
    decreases |s|
  {
    if s == "" {
    } else if !q && CommentAt(s) {
      StripNoComment(AfterLine(s), false);
    } else {
      var q' := Toggle(q, s[0]);
      var t := Strip(s[1..], q');
      StripNoComment(s[1..], q');
      assert ([s[0]] + t)[1..] == t;
    }
  }

  /** Each segment is plain from its own start, and only the last may end
      inside a string. */
  ghost predicate SegmentsPlain(segs: seq<string>, q: bool) {
    segs != [] ==>
      && Plain(segs[0], q)
      && (|segs| > 1 ==> !Ends(segs[0], q))
      && SegmentsPlain(segs[1..], false)
  }

  lemma {:induction false} SegmentsArePlain(t: string, q: bool)
    requires NoComment(t, q)
    ensures SegmentsPlain(Segments(t, q), q)
  {
    if t == "" {
    } else if t[0] == ';' && !q {
      SegmentsArePlain(t[1..], false);
      assert ([""] + Segments(t[1..], false))[1..] == Segments(t[1..], false);
    } else {
      var q' := Toggle(q, t[0]);
      var segs := Segments(t[1..], q');
      SegmentsArePlain(t[1..], q');
      var s := [t[0]] + segs[0];
      assert s[1..] == segs[0] && Prepend([t[0]], segs)[1..] == segs[1..];
      if !q && CommentAt(s) {
        SegmentStart(t[1..], q');
      }
    }
  }

  lemma SegmentStart(t: string, q: bool)
    ensures Segments(t, q)[0] != "" ==> t != "" && Segments(t, q)[0][0] == t[0]
  {
  }

  lemma {:induction false} TrimLeftPlain(s: string)
    requires Plain(s, false)
    ensures Plain(TrimLeft(s), false) && Ends(TrimLeft(s), false) == Ends(s, false)
  {
    if s != "" && IsSpace(s[0]) {
      TrimLeftPlain(s[1..]);
    }
  }

  lemma {:induction false} DropSpacePlain(s: string, c: char, q: bool)
    requires IsSpace(c)
    ensures Plain(s + [c], q) ==> Plain(s, q)
    ensures Ends(s + [c], q) == Ends(s, q)
  {
    if s == "" {
      assert Ends([c], q) == Ends([c][1..], q);
    } else {
      assert (s + [c])[1..] == s[1..] + [c];
      DropSpacePlain(s[1..], c, Toggle(q, s[0]));
    }
  }

  lemma {:induction false} TrimRightPlain(s: string)
    requires Plain(s, false)
    ensures Plain(TrimRight(s), false) && Ends(TrimRight(s), false) == Ends(s, false)
    decreases |s|
  {
    if s != "" && IsSpace(s[|s| - 1]) {
      var t, c := s[..|s| - 1], s[|s| - 1];
      assert s == t + [c];
      DropSpacePlain(t, c, false);
      TrimRightPlain(t);
    }
  }

  ghost predicate Trimmed(s: string) {
    s != "" ==> !IsSpace(s[0]) && !IsSpace(s[|s| - 1])
  }

  lemma {:induction false} TrimLeftTrims(s: string)
    ensures TrimLeft(s) != "" ==> !IsSpace(TrimLeft(s)[0])
  {
    if s != "" && IsSpace(s[0]) {
      TrimLeftTrims(s[1..]);
    }
  }

  lemma {:induction false} TrimRightTrims(s: string)
    requires s != "" ==> !IsSpace(s[0])
    ensures Trimmed(TrimRight(s))
    decreases |s|
  {
    if s != "" && IsSpace(s[|s| - 1]) {
      TrimRightTrims(s[..|s| - 1]);
    }
  }

  /** A list that a rejoin and a second split must reproduce. */
  ghost predicate WellSplit(outs: seq<string>) {
    outs != [] ==>
      && outs[0] != "" && Trimmed(outs[0]) && Plain(outs[0], false)
      && (|outs| > 1 ==> !Ends(outs[0], false))
      && WellSplit(outs[1..])
  }

  lemma {:induction false} KeptWellSplit(segs: seq<string>)
    requires SegmentsPlain(segs, false)
    ensures WellSplit(Kept(segs))
  {
    if segs != [] {
      var s := segs[0];
      TrimLeftPlain(s);
      TrimRightPlain(TrimLeft(s));
      TrimLeftTrims(s);
      TrimRightTrims(TrimLeft(s));
      KeptWellSplit(segs[1..]);
      var o := TrimSpace(s);
      assert o != "" ==> ([o] + Kept(segs[1..]))[1..] == Kept(segs[1..]);
      assert |segs| == 1 ==> Kept(segs[1..]) == [];
      assert [] + Kept(segs[1..]) == Kept(segs[1..]);
    }
  }

  lemma SplitWellSplit(raw: string)
    ensures WellSplit(SplitScript(raw))
  {
    StripNoComment(raw, false);
    SegmentsArePlain(Strip(raw, false), false);
    KeptWellSplit(Segments(Strip(raw, false), false));
  }

  /** Position i of s lies inside a string literal: an odd number of quotes
      precedes it. */
  ghost predicate Quoted(s: string, i: nat)
    requires i <= |s|
  {
    Quotes(s[..i]) % 2 == 1
  }

  function Quotes(s: string): nat {
    if s == "" then 0 else (if s[0] == '\'' then 1 else 0) + Quotes(s[1..])
  }

  lemma {:induction false} EndsIsParity(s: string, q: bool)
    ensures Ends(s, q) <==> (Quotes(s) + if q then 1 else 0) % 2 == 1
  {
    if s != "" {
      EndsIsParity(s[1..], Toggle(q, s[0]));
    }
  }

  lemma {:induction false} PlainAt(s: string, q: bool, i: nat)
    requires Plain(s, q) && i < |s| && !Ends(s[..i], q)
    ensures s[i] != ';' && !CommentAt(s[i..])
  {
    if i > 0 {
      assert s[..i][1..] == s[1..][..i - 1] && s[1..][i - 1..] == s[i..];
      PlainAt(s[1..], Toggle(q, s[0]), i - 1);
    } else {
      assert s[..0] == "" && s[0..] == s;
    }
  }

  lemma {:induction false} WellSplitMember(outs: seq<string>, o: string)
    requires WellSplit(outs) && o in outs
    ensures o != "" && Trimmed(o) && Plain(o, false)
  {
    if o != outs[0] {
      assert o in outs[1..];
      WellSplitMember(outs[1..], o);
    }
  }

  /** Every statement handed to the database is non-empty, trimmed, and free of
      semicolons and comment starts outside string literals. */
  lemma StatementsHoldNoBareCut(raw: string, o: string)
    requires o in SplitScript(raw)
    ensures o != "" && Trimmed(o)
    ensures forall i :: 0 <= i < |o| && !Quoted(o, i) ==> o[i] != ';' && !CommentAt(o[i..])
  {
    SplitWellSplit(raw);
    WellSplitMember(SplitScript(raw), o);
    forall i | 0 <= i < |o| && !Quoted(o, i)
      ensures o[i] != ';' && !CommentAt(o[i..])
    {
      EndsIsParity(o[..i], false);
      PlainAt(o, false, i);
    }
  }

  // ---------- splitting the rejoined statements ----------

  function Join(outs: seq<string>): string {
    if outs == [] then "" else if |outs| == 1 then outs[0] else outs[0] + ";" + Join(outs[1..])
  }

  /** No comment starts across the seam of a and rest. */
  ghost predicate SafeSeam(a: string, rest: string) {
    a == "" || rest == "" || a[|a| - 1] != '-' || rest[0] != '-'
  }

  lemma NoCommentAcross(a: string, rest: string)
    requires a != "" && SafeSeam(a, rest)
    ensures CommentAt(a + rest) <==> CommentAt(a)
    ensures SafeSeam(a[1..], rest)
  {
  }

  /** Reading one character that starts no comment. */
  lemma StripCons(c: char, t: string, q: bool)
    requires q || !CommentAt([c] + t)
    ensures Strip([c] + t, q) == [c] + Strip(t, Toggle(q, c))
  {
    assert ([c] + t)[0] == c && ([c] + t)[1..] == t;
  }

  /** Text without a comment is kept as it is, whatever follows it. */
  lemma {:induction false} StripOfUncommented(a: string, rest: string, q: bool)
    requires NoComment(a, q) && SafeSeam(a, rest)
    ensures Strip(a + rest, q) == a + Strip(rest, Ends(a, q))
  {
    if a == "" {
      assert a + rest == rest;
    } else {
      var c, t := a[0], a[1..];
      NoCommentAcross(a, rest);
      assert a + rest == [c] + (t + rest) && a == [c] + t;
      StripCons(c, t + rest, q);
      StripOfUncommented(t, rest, Toggle(q, c));
    }
  }

  lemma {:induction false} PlainNoComment(s: string, q: bool)
    requires Plain(s, q)
    ensures NoComment(s, q)
  {
    if s != "" {
      PlainNoComment(s[1..], Toggle(q, s[0]));
    }
  }

  lemma StripOfPlain(s: string, rest: string, q: bool)
    requires Plain(s, q)
    requires rest == "" || rest[0] == ';'
    ensures Strip(s + rest, q) == s + Strip(rest, Ends(s, q))
  {
    PlainNoComment(s, q);
    StripOfUncommented(s, rest, q);
  }

  lemma {:induction false} SegmentsOfPlain(s: string, rest: string, q: bool)
    requires Plain(s, q)
    ensures Segments(s + rest, q) == Prepend(s, Segments(rest, Ends(s, q)))
  {
    if s == "" {
      assert s + rest == rest;
      PrependNothing(Segments(rest, q));
    } else {
      assert (s + rest)[1..] == s[1..] + rest;
      SegmentsOfPlain(s[1..], rest, Toggle(q, s[0]));
      var segs := Segments(rest, Ends(s, q));
      assert [s[0]] + (s[1..] + segs[0]) == s + segs[0];
    }
  }

  lemma TrimOfTrimmed(s: string)
    requires Trimmed(s)
    ensures TrimSpace(s) == s
  {
  }

  lemma {:induction false} SplitOfJoin(outs: seq<string>)
    requires WellSplit(outs)
    ensures SplitScript(Join(outs)) == outs
  {
    if outs == [] {
      assert Segments("", false) == [""] && TrimSpace("") == "";
    } else if |outs| == 1 {
      var o := outs[0];
      StripOfPlain(o, "", false);
      SegmentsOfPlain(o, "", false);
      TrimOfTrimmed(o);
      assert o + "" == o && Prepend(o, [""]) == [o];
      assert Kept([o]) == [o] + Kept([]);
    } else {
      var o, rest := outs[0], Join(outs[1..]);
      var t := Strip(rest, false);
      assert (";" + rest)[1..] == rest && (";" + t)[1..] == t;
      assert o + ";" + rest == o + (";" + rest);
      StripOfPlain(o, ";" + rest, false);
      SegmentsOfPlain(o, ";" + t, false);
      var segs := Segments(t, false);
      assert o + "" == o && Prepend(o, [""] + segs) == [o] + segs;
      TrimOfTrimmed(o);
      SplitOfJoin(outs[1..]);
      assert ([o] + segs)[1..] == segs;
    }
  }

  /** Joining the statements with ";" and splitting again changes nothing. */
  lemma ResplitIsStable(raw: string)
    ensures SplitScript(Join(SplitScript(raw))) == SplitScript(raw)
  {
    SplitWellSplit(raw);
    SplitOfJoin(SplitScript(raw));
  }

  // ---------- comments and blanks change nothing ----------

  /** A line ends at its newline, or with the text. */
  lemma {:induction false} LineEnds(line: string, rest: string)
    requires '\n' !in line
    ensures AfterLine(line + "\n" + rest) == rest && AfterLine(line) == ""
  {
    if line == "" {
      assert line + "\n" + rest == "\n" + rest && ("\n" + rest)[1..] == rest;
    } else {
      var whole := line + "\n" + rest;
      assert whole[0] == line[0] && line[0] in line && whole[1..] == line[1..] + "\n" + rest;
      assert forall c :: c in line[1..] ==> c in line;
      LineEnds(line[1..], rest);
    }
  }

  /** A comment outside string literals can be deleted with its newline without
      changing the statements, and one on the last line likewise. */
  lemma CommentsChangeNothing(a: string, line: string, rest: string)
    requires NoComment(a, false) && !Ends(a, false) && (a != "" ==> a[|a| - 1] != '-') && '\n' !in line
    ensures SplitScript(a + ("--" + line + "\n" + rest)) == SplitScript(a + rest)
    ensures SplitScript(a + ("--" + line)) == SplitScript(a)
  {
    var comment := "--" + line;
    assert comment + "\n" + rest == "--" + line + "\n" + rest;
    LineEnds(comment, rest);
    StripOfUncommented(a, comment + "\n" + rest, false);
    StripOfUncommented(a, rest, false);
    StripOfUncommented(a, comment, false);
    StripOfUncommented(a, "", false);
    assert a + "" == a;
  }

  ghost predicate Blank(s: string) {
    forall i :: 0 <= i < |s| ==> IsSpace(s[i])
  }

  /** Trimming cuts blanks off both ends and nothing else. */
  lemma TrimSpaceCuts(s: string) returns (left: string, right: string)
    ensures s == left + TrimSpace(s) + right && Blank(left) && Blank(right) && Trimmed(TrimSpace(s))
  {
    left := TrimLeftCuts(s);
    right := TrimRightCuts(TrimLeft(s));
    TrimLeftTrims(s);
    TrimRightTrims(TrimLeft(s));
    assert left + (TrimSpace(s) + right) == left + TrimSpace(s) + right;
  }

  lemma {:induction false} TrimLeftCuts(s: string) returns (left: string)
    ensures s == left + TrimLeft(s) && Blank(left)
  {
    if s != "" && IsSpace(s[0]) {
      var rest := TrimLeftCuts(s[1..]);
      left := [s[0]] + rest;
      assert s == [s[0]] + s[1..];
    } else {
      left := "";
    }
  }

  lemma {:induction false} TrimRightCuts(s: string) returns (right: string)
    ensures s == TrimRight(s) + right && Blank(right)
    decreases |s|
  {
    if s != "" && IsSpace(s[|s| - 1]) {
      var rest := TrimRightCuts(s[..|s| - 1]);
      right := rest + [s[|s| - 1]];
      assert s == s[..|s| - 1] + [s[|s| - 1]];
    } else {
      right := "";
    }
  }

  // ---------- nothing else is lost ----------

  /** The text without its blanks. */
  function Solid(s: string): string {
    if s == "" then "" else (if IsSpace(s[0]) then "" else [s[0]]) + Solid(s[1..])
  }

  lemma {:induction false} SolidAppend(a: string, b: string)
    ensures Solid(a + b) == Solid(a) + Solid(b)
  {
    if a == "" {
      assert a + b == b;
    } else {
      assert (a + b)[0] == a[0] && (a + b)[1..] == a[1..] + b;
      SolidAppend(a[1..], b);
    }
  }

  lemma {:induction false} SolidBlank(s: string)
    requires Blank(s)
    ensures Solid(s) == ""
  {
    if s != "" {
      SolidBlank(s[1..]);
    }
  }

  lemma SolidTrim(s: string)
    ensures Solid(TrimSpace(s)) == Solid(s)
  {
    var left, right := TrimSpaceCuts(s);
    SolidAppend(left + TrimSpace(s), right);
    SolidAppend(left, TrimSpace(s));
    SolidBlank(left);
    SolidBlank(right);
  }

  /** The text without its semicolons outside string literals. */
  function Uncut(t: string, q: bool): string {
    if t == "" then ""
    else if t[0] == ';' && !q then Uncut(t[1..], false)
    else [t[0]] + Uncut(t[1..], Toggle(q, t[0]))
  }

  lemma {:induction false} SegmentsCoverText(t: string, q: bool)
    ensures Flatten(Segments(t, q)) == Uncut(t, q)
  {
    if t == "" {
      assert Flatten([""]) == "" + Flatten([""][1..]);
    } else if t[0] == ';' && !q {
      var segs := Segments(t[1..], false);
      SegmentsCoverText(t[1..], false);
      assert ([""] + segs)[1..] == segs;
    } else {
      var segs := Segments(t[1..], Toggle(q, t[0]));
      SegmentsCoverText(t[1..], Toggle(q, t[0]));
      assert Prepend([t[0]], segs)[1..] == segs[1..];
      assert [t[0]] + segs[0] + Flatten(segs[1..]) == [t[0]] + (segs[0] + Flatten(segs[1..]));
    }
  }

  lemma {:induction false} KeptIsSolid(segs: seq<string>)
    ensures Solid(Flatten(Kept(segs))) == Solid(Flatten(segs))
  {
    if segs != [] {
      var s, rest := segs[0], Kept(segs[1..]);
      var o := TrimSpace(s);
      KeptIsSolid(segs[1..]);
      SolidTrim(s);
      SolidAppend(s, Flatten(segs[1..]));
      if o != "" {
        assert Flatten([o] + rest) == o + Flatten(rest) by { assert ([o] + rest)[1..] == rest; }
        SolidAppend(o, Flatten(rest));
      } else {
        assert [] + rest == rest;
      }
    }
  }

  /** Blanks apart, the statements together are the script without its comments and
      without the semicolons that separate statements. */
  lemma NothingElseIsLost(raw: string)
    ensures Solid(Flatten(SplitScript(raw))) == Solid(Uncut(Strip(raw, false), false))
  {
    KeptIsSolid(Segments(Strip(raw, false), false));
    SegmentsCoverText(Strip(raw, false), false);
  }
}
