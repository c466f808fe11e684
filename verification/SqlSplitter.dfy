/**
 Cutting a migration script into statements: comment lines are dropped, then the
 text is cut at the semicolons that stand outside `$$` blocks.
 */
module SqlSplitter {

  // ---------------------------------------------------------------------------
  // Trimming, lines and joining, as the string library has them
  // ---------------------------------------------------------------------------

  /** The white space and line terminators that `trim` removes. */
  predicate IsSpace(c: char) {
    var n := c as int;
    || 0x09 <= n <= 0x0D || n == 0x20 || n == 0xA0 || n == 0x1680 || 0x2000 <= n <= 0x200A
    || n == 0x2028 || n == 0x2029 || n == 0x202F || n == 0x205F || n == 0x3000 || n == 0xFEFF
  }

  function TrimStart(s: string): string {
    if s != [] && IsSpace(s[0]) then TrimStart(s[1..]) else s
  }

  function TrimEnd(s: string): string {
    if s != [] && IsSpace(s[|s| - 1]) then TrimEnd(s[..|s| - 1]) else s
  }

  function Trim(s: string): string {
    TrimEnd(TrimStart(s))
  }

  function Join(parts: seq<string>, sep: string): string {
    if parts == [] then ""
    else if |parts| == 1 then parts[0]
    else parts[0] + sep + Join(parts[1..], sep)
  }

  /** `Prepend(x, parts)` puts `x` in front of the first part. */
  function Prepend(x: string, parts: seq<string>): (r: seq<string>)
    requires parts != []
    ensures |r| == |parts|
  {
    [x + parts[0]] + parts[1..]
  }

  function Lines(s: string): (r: seq<string>)
    ensures r != []
  {
    if s == [] then [""]
    else if s[0] == '\n' then [""] + Lines(s[1..])
    else Prepend([s[0]], Lines(s[1..]))
  }

  predicate StartsWithDashes(s: string) {
    |s| >= 2 && s[0] == '-' && s[1] == '-'
  }

  predicate IsComment(line: string) {
    StartsWithDashes(Trim(line))
  }

  function DropComments(lines: seq<string>): seq<string> {
    if lines == [] then []
    else (if IsComment(lines[0]) then [] else [lines[0]]) + DropComments(lines[1..])
  }

  function Stripped(sql: string): string {
    Join(DropComments(Lines(sql)), "\n")
  }

  /** Trims the pieces and leaves out the empty ones. */
  function Clean(pieces: seq<string>): (r: seq<string>)
    ensures forall p :: p in r ==> p != "" && exists q :: q in pieces && p == Trim(q)
  {
    if pieces == [] then []
    else (if Trim(pieces[0]) == "" then [] else [Trim(pieces[0])]) + Clean(pieces[1..])
  }

  // ---------------------------------------------------------------------------
  // Parity of `$$`
  // ---------------------------------------------------------------------------

  predicate PairAhead(s: string) {
    |s| >= 2 && s[0] == '$' && s[1] == '$'
  }

  /** How many `$$` a reader from the left meets in `s`. */
  function Pairs(s: string): nat {
    if |s| < 2 then 0
    else if PairAhead(s) then 1 + Pairs(s[2..])
    else Pairs(s[1..])
  }

  /** Entering inside a block if `inside`, every semicolon of `p` stands inside a block. */
  predicate SemicolonsInside(p: string, inside: bool) {
    forall i | 0 <= i < |p| && p[i] == ';' :: (Pairs(p[..i]) % 2 == 1) != inside
  }

  /** Entering inside a block if `inside`, the end of `p` is outside. */
  predicate EndsOutside(p: string, inside: bool) {
    (Pairs(p) % 2 == 1) == inside
  }

  /** The cut of a text into pieces: each ends outside a block, none has a semicolon outside one. */
  predicate IsCut(pieces: seq<string>, inside: bool) {
    && pieces != []
    && SemicolonsInside(pieces[0], inside)
    && (|pieces| > 1 ==> EndsOutside(pieces[0], inside))
    && (forall k :: 0 < k < |pieces| ==> SemicolonsInside(pieces[k], false))
    && (forall k :: 0 < k < |pieces| - 1 ==> EndsOutside(pieces[k], false))
  }

  // ---------------------------------------------------------------------------
  // The scanner as a function
  // ---------------------------------------------------------------------------

  function Pieces(s: string, inside: bool): (r: seq<string>)
    ensures r != []
    decreases |s|
  {
    if s == [] then [""]
    else if PairAhead(s) then Prepend("$$", Pieces(s[2..], !inside))
    else if s[0] == ';' && !inside then [""] + Pieces(s[1..], inside)
    else Prepend([s[0]], Pieces(s[1..], inside))
  }

  function Statements(sql: string): seq<string> {
    Clean(Pieces(Stripped(sql), false))
  }

  lemma PairsPrefix(x: string, p: string)
    requires x == "$$" || (|x| == 1 && !PairAhead(x + p))
    ensures Pairs(x + p) == Pairs(p) + if x == "$$" then 1 else 0
    ensures forall i :: 0 <= i <= |p| ==> Pairs(x + p[..i]) == Pairs(p[..i]) + if x == "$$" then 1 else 0
  {
    forall i | 0 <= i <= |p|
      ensures Pairs(x + p[..i]) == Pairs(p[..i]) + if x == "$$" then 1 else 0
    {
      assert (x + p[..i])[|x|..] == p[..i];
    }
    assert p[..|p|] == p;
  }

  lemma PositionsShift(x: string, p: string)
    requires x == "$$" || (|x| == 1 && !PairAhead(x + p))
    ensures forall i {:trigger p[..i]} :: 0 <= i < |p| ==>
              (x + p)[i + |x|] == p[i] && Pairs((x + p)[..i + |x|]) == Pairs(p[..i]) + if x == "$$" then 1 else 0
  {
    PairsPrefix(x, p);
    forall i | 0 <= i < |p|
      ensures (x + p)[..i + |x|] == x + p[..i]
    {
    }
  }

  lemma SemicolonsDropPrefix(x: string, p: string, inside: bool)
    requires x == "$$" || (|x| == 1 && !PairAhead(x + p))
    requires SemicolonsInside(x + p, inside)
    ensures SemicolonsInside(p, if x == "$$" then !inside else inside)
  {
    PositionsShift(x, p);
    forall i | 0 <= i < |p| && p[i] == ';'
      ensures (Pairs(p[..i]) % 2 == 1) != if x == "$$" then !inside else inside
    {
      assert (x + p)[i + |x|] == ';';
    }
  }

  lemma SemicolonsAddPrefix(x: string, p: string, inside: bool)
    requires x == "$$" || (|x| == 1 && !PairAhead(x + p))
    requires x == ";" ==> inside
    requires SemicolonsInside(p, if x == "$$" then !inside else inside)
    ensures SemicolonsInside(x + p, inside)
  {
    PositionsShift(x, p);
    forall i | 0 <= i < |x + p| && (x + p)[i] == ';'
      ensures (Pairs((x + p)[..i]) % 2 == 1) != inside
    {
      if i < |x| {
        assert (x + p)[..i] == "";
      } else {
        assert p[i - |x|] == ';' && Pairs(p[..i - |x|]) >= 0;
      }
    }
  }

  lemma SemicolonsPrefix(x: string, p: string, inside: bool)
    requires x == "$$" || (|x| == 1 && !PairAhead(x + p))
    requires x == ";" ==> inside
    ensures var toggled := if x == "$$" then !inside else inside;
            && (SemicolonsInside(x + p, inside) <==> SemicolonsInside(p, toggled))
            && (EndsOutside(x + p, inside) <==> EndsOutside(p, toggled))
  {
    PairsPrefix(x, p);
    if SemicolonsInside(x + p, inside) { SemicolonsDropPrefix(x, p, inside); }
    if SemicolonsInside(p, if x == "$$" then !inside else inside) { SemicolonsAddPrefix(x, p, inside); }
  }

  /** The first piece is a prefix of the text, so a `$` in front of it makes a pair only if it makes one in the text. */
  lemma {:induction false} FirstPieceIsPrefix(s: string, inside: bool)
    ensures Pieces(s, inside)[0] <= s
    decreases |s|
  {
    if s == [] {
    } else if PairAhead(s) {
      FirstPieceIsPrefix(s[2..], !inside);
    } else if !(s[0] == ';' && !inside) {
      FirstPieceIsPrefix(s[1..], inside);
    }
  }

  lemma PrependNothing(current: string, parts: seq<string>)
    requires parts != []
    ensures Prepend("", parts) == parts
    ensures Prepend(current, [""] + parts) == [current] + parts
    ensures Prepend(current, [""]) == [current]
  {
    assert "" + parts[0] == parts[0] && current + "" == current;
  }

  lemma JoinPrepend(x: string, parts: seq<string>, sep: string)
    requires parts != []
    ensures Join(Prepend(x, parts), sep) == x + Join(parts, sep)
  {
    if |parts| > 1 {
      assert Prepend(x, parts)[1..] == parts[1..];
      assert x + parts[0] + sep + Join(parts[1..], sep) == x + (parts[0] + sep + Join(parts[1..], sep));
    }
  }

  lemma CutPrepend(x: string, parts: seq<string>, inside: bool)
    requires x == "$$" || (|x| == 1 && parts != [] && !PairAhead(x + parts[0]))
    requires x == ";" ==> inside
    requires IsCut(parts, if x == "$$" then !inside else inside)
    ensures IsCut(Prepend(x, parts), inside)
  {
    SemicolonsPrefix(x, parts[0], inside);
    var r := Prepend(x, parts);
    assert forall k :: 0 < k < |parts| ==> r[k] == parts[k];
  }

  lemma {:induction false} PiecesJoin(s: string, inside: bool)
    ensures Join(Pieces(s, inside), ";") == s
    decreases |s|
  {
    if s == [] {
    } else if PairAhead(s) {
      PiecesJoin(s[2..], !inside);
      JoinPrepend("$$", Pieces(s[2..], !inside), ";");
      assert s == "$$" + s[2..];
    } else if s[0] == ';' && !inside {
      PiecesJoin(s[1..], inside);
      assert ([""] + Pieces(s[1..], inside))[1..] == Pieces(s[1..], inside);
      assert s == ";" + s[1..];
    } else {
      PiecesJoin(s[1..], inside);
      JoinPrepend([s[0]], Pieces(s[1..], inside), ";");
      assert s == [s[0]] + s[1..];
    }
  }

  lemma CutAfterEmpty(parts: seq<string>)
    requires IsCut(parts, false)
    ensures IsCut([""] + parts, false)
  {
    var r := [""] + parts;
    assert forall k :: 0 < k < |r| ==> r[k] == parts[k - 1];
  }

  lemma {:induction false} PiecesCut(s: string, inside: bool)
    ensures IsCut(Pieces(s, inside), inside)
    decreases |s|
  {
    if s == [] {
    } else if PairAhead(s) {
      PiecesCut(s[2..], !inside);
      CutPrepend("$$", Pieces(s[2..], !inside), inside);
    } else if s[0] == ';' && !inside {
      PiecesCut(s[1..], inside);
      CutAfterEmpty(Pieces(s[1..], inside));
    } else {
      PiecesCut(s[1..], inside);
      FirstPieceIsPrefix(s[1..], inside);
      CutPrepend([s[0]], Pieces(s[1..], inside), inside);
    }
  }

  /** With their semicolons put back, the pieces are the text, character for character, and they are a cut of it. */
  lemma PiecesAreACut(s: string, inside: bool)
    ensures Join(Pieces(s, inside), ";") == s
    ensures IsCut(Pieces(s, inside), inside)
  {
    PiecesJoin(s, inside);
    PiecesCut(s, inside);
  }

  lemma {:induction false} LastPiece(p: string, inside: bool)
    requires SemicolonsInside(p, inside)
    ensures Pieces(p, inside) == [p]
    decreases |p|
  {
    if p == [] {
    } else if PairAhead(p) {
      assert p == "$$" + p[2..];
      SemicolonsPrefix("$$", p[2..], inside);
      LastPiece(p[2..], !inside);
    } else {
      assert p == [p[0]] + p[1..];
      assert p[0] == ';' ==> Pairs(p[..0]) == 0;
      SemicolonsPrefix([p[0]], p[1..], inside);
      LastPiece(p[1..], inside);
    }
  }

  lemma {:induction false} FirstPiece(p: string, rest: string, inside: bool)
    requires SemicolonsInside(p, inside) && EndsOutside(p, inside)
    ensures Pieces(p + ";" + rest, inside) == [p] + Pieces(rest, false)
    decreases |p|
  {
    var s := p + ";" + rest;
    if p == [] {
      assert s[1..] == rest;
    } else if PairAhead(p) {
      assert p == "$$" + p[2..] && s[2..] == p[2..] + ";" + rest;
      SemicolonsPrefix("$$", p[2..], inside);
      FirstPiece(p[2..], rest, !inside);
    } else {
      assert p == [p[0]] + p[1..] && s[1..] == p[1..] + ";" + rest;
      assert p[0] == ';' ==> Pairs(p[..0]) == 0;
      assert !PairAhead(s);
      SemicolonsPrefix([p[0]], p[1..], inside);
      FirstPiece(p[1..], rest, inside);
    }
  }

  /** There is only one cut of a text, and the scanner finds it. */
  lemma {:induction false} CutIsUnique(pieces: seq<string>, inside: bool)
    requires IsCut(pieces, inside)
    ensures Pieces(Join(pieces, ";"), inside) == pieces
    decreases |pieces|
  {
    if |pieces| == 1 {
      LastPiece(pieces[0], inside);
    } else {
      FirstPiece(pieces[0], Join(pieces[1..], ";"), inside);
      CutIsUnique(pieces[1..], false);
    }
  }

  /**
   The scanner's pieces of any text are exactly its cut at the semicolons at even parity, and its statements their
   trimmed, non-empty remains.
   */
  lemma ScannerIsExact(sql: string, pieces: seq<string>)
    ensures pieces == Pieces(Stripped(sql), false) <==> IsCut(pieces, false) && Join(pieces, ";") == Stripped(sql)
    ensures IsCut(pieces, false) && Join(pieces, ";") == Stripped(sql) ==> Statements(sql) == Clean(pieces)
  {
    PiecesAreACut(Stripped(sql), false);
    if IsCut(pieces, false) { CutIsUnique(pieces, false); }
  }

  // ---------------------------------------------------------------------------
  // Splitting undoes joining
  // ---------------------------------------------------------------------------

  predicate IsStatement(s: string) {
    && s != ""
    && Trim(s) == s
    && SemicolonsInside(s, false)
    && EndsOutside(s, false)
    && forall line :: line in Lines(s) ==> !IsComment(line)
  }

  lemma {:induction false} TrimEndKeepsDashes(s: string)
    ensures StartsWithDashes(TrimEnd(s)) <==> StartsWithDashes(s)
    decreases |s|
  {
    if s != [] && IsSpace(s[|s| - 1]) {
      TrimEndKeepsDashes(s[..|s| - 1]);
    }
  }

  lemma {:induction false} TrimStartAppend(s: string, c: char)
    requires !IsSpace(c)
    ensures TrimStart(s + [c]) == TrimStart(s) + [c]
    decreases |s|
  {
    if s != [] && IsSpace(s[0]) {
      assert (s + [c])[1..] == s[1..] + [c];
      TrimStartAppend(s[1..], c);
    }
  }

  lemma SemicolonMakesNoComment(line: string)
    requires !IsComment(line)
    ensures !IsComment(line + ";")
  {
    TrimStartAppend(line, ';');
    TrimEndKeepsDashes(TrimStart(line));
    TrimEndKeepsDashes(TrimStart(line + ";"));
  }

  lemma {:induction false} LinesJoin(s: string)
    ensures Join(Lines(s), "\n") == s
    decreases |s|
  {
    if s != [] {
      LinesJoin(s[1..]);
      if s[0] == '\n' {
        assert ([""] + Lines(s[1..]))[1..] == Lines(s[1..]);
        assert s == "\n" + s[1..];
      } else {
        JoinPrepend([s[0]], Lines(s[1..]), "\n");
        assert s == [s[0]] + s[1..];
      }
    }
  }

  predicate NoComments(s: string) {
    forall line :: line in Lines(s) ==> !IsComment(line)
  }

  lemma {:induction false} LinesOfConcat(a: string, b: string)
    ensures Lines(a + "\n" + b) == Lines(a) + Lines(b)
    decreases |a|
  {
    var s := a + "\n" + b;
    if a == [] {
      assert s[1..] == b;
    } else {
      assert s[1..] == a[1..] + "\n" + b;
      LinesOfConcat(a[1..], b);
      if a[0] != '\n' {
        assert Prepend([a[0]], Lines(a[1..]) + Lines(b)) == Prepend([a[0]], Lines(a[1..])) + Lines(b);
      }
    }
  }

  /** `Grown(lines, c)` puts `c` behind the last line. */
  function Grown(lines: seq<string>, c: char): seq<string>
    requires lines != []
  {
    lines[..|lines| - 1] + [lines[|lines| - 1] + [c]]
  }

  lemma GrownAfterPrepend(x: string, lines: seq<string>, c: char)
    requires lines != []
    ensures Prepend(x, Grown(lines, c)) == Grown(Prepend(x, lines), c)
  {
    if |lines| == 1 { assert x + (lines[0] + [c]) == (x + lines[0]) + [c]; }
  }

  lemma {:induction false} LinesAppend(a: string, c: char)
    requires c != '\n'
    ensures Lines(a + [c]) == Grown(Lines(a), c)
    decreases |a|
  {
    if a == [] {
      assert (a + [c])[1..] == "" && [c] + "" == "" + [c];
    } else {
      assert (a + [c])[1..] == a[1..] + [c];
      LinesAppend(a[1..], c);
      if a[0] != '\n' { GrownAfterPrepend([a[0]], Lines(a[1..]), c); }
    }
  }

  lemma {:induction false} DropNothing(lines: seq<string>)
    requires forall line :: line in lines ==> !IsComment(line)
    ensures DropComments(lines) == lines
  {
    if lines != [] { DropNothing(lines[1..]); }
  }

  lemma StrippedKeeps(s: string)
    requires NoComments(s)
    ensures Stripped(s) == s
  {
    DropNothing(Lines(s));
    LinesJoin(s);
  }

  lemma TerminatedHasNoComments(s: string)
    requires NoComments(s)
    ensures NoComments(s + ";")
  {
    LinesAppend(s, ';');
    var ls := Lines(s);
    SemicolonMakesNoComment(ls[|ls| - 1]);
  }

  lemma {:induction false} JoinedHasNoComments(stmts: seq<string>)
    requires forall s :: s in stmts ==> NoComments(s)
    ensures NoComments(Join(stmts, ";\n"))
  {
    if |stmts| > 1 {
      JoinedHasNoComments(stmts[1..]);
      var a := stmts[0];
      var b := Join(stmts[1..], ";\n");
      assert a + ";\n" + b == (a + ";") + "\n" + b;
      TerminatedHasNoComments(a);
      LinesOfConcat(a + ";", b);
    } else if stmts == [] {
      assert !IsComment("");
    }
  }

  /** The pieces of a joined script: each statement after the first keeps the newline in front of it. */
  function Led(stmts: seq<string>): seq<string> {
    if stmts == [] then [] else ["\n" + stmts[0]] + Led(stmts[1..])
  }

  lemma NewlineInFront(s: string)
    requires IsStatement(s)
    ensures SemicolonsInside("\n" + s, false) && EndsOutside("\n" + s, false) && Trim("\n" + s) == s
  {
    SemicolonsPrefix("\n", s, false);
    assert ("\n" + s)[1..] == s;
  }

  lemma {:induction false} LedPieces(stmts: seq<string>)
    requires forall s :: s in stmts ==> IsStatement(s)
    ensures Clean(Led(stmts)) == stmts
    ensures |Led(stmts)| == |stmts|
    ensures forall k :: 0 <= k < |stmts| ==> SemicolonsInside(Led(stmts)[k], false) && EndsOutside(Led(stmts)[k], false)
  {
    if stmts != [] {
      NewlineInFront(stmts[0]);
      LedPieces(stmts[1..]);
      assert Led(stmts)[1..] == Led(stmts[1..]);
    }
  }

  lemma {:induction false} JoinLed(first: string, stmts: seq<string>)
    ensures Join([first] + Led(stmts), ";") == Join([first] + stmts, ";\n")
    decreases |stmts|
  {
    if stmts == [] {
      assert [first] + Led(stmts) == [first] && [first] + stmts == [first];
    } else {
      var led := Led(stmts);
      assert ([first] + led)[1..] == ["\n" + stmts[0]] + Led(stmts[1..]) == Prepend("\n", [stmts[0]] + Led(stmts[1..]));
      JoinPrepend("\n", [stmts[0]] + Led(stmts[1..]), ";");
      JoinLed(stmts[0], stmts[1..]);
      assert ([first] + stmts)[1..] == stmts == [stmts[0]] + stmts[1..];
      assert first + ";" + ("\n" + Join(stmts, ";\n")) == first + ";\n" + Join(stmts, ";\n");
    }
  }

  lemma JoinedPieces(first: string, rest: seq<string>)
    requires IsStatement(first) && forall s :: s in rest ==> IsStatement(s)
    ensures Pieces(Join([first] + rest, ";\n"), false) == [first] + Led(rest)
    ensures Clean([first] + Led(rest)) == [first] + rest
  {
    var pieces := [first] + Led(rest);
    LedPieces(rest);
    JoinLed(first, rest);
    assert forall k :: 0 < k < |pieces| ==> pieces[k] == Led(rest)[k - 1];
    CutIsUnique(pieces, false);
    assert pieces[1..] == Led(rest);
  }

  /** Splitting undoes joining, for every list of statements. */
  lemma SplitUndoesJoin(stmts: seq<string>)
    requires forall s :: s in stmts ==> IsStatement(s)
    ensures Statements(Join(stmts, ";\n")) == stmts
  {
    assert forall s :: s in stmts ==> IsStatement(s) && NoComments(s);
    JoinedHasNoComments(stmts);
    StrippedKeeps(Join(stmts, ";\n"));
    if stmts == [] {
      assert Pieces("", false) == [""];
    } else {
      JoinedPieces(stmts[0], stmts[1..]);
      assert stmts == [stmts[0]] + stmts[1..];
    }
  }

  // ---------------------------------------------------------------------------
  // Lines, blanks and comments
  // ---------------------------------------------------------------------------

  predicate AllSpace(s: string) {
    forall i :: 0 <= i < |s| ==> IsSpace(s[i])
  }

  lemma {:induction false} TrimStartCuts(s: string) returns (n: nat)
    ensures n <= |s| && TrimStart(s) == s[n..] && AllSpace(s[..n])
    ensures n < |s| ==> !IsSpace(s[n])
    decreases |s|
  {
    n := 0;
    if s != [] && IsSpace(s[0]) {
      var m := TrimStartCuts(s[1..]);
      n := m + 1;
      assert forall i :: 0 < i < n ==> s[i] == s[1..][..m][i - 1];
    }
  }

  lemma {:induction false} TrimEndCuts(s: string) returns (n: nat)
    ensures n <= |s| && TrimEnd(s) == s[..n] && AllSpace(s[n..])
    ensures n > 0 ==> !IsSpace(s[n - 1])
    decreases |s|
  {
    n := |s|;
    if s != [] && IsSpace(s[|s| - 1]) {
      n := TrimEndCuts(s[..|s| - 1]);
      assert forall i :: n <= i < |s| - 1 ==> s[i] == s[..|s| - 1][n..][i - n];
    }
  }

  /** Trimming takes away blanks at the two ends, and all of them. */
  lemma TrimTakesBlanks(s: string) returns (front: string, back: string)
    ensures s == front + Trim(s) + back && AllSpace(front) && AllSpace(back)
    ensures Trim(s) != "" ==> !IsSpace(Trim(s)[0]) && !IsSpace(Trim(s)[|Trim(s)| - 1])
  {
    var n := TrimStartCuts(s);
    var m := TrimEndCuts(s[n..]);
    front, back := s[..n], s[n..][m..];
  }

  predicate BlankUpTo(s: string, n: nat)
    requires n <= |s|
  {
    forall k :: 0 <= k < n ==> IsSpace(s[k])
  }

  /** A comment line begins, after blanks, with two dashes. */
  lemma CommentIff(line: string)
    ensures IsComment(line) <==>
              exists i :: 0 <= i < |line| - 1 && line[i] == '-' && line[i + 1] == '-' && BlankUpTo(line, i)
  {
    var n := TrimStartCuts(line);
    assert BlankUpTo(line, n) by { assert forall k :: 0 <= k < n ==> line[k] == line[..n][k]; }
    TrimEndKeepsDashes(TrimStart(line));
    assert IsComment(line) <==> n < |line| - 1 && line[n] == '-' && line[n + 1] == '-';
    forall i | 0 <= i < |line| - 1 && line[i] == '-' && BlankUpTo(line, i)
      ensures i == n
    {
    }
  }

  predicate OneLine(line: string) {
    '\n' !in line
  }

  lemma {:induction false} LinesAreSingle(s: string, line: string)
    requires line in Lines(s)
    ensures OneLine(line)
    decreases |s|
  {
    if s != [] {
      var rest := Lines(s[1..]);
      if line in rest {
        LinesAreSingle(s[1..], line);
      } else if s[0] != '\n' {
        assert line == [s[0]] + rest[0];
        LinesAreSingle(s[1..], rest[0]);
      }
    }
  }

  lemma {:induction false} SingleLine(line: string)
    requires OneLine(line)
    ensures Lines(line) == [line]
    decreases |line|
  {
    if line != [] {
      SingleLine(line[1..]);
      assert line == [line[0]] + line[1..];
    }
  }

  lemma {:induction false} LinesOfJoin(lines: seq<string>)
    requires lines != [] && forall line :: line in lines ==> OneLine(line)
    ensures Lines(Join(lines, "\n")) == lines
    decreases |lines|
  {
    SingleLine(lines[0]);
    if |lines| > 1 {
      LinesOfJoin(lines[1..]);
      LinesOfConcat(lines[0], Join(lines[1..], "\n"));
    }
  }

  /** The lines of a text are what lies between its newlines. */
  lemma LinesAreExact(s: string, lines: seq<string>)
    ensures lines == Lines(s) <==>
              lines != [] && Join(lines, "\n") == s && forall line :: line in lines ==> OneLine(line)
  {
    LinesJoin(s);
    forall line | line in Lines(s)
      ensures OneLine(line)
    {
      LinesAreSingle(s, line);
    }
    if lines != [] && forall line :: line in lines ==> OneLine(line) { LinesOfJoin(lines); }
  }

  lemma {:induction false} DropConcat(a: seq<string>, b: seq<string>)
    ensures DropComments(a + b) == DropComments(a) + DropComments(b)
    decreases |a|
  {
    if a == [] {
      assert a + b == b;
    } else {
      assert (a + b)[1..] == a[1..] + b;
      DropConcat(a[1..], b);
    }
  }

  /** Each line stays or goes by itself. */
  lemma LinesAreKeptSingly(a: seq<string>, line: string, b: seq<string>)
    ensures DropComments(a + [line] + b) == DropComments(a) + (if IsComment(line) then [] else [line]) + DropComments(b)
    ensures DropComments([]) == []
  {
    DropConcat(a, [line]);
    DropConcat(a + [line], b);
    assert [line][1..] == [];
  }

  lemma StrippedConcat(a: string, b: string)
    ensures Stripped(a + "\n" + b) == Join(DropComments(Lines(a)) + DropComments(Lines(b)), "\n")
  {
    LinesOfConcat(a, b);
    DropConcat(Lines(a), Lines(b));
  }

  lemma CommentLineIsDropped(line: string)
    requires IsComment(line) && OneLine(line)
    ensures DropComments(Lines(line)) == []
  {
    SingleLine(line);
    assert [line][1..] == [];
  }

  /** A comment line in front of a text, behind it or between two of its lines changes nothing. */
  lemma CommentLineChangesNothing(before: string, line: string, after: string)
    requires IsComment(line) && OneLine(line)
    ensures Stripped(line + "\n" + after) == Stripped(after)
    ensures Stripped(before + "\n" + line) == Stripped(before)
    ensures Stripped(before + "\n" + line + "\n" + after) == Stripped(before + "\n" + after)
  {
    var a, b := DropComments(Lines(before)), DropComments(Lines(after));
    CommentLineIsDropped(line);
    StrippedConcat(line, after);
    StrippedConcat(before, line);
    StrippedConcat(before, after);
    StrippedConcat(before + "\n" + line, after);
    LinesOfConcat(before, line);
    DropConcat(Lines(before), Lines(line));
    assert [] + b == b && a + [] == a;
  }

  // ---------------------------------------------------------------------------
  // A script with comment lines
  // ---------------------------------------------------------------------------

  datatype Item = Remark(line: string) | Command(stmt: string)

  predicate ItemOk(item: Item) {
    match item
    case Remark(line) => IsComment(line) && OneLine(line)
    case Command(stmt) => IsStatement(stmt)
  }

  function Script(items: seq<Item>): string {
    if items == [] then ""
    else (if items[0].Remark? then items[0].line else items[0].stmt + ";") + "\n" + Script(items[1..])
  }

  function Commands(items: seq<Item>): seq<string> {
    if items == [] then []
    else (if items[0].Remark? then [] else [items[0].stmt]) + Commands(items[1..])
  }

  /** Every statement on lines of its own. */
  function Listing(stmts: seq<string>): string {
    if stmts == [] then "" else stmts[0] + ";" + "\n" + Listing(stmts[1..])
  }

  lemma {:induction false} RemarksAreDropped(items: seq<Item>)
    requires forall item :: item in items ==> ItemOk(item)
    ensures DropComments(Lines(Script(items))) == Lines(Listing(Commands(items)))
    decreases |items|
  {
    if items == [] {
      assert [""][1..] == [] && !IsComment("");
    } else {
      var item, rest := items[0], items[1..];
      RemarksAreDropped(rest);
      assert ItemOk(item);
      match item
      case Remark(line) =>
        SingleLine(line);
        CommentLineIsDropped(line);
        LinesOfConcat(line, Script(rest));
        DropConcat([line], Lines(Script(rest)));
        assert [] + Commands(rest) == Commands(rest);
      case Command(stmt) =>
        assert NoComments(stmt);
        TerminatedHasNoComments(stmt);
        DropNothing(Lines(stmt + ";"));
        LinesOfConcat(stmt + ";", Script(rest));
        DropConcat(Lines(stmt + ";"), Lines(Script(rest)));
        LinesOfConcat(stmt + ";", Listing(Commands(rest)));
        assert Commands(items)[1..] == Commands(rest);
    }
  }

  lemma StatementPiece(stmt: string, rest: string)
    requires IsStatement(stmt)
    ensures Clean(Pieces(stmt + ";" + rest, false)) == [stmt] + Clean(Pieces(rest, false))
    ensures Clean(Pieces("\n" + stmt + ";" + rest, false)) == [stmt] + Clean(Pieces(rest, false))
  {
    NewlineInFront(stmt);
    FirstPiece(stmt, rest, false);
    FirstPiece("\n" + stmt, rest, false);
    var ps := Pieces(rest, false);
    assert ([stmt] + ps)[1..] == ps && (["\n" + stmt] + ps)[1..] == ps;
  }

  lemma BlankPiece()
    ensures Clean(Pieces("\n", false)) == [] && Clean(Pieces("", false)) == []
  {
    LastPiece("", false);
    LastPiece("\n", false);
    assert "\n"[1..] == "" && Trim("\n") == "" && Trim("") == "";
    assert [""][1..] == [] && ["\n"][1..] == [];
  }

  lemma ListingUnfolds(stmts: seq<string>) returns (rest: string)
    requires stmts != []
    ensures rest == "\n" + Listing(stmts[1..])
    ensures Listing(stmts) == stmts[0] + ";" + rest
    ensures "\n" + Listing(stmts) == "\n" + stmts[0] + ";" + rest
  {
    rest := "\n" + Listing(stmts[1..]);
    assert Listing(stmts) == stmts[0] + ";" + rest;
    assert "\n" + (stmts[0] + ";" + rest) == "\n" + stmts[0] + ";" + rest;
  }

  lemma {:induction false} ListingPieces(stmts: seq<string>)
    requires forall s :: s in stmts ==> IsStatement(s)
    ensures Clean(Pieces("\n" + Listing(stmts), false)) == stmts
    ensures Clean(Pieces(Listing(stmts), false)) == stmts
    decreases |stmts|
  {
    if stmts == [] {
      BlankPiece();
      assert "\n" + "" == "\n";
    } else {
      var rest := ListingUnfolds(stmts);
      ListingPieces(stmts[1..]);
      StatementPiece(stmts[0], rest);
      assert [stmts[0]] + stmts[1..] == stmts;
    }
  }

  lemma {:induction false} CommandsAreStatements(items: seq<Item>, s: string)
    requires s in Commands(items) && forall item :: item in items ==> ItemOk(item)
    ensures IsStatement(s)
  {
    assert ItemOk(items[0]);
    if s in Commands(items[1..]) { CommandsAreStatements(items[1..], s); }
  }

  /** A script of statements with any comment lines before, between and after them splits to exactly the statements. */
  lemma SplitReadsScript(items: seq<Item>)
    requires forall item :: item in items ==> ItemOk(item)
    ensures Statements(Script(items)) == Commands(items)
  {
    RemarksAreDropped(items);
    LinesJoin(Listing(Commands(items)));
    forall s | s in Commands(items)
      ensures IsStatement(s)
    {
      CommandsAreStatements(items, s);
    }
    ListingPieces(Commands(items));
  }

  // ---------------------------------------------------------------------------
  // The scanner as the program has it
  // ---------------------------------------------------------------------------

  lemma {:induction false} CleanConcat(a: seq<string>, b: seq<string>)
    ensures Clean(a + b) == Clean(a) + Clean(b)
  {
    if a == [] {
      assert a + b == b;
    } else {
      assert (a + b)[1..] == a[1..] + b;
      CleanConcat(a[1..], b);
    }
  }

  /** What the loop has still to push: `current`, then the pieces of the rest of the text. */
  function Pending(current: string, rest: string, inside: bool): seq<string> {
    Clean(Prepend(current, Pieces(rest, inside)))
  }

  lemma PendingStep(current: string, rest: string, inside: bool)
    requires rest != ""
    ensures PairAhead(rest) ==> Pending(current, rest, inside) == Pending(current + "$$", rest[2..], !inside)
    ensures !PairAhead(rest) && rest[0] == ';' && !inside ==>
              Pending(current, rest, inside) == Clean([current]) + Pending("", rest[1..], inside)
    ensures !PairAhead(rest) && !(rest[0] == ';' && !inside) ==>
              Pending(current, rest, inside) == Pending(current + [rest[0]], rest[1..], inside)
  {
    if PairAhead(rest) {
      var ps := Pieces(rest[2..], !inside);
      assert current + ("$$" + ps[0]) == current + "$$" + ps[0];
      assert Prepend(current, Prepend("$$", ps)) == Prepend(current + "$$", ps);
    } else if rest[0] == ';' && !inside {
      var ps := Pieces(rest[1..], inside);
      PrependNothing(current, ps);
      CleanConcat([current], ps);
    } else {
      var ps := Pieces(rest[1..], inside);
      assert current + ([rest[0]] + ps[0]) == current + [rest[0]] + ps[0];
      assert Prepend(current, Prepend([rest[0]], ps)) == Prepend(current + [rest[0]], ps);
    }
  }

  lemma PendingEnds(sql: string, current: string, inside: bool)
    ensures Pending("", Stripped(sql), false) == Statements(sql)
    ensures Pending(current, "", inside) == Clean([current])
    ensures Clean([current]) == if |Trim(current)| > 0 then [Trim(current)] else []
  {
    PrependNothing(current, Pieces(Stripped(sql), false));
    PrependNothing(current, [""]);
    assert Pieces("", inside) == [""];
    assert [current][1..] == [];
  }

  /** The look-ahead of the loop, on the rest of the text. */
  lemma RestAt(s: string, i: nat)
    requires i < |s|
    ensures s[i..] != "" && s[i..][0] == s[i] && s[i..][1..] == s[i + 1..]
    ensures PairAhead(s[i..]) <==> s[i] == '$' && i + 1 < |s| && s[i + 1] == '$'
    ensures PairAhead(s[i..]) ==> s[i..][2..] == s[i + 2..]
  {
  }

  lemma Regroup(a: seq<string>, b: seq<string>, c: seq<string>)
    ensures a + (b + c) == (a + b) + c
    ensures a + [] == a
  {
  }

  /** A cut moves the current piece from what is pending to what is pushed. */
  lemma LoopCuts(pushed: seq<string>, current: string, text: string, i: nat)
    requires i < |text| && text[i] == ';'
    ensures (if |Trim(current)| > 0 then pushed + [Trim(current)] else pushed) + Pending("", text[i + 1..], false)
            == pushed + Pending(current, text[i..], false)
  {
    RestAt(text, i);
    PendingStep(current, text[i..], false);
    PendingEnds("", current, false);
    Regroup(pushed, Clean([current]), Pending("", text[i + 1..], false));
  }

  /** Any other turn of the loop keeps what is pending. */
  lemma LoopReads(current: string, text: string, i: nat, inside: bool)
    requires i < |text|
    ensures var pair := text[i] == '$' && i + 1 < |text| && text[i + 1] == '$';
            && (pair ==> Pending(current + "$$", text[i + 2..], !inside) == Pending(current, text[i..], inside))
            && (!pair && !(text[i] == ';' && !inside) ==>
                  Pending(current + [text[i]], text[i + 1..], inside) == Pending(current, text[i..], inside))
  {
    RestAt(text, i);
    PendingStep(current, text[i..], inside);
  }

  method SplitSqlStatements(sql: string) returns (statements: seq<string>)
    ensures statements == Statements(sql)
  {
    var stripped := Stripped(sql);
    statements := [];
    var current := "";
    var inDollarQuote := false;
    var i := 0;
    PendingEnds(sql, current, inDollarQuote);
    assert stripped[0..] == stripped;
    while i < |stripped|
      invariant 0 <= i <= |stripped|
      invariant statements + Pending(current, stripped[i..], inDollarQuote) == Statements(sql)
    {
      LoopReads(current, stripped, i, inDollarQuote);
      if stripped[i] == '$' && i + 1 < |stripped| && stripped[i + 1] == '$' {
        inDollarQuote := !inDollarQuote;
        current := current + "$$";
        i := i + 2;
      } else if stripped[i] == ';' && !inDollarQuote {
        LoopCuts(statements, current, stripped, i);
        var trimmed := Trim(current);
        if |trimmed| > 0 {
          statements := statements + [trimmed];
        }
        current := "";
        i := i + 1;
      } else {
        current := current + [stripped[i]];
        i := i + 1;
      }
    }
    assert stripped[i..] == "";
    PendingEnds(sql, current, inDollarQuote);
    var trimmed := Trim(current);
    if |trimmed| > 0 {
      statements := statements + [trimmed];
    }
  }
}
