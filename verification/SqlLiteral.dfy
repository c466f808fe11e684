/**
 Writing values into SQL text and reading them back. A character literal is
 delimited by quotes; inside it a doubled quote stands for one (ISO/IEC 9075-2,
 section 5.3).
 */
module SqlLiteral {
  import opened Prelude

  /** Doubles every quote. */
  function Esc(v: string): string {
    if v == [] then ""
    else (if v[0] == '\'' then "''" else [v[0]]) + Esc(v[1..])
  }

  /** Reads on from just after the opening quote: the value, and what follows the closing quote. */
  function ReadLiteral(s: string): Option<(string, string)>
    decreases |s|
  {
    if s == [] then None
    else if s[0] == '\'' then
      if |s| > 1 && s[1] == '\'' then Extend('\'', ReadLiteral(s[2..])) else Some(("", s[1..]))
    else Extend(s[0], ReadLiteral(s[1..]))
  }

  function Extend(c: char, r: Option<(string, string)>): Option<(string, string)> {
    if r.Some? then Some(([c] + r.value.0, r.value.1)) else None
  }

  /** The literal ends at its own closing quote and holds the value, unless a quote follows it directly. */
  lemma {:induction false} LiteralReadsBack(v: string, rest: string)
    requires rest != [] ==> rest[0] != '\''
    ensures ReadLiteral(Esc(v) + "'" + rest) == Some((v, rest))
    decreases |v|
  {
    var s := Esc(v) + "'" + rest;
    if v == [] {
      assert s == "'" + rest && s[1..] == rest;
    } else {
      var tail := Esc(v[1..]) + "'" + rest;
      LiteralReadsBack(v[1..], rest);
      if v[0] == '\'' {
        assert s == "''" + tail && s[2..] == tail;
      } else {
        assert s == [v[0]] + tail && s[1..] == tail;
      }
      assert [v[0]] + v[1..] == v;
    }
  }

  lemma {:induction false} ReadConsumesQuotes(v: string, rest: string)
    requires rest != [] && rest[0] == '\''
    ensures ReadLiteral(Esc(v) + "'" + rest) != Some((v, rest))
    decreases |v|
  {
    var s := Esc(v) + "'" + rest;
    if v == [] {
      assert s == "'" + rest && s[1] == '\'';
    } else {
      var tail := Esc(v[1..]) + "'" + rest;
      ReadConsumesQuotes(v[1..], rest);
      if v[0] == '\'' {
        assert s == "''" + tail && s[2..] == tail;
      } else {
        assert s == [v[0]] + tail && s[1..] == tail;
      }
      var r := ReadLiteral(tail);
      assert r.Some? && [v[0]] + r.value.0 == v ==> r.value.0 == v[1..] by {
        if r.Some? && [v[0]] + r.value.0 == v { assert ([v[0]] + r.value.0)[1..] == r.value.0; }
      }
    }
  }

  /** Reading back gives the value and stops at the closing quote if and only if no quote follows it. */
  lemma LiteralReadsBackIff(v: string, rest: string)
    ensures ReadLiteral(Esc(v) + "'" + rest) == Some((v, rest)) <==> (rest == [] || rest[0] != '\'')
  {
    if rest == [] || rest[0] != '\'' { LiteralReadsBack(v, rest); } else { ReadConsumesQuotes(v, rest); }
  }

  lemma EscIsInjective(v: string, w: string)
    requires Esc(v) == Esc(w)
    ensures v == w
  {
    LiteralReadsBack(v, "");
    LiteralReadsBack(w, "");
  }

  // ---------------------------------------------------------------------------
  // The row of an insert
  // ---------------------------------------------------------------------------

  /** A value of the row: text between quotes, or a bare word such as `true`, `NULL` or `CURRENT_TIMESTAMP`. */
  datatype Value = Text(text: string) | Word(word: string)

  /** A value with the blanks and line breaks before it. */
  datatype Cell = Cell(lead: string, value: Value)

  predicate IsBlank(c: char) {
    c == ' ' || c == '\n'
  }

  predicate IsWordChar(c: char) {
    'a' <= c <= 'z' || 'A' <= c <= 'Z' || c == '_'
  }

  predicate Blank(s: string) {
    forall c :: c in s ==> IsBlank(c)
  }

  predicate ValueOk(v: Value) {
    v.Word? ==> v.word != "" && forall c :: c in v.word ==> IsWordChar(c)
  }

  predicate RowOk(row: seq<Cell>) {
    row != [] && forall cell :: cell in row ==> Blank(cell.lead) && ValueOk(cell.value)
  }

  function RenderValue(v: Value): string {
    if v.Text? then "'" + Esc(v.text) + "'" else v.word
  }

  /** The values separated by commas, then `close` and a parenthesis. */
  function RenderRow(row: seq<Cell>, close: string): string
    requires row != []
  {
    row[0].lead + RenderValue(row[0].value)
    + if |row| == 1 then close + ")" else "," + RenderRow(row[1..], close)
  }

  function SkipBlanks(s: string): (r: string)
    ensures |r| <= |s|
  {
    if s != [] && IsBlank(s[0]) then SkipBlanks(s[1..]) else s
  }

  function TakeWord(s: string): (r: (string, string))
    ensures r.0 + r.1 == s
  {
    if s == [] || !IsWordChar(s[0]) then ("", s)
    else
      var r := TakeWord(s[1..]);
      ([s[0]] + r.0, r.1)
  }

  function ReadValue(s: string): Option<(Value, string)> {
    if s == [] then None
    else if s[0] == '\'' then
      var r := ReadLiteral(s[1..]);
      if r.Some? then Some((Text(r.value.0), r.value.1)) else None
    else
      var r := TakeWord(s);
      if r.0 == "" then None else Some((Word(r.0), r.1))
  }

  /** Reads values up to the closing parenthesis; `None` if the row is malformed. */
  function ReadRow(s: string): Option<(seq<Value>, string)>
    decreases |s|
  {
    var first := ReadValue(SkipBlanks(s));
    if first.None? then None
    else
      var after := SkipBlanks(first.value.1);
      if after == [] || |after| > |s| then None
      else if after[0] == ')' then Some(([first.value.0], after[1..]))
      else if after[0] != ',' then None
      else
        var others := ReadRow(after[1..]);
        if others.Some? then Some(([first.value.0] + others.value.0, others.value.1)) else None
  }

  function Values(row: seq<Cell>): seq<Value> {
    seq(|row|, i requires 0 <= i < |row| => row[i].value)
  }

  lemma {:induction false} BlanksAreSkipped(lead: string, s: string)
    requires Blank(lead) && s != [] && !IsBlank(s[0])
    ensures SkipBlanks(lead + s) == s
    decreases |lead|
  {
    if lead == [] {
      assert lead + s == s;
    } else {
      assert (lead + s)[1..] == lead[1..] + s;
      BlanksAreSkipped(lead[1..], s);
    }
  }

  lemma {:induction false} WordIsTaken(word: string, s: string)
    requires (forall c :: c in word ==> IsWordChar(c)) && s != [] && !IsWordChar(s[0])
    ensures TakeWord(word + s) == (word, s)
    decreases |word|
  {
    if word == [] {
      assert word + s == s;
    } else {
      assert (word + s)[1..] == word[1..] + s;
      WordIsTaken(word[1..], s);
      assert [word[0]] + word[1..] == word;
    }
  }

  predicate EndsValue(s: string) {
    s != [] && s[0] != '\'' && !IsWordChar(s[0])
  }

  lemma ValueReadsBack(v: Value, s: string)
    requires ValueOk(v) && EndsValue(s)
    ensures ReadValue(RenderValue(v) + s) == Some((v, s))
    ensures RenderValue(v) != "" && !IsBlank(RenderValue(v)[0])
  {
    if v.Text? { TextReadsBack(v.text, s); } else { WordReadsBack(v.word, s); }
  }

  lemma TextReadsBack(text: string, s: string)
    requires EndsValue(s)
    ensures var r := RenderValue(Text(text));
            ReadValue(r + s) == Some((Text(text), s)) && r != "" && !IsBlank(r[0])
  {
    var r := RenderValue(Text(text));
    assert r[0] == '\'';
    assert (r + s)[1..] == Esc(text) + "'" + s;
    LiteralReadsBack(text, s);
  }

  lemma WordReadsBack(word: string, s: string)
    requires ValueOk(Word(word)) && EndsValue(s)
    ensures ReadValue(word + s) == Some((Word(word), s)) && word != "" && !IsBlank(word[0])
  {
    WordIsTaken(word, s);
    assert word[0] in word;
    assert (word + s)[0] == word[0];
  }

  lemma CellReadsBack(cell: Cell, s: string)
    requires Blank(cell.lead) && ValueOk(cell.value) && EndsValue(s)
    ensures ReadValue(SkipBlanks(cell.lead + RenderValue(cell.value) + s)) == Some((cell.value, s))
  {
    ValueReadsBack(cell.value, s);
    BlanksAreSkipped(cell.lead, RenderValue(cell.value) + s);
    assert cell.lead + RenderValue(cell.value) + s == cell.lead + (RenderValue(cell.value) + s);
  }

  lemma LastCellReadsBack(cell: Cell, close: string, rest: string)
    requires Blank(cell.lead) && ValueOk(cell.value) && Blank(close)
    ensures ReadRow(cell.lead + RenderValue(cell.value) + (close + ")" + rest)) == Some(([cell.value], rest))
  {
    var tail := close + ")" + rest;
    assert tail == close + (")" + rest);
    assert EndsValue(tail) by { if close != [] { assert close[0] in close; } }
    CellReadsBack(cell, tail);
    BlanksAreSkipped(close, ")" + rest);
    assert (")" + rest)[1..] == rest;
  }

  lemma FirstCellReadsBack(cell: Cell, others: string, values: seq<Value>, rest: string)
    requires Blank(cell.lead) && ValueOk(cell.value) && ReadRow(others) == Some((values, rest))
    ensures ReadRow(cell.lead + RenderValue(cell.value) + ("," + others)) == Some(([cell.value] + values, rest))
  {
    var tail := "," + others;
    CellReadsBack(cell, tail);
    BlanksAreSkipped("", tail);
    assert "" + tail == tail && tail[1..] == others;
  }

  lemma Associative(a: string, b: string, c: string)
    ensures a + b + c == a + (b + c)
  {
  }

  lemma RowUnfolds(row: seq<Cell>, close: string, rest: string)
    requires row != []
    ensures var head := row[0].lead + RenderValue(row[0].value);
            RenderRow(row, close) + rest ==
              head + if |row| == 1 then close + ")" + rest else "," + (RenderRow(row[1..], close) + rest)
  {
    var head := row[0].lead + RenderValue(row[0].value);
    if |row| == 1 {
      Associative(head, close + ")", rest);
    } else {
      Associative(head, "," + RenderRow(row[1..], close), rest);
      Associative(",", RenderRow(row[1..], close), rest);
    }
  }

  /** Whatever the texts hold, the row is read back with the same number of values, each what it was. */
  lemma {:induction false} RowReadsBack(row: seq<Cell>, close: string, rest: string)
    requires RowOk(row) && Blank(close)
    ensures ReadRow(RenderRow(row, close) + rest) == Some((Values(row), rest))
    decreases |row|
  {
    RowUnfolds(row, close, rest);
    assert row[0] in row;
    if |row| == 1 {
      LastCellReadsBack(row[0], close, rest);
      assert Values(row) == [row[0].value];
    } else {
      assert Values(row) == [row[0].value] + Values(row[1..]);
      RowReadsBack(row[1..], close, rest);
      FirstCellReadsBack(row[0], RenderRow(row[1..], close) + rest, Values(row[1..]), rest);
    }
  }

  /** The values of a permission's insert, as the seeder lays them out. */
  function PermissionRow(slug: string, resource: string, action: string, description: string): seq<Cell> {
    var line := "\n          ";
    [Cell(line, Text(slug)), Cell(" ", Text("tenant")), Cell(" ", Text(resource)),
     Cell(line, Text(action)), Cell(" ", Text(description)), Cell(" ", Word("true"))]
  }

  /** The values of a role's insert; a role of no vertical has `NULL` there. */
  function RoleRow(slug: string, name: string, description: string, scopeType: string,
                   vertical: Option<string>): seq<Cell> {
    var line := "\n          ";
    [Cell(line, Text(slug)), Cell(" ", Text(name)), Cell(" ", Text(description)),
     Cell(line, Text(scopeType)), Cell(" ", Word("true")),
     Cell(" ", if vertical.Some? then Text(vertical.value) else Word("NULL")), Cell(" ", Word("CURRENT_TIMESTAMP"))]
  }

  /** The layouts and bare words are well formed. */
  lemma LayoutOk()
    ensures Blank(" ") && Blank("\n          ") && Blank("\n        ")
    ensures ValueOk(Word("true")) && ValueOk(Word("NULL")) && ValueOk(Word("CURRENT_TIMESTAMP"))
  {
  }

  lemma CellsOk(row: seq<Cell>)
    requires row != [] && forall i :: 0 <= i < |row| ==> Blank(row[i].lead) && ValueOk(row[i].value)
    ensures RowOk(row)
  {
  }

  /**
   So a permission's insert carries exactly its four texts, and no text of it can reach another column or end the row.
   */
  lemma PermissionRowReadsBack(slug: string, resource: string, action: string, description: string, close: string,
                               rest: string)
    requires Blank(close)
    ensures ReadRow(RenderRow(PermissionRow(slug, resource, action, description), close) + rest)
            == Some(([Text(slug), Text("tenant"), Text(resource), Text(action), Text(description), Word("true")], rest))
  {
    var row := PermissionRow(slug, resource, action, description);
    assert RowOk(row) by {
      LayoutOk();
      CellsOk(row);
    }
    assert Values(row) == [Text(slug), Text("tenant"), Text(resource), Text(action), Text(description), Word("true")];
    RowReadsBack(row, close, rest);
  }

  lemma RoleRowReadsBack(slug: string, name: string, description: string, scopeType: string, vertical: Option<string>,
                         close: string, rest: string)
    requires Blank(close)
    ensures ReadRow(RenderRow(RoleRow(slug, name, description, scopeType, vertical), close) + rest)
            == Some(([Text(slug), Text(name), Text(description), Text(scopeType), Word("true"),
                      if vertical.Some? then Text(vertical.value) else Word("NULL"), Word("CURRENT_TIMESTAMP")], rest))
  {
    var row := RoleRow(slug, name, description, scopeType, vertical);
    assert RowOk(row) by {
      LayoutOk();
      CellsOk(row);
    }
    assert Values(row) == [Text(slug), Text(name), Text(description), Text(scopeType), Word("true"),
                           if vertical.Some? then Text(vertical.value) else Word("NULL"), Word("CURRENT_TIMESTAMP")];
    RowReadsBack(row, close, rest);
  }
}
