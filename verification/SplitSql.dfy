/** The migration splitter: whole-line `--` comments are dropped, the rest is cut at
    semicolons, and the trimmed non-empty pieces are the statements. */
module SplitSql {
  import opened Text

  // ----- What the splitter computes -----

  predicate IsComment(line: string) {
    "--" <= Trim(line)
  }

  /** The text that survives comment removal; every kept line ends in a newline. */
  function Uncommented(lines: seq<string>): string {
    if lines == [] then ""
    else (if IsComment(lines[0]) then "" else lines[0] + "\n") + Uncommented(lines[1..])
  }

  /** The trimmed, non-empty pieces. */
  function Pieces(parts: seq<string>): seq<string> {
    if parts == [] then []
    else (if Trim(parts[0]) == "" then [] else [Trim(parts[0])]) + Pieces(parts[1..])
  }

  function Statements(text: string): seq<string> {
    Pieces(Split(Uncommented(Split(text, '\n')), ';'))
  }

  // ----- The two loops of the source -----

  method SplitSQL(text: string) returns (result: seq<string>)
    ensures result == Statements(text)
  {
    var withoutComments := "";
    var lines := Split(text, '\n');
    for i := 0 to |lines|
      invariant withoutComments == Uncommented(lines[..i])
    {
      UncommentedSnoc(lines[..i], lines[i]);
      assert lines[..i + 1] == lines[..i] + [lines[i]];
      if IsComment(lines[i]) {
        continue;
      }
      withoutComments := withoutComments + (lines[i] + "\n");
    }
    assert lines[..|lines|] == lines;
    result := [];
    var parts := Split(withoutComments, ';');
    for i := 0 to |parts|
      invariant result == Pieces(parts[..i])
    {
      PiecesSnoc(parts[..i], parts[i]);
      assert parts[..i + 1] == parts[..i] + [parts[i]];
      var statement := Trim(parts[i]);
      if statement != "" {
        result := result + [statement];
      }
    }
    assert parts[..|parts|] == parts;
  }

  lemma {:induction false} UncommentedSnoc(lines: seq<string>, line: string)
    ensures Uncommented(lines + [line])
         == if IsComment(line) then Uncommented(lines) else Uncommented(lines) + (line + "\n")
  {
    if lines == [] {
      assert [line][1..] == [] && [] + [line] == [line];
    } else {
      assert (lines + [line])[1..] == lines[1..] + [line];
      UncommentedSnoc(lines[1..], line);
    }
  }

  lemma {:induction false} PiecesSnoc(parts: seq<string>, part: string)
    ensures Pieces(parts + [part])
         == if Trim(part) == "" then Pieces(parts) else Pieces(parts) + [Trim(part)]
  {
    if parts == [] {
      assert [part][1..] == [] && [] + [part] == [part];
    } else {
      assert (parts + [part])[1..] == parts[1..] + [part];
      PiecesSnoc(parts[1..], part);
    }
  }

  // ----- Shape of the result -----

  predicate CleanStatement(st: string) {
    st != "" && Trimmed(st) && ';' !in st
  }

  /** Every statement is trimmed, non-empty and free of semicolons. */
  lemma {:induction false} StatementsAreClean(text: string)
    ensures forall st | st in Statements(text) :: CleanStatement(st)
  {
    var body := Uncommented(Split(text, '\n'));
    SplitParts(body, ';');
    PiecesAreClean(Split(body, ';'));
  }

  lemma {:induction false} TrimIsInfix(s: string)
    ensures forall c | c in Trim(s) :: c in s
  {
    TrimLeftSpec(s);
    TrimRightSpec(TrimLeft(s));
  }

  lemma {:induction false} PiecesAreClean(parts: seq<string>)
    requires forall p | p in parts :: ';' !in p
    ensures forall st | st in Pieces(parts) :: CleanStatement(st)
  {
    if parts != [] {
      TrimTrims(parts[0]);
      TrimIsInfix(parts[0]);
      PiecesAreClean(parts[1..]);
    }
  }

  // ----- Comments do not matter -----

  /** The text with a further line put in front of its k-th line. */
  function InsertLine(text: string, k: nat, line: string): string
    requires k <= |Split(text, '\n')|
  {
    var lines := Split(text, '\n');
    Join(lines[..k] + [line] + lines[k..], '\n')
  }

  /** Inserting a comment line anywhere in any text, whatever the comment contains
      (semicolons included), leaves the statements alone. Read from right to left, so
      does deleting one. */
  lemma {:induction false} CommentLineIsInvisible(text: string, k: nat, comment: string)
    requires k <= |Split(text, '\n')|
    requires '\n' !in comment && "--" <= Trim(comment)
    ensures Statements(InsertLine(text, k, comment)) == Statements(text)
  {
    var lines := Split(text, '\n');
    var more := lines[..k] + [comment] + lines[k..];
    assert forall p | p in more :: '\n' !in p by {
      SplitParts(text, '\n');
      forall p | p in more ensures '\n' !in p {
        assert p in lines[..k] || p == comment || p in lines[k..];
      }
    }
    SplitJoin(more, '\n');
    UncommentedInsert(lines, k, comment);
  }

  lemma {:induction false} UncommentedInsert(lines: seq<string>, k: nat, comment: string)
    requires k <= |lines| && IsComment(comment)
    ensures Uncommented(lines[..k] + [comment] + lines[k..]) == Uncommented(lines)
  {
    var more := lines[..k] + [comment] + lines[k..];
    if k == 0 {
      assert more[1..] == lines;
    } else {
      assert more[1..] == lines[1..][..k - 1] + [comment] + lines[1..][k - 1..];
      UncommentedInsert(lines[1..], k - 1, comment);
    }
  }

  // ----- Rendering and splitting again -----

  function Render(statements: seq<string>): string {
    if statements == [] then "" else statements[0] + ";\n" + Render(statements[1..])
  }

  predicate HasCommentLine(st: string) {
    exists line | line in Split(st, '\n') :: "--" <= Trim(line)
  }

  /** Rendered with ";\n" and split again, a list of clean statements comes back exactly
      when none of them has a line that reads as a comment. */
  lemma {:induction false} RoundTripIff(statements: seq<string>)
    requires forall st | st in statements :: CleanStatement(st)
    ensures Statements(Render(statements)) == statements
            <==> forall st | st in statements :: !HasCommentLine(st)
  {
    var rendered := Render(statements);
    var lines := Split(rendered, '\n');
    CommentLinesOfRender(statements);
    if forall st | st in statements :: !HasCommentLine(st) {
      UncommentedAll(lines);
      SplitParts(rendered, '\n');
      PiecesOfRender("", statements, "\n");
      assert "" + rendered + "\n" == rendered + "\n";
    } else {
      // A dropped line takes its dashes with it, so the result weighs less.
      var body := Uncommented(lines);
      UncommentedIsLighter(lines);
      SplitParts(rendered, '\n');
      WeightOfJoin(lines, '\n');
      WeightOfPieces(Split(body, ';'));
      SplitParts(body, ';');
      WeightOfJoin(Split(body, ';'), ';');
      WeightOfRender(statements);
    }
  }

  /** A statement the splitter itself returns need not survive a second pass: a comment
      behind a semicolon on the same line ("A; -- b") is kept as a statement of its own,
      and is dropped when the statements are rendered and split again. */
  lemma {:induction false} ResplittingCanLoseAStatement(a: string, b: string)
    requires CleanStatement(a) && CleanStatement(b) && '\n' !in a && '\n' !in b
    requires !IsComment(a + "; " + b) && "--" <= b
    ensures Statements(a + "; " + b) == [a, b]
    ensures Statements(Render([a, b])) != [a, b]
  {
    StatementsOfTwo(a, b);
    CommentStatementIsLost([a, b], 1);
  }

  lemma {:induction false} StatementsOfTwo(a: string, b: string)
    requires CleanStatement(a) && CleanStatement(b) && '\n' !in a && '\n' !in b
    requires !IsComment(a + "; " + b)
    ensures Statements(a + "; " + b) == [a, b]
  {
    var text, rest := a + "; " + b, " " + b + "\n";
    SplitNone(text, '\n');
    UncommentedAll([text]);
    assert text + "\n" == a + [';'] + rest;
    SplitAt(a, ';', rest);
    SplitNone(a, ';');
    SplitNone(rest, ';');
    PiecesOfTwo(a, rest, b);
  }

  lemma {:induction false} PiecesOfTwo(a: string, rest: string, b: string)
    requires CleanStatement(a) && CleanStatement(b) && rest == " " + b + "\n"
    ensures Pieces([a] + [rest]) == [a, b]
  {
    TrimmedIsFixed(a);
    TrimPadded(b);
    PiecesSnoc([a], rest);
    PiecesSnoc([], a);
    assert [] + [a] == [a];
  }

  lemma {:induction false} TrimPadded(b: string)
    requires Trimmed(b)
    ensures Trim(" " + b + "\n") == b
  {
    assert " " + b + "\n" == " " + (b + "\n");
    TrimAfterBlank(" ", b + "\n");
    TrimmedIsFixed(b);
    assert (b + "\n")[..|b|] == b;
    if b == "" {
      TrimBlank("\n");
      assert b + "\n" == "\n";
    }
  }

  lemma {:induction false} CommentStatementIsLost(found: seq<string>, i: nat)
    requires forall st | st in found :: CleanStatement(st)
    requires i < |found| && '\n' !in found[i] && "--" <= found[i]
    ensures Statements(Render(found)) != found
  {
    var st := found[i];
    assert st in found;
    SplitNone(st, '\n');
    TrimmedIsFixed(st);
    assert st in Split(st, '\n') && HasCommentLine(st);
    RoundTripIff(found);
  }

  // ----- Lines of a rendered list -----

  lemma {:induction false} CommentByLeft(line: string)
    ensures IsComment(line) <==> "--" <= TrimLeft(line)
  {
    var t := TrimLeft(line);
    if "--" <= t {
      InkIsNotBlank(t, 1);
    }
    TrimRightSpec(t);
  }

  lemma {:induction false} InkIsNotBlank(s: string, i: nat)
    requires i < |s| && !IsSpace(s[i])
    ensures forall k: nat | k <= i :: !Blank(s[k..])
  {
    forall k: nat | k <= i ensures !Blank(s[k..]) {
      assert s[k..][i - k] == s[i];
    }
  }

  /** A trailing semicolon neither makes nor unmakes a comment line. */
  lemma {:induction false} SemicolonKeepsCommentness(line: string)
    ensures IsComment(line + ";") <==> IsComment(line)
  {
    CommentByLeft(line);
    CommentByLeft(line + ";");
    TrimLeftAppend(line);
  }

  lemma {:induction false} TrimLeftAppend(line: string)
    ensures TrimLeft(line + ";") == TrimLeft(line) + ";"
  {
    if line != "" {
      assert (line + ";")[1..] == line[1..] + ";";
      TrimLeftAppend(line[1..]);
    }
  }

  lemma {:induction false} SplitSemicolon(st: string)
    ensures var ls := Split(st, '\n');
            Split(st + ";", '\n') == ls[|ls| - 1 := ls[|ls| - 1] + ";"]
  {
    if st != "" {
      assert (st + ";")[1..] == st[1..] + ";";
      SplitSemicolon(st[1..]);
      var ls := Split(st[1..], '\n');
      if st[0] != '\n' && |ls| == 1 {
        assert [st[0]] + (ls[0] + ";") == ([st[0]] + ls[0]) + ";";
      }
    } else {
      SplitNone(";", '\n');
      assert "" + ";" == ";";
    }
  }

  /** A rendered list has a comment line exactly when one of its statements has. */
  lemma {:induction false} CommentLinesOfRender(statements: seq<string>)
    ensures (exists line | line in Split(Render(statements), '\n') :: IsComment(line))
            <==> exists st | st in statements :: HasCommentLine(st)
  {
    if statements == [] {
      assert Split("", '\n') == [""];
    } else {
      var st, rest := statements[0], statements[1..];
      CommentLinesOfRender(rest);
      assert Render(statements) == (st + ";") + ['\n'] + Render(rest);
      SplitAt(st + ";", '\n', Render(rest));
      CommentLinesOfStatement(st);
      var head := Split(st + ";", '\n');
      assert forall line :: line in head + Split(Render(rest), '\n')
                            <==> line in head || line in Split(Render(rest), '\n');
      assert forall x :: x in statements <==> x == st || x in rest;
    }
  }

  lemma {:induction false} CommentLinesOfStatement(st: string)
    ensures (exists line | line in Split(st + ";", '\n') :: IsComment(line)) <==> HasCommentLine(st)
  {
    var ls, head := Split(st, '\n'), Split(st + ";", '\n');
    SplitSemicolon(st);
    SemicolonKeepsCommentness(ls[|ls| - 1]);
    assert forall i | 0 <= i < |ls| :: IsComment(head[i]) <==> IsComment(ls[i]);
    forall line | line in head && IsComment(line) ensures HasCommentLine(st) {
      var i :| 0 <= i < |head| && head[i] == line;
      assert ls[i] in ls;
    }
    forall line | line in ls && IsComment(line)
      ensures exists l | l in head :: IsComment(l)
    {
      var i :| 0 <= i < |ls| && ls[i] == line;
      assert head[i] in head;
    }
  }

  lemma {:induction false} UncommentedAll(lines: seq<string>)
    requires |lines| > 0 && forall line | line in lines :: !IsComment(line)
    ensures Uncommented(lines) == Join(lines, '\n') + "\n"
  {
    if |lines| > 1 {
      UncommentedAll(lines[1..]);
    }
  }

  /** The pieces of a rendered list between two blanks are its statements. */
  lemma {:induction false} PiecesOfRender(before: string, statements: seq<string>, after: string)
    requires Blank(before) && Blank(after)
    requires forall st | st in statements :: CleanStatement(st)
    ensures Pieces(Split(before + Render(statements) + after, ';')) == statements
    decreases |statements|
  {
    if statements == [] {
      assert before + Render(statements) + after == before + after;
      SplitNone(before + after, ';');
      TrimBlank(before + after);
    } else {
      var st, rest := statements[0], statements[1..];
      assert before + Render(statements) + after
          == (before + st) + [';'] + ("\n" + Render(rest) + after);
      SplitAt(before + st, ';', "\n" + Render(rest) + after);
      assert CleanStatement(st);
      SplitNone(before + st, ';');
      PiecesOfRender("\n", rest, after);
      TrimAfterBlank(before, st);
      TrimmedIsFixed(st);
      var tail := Split("\n" + Render(rest) + after, ';');
      assert ([before + st] + tail)[1..] == tail;
      assert [st] + rest == statements;
    }
  }

  // ----- Weight: the characters that neither trimming nor splitting removes -----

  function CharWeight(c: char): nat {
    if IsSpace(c) || c == ';' then 0 else 1
  }

  function Weight(s: string): nat {
    if s == "" then 0 else CharWeight(s[0]) + Weight(s[1..])
  }

  function TotalWeight(parts: seq<string>): nat {
    if parts == [] then 0 else Weight(parts[0]) + TotalWeight(parts[1..])
  }

  lemma {:induction false} WeightConcat(a: string, b: string)
    ensures Weight(a + b) == Weight(a) + Weight(b)
  {
    if a == "" {
      assert a + b == b;
    } else {
      assert (a + b)[1..] == a[1..] + b;
      WeightConcat(a[1..], b);
    }
  }

  lemma {:induction false} WeightTrimLeft(s: string)
    ensures Weight(TrimLeft(s)) == Weight(s)
  {
    if s != "" && IsSpace(s[0]) {
      WeightTrimLeft(s[1..]);
    }
  }

  lemma {:induction false} WeightTrimRight(s: string)
    ensures Weight(TrimRight(s)) == Weight(s)
  {
    if s != "" && IsSpace(s[|s| - 1]) {
      var front, last := s[..|s| - 1], s[|s| - 1..];
      WeightTrimRight(front);
      WeightConcat(front, last);
      assert front + last == s && last[1..] == "";
    }
  }

  lemma {:induction false} WeightTrim(s: string)
    ensures Weight(Trim(s)) == Weight(s)
  {
    WeightTrimLeft(s);
    WeightTrimRight(TrimLeft(s));
  }

  lemma {:induction false} WeightOfPieces(parts: seq<string>)
    ensures TotalWeight(Pieces(parts)) == TotalWeight(parts)
  {
    if parts != [] {
      WeightTrim(parts[0]);
      WeightOfPieces(parts[1..]);
      if Trim(parts[0]) != "" {
        assert Pieces(parts)[1..] == Pieces(parts[1..]);
      } else {
        assert Pieces(parts) == Pieces(parts[1..]);
      }
    }
  }

  lemma {:induction false} WeightOfJoin(parts: seq<string>, sep: char)
    requires |parts| > 0 && CharWeight(sep) == 0
    ensures Weight(Join(parts, sep)) == TotalWeight(parts)
  {
    if |parts| > 1 {
      WeightOfJoin(parts[1..], sep);
      WeightConcat(parts[0] + [sep], Join(parts[1..], sep));
      WeightConcat(parts[0], [sep]);
    }
  }

  lemma {:induction false} WeightOfRender(statements: seq<string>)
    ensures Weight(Render(statements)) == TotalWeight(statements)
  {
    if statements != [] {
      WeightOfRender(statements[1..]);
      WeightConcat(statements[0] + ";\n", Render(statements[1..]));
      WeightConcat(statements[0], ";\n");
      assert ";\n"[1..] == "\n";
    }
  }

  lemma {:induction false} CommentWeighs(line: string)
    requires IsComment(line)
    ensures Weight(line) > 0
  {
    WeightTrim(line);
  }

  /** Dropping a comment line loses weight; nothing adds any. */
  lemma {:induction false} UncommentedIsLighter(lines: seq<string>)
    ensures Weight(Uncommented(lines)) <= TotalWeight(lines)
    ensures (exists line | line in lines :: IsComment(line))
            ==> Weight(Uncommented(lines)) < TotalWeight(lines)
  {
    if lines != [] {
      UncommentedIsLighter(lines[1..]);
      if IsComment(lines[0]) {
        CommentWeighs(lines[0]);
        assert Uncommented(lines) == Uncommented(lines[1..]);
      } else {
        WeightConcat(lines[0] + "\n", Uncommented(lines[1..]));
        WeightConcat(lines[0], "\n");
        assert "\n"[1..] == "";
      }
      assert lines == [lines[0]] + lines[1..];
    }
  }
}
