/**
  The query prompt (excel_database.py:170-175): each line typed is run as a
  query until a line that upper-cases to `Q` ends the session. The lines
  are a parameter, and what a query prints is not modelled.
*/
module Console {

  /** `c.upper()` for one character, on the ASCII letters. */
  function UpperChar(c: char): char
  {
    if 'a' <= c <= 'z' then (c as int - 'a' as int + 'A' as int) as char else c
  }

  /** `line.upper()`, character by character. */
  function Upper(line: string): (r: string)
    ensures |r| == |line|
  {
    seq(|line|, i requires 0 <= i < |line| => UpperChar(line[i]))
  }

  /** The quit test of excel_database.py:172, `query.upper() == "Q"`. */
  predicate IsQuit(line: string)
  {
    Upper(line) == "Q"
  }

  /** Exactly the lines `Q` and `q` end the session. */
  lemma IsQuitExactly(line: string)
    ensures IsQuit(line) <==> line == "Q" || line == "q"
  {
    if IsQuit(line) {
      assert |line| == 1;
      assert Upper(line)[0] == 'Q';
      assert UpperChar(line[0]) == 'Q';
      assert line == [line[0]];
    }
  }

  /**
    The prompt loop over the lines typed: every line before the first quit
    line is run as a query, in order, and the loop ends at the first quit
    line. `quit` is false when the input runs out first (where the script's
    `input` raises).
  */
  method Session(lines: seq<string>) returns (queries: seq<string>, quit: bool)
    ensures |queries| <= |lines|
    ensures queries == lines[..|queries|]
    ensures forall k :: 0 <= k < |queries| ==> !IsQuit(queries[k])
    ensures quit ==> |queries| < |lines| && IsQuit(lines[|queries|])
    ensures !quit ==> queries == lines
  {
    queries, quit := [], false;
    var i := 0;
    while i < |lines|
      invariant 0 <= i <= |lines|
      invariant queries == lines[..i]
      invariant forall k :: 0 <= k < i ==> !IsQuit(lines[k])
    {
      var query := lines[i];
      if IsQuit(query) {
        quit := true;
        break;
      }
      queries := queries + [query];
      i := i + 1;
    }
  }
}
