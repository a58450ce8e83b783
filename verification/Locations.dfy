/** Source positions: the line a place in the code is on, and its line and column numbers. */
module Locations {

  const NEWLINE := '\n'
  const WRAP := 0x1_0000_0000

  datatype Location = Location(line: nat, column: nat, content: string)

  /** How many newlines there are. */
  function Count(s: string): nat
  {
    if s == [] then 0 else Count(s[..|s| - 1]) + if s[|s| - 1] == NEWLINE then 1 else 0
  }

  /** The position behind the last newline before `where`, searched backwards. */
  function LineStart(code: string, where: nat): (sol: nat)
    requires where <= |code|
    ensures sol <= where
  {
    if where == 0 || code[where - 1] == NEWLINE then where else LineStart(code, where - 1)
  }

  /** The position of the first newline from `where` on, or the end. */
  function LineEnd(code: string, where: nat): (eol: nat)
    requires where <= |code|
    ensures where <= eol <= |code|
    decreases |code| - where
  {
    if where == |code| || code[where] == NEWLINE then where else LineEnd(code, where + 1)
  }

  function Wrapped(n: nat): nat
  {
    n % WRAP
  }

  /** What is stored for a place: numbers are kept in 32 bits, lines count from one. */
  function Locate(code: string, where: nat): Location
    requires where <= |code|
  {
    var sol := LineStart(code, where);
    Location(Wrapped(Wrapped(Count(code[..where])) + 1), Wrapped(where - sol), code[sol..LineEnd(code, where)])
  }

  predicate Before(a: Location, b: Location)
  {
    a.line < b.line || (a.line == b.line && a.column < b.column)
  }

  // ------------------------------------------------------------------ lemmas

  lemma CountStep(code: string, i: nat)
    requires i < |code|
    ensures Count(code[..i + 1]) == Count(code[..i]) + if code[i] == NEWLINE then 1 else 0
  {
    assert code[..i + 1][..i] == code[..i];
  }

  lemma {:induction false} CountBound(code: string, i: nat)
    requires i <= |code|
    ensures Count(code[..i]) <= i
    decreases i
  {
    if i > 0 {
      CountStep(code, i - 1);
      CountBound(code, i - 1);
    }
  }

  lemma {:induction false} StartOfLine(code: string, where: nat)
    requires where <= |code|
    ensures var sol := LineStart(code, where);
      && (forall i :: sol <= i < where ==> code[i] != NEWLINE)
      && (sol == 0 || code[sol - 1] == NEWLINE)
      && Count(code[..where]) == Count(code[..sol])
    decreases where
  {
    if where > 0 && code[where - 1] != NEWLINE {
      StartOfLine(code, where - 1);
      CountStep(code, where - 1);
    }
  }

  lemma {:induction false} EndOfLine(code: string, where: nat)
    requires where <= |code|
    ensures var eol := LineEnd(code, where);
      (forall i :: where <= i < eol ==> code[i] != NEWLINE) && (eol == |code| || code[eol] == NEWLINE)
    decreases |code| - where
  {
    if where < |code| && code[where] != NEWLINE {
      EndOfLine(code, where + 1);
    }
  }

  /** The stored line is the maximal part of the code around the place without a newline, and the
      column is the place's index in it. */
  lemma LineIsMaximal(code: string, where: nat)
    requires where <= |code| && where < WRAP
    ensures var l := Locate(code, where);
      exists sol: nat, eol: nat :: sol <= where <= eol <= |code|
        && l.content == code[sol..eol] && NEWLINE !in l.content && l.column == where - sol
        && (sol == 0 || code[sol - 1] == NEWLINE) && (eol == |code| || code[eol] == NEWLINE)
  {
    var sol, eol := LineStart(code, where), LineEnd(code, where);
    StartOfLine(code, where);
    EndOfLine(code, where);
    Small(where - sol);
    assert NEWLINE !in code[sol..eol];
    var l := Locate(code, where);
    assert sol <= where <= eol <= |code|
      && l.content == code[sol..eol] && NEWLINE !in l.content && l.column == where - sol;
  }

  lemma Small(x: nat)
    requires x < WRAP
    ensures Wrapped(x) == x
  {
  }

  /** The line number wraps to zero exactly at the last place of 2^32 - 1 newlines. */
  lemma LineExactly(code: string, where: nat)
    requires where <= |code| && where < WRAP
    ensures var n := Count(code[..where]);
      n < WRAP && Locate(code, where).line == if n < WRAP - 1 then n + 1 else 0
  {
    CountBound(code, where);
    hide Count, LineStart, LineEnd, Wrapped;
    Small(Count(code[..where]));
    if Count(code[..where]) < WRAP - 1 {
      Small(Count(code[..where]) + 1);
    } else {
      Full();
    }
  }

  lemma Full()
    ensures Wrapped(WRAP) == 0
  {
  }

  lemma ColumnExactly(code: string, where: nat)
    requires where <= |code| && where < WRAP
    ensures Locate(code, where).column == where - LineStart(code, where)
  {
    hide Count, LineStart, LineEnd, Wrapped;
    Small(where - LineStart(code, where));
  }

  lemma {:induction false} CountGrows(code: string, a: nat, b: nat)
    requires a <= b <= |code|
    ensures Count(code[..a]) <= Count(code[..b])
    decreases b
  {
    if a < b {
      CountStep(code, b - 1);
      CountGrows(code, a, b - 1);
    }
  }

  /** One place further on, the location is greater. */
  lemma NextIsLater(code: string, where: nat)
    requires where < |code| && where + 1 < WRAP && Count(code[..where + 1]) < WRAP - 1
    ensures Before(Locate(code, where), Locate(code, where + 1))
  {
    CountStep(code, where);
    LineExactly(code, where);
    LineExactly(code, where + 1);
    ColumnExactly(code, where);
    ColumnExactly(code, where + 1);
    hide Locate, Count;
  }

  lemma {:induction false} LaterIsGreater(code: string, a: nat, b: nat)
    requires a < b <= |code| && b < WRAP && Count(code[..b]) < WRAP - 1
    ensures Before(Locate(code, a), Locate(code, b))
    decreases b
  {
    hide Locate;
    NextIsLater(code, b - 1);
    if a < b - 1 {
      CountGrows(code, b - 1, b);
      LaterIsGreater(code, a, b - 1);
    }
  }

  /** Line and column increase strictly, in lexicographic order, with the place, exactly as long as
      fewer than 2^32 - 1 newlines lie before it. */
  lemma LocationsIncrease(code: string, a: nat, b: nat)
    requires a < b <= |code| && b < WRAP
    ensures Before(Locate(code, a), Locate(code, b)) <==> Count(code[..b]) < WRAP - 1
  {
    hide Locate, Count;
    if Count(code[..b]) < WRAP - 1 {
      LaterIsGreater(code, a, b);
    } else {
      LineExactly(code, a);
      LineExactly(code, b);
      CountBound(code, a);
      CountBound(code, b);
    }
  }

  /** The place found by going to a line and a column. */
  function Place(code: string, line: nat, column: nat): nat
    requires line > 0
  {
    if line == 1 then column
    else
      var eol := LineEnd(code, 0);
      if eol == |code| then 0 else eol + 1 + Place(code[eol + 1..], line - 1, column)
  }

  lemma {:induction false} CountSplit(a: string, b: string)
    ensures Count(a + b) == Count(a) + Count(b)
    decreases |b|
  {
    if b == [] {
      assert a + b == a;
    } else {
      assert (a + b)[..|a + b| - 1] == a + b[..|b| - 1];
      CountSplit(a, b[..|b| - 1]);
    }
  }

  lemma {:induction false} CountNone(s: string)
    requires NEWLINE !in s
    ensures Count(s) == 0
    decreases |s|
  {
    if s != [] {
      CountNone(s[..|s| - 1]);
    }
  }

  /** A later line of the code is a line of the rest of the code. */
  lemma {:induction false} StartInRest(code: string, skip: nat, where: nat)
    requires 0 < skip <= where <= |code| && code[skip - 1] == NEWLINE
    ensures LineStart(code, where) == skip + LineStart(code[skip..], where - skip)
    decreases where
  {
    if where > skip && code[where - 1] != NEWLINE {
      StartInRest(code, skip, where - 1);
    }
  }

  lemma {:induction false} PlaceFound(code: string, where: nat)
    requires where <= |code|
    ensures Place(code, Count(code[..where]) + 1, where - LineStart(code, where)) == where
    decreases |code|
  {
    var eol := LineEnd(code, 0);
    EndOfLine(code, 0);
    if where <= eol {
      CountNone(code[..where]);
      StartOfLine(code, where);
    } else {
      var rest := code[eol + 1..];
      assert code[..where] == code[..eol + 1] + rest[..where - eol - 1];
      CountSplit(code[..eol + 1], rest[..where - eol - 1]);
      CountStep(code, eol);
      CountNone(code[..eol]);
      StartInRest(code, eol + 1, where);
      PlaceFound(rest, where - eol - 1);
    }
  }

  /** No information is lost: the place can be recovered from line and column, unless the line number
      has wrapped. */
  lemma PlaceRecovered(code: string, where: nat)
    requires where <= |code| && where < WRAP
    ensures Locate(code, where).line > 0 <==> Count(code[..where]) < WRAP - 1
    ensures Locate(code, where).line > 0 ==> Place(code, Locate(code, where).line, Locate(code, where).column) == where
  {
    LineExactly(code, where);
    ColumnExactly(code, where);
    PlaceFound(code, where);
  }
}
