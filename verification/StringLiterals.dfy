/** String literals: scanning a body up to the closing quote, and decoding its escapes. */
module StringLiterals {
  import opened Words

  const NUL := '\0'
  const BACKSLASH := '\\'

  /** What one step of the scan yields: an escaped quote, or a character. */
  datatype Piece = Quote | Character(c: char)

  datatype Scanned = Scanned(pieces: seq<Piece>, rest: string) | Unclosed

  /** From behind the opening quote q to behind the closing one; a backslash before q is tried
      first and makes it part of the text. */
  function Scan(text: string, q: char): Scanned
  {
    if text == [] then Unclosed
    else if |text| > 1 && text[0] == BACKSLASH && text[1] == q then Before(Quote, Scan(text[2..], q))
    else if text[0] != q then Before(Character(text[0]), Scan(text[1..], q))
    else Scanned([], text[1..])
  }

  function Before(p: Piece, s: Scanned): Scanned
  {
    match s
    case Scanned(ps, rest) => Scanned([p] + ps, rest)
    case Unclosed => Unclosed
  }

  /** The text of a piece; the null character is taken for an escaped quote. */
  function TextOf(p: Piece, q: char): char
  {
    if p.Quote? || p.c == NUL then q else p.c
  }

  function Collected(ps: seq<Piece>, q: char): (s: string)
    ensures |s| == |ps|
  {
    if ps == [] then [] else [TextOf(ps[0], q)] + Collected(ps[1..], q)
  }

  /** The loop of the semantic action over the scanned pieces. */
  method Collect(ps: seq<Piece>, q: char) returns (s: string)
    ensures s == Collected(ps, q)
  {
    s := [];
    for i := 0 to |ps|
      invariant Collected(ps, q) == s + Collected(ps[i..], q)
    {
      s := s + [TextOf(ps[i], q)];
    }
    assert ps[|ps|..] == [];
  }

  /** The character behind a backslash. */
  function Escaped(c: char): char
  {
    match c
    case 'n' => '\n'
    case 't' => '\t'
    case 'b' => '\U{8}'
    case 'f' => '\U{c}'
    case 'r' => '\r'
    case 'v' => '\U{b}'
    case 'a' => '\U{7}'
    case _ => c
  }

  function Unescaped(s: string): string
  {
    if s == [] then []
    else if s[0] == BACKSLASH && |s| > 1 then [Escaped(s[1])] + Unescaped(s[2..])
    else [s[0]] + Unescaped(s[1..])
  }

  /** The iterator loop that decodes escapes into a buffer. */
  method Unescape(s: string) returns (res: string)
    ensures res == Unescaped(s)
  {
    res := [];
    var i := 0;
    while i < |s|
      invariant i <= |s| && Unescaped(s) == res + Unescaped(s[i..])
    {
      UnescapedStep(s, i);
      var c := s[i];
      i := i + 1;
      if c == BACKSLASH && i < |s| {
        c := Escaped(s[i]);
        i := i + 1;
      }
      res := res + [c];
    }
  }

  lemma UnescapedStep(s: string, i: nat)
    requires i < |s|
    ensures Unescaped(s[i..]) ==
      if s[i] == BACKSLASH && i + 1 < |s| then [Escaped(s[i + 1])] + Unescaped(s[i + 2..])
      else [s[i]] + Unescaped(s[i + 1..])
  {
    assert s[i..][1..] == s[i + 1..];
    if i + 1 < |s| {
      assert s[i..][2..] == s[i + 2..];
    }
  }

  /** The value of an ordinary literal and what follows it. */
  function StringValue(text: string): Option<(string, string)>
  {
    match Scan(text, '"')
    case Unclosed => None
    case Scanned(ps, rest) => Some((Unescaped(Collected(ps, '"')), rest))
  }

  /** The value of a raw literal: no second phase. */
  function RawValue(text: string): Option<(string, string)>
  {
    match Scan(text, '\'')
    case Unclosed => None
    case Scanned(ps, rest) => Some((Collected(ps, '\''), rest))
  }

  // ---------------------------------------------------------------- encoding

  /** Strings that some literal body stands for. */
  predicate Expressible(s: string)
  {
    NUL !in s && (s == [] || s[|s| - 1] != BACKSLASH)
  }

  function EncodedChar(c: char): string
  {
    if c == '"' then [BACKSLASH, '"'] else if c == BACKSLASH then [BACKSLASH, BACKSLASH] else [c]
  }

  function Encoded(s: string): string
  {
    if s == [] then [] else EncodedChar(s[0]) + Encoded(s[1..])
  }

  /** A raw body only needs its quotes escaped. */
  function RawEncoded(s: string): string
  {
    if s == [] then [] else (if s[0] == '\'' then [BACKSLASH, '\''] else [s[0]]) + RawEncoded(s[1..])
  }

  function CharPieces(c: char): seq<Piece>
  {
    if c == '"' then [Quote]
    else if c == BACKSLASH then [Character(BACKSLASH), Character(BACKSLASH)]
    else [Character(c)]
  }

  /** The pieces that the encoding of s is scanned into. */
  function PiecesOf(s: string): seq<Piece>
  {
    if s == [] then [] else CharPieces(s[0]) + PiecesOf(s[1..])
  }

  lemma EncodedStart(s: string, k: string)
    requires s != []
    ensures var t := Encoded(s) + (['"'] + k); t != [] && t[0] != '"'
  {
  }

  lemma ScanEscape(next: string, q: char)
    ensures Scan([BACKSLASH, q] + next, q) == Before(Quote, Scan(next, q))
  {
    assert ([BACKSLASH, q] + next)[2..] == next;
  }

  lemma ScanCharacter(c: char, next: string, q: char)
    requires c != q && !(c == BACKSLASH && next != [] && next[0] == q)
    ensures Scan([c] + next, q) == Before(Character(c), Scan(next, q))
  {
    assert ([c] + next)[1..] == next;
  }

  lemma ScanOne(c: char, next: string, ps: seq<Piece>, k: string)
    requires Scan(next, '"') == Scanned(ps, k) && (c == BACKSLASH ==> next != [] && next[0] != '"')
    ensures Scan(EncodedChar(c) + next, '"') == Scanned(CharPieces(c) + ps, k)
  {
    hide Scan;
    if c == '"' {
      ScanEscape(next, '"');
    } else if c == BACKSLASH {
      assert EncodedChar(c) + next == [BACKSLASH] + ([BACKSLASH] + next);
      ScanCharacter(BACKSLASH, next, '"');
      ScanCharacter(BACKSLASH, [BACKSLASH] + next, '"');
      assert CharPieces(c) + ps == [Character(BACKSLASH)] + ([Character(BACKSLASH)] + ps);
    } else {
      ScanCharacter(c, next, '"');
    }
  }

  lemma {:induction false} ScanEncoded(s: string, k: string)
    requires Expressible(s)
    ensures Scan(Encoded(s) + (['"'] + k), '"') == Scanned(PiecesOf(s), k)
    decreases |s|
  {
    hide EncodedChar, CharPieces;
    var end := ['"'] + k;
    if s == [] {
      assert Encoded(s) + end == end && end[1..] == k;
    } else {
      hide Scan;
      var next := Encoded(s[1..]) + end;
      assert s[1..] != [] ==> s[1..][|s[1..]| - 1] == s[|s| - 1];
      ScanEncoded(s[1..], k);
      if s[1..] != [] {
        EncodedStart(s[1..], k);
      }
      ScanOne(s[0], next, PiecesOf(s[1..]), k);
      assert Encoded(s) + end == EncodedChar(s[0]) + next;
    }
  }

  lemma CollectedConcat(a: seq<Piece>, b: seq<Piece>, q: char)
    ensures Collected(a + b, q) == Collected(a, q) + Collected(b, q)
  {
    if a == [] {
      assert a + b == b;
    } else {
      CollectedConcat(a[1..], b, q);
      assert (a + b)[1..] == a[1..] + b;
    }
  }

  lemma {:induction false} DecodePieces(s: string)
    requires NUL !in s
    ensures Unescaped(Collected(PiecesOf(s), '"')) == s
    decreases |s|
  {
    if s != [] {
      DecodePieces(s[1..]);
      var more := Collected(PiecesOf(s[1..]), '"');
      if s[0] == BACKSLASH {
        var two := [Character(BACKSLASH), Character(BACKSLASH)];
        CollectedConcat(two, PiecesOf(s[1..]), '"');
        assert Collected(two, '"') == [BACKSLASH, BACKSLASH] by {
          assert two[1..] == [Character(BACKSLASH)];
        }
        var all := [BACKSLASH, BACKSLASH] + more;
        assert all[2..] == more;
      } else {
        var one := [if s[0] == '"' then Quote else Character(s[0])];
        CollectedConcat(one, PiecesOf(s[1..]), '"');
        var all := [s[0]] + more;
        assert all[1..] == more;
      }
    }
  }

  /** Round trip: a string that has no null character and does not end in a backslash is the value
      of a literal. */
  lemma StringRoundTrip(s: string, k: string)
    requires Expressible(s)
    ensures StringValue(Encoded(s) + (['"'] + k)) == Some((s, k))
  {
    ScanEncoded(s, k);
    DecodePieces(s);
  }

  lemma CollectedBefore(p: Piece, ps: seq<Piece>, q: char)
    ensures Collected([p] + ps, q) == [TextOf(p, q)] + Collected(ps, q)
  {
    assert ([p] + ps)[1..] == ps;
  }

  lemma {:induction false} RawRoundTrip(s: string, k: string)
    requires Expressible(s)
    ensures RawValue(RawEncoded(s) + (['\''] + k)) == Some((s, k))
    decreases |s|
  {
    var end := ['\''] + k;
    if s == [] {
      assert RawEncoded(s) + end == end && end[1..] == k;
    } else {
      hide Scan, Collected;
      var next := RawEncoded(s[1..]) + end;
      assert s[1..] != [] ==> s[1..][|s[1..]| - 1] == s[|s| - 1];
      RawRoundTrip(s[1..], k);
      var ps := Scan(next, '\'').pieces;
      CollectedBefore(Quote, ps, '\'');
      CollectedBefore(Character(s[0]), ps, '\'');
      assert s == [s[0]] + s[1..];
      if s[0] == '\'' {
        assert RawEncoded(s) + end == [BACKSLASH, '\''] + next;
        ScanEscape(next, '\'');
      } else {
        assert RawEncoded(s) + end == [s[0]] + next;
        if s[1..] != [] {
          RawStart(s[1..], k);
        }
        ScanCharacter(s[0], next, '\'');
      }
    }
  }

  lemma RawStart(s: string, k: string)
    requires s != []
    ensures var t := RawEncoded(s) + (['\''] + k); t != [] && t[0] != '\''
  {
  }

  // ------------------------------------------------------- what cannot be said

  /** The last piece before the closing quote is never a backslash, and no text of a piece is the
      null character. */
  lemma {:induction false} ScannedExpressible(text: string, q: char)
    requires Scan(text, q).Scanned? && q != BACKSLASH && q != NUL
    ensures Expressible(Collected(Scan(text, q).pieces, q))
    decreases |text|
  {
    if |text| > 1 && text[0] == BACKSLASH && text[1] == q {
      var s := Scan(text[2..], q);
      ScannedExpressible(text[2..], q);
      Prefixed(q, Collected(s.pieces, q));
    } else if text[0] != q {
      var s := Scan(text[1..], q);
      ScannedExpressible(text[1..], q);
      if s.pieces == [] {
        assert text[1..] != [] && text[1] == q;
      }
      Prefixed(TextOf(Character(text[0]), q), Collected(s.pieces, q));
    }
  }

  lemma Prefixed(c: char, s: string)
    requires c != NUL && Expressible(s) && (s == [] ==> c != BACKSLASH)
    ensures Expressible([c] + s)
  {
  }

  /** Decoding escapes does not make a string end in a backslash either. */
  lemma {:induction false} UnescapedExpressible(s: string)
    requires Expressible(s)
    ensures Expressible(Unescaped(s)) && (s != [] ==> Unescaped(s) != [])
    decreases |s|
  {
    if s != [] {
      if s[0] == BACKSLASH && |s| > 1 {
        assert s[2..] != [] ==> s[2..][|s[2..]| - 1] == s[|s| - 1];
        UnescapedExpressible(s[2..]);
        Prefixed(Escaped(s[1]), Unescaped(s[2..]));
      } else {
        assert s[1..] != [] ==> s[1..][|s[1..]| - 1] == s[|s| - 1];
        UnescapedExpressible(s[1..]);
        Prefixed(s[0], Unescaped(s[1..]));
      }
    }
  }

  /** No literal stands for any other string, ordinary or raw. */
  lemma LiteralsExpressible(text: string)
    ensures StringValue(text).Some? ==> Expressible(StringValue(text).value.0)
    ensures RawValue(text).Some? ==> Expressible(RawValue(text).value.0)
  {
    if Scan(text, '"').Scanned? {
      ScannedExpressible(text, '"');
      UnescapedExpressible(Collected(Scan(text, '"').pieces, '"'));
    }
    if Scan(text, '\'').Scanned? {
      ScannedExpressible(text, '\'');
    }
  }

  /** The strings that can be written are exactly those without null character and without
      backslash at the end. */
  lemma ExactlyExpressible(s: string)
    ensures Expressible(s) <==> exists text, k :: StringValue(text) == Some((s, k))
    ensures Expressible(s) <==> exists text, k :: RawValue(text) == Some((s, k))
  {
    if Expressible(s) {
      StringRoundTrip(s, []);
      RawRoundTrip(s, []);
    }
    forall text, k | StringValue(text) == Some((s, k))
      ensures Expressible(s)
    {
      LiteralsExpressible(text);
    }
    forall text, k | RawValue(text) == Some((s, k))
      ensures Expressible(s)
    {
      LiteralsExpressible(text);
    }
  }

  // ----------------------------------------------------------------- escapes

  /** The code of the character that a backslash and c stand for. */
  function EscapeCode(c: char): int
  {
    if c == 'a' then 7
    else if c == 'b' then 8
    else if c == 't' then 9
    else if c == 'n' then 10
    else if c == 'v' then 11
    else if c == 'f' then 12
    else if c == 'r' then 13
    else c as int
  }

  /** In front of any literal body, a backslash and a character stand for one character: a control character
      for the letters n, t, b, f, r, v and a, and the character itself for all others. */
  lemma EscapeStands(c: char, text: string, s: string, k: string)
    requires StringValue(text) == Some((s, k)) && c != '"' && c != NUL
    requires c == BACKSLASH ==> text[..1] != ['"']
    ensures StringValue([BACKSLASH, c] + text).Some?
    ensures var v := StringValue([BACKSLASH, c] + text).value;
      |v.0| == 1 + |s| && v.0[0] as int == EscapeCode(c) && v.0[1..] == s && v.1 == k
  {
    var ps := Scan(text, '"').pieces;
    var qs := [Character(BACKSLASH)] + ([Character(c)] + ps);
    assert Scan(text, '"') == Scanned(ps, k);
    assert [BACKSLASH, c] + text == [BACKSLASH] + ([c] + text);
    hide Scan, Unescaped, Collected;
    ScanCharacter(c, text, '"');
    ScanCharacter(BACKSLASH, [c] + text, '"');
    assert Scan([BACKSLASH, c] + text, '"') == Scanned(qs, k);
    EscapeCollected(c, ps);
    EscapeDecoded(c, Collected(ps, '"'));
  }

  lemma EscapeCollected(c: char, ps: seq<Piece>)
    requires c != NUL
    ensures Collected([Character(BACKSLASH)] + ([Character(c)] + ps), '"') == [BACKSLASH, c] + Collected(ps, '"')
  {
    var qs := [Character(c)] + ps;
    assert qs[1..] == ps && ([Character(BACKSLASH)] + qs)[1..] == qs;
  }

  lemma EscapeDecoded(c: char, s: string)
    ensures Unescaped([BACKSLASH, c] + s) == [Escaped(c)] + Unescaped(s)
    ensures Escaped(c) as int == EscapeCode(c)
  {
    assert ([BACKSLASH, c] + s)[2..] == s;
  }
}
