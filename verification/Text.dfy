/** Strings taken apart at a separator, as Python's `split`, `count` and `strip` do. */
module Text {
  /** `s.split(c)`: one more piece than there are separators. */
  function Split(s: string, c: char): (pieces: seq<string>)
    ensures pieces != []
  {
    if s == "" then [""]
    else
      var rest := Split(s[1..], c);
      if s[0] == c then [""] + rest else [[s[0]] + rest[0]] + rest[1..]
  }

  function Count(s: string, c: char): nat {
    if s == "" then 0 else (if s[0] == c then 1 else 0) + Count(s[1..], c)
  }

  /** Splitting commutes with concatenation at a separator. */
  lemma {:induction false} SplitOfConcat(s: string, c: char, t: string)
    ensures Split(s + [c] + t, c) == Split(s, c) + Split(t, c)
  {
    var whole := s + [c] + t;
    if s == "" {
      assert whole[1..] == t;
    } else {
      assert whole[1..] == s[1..] + [c] + t;
      SplitOfConcat(s[1..], c, t);
    }
  }

  lemma {:induction false} SplitWithout(s: string, c: char)
    requires c !in s
    ensures Split(s, c) == [s]
  {
    if s != "" {
      SplitWithout(s[1..], c);
      assert [s[0]] + s[1..] == s;
    }
  }

  lemma {:induction false} CountOfConcat(s: string, t: string, c: char)
    ensures Count(s + t, c) == Count(s, c) + Count(t, c)
  {
    if s == "" {
      assert s + t == t;
    } else {
      assert (s + t)[1..] == s[1..] + t;
      CountOfConcat(s[1..], t, c);
    }
  }

  lemma {:induction false} CountIsPositive(s: string, c: char)
    ensures Count(s, c) > 0 <==> c in s
  {
    if s != "" { CountIsPositive(s[1..], c); }
  }

  lemma {:induction false} PiecesAreSeparatorsPlusOne(s: string, c: char)
    ensures |Split(s, c)| == Count(s, c) + 1
  {
    if s != "" { PiecesAreSeparatorsPlusOne(s[1..], c); }
  }

  /** No piece holds the separator. */
  lemma {:induction false} PiecesAreClean(s: string, c: char, piece: string)
    requires piece in Split(s, c)
    ensures c !in piece
  {
    if s != "" {
      var rest := Split(s[1..], c);
      if s[0] == c && piece != "" {
        PiecesAreClean(s[1..], c, piece);
      } else if s[0] != c {
        PiecesAreClean(s[1..], c, rest[0]);
        if piece in rest[1..] { PiecesAreClean(s[1..], c, piece); }
      }
    }
  }

  /** The whitespace `str.strip` and a pattern's `\s` take. Headers are decoded as
      Latin-1, so nothing beyond `U+00A0` can occur in one. */
  predicate IsSpace(c: char) {
    c == ' ' || '\t' <= c <= '\r' || 0x1c <= c as int <= 0x1f || c as int == 0x85 || c as int == 0xa0
  }

  /** Tab to carriage return, the four separators, space, next line, no-break space. */
  lemma SpaceCodes(c: char)
    ensures IsSpace(c) <==> c as int in {9, 10, 11, 12, 13, 28, 29, 30, 31, 32, 133, 160}
  {
  }

  function DropSpaces(s: string): string {
    if s != "" && IsSpace(s[0]) then DropSpaces(s[1..]) else s
  }

  function DropTrailingSpaces(s: string): string {
    if s != "" && IsSpace(s[|s| - 1]) then DropTrailingSpaces(s[..|s| - 1]) else s
  }

  predicate AllSpaces(s: string) {
    forall c <- s :: IsSpace(c)
  }

  lemma {:induction false} LeadingSpaces(s: string) returns (a: string)
    ensures s == a + DropSpaces(s) && AllSpaces(a)
    ensures DropSpaces(s) != "" ==> !IsSpace(DropSpaces(s)[0])
  {
    a := "";
    if s != "" && IsSpace(s[0]) {
      var rest := LeadingSpaces(s[1..]);
      a := [s[0]] + rest;
      assert s == [s[0]] + s[1..];
    }
  }

  lemma {:induction false} TrailingSpaces(s: string) returns (b: string)
    ensures s == DropTrailingSpaces(s) + b && AllSpaces(b)
    ensures DropTrailingSpaces(s) != "" ==> !IsSpace(DropTrailingSpaces(s)[|DropTrailingSpaces(s)| - 1])
  {
    b := "";
    if s != "" && IsSpace(s[|s| - 1]) {
      var rest := TrailingSpaces(s[..|s| - 1]);
      b := rest + [s[|s| - 1]];
      assert s == s[..|s| - 1] + [s[|s| - 1]];
    }
  }

  /** Stripping takes spaces off both ends and nothing else. */
  lemma StripIsInner(s: string) returns (a: string, b: string)
    ensures s == a + Strip(s) + b && AllSpaces(a) && AllSpaces(b)
    ensures Strip(s) != "" ==> !IsSpace(Strip(s)[0]) && !IsSpace(Strip(s)[|Strip(s)| - 1])
  {
    a := LeadingSpaces(s);
    b := TrailingSpaces(DropSpaces(s));
    if Strip(s) != "" { assert Strip(s)[0] == DropSpaces(s)[0]; }
  }

  /** `s.strip()` */
  function Strip(s: string): string {
    DropTrailingSpaces(DropSpaces(s))
  }
}
