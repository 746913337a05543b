/** White space and trimming, over Unicode scalar values. */
module Text {
  /** The Unicode White_Space property. */
  predicate White(c: char)
  {
    || '\U{0009}' <= c <= '\U{000D}' || c == ' ' || c == '\U{0085}' || c == '\U{00A0}' || c == '\U{1680}'
    || '\U{2000}' <= c <= '\U{200A}' || c == '\U{2028}' || c == '\U{2029}' || c == '\U{202F}' || c == '\U{205F}'
    || c == '\U{3000}'
  }

  function TrimLeft(s: string): (r: string)
  {
    if s != [] && White(s[0]) then TrimLeft(s[1..]) else s
  }

  function TrimRight(s: string): (r: string)
  {
    if s != [] && White(s[|s| - 1]) then TrimRight(s[..|s| - 1]) else s
  }

  function Trim(s: string): (r: string)
  {
    TrimRight(TrimLeft(s))
  }

  predicate AllWhite(s: string)
  {
    forall i | 0 <= i < |s| :: White(s[i])
  }

  /** Nothing at either end would be trimmed. */
  predicate Tight(s: string)
  {
    s != [] ==> !White(s[0]) && !White(s[|s| - 1])
  }

  lemma {:induction false} TrimLeftSplits(s: string) returns (blanks: string)
    ensures AllWhite(blanks) && s == blanks + TrimLeft(s)
    ensures TrimLeft(s) != [] ==> !White(TrimLeft(s)[0])
  {
    if s != [] && White(s[0]) {
      var fewer := TrimLeftSplits(s[1..]);
      blanks := [s[0]] + fewer;
      assert s == [s[0]] + (fewer + TrimLeft(s[1..])) == blanks + TrimLeft(s[1..]);
    } else {
      blanks := [];
    }
  }

  lemma {:induction false} TrimRightSplits(s: string) returns (blanks: string)
    ensures AllWhite(blanks) && s == TrimRight(s) + blanks
    ensures TrimRight(s) != [] ==> !White(TrimRight(s)[|TrimRight(s)| - 1])
    decreases |s|
  {
    if s != [] && White(s[|s| - 1]) {
      var front, last := s[..|s| - 1], s[|s| - 1];
      var fewer := TrimRightSplits(front);
      blanks := fewer + [last];
      assert s == front + [last];
      assert s == (TrimRight(front) + fewer) + [last] == TrimRight(front) + blanks;
    } else {
      blanks := [];
    }
  }

  /** Trimming removes white space at both ends and stops at the first other character. */
  lemma TrimSplits(s: string) returns (before: string, after: string)
    ensures AllWhite(before) && AllWhite(after) && s == before + Trim(s) + after && Tight(Trim(s))
  {
    before := TrimLeftSplits(s);
    after := TrimRightSplits(TrimLeft(s));
    assert Trim(s) != [] ==> Trim(s)[0] == TrimLeft(s)[0];
  }

  lemma {:induction false} TrimLeftDrops(blanks: string, rest: string)
    requires AllWhite(blanks) && rest != [] && !White(rest[0])
    ensures TrimLeft(blanks + rest) == rest
  {
    if blanks == [] {
      assert blanks + rest == rest;
    } else {
      assert (blanks + rest)[1..] == blanks[1..] + rest;
      TrimLeftDrops(blanks[1..], rest);
    }
  }

  lemma {:induction false} TrimRightDrops(rest: string, blanks: string)
    requires AllWhite(blanks) && rest != [] && !White(rest[|rest| - 1])
    ensures TrimRight(rest + blanks) == rest
    decreases |blanks|
  {
    if blanks == [] {
      assert rest + blanks == rest;
    } else {
      var fewer := blanks[..|blanks| - 1];
      assert (rest + blanks)[..|rest + blanks| - 1] == rest + fewer;
      TrimRightDrops(rest, fewer);
    }
  }

  /** Whatever white space surrounds a tight, non-empty text, trimming recovers the text. */
  lemma TrimDrops(before: string, text: string, after: string)
    requires AllWhite(before) && AllWhite(after) && text != [] && Tight(text)
    ensures Trim(before + text + after) == text
  {
    assert before + text + after == before + (text + after);
    TrimLeftDrops(before, text + after);
    TrimRightDrops(text, after);
  }

  /** The property by its code points. */
  lemma WhiteListed(c: char)
    ensures White(c) <==>
            || c as int in {0x20, 0x85, 0xA0, 0x1680, 0x2028, 0x2029, 0x202F, 0x205F, 0x3000}
            || 0x09 <= c as int <= 0x0D || 0x2000 <= c as int <= 0x200A
  {
  }

  lemma TrimEmpty(s: string)
    ensures Trim(s) == [] <==> AllWhite(s)
  {
    var before, after := TrimSplits(s);
    if Trim(s) == [] {
      assert s == before + after;
    } else {
      assert s[|before|] == Trim(s)[0];
    }
  }
}
