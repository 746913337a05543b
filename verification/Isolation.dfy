/**
 Isolating untrusted text: characters that change how text reads are dropped, the ends are trimmed, and each spelling of
 the fence's token is replaced by a space. What is left goes between the fence markers; nothing left, or too much, is
 refused.
 */
module Isolation {
  import opened Options
  import opened Text

  const MAX_ISOLATED_CHARS := 4096

  predicate Control(c: char)
  {
    c < ' ' || '\U{007F}' <= c <= '\U{009F}'
  }

  predicate Format(c: char)
  {
    || '\U{200B}' <= c <= '\U{200F}' || '\U{202A}' <= c <= '\U{202E}' || '\U{2060}' <= c <= '\U{2064}'
    || '\U{2066}' <= c <= '\U{2069}'
  }

  /** Newline and tab are structure and stay. */
  predicate Stays(c: char)
  {
    c == '\n' || c == '\t' || (!Control(c) && !Format(c))
  }

  predicate Separator(c: char)
  {
    c == '-' || c == '_' || c == ' ' || c == '\t'
  }

  /** The characters by which a token is recognised. */
  predicate Spells(c: char)
  {
    c < '\U{0080}' && !Separator(c)
  }

  /** What a reader sees of a text. */
  predicate Seen(c: char)
  {
    Stays(c) && !White(c)
  }

  function Filter(s: string, keep: char -> bool): (r: string)
  {
    if s == [] then [] else (if keep(s[0]) then [s[0]] else []) + Filter(s[1..], keep)
  }

  function Upper(c: char): (r: char)
  {
    if 'a' <= c <= 'z' then (c as int - 32) as char else c
  }

  function Uppered(s: string): (r: string)
  {
    seq(|s|, i requires 0 <= i < |s| => Upper(s[i]))
  }

  function Normalised(s: string): (r: string)
  {
    Uppered(Filter(s, Spells))
  }

  predicate Contains(text: string, needle: string)
  {
    exists k | 0 <= k <= |text| :: needle <= text[k..]
  }

  /** The length of the rest of a token at the start of `s`, separators between its characters included. */
  function RestLength(s: string, needle: string): (n: Option<nat>)
    ensures n.Some? ==> |needle| <= n.value <= |s|
  {
    if needle == [] then Some(0)
    else if s == [] then None
    else if Separator(s[0]) then
      match RestLength(s[1..], needle)
      case None => None
      case Some(n) => Some(n + 1)
    else if Upper(s[0]) == needle[0] then
      match RestLength(s[1..], needle[1..])
      case None => None
      case Some(n) => Some(n + 1)
    else None
  }

  /** The length of a token at the start of `s`; no separator comes before its first character. */
  function TokenLength(s: string, needle: string): (n: Option<nat>)
    ensures n.Some? ==> |needle| <= n.value <= |s|
  {
    if s != [] && Separator(s[0]) && needle != [] then None else RestLength(s, needle)
  }

  /** Each token becomes one space. */
  function WithoutTokens(s: string, needle: string): (r: string)
    requires needle != []
  {
    if s == [] then []
    else
      match TokenLength(s, needle)
      case None => [s[0]] + WithoutTokens(s[1..], needle)
      case Some(n) => [' '] + WithoutTokens(s[n..], needle)
  }

  /** A token is compared by at least two characters, and none of them is skipped in the comparison. */
  predicate Findable(needle: string)
  {
    |needle| >= 2 && forall i | 0 <= i < |needle| :: Spells(needle[i])
  }

  /** A fence token as it is compared. What follows holds for every one. */
  type Token = s: string | Findable(s) witness "AB"

  /** The daemon's own token, `JARVIS-UNTRUSTED-DATA` without its separators. */
  const DAEMON_TOKEN: Token := "JARVISUNTRUSTEDDATA"

  /** The body that is put between the markers, or nothing when the text is refused. */
  function Isolated(payload: string, token: Token): (body: Option<string>)
  {
    var trimmed := Trim(Filter(payload, Stays));
    if trimmed == [] then None
    else
      var body := if Contains(Normalised(trimmed), token) then WithoutTokens(trimmed, token) else trimmed;
      if |body| > MAX_ISOLATED_CHARS || Trim(body) == [] then None else Some(body)
  }

  // ----- filtering ----------------------------------------------------------------------------------------

  lemma {:induction false} FilterJoin(a: string, b: string, keep: char -> bool)
    ensures Filter(a + b, keep) == Filter(a, keep) + Filter(b, keep)
  {
    if a == [] {
      assert a + b == b;
    } else {
      var first := if keep(a[0]) then [a[0]] else [];
      var x, y := Filter(a[1..], keep), Filter(b, keep);
      assert (a + b)[0] == a[0] && (a + b)[1..] == a[1..] + b;
      FilterJoin(a[1..], b, keep);
      assert first + (x + y) == (first + x) + y;
    }
  }

  lemma {:induction false} FilterShrinks(s: string, keep: char -> bool)
    ensures |Filter(s, keep)| <= |s|
    ensures |Filter(s, keep)| == |s| <==> forall i | 0 <= i < |s| :: keep(s[i])
    ensures |Filter(s, keep)| == |s| ==> Filter(s, keep) == s
  {
    if s != [] {
      FilterShrinks(s[1..], keep);
      assert forall i | 1 <= i < |s| :: s[i] == s[1..][i - 1];
    }
  }

  lemma {:induction false} FilterNothing(s: string, keep: char -> bool)
    requires forall i | 0 <= i < |s| :: !keep(s[i])
    ensures Filter(s, keep) == []
  {
    if s != [] {
      FilterNothing(s[1..], keep);
    }
  }

  /** What is seen does not depend on what is dropped. */
  lemma {:induction false} SeenOfFiltered(s: string)
    ensures Filter(Filter(s, Stays), Seen) == Filter(s, Seen)
  {
    if s != [] {
      SeenOfFiltered(s[1..]);
      FilterJoin(if Stays(s[0]) then [s[0]] else [], Filter(s[1..], Stays), Seen);
      assert [s[0]][1..] == [];
    }
  }

  lemma SeenOfTrimmed(s: string)
    ensures Filter(Trim(s), Seen) == Filter(s, Seen)
  {
    var before, after := TrimSplits(s);
    FilterJoin(before + Trim(s), after, Seen);
    FilterJoin(before, Trim(s), Seen);
    FilterNothing(before, Seen);
    FilterNothing(after, Seen);
  }

  // ----- tokens -------------------------------------------------------------------------------------------

  lemma NormalisedJoin(a: string, b: string)
    ensures Normalised(a + b) == Normalised(a) + Normalised(b)
  {
    FilterJoin(a, b, Spells);
  }

  /** A stretch that is recognised as a token spells the token. */
  lemma {:induction false} TokenSpells(s: string, needle: string)
    requires RestLength(s, needle).Some? && forall i | 0 <= i < |needle| :: Spells(needle[i])
    ensures Normalised(s[..RestLength(s, needle).value]) == needle
    decreases |s|
  {
    if needle != [] {
      var n := RestLength(s, needle).value;
      var rest := if Separator(s[0]) then needle else needle[1..];
      TokenSpells(s[1..], rest);
      assert s[..n] == [s[0]] + s[1..][..n - 1];
      NormalisedJoin([s[0]], s[1..][..n - 1]);
      assert [s[0]][1..] == [];
      assert Separator(s[0]) || Spells(s[0]);
    }
  }

  /** A token written anywhere in a text is found by the comparison that ignores case and separators. */
  lemma TokenIsContained(s: string, i: nat, needle: string)
    requires i <= |s| && TokenLength(s[i..], needle).Some? && forall k | 0 <= k < |needle| :: Spells(needle[k])
    ensures Contains(Normalised(s), needle)
  {
    var n := TokenLength(s[i..], needle).value;
    TokenSpells(s[i..], needle);
    assert s == s[..i] + (s[i..][..n] + s[i + n..]);
    NormalisedJoin(s[..i], s[i..][..n] + s[i + n..]);
    NormalisedJoin(s[i..][..n], s[i + n..]);
    ContainsInside(Normalised(s[..i]), needle, Normalised(s[i + n..]));
  }

  lemma ContainsInside(a: string, needle: string, b: string)
    ensures Contains(a + (needle + b), needle)
  {
    assert (a + (needle + b))[|a|..] == needle + b;
  }

  /** A text around another contains whatever that one contains. */
  lemma ContainsWider(a: string, text: string, b: string, needle: string)
    requires Contains(text, needle)
    ensures Contains(a + text + b, needle)
  {
    var k :| 0 <= k <= |text| && needle <= text[k..];
    assert (a + text + b)[|a| + k..] == text[k..] + b;
  }

  predicate NoTokenIn(s: string, needle: string)
  {
    forall i | 0 <= i < |s| :: TokenLength(s[i..], needle).None?
  }

  lemma NoTokenAfter(s: string, needle: string)
    requires s != [] && TokenLength(s, needle).None?
    ensures NoTokenIn(s, needle) <==> NoTokenIn(s[1..], needle)
  {
    assert s[0..] == s;
    assert forall i | 1 <= i < |s| :: s[i..] == s[1..][i - 1..];
    assert forall i | 0 <= i < |s| - 1 :: s[1..][i..] == s[i + 1..];
  }

  lemma {:induction false} WithoutTokensShrinks(s: string, needle: string)
    requires Findable(needle)
    ensures |WithoutTokens(s, needle)| <= |s|
    ensures |WithoutTokens(s, needle)| == |s| <==> NoTokenIn(s, needle)
    ensures NoTokenIn(s, needle) ==> WithoutTokens(s, needle) == s
  {
    if s != [] {
      var n := TokenLength(s, needle);
      if n.None? {
        WithoutTokensShrinks(s[1..], needle);
        NoTokenAfter(s, needle);
      } else {
        WithoutTokensShrinks(s[n.value..], needle);
        assert s[0..] == s;
      }
    }
  }

  // ----- what isolation leaves unchanged ------------------------------------------------------------------

  lemma TrimShrinks(s: string)
    ensures |Trim(s)| <= |s|
    ensures |Trim(s)| == |s| <==> Tight(s)
    ensures |Trim(s)| == |s| ==> Trim(s) == s
  {
    var before, after := TrimSplits(s);
    if Tight(s) && s != [] {
      TrimDrops([], s, []);
      assert [] + s + [] == s;
    }
    if |Trim(s)| == |s| {
      assert before == [] && after == [];
      assert s == Trim(s);
    }
  }

  /** A token in a text is always found by the comparison, so the scan that replaces tokens is made. */
  lemma TokenMeansContained(s: string, needle: string)
    requires Findable(needle) && !NoTokenIn(s, needle)
    ensures Contains(Normalised(s), needle)
  {
    var i :| 0 <= i < |s| && TokenLength(s[i..], needle).Some?;
    TokenIsContained(s, i, needle);
  }

  /** Isolation never makes a text longer. */
  lemma NeverLonger(s: string, token: Token)
    ensures Isolated(s, token).Some? ==> |Isolated(s, token).value| <= |s|
  {
    FilterShrinks(s, Stays);
    TrimShrinks(Filter(s, Stays));
    WithoutTokensShrinks(Trim(Filter(s, Stays)), token);
  }

  /** A text that isolation leaves exactly as it is. */
  predicate Clean(s: string, token: Token)
  {
    && s != [] && |s| <= MAX_ISOLATED_CHARS
    && Tight(s) && (forall i | 0 <= i < |s| :: Stays(s[i])) && NoTokenIn(s, token)
  }

  lemma UnchangedWhenClean(s: string, token: Token)
    requires Clean(s, token)
    ensures Isolated(s, token) == Some(s)
  {
    FilterShrinks(s, Stays);
    TrimShrinks(s);
    WithoutTokensShrinks(s, token);
  }

  lemma CleanWhenUnchanged(s: string, token: Token)
    requires Isolated(s, token) == Some(s)
    ensures Clean(s, token)
  {
    var kept := Filter(s, Stays);
    FilterShrinks(s, Stays);
    TrimShrinks(kept);
    WithoutTokensShrinks(Trim(kept), token);
    assert |Trim(kept)| == |s| == |kept|;
    if !NoTokenIn(s, token) {
      TokenMeansContained(s, token);
    }
  }

  /**
   Isolation leaves a text unchanged if and only if it is not empty or too long, loses no character, has no white space
   at its ends, and holds no token.
   */
  lemma UnchangedExactlyWhenClean(s: string, token: Token)
    ensures Isolated(s, token) == Some(s) <==> Clean(s, token)
  {
    if Clean(s, token) {
      UnchangedWhenClean(s, token);
    }
    if Isolated(s, token) == Some(s) {
      CleanWhenUnchanged(s, token);
    }
  }

  /** White space behind a clean text is accepted, and lost. */
  lemma TrailingSpaceIsLost(s: string, blanks: string, token: Token)
    requires Clean(s, token) && AllWhite(blanks) && forall i | 0 <= i < |blanks| :: Stays(blanks[i])
    ensures Isolated(s + blanks, token) == Some(s)
  {
    FilterShrinks(s + blanks, Stays);
    assert s + blanks == [] + s + blanks;
    TrimDrops([], s, blanks);
    TrimShrinks(s);
    WithoutTokensShrinks(s, token);
  }

  // ----- tokens in the body -------------------------------------------------------------------------------

  /** A text without the token is isolated to a body without it. */
  lemma TokenFreeBody(s: string, token: Token)
    requires TokenFree(s, token) && Isolated(s, token).Some?
    ensures NoTokenIn(Isolated(s, token).value, token)
  {
    FreeAfterTrim(Filter(s, Stays), token);
    if !NoTokenIn(Trim(Filter(s, Stays)), token) {
      TokenMeansContained(Trim(Filter(s, Stays)), token);
    }
  }

  /** Two different upper-case characters, of which a token can be made. */
  predicate Letters(a: char, b: char)
  {
    && a != b && Upper(a) == a && Upper(b) == b && Spells(a) && Spells(b)
    && Stays(a) && Stays(b) && !White(a) && !White(b)
  }

  lemma LastLetterStays(a: char, b: char)
    requires Letters(a, b)
    ensures WithoutTokens([b], [a, b]) == [b]
  {
    assert TokenLength([b], [a, b]).None?;
    assert [b][1..] == [];
  }

  lemma MiddleIsReplaced(a: char, b: char)
    requires Letters(a, b)
    ensures WithoutTokens([a, b, b], [a, b]) == [' ', b]
  {
    assert [a, b, b][1..] == [b, b] && [b, b][1..] == [b] && [a, b][1..] == [b] && [b][1..] == [];
    assert RestLength([b, b], [b]) == Some(1);
    assert TokenLength([a, b, b], [a, b]) == Some(2);
    assert [a, b, b][2..] == [b];
    LastLetterStays(a, b);
  }

  lemma FirstLetterStays(a: char, b: char)
    requires Letters(a, b)
    ensures WithoutTokens([a, a, b, b], [a, b]) == [a, ' ', b]
  {
    assert [a, a, b, b][1..] == [a, b, b] && [a, b][1..] == [b];
    assert RestLength([a, b, b], [b]).None?;
    assert TokenLength([a, a, b, b], [a, b]).None?;
    MiddleIsReplaced(a, b);
  }

  lemma LettersAreFound(a: char, b: char)
    requires Letters(a, b)
    ensures Contains(Normalised([a, a, b, b]), [a, b])
  {
    FilterShrinks([a, a, b, b], Spells);
    assert Normalised([a, a, b, b]) == [a, a, b, b];
    assert [a, b] <= [a, a, b, b][1..];
  }

  lemma SpacedLettersAreAToken(a: char, b: char)
    requires Letters(a, b)
    ensures !NoTokenIn([a, ' ', b], [a, b])
  {
    assert [a, ' ', b][1..] == [' ', b] && [' ', b][1..] == [b] && [a, b][1..] == [b] && [b][1..] == [];
    assert RestLength([b], [b]) == Some(1);
    assert RestLength([' ', b], [b]) == Some(2);
    assert [a, ' ', b][0..] == [a, ' ', b];
  }

  /** Taking out one token can make another, because the space that replaces it is itself a separator. */
  lemma TokenCanReappear(a: char, b: char)
    requires Letters(a, b)
    ensures Isolated([a, a, b, b], [a, b]) == Some([a, ' ', b]) && !NoTokenIn([a, ' ', b], [a, b])
  {
    FilterShrinks([a, a, b, b], Stays);
    TrimShrinks([a, a, b, b]);
    LettersAreFound(a, b);
    FirstLetterStays(a, b);
    TrimShrinks([a, ' ', b]);
    SpacedLettersAreAToken(a, b);
  }

  // ----- what is seen -------------------------------------------------------------------------------------

  /** The token, spelled in any way, does not occur. */
  predicate TokenFree(s: string, token: Token)
  {
    !Contains(Normalised(Filter(s, Stays)), token)
  }

  lemma NormalisedFiltered(a: string, s: string, b: string)
    ensures Normalised(Filter(a + s + b, Stays))
            == Normalised(Filter(a, Stays)) + Normalised(Filter(s, Stays)) + Normalised(Filter(b, Stays))
  {
    FilterJoin(a + s, b, Stays);
    FilterJoin(a, s, Stays);
    var x, y, z := Filter(a, Stays), Filter(s, Stays), Filter(b, Stays);
    NormalisedJoin(x + y, z);
    NormalisedJoin(x, y);
  }

  lemma TokenFreeInside(a: string, s: string, b: string, token: Token)
    requires TokenFree(a + s + b, token)
    ensures TokenFree(s, token)
  {
    NormalisedFiltered(a, s, b);
    if Contains(Normalised(Filter(s, Stays)), token) {
      ContainsWider(Normalised(Filter(a, Stays)), Normalised(Filter(s, Stays)), Normalised(Filter(b, Stays)), token);
    }
  }

  lemma FreeAfterTrim(kept: string, needle: string)
    requires !Contains(Normalised(kept), needle)
    ensures !Contains(Normalised(Trim(kept)), needle)
  {
    var before, after := TrimSplits(kept);
    NormalisedJoin(before + Trim(kept), after);
    NormalisedJoin(before, Trim(kept));
    if Contains(Normalised(Trim(kept)), needle) {
      ContainsWider(Normalised(before), Normalised(Trim(kept)), Normalised(after), needle);
    }
  }

  function SeenOf(body: Option<string>): (r: string)
  {
    if body.Some? then Filter(body.value, Seen) else []
  }

  /** Without a token, isolation keeps every character that is seen, and refuses only what shows nothing. */
  lemma NothingSeenIsLost(s: string, token: Token)
    requires TokenFree(s, token) && |s| <= MAX_ISOLATED_CHARS
    ensures SeenOf(Isolated(s, token)) == Filter(s, Seen)
  {
    var kept := Filter(s, Stays);
    SeenOfFiltered(s);
    SeenOfTrimmed(kept);
    FilterShrinks(s, Stays);
    TrimShrinks(kept);
    FreeAfterTrim(kept, token);
    var before, after := TrimSplits(kept);
    TrimShrinks(Trim(kept));
  }

  // ----- what a token is ----------------------------------------------------------------------------------

  predicate Joins(c: char)
  {
    !Separator(c)
  }

  /** The text spells the token: separators aside and in any case, with none of them at its ends. */
  predicate SpelledAs(text: string, needle: string)
  {
    && text != [] && Joins(text[0]) && Joins(text[|text| - 1])
    && Uppered(Filter(text, Joins)) == needle
  }

  lemma FilterCons(first: char, rest: string, keep: char -> bool)
    ensures Filter([first] + rest, keep) == (if keep(first) then [first] else []) + Filter(rest, keep)
  {
    assert ([first] + rest)[1..] == rest;
  }

  lemma {:induction false} LastIsKept(s: string, keep: char -> bool)
    requires s != [] && keep(s[|s| - 1])
    ensures Filter(s, keep) != []
    decreases |s|
  {
    if |s| > 1 {
      LastIsKept(s[1..], keep);
    }
  }

  /** What `RestLength` finds, by what the stretch spells. */
  predicate RestSpelled(s: string, needle: string, n: nat)
  {
    && n <= |s| && (n == 0 <==> needle == []) && (n > 0 ==> Joins(s[n - 1]))
    && Uppered(Filter(s[..n], Joins)) == needle
  }

  lemma RestStep(s: string, needle: string, n: nat)
    requires s != [] && needle != [] && n > 0
    ensures Separator(s[0]) ==> (RestSpelled(s, needle, n) <==> RestSpelled(s[1..], needle, n - 1))
    ensures !Separator(s[0]) ==>
              (RestSpelled(s, needle, n) <==> Upper(s[0]) == needle[0] && RestSpelled(s[1..], needle[1..], n - 1))
  {
    if n <= |s| {
      var rest := s[1..][..n - 1];
      assert s[..n] == [s[0]] + rest;
      FilterCons(s[0], rest, Joins);
      if n > 1 && Joins(s[n - 1]) {
        LastIsKept(rest, Joins);
      }
      if !Separator(s[0]) {
        assert Uppered(Filter(s[..n], Joins)) == [Upper(s[0])] + Uppered(Filter(rest, Joins));
        assert needle == [needle[0]] + needle[1..];
      }
    }
  }

  lemma {:induction false} RestLengthExactly(s: string, needle: string, n: nat)
    ensures RestLength(s, needle) == Some(n) <==> RestSpelled(s, needle, n)
    decreases |s|
  {
    if needle != [] && s != [] && n > 0 {
      RestStep(s, needle, n);
      if Separator(s[0]) {
        RestLengthExactly(s[1..], needle, n - 1);
      } else {
        RestLengthExactly(s[1..], needle[1..], n - 1);
      }
    }
  }

  /** A token of `n` characters starts a text if and only if those characters spell it. */
  lemma TokenLengthExactly(s: string, needle: string, n: nat)
    requires needle != []
    ensures TokenLength(s, needle) == Some(n) <==> n <= |s| && SpelledAs(s[..n], needle)
  {
    RestLengthExactly(s, needle, n);
    if 0 < n <= |s| {
      assert s[..n][0] == s[0] && s[..n][n - 1] == s[n - 1];
    }
  }

  // ----- what the scan does -------------------------------------------------------------------------------

  /** A stretch of a scanned text: one character at which no token starts, or a whole token. */
  datatype Part = One(c: char) | Spelled(text: string)

  /** From left to right, the parts are the text: a token wherever one starts, and otherwise the next character. */
  predicate Scanned(s: string, needle: string, parts: seq<Part>)
    decreases |parts|
  {
    if parts == [] then s == []
    else
      match parts[0]
      case One(c) =>
        s != [] && s[0] == c && TokenLength(s, needle).None? && Scanned(s[1..], needle, parts[1..])
      case Spelled(text) =>
        && text != [] && text <= s && TokenLength(s, needle) == Some(|text|)
        && Scanned(s[|text|..], needle, parts[1..])
  }

  /** Characters stay, and every token becomes one space. */
  function BodyOf(parts: seq<Part>): (body: string)
    ensures |body| == |parts|
    ensures forall i | 0 <= i < |parts| :: body[i] == if parts[i].One? then parts[i].c else ' '
  {
    seq(|parts|, i requires 0 <= i < |parts| => if parts[i].One? then parts[i].c else ' ')
  }

  lemma BodyCons(part: Part, rest: seq<Part>)
    ensures BodyOf([part] + rest) == [if part.One? then part.c else ' '] + BodyOf(rest)
  {
  }

  lemma {:induction false} ScanOf(s: string, needle: string) returns (parts: seq<Part>)
    requires needle != []
    ensures Scanned(s, needle, parts) && WithoutTokens(s, needle) == BodyOf(parts)
    decreases |s|
  {
    if s == [] {
      parts := [];
    } else {
      var n := TokenLength(s, needle);
      var part := if n.Some? then Spelled(s[..n.value]) else One(s[0]);
      var rest := ScanOf(s[if n.Some? then n.value else 1..], needle);
      parts := [part] + rest;
      assert parts[1..] == rest;
      BodyCons(part, rest);
    }
  }

  /** A text is scanned in one way only. */
  lemma {:induction false} ScanUnique(s: string, needle: string, p: seq<Part>, q: seq<Part>)
    requires Scanned(s, needle, p) && Scanned(s, needle, q)
    ensures p == q
    decreases |p|
  {
    if p != [] {
      assert q != [] && p[0] == q[0];
      ScanUnique(s[if p[0].One? then 1 else |p[0].text|..], needle, p[1..], q[1..]);
      assert p == [p[0]] + p[1..] && q == [q[0]] + q[1..];
    }
  }

  /**
   Isolation, exactly: the text that stays, trimmed, with every token in it replaced by a space from left to right;
   refused if that is too long or shows nothing.
   */
  lemma IsolatedExactly(payload: string, token: Token, parts: seq<Part>)
    requires Scanned(Trim(Filter(payload, Stays)), token, parts)
    ensures Isolated(payload, token)
            == if |BodyOf(parts)| > 4096 || AllWhite(BodyOf(parts)) then None else Some(BodyOf(parts))
  {
    var trimmed := Trim(Filter(payload, Stays));
    var scan := ScanOf(trimmed, token);
    ScanUnique(trimmed, token, parts, scan);
    WithoutTokensShrinks(trimmed, token);
    if !NoTokenIn(trimmed, token) {
      TokenMeansContained(trimmed, token);
    }
    TrimEmpty(BodyOf(parts));
  }

  lemma {:induction false} FirstOnes(s: string, needle: string, parts: seq<Part>, n: nat)
    requires Scanned(s, needle, parts) && n <= |parts| && forall p | 0 <= p < n :: parts[p].One?
    ensures n <= |s| && s[..n] == BodyOf(parts)[..n]
    decreases n
  {
    if n > 0 {
      FirstOnes(s[1..], needle, parts[1..], n - 1);
      BodyCons(parts[0], parts[1..]);
      assert parts == [parts[0]] + parts[1..];
      assert s[..n] == [s[0]] + s[1..][..n - 1];
    }
  }

  lemma StretchAt(s: string, i: nat, n: nat)
    requires i + n <= |s|
    ensures s[i..][..n] == s[i..i + n]
  {
  }

  lemma Shifted(s: string, skip: nat, later: nat, n: nat)
    requires skip + later + n <= |s|
    ensures s[skip + later..] == s[skip..][later..]
    ensures s[skip + later..skip + later + n] == s[skip..][later..later + n]
  {
  }

  lemma BodyShifted(parts: seq<Part>, i: nat, n: nat)
    requires 0 < i && i + n <= |parts|
    ensures BodyOf(parts)[i..i + n] == BodyOf(parts[1..])[i - 1..i - 1 + n]
  {
  }

  /** Characters that stayed next to each other stood next to each other in the text, and no token started there. */
  lemma {:induction false} OnesStood(s: string, needle: string, parts: seq<Part>, i: nat, n: nat) returns (at: nat)
    requires Scanned(s, needle, parts) && n > 0 && i + n <= |parts| && forall p | i <= p < i + n :: parts[p].One?
    ensures at + n <= |s| && s[at..at + n] == BodyOf(parts)[i..i + n] && TokenLength(s[at..], needle).None?
    decreases i
  {
    if i == 0 {
      FirstOnes(s, needle, parts, n);
      assert s[0..] == s;
      at := 0;
    } else {
      var skip := if parts[0].One? then 1 else |parts[0].text|;
      var later := OnesStood(s[skip..], needle, parts[1..], i - 1, n);
      BodyShifted(parts, i, n);
      Shifted(s, skip, later, n);
      at := skip + later;
    }
  }

  /** The law of the fence: a token in a body always runs over a space that replaced another token. */
  lemma TokenRunsOverReplaced(s: string, needle: string, parts: seq<Part>, i: nat) returns (p: nat)
    requires Scanned(s, needle, parts) && needle != []
    requires i < |parts| && TokenLength(BodyOf(parts)[i..], needle).Some?
    ensures i <= p < i + TokenLength(BodyOf(parts)[i..], needle).value <= |parts| && parts[p].Spelled?
  {
    var body := BodyOf(parts);
    var n := TokenLength(body[i..], needle).value;
    if forall q | i <= q < i + n :: parts[q].One? {
      var at := OnesStood(s, needle, parts, i, n);
      TokenLengthExactly(body[i..], needle, n);
      StretchAt(body, i, n);
      StretchAt(s, at, n);
      TokenLengthExactly(s[at..], needle, n);
      assert false;
    }
    p :| i <= p < i + n && parts[p].Spelled?;
  }

  lemma {:induction false} FilterKeeps(s: string, keep: char -> bool)
    ensures forall c | c in Filter(s, keep) :: keep(c)
  {
    if s != [] {
      FilterKeeps(s[1..], keep);
    }
  }

  lemma {:induction false} PartsStay(s: string, needle: string, parts: seq<Part>)
    requires Scanned(s, needle, parts)
    ensures forall i | 0 <= i < |parts| && parts[i].One? :: parts[i].c in s
    decreases |parts|
  {
    if parts != [] {
      var skip := if parts[0].One? then 1 else |parts[0].text|;
      PartsStay(s[skip..], needle, parts[1..]);
      assert forall i | 1 <= i < |parts| :: parts[i] == parts[1..][i - 1];
    }
  }

  /** No character that can change how text reads is left in a body. */
  lemma BodyCharacters(payload: string, token: Token, k: nat)
    requires Isolated(payload, token).Some? && k < |Isolated(payload, token).value|
    ensures var code := Isolated(payload, token).value[k] as int;
            code == 0x0A || code == 0x09
            || (code >= 0x20 && !(0x7F <= code <= 0x9F) && !(0x200B <= code <= 0x200F) && !(0x202A <= code <= 0x202E)
                && !(0x2060 <= code <= 0x2064) && !(0x2066 <= code <= 0x2069))
  {
    var kept := Filter(payload, Stays);
    var trimmed := Trim(kept);
    var parts := ScanOf(trimmed, token);
    IsolatedExactly(payload, token, parts);
    FilterKeeps(payload, Stays);
    var before, after := TrimSplits(kept);
    PartsStay(trimmed, token, parts);
    assert parts[k].One? ==> Stays(parts[k].c) by {
      assert forall c | c in trimmed :: c in before + trimmed + after;
    }
  }
}
