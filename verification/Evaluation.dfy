/** Folding the attempts at an evaluation case into one record, and comparing a run of a suite with an earlier one. */
module Evaluation {
  import opened Options
  import opened Text
  import opened Sequences

  datatype Check = Check(name: string, passed: bool, detail: string)

  /** What of an observed run the fold uses. */
  datatype Attempt = Attempt(
    answer: Option<string>, seconds: nat, inputTokens: nat, outputTokens: nat, tools: seq<string>, checks: seq<Check>)

  datatype Failure = Failure(text: string, count: nat)

  datatype CaseRecord = CaseRecord(
    id: string, passed: bool, seconds: nat, inputTokens: nat, outputTokens: nat, tools: seq<string>,
    failures: seq<string>, answerHead: string, attempts: nat, passes: nat)

  // ----- counting -----------------------------------------------------------------------------------------

  predicate Held(checks: seq<Check>)
  {
    forall i | 0 <= i < |checks| :: checks[i].passed
  }

  function FailureText(check: Check): (text: string)
  {
    if check.detail == [] then check.name else check.name + ": " + check.detail
  }

  /** The texts of the failed checks, in order and with repeats. */
  function FailedTexts(checks: seq<Check>): (r: seq<string>)
  {
    if checks == [] then []
    else
      var front, last := checks[..|checks| - 1], checks[|checks| - 1];
      if last.passed then FailedTexts(front) else FailedTexts(front) + [FailureText(last)]
  }

  function AllFailedTexts(attempts: seq<Attempt>): (r: seq<string>)
  {
    if attempts == [] then []
    else AllFailedTexts(attempts[..|attempts| - 1]) + FailedTexts(attempts[|attempts| - 1].checks)
  }

  lemma {:induction false} HeldMeansNoText(checks: seq<Check>)
    ensures FailedTexts(checks) == [] <==> Held(checks)
    decreases |checks|
  {
    if checks != [] {
      var front := checks[..|checks| - 1];
      HeldMeansNoText(front);
      assert forall i | 0 <= i < |front| :: front[i] == checks[i];
    }
  }

  /** In how many attempts this failure occurred. */
  function AttemptsWith(attempts: seq<Attempt>, text: string): (n: nat)
    ensures n <= |attempts|
  {
    if attempts == [] then 0
    else
      AttemptsWith(attempts[..|attempts| - 1], text)
      + if text in FailedTexts(attempts[|attempts| - 1].checks) then 1 else 0
  }

  /** No attempt has this failure twice. */
  predicate NotRepeated(attempts: seq<Attempt>, text: string)
  {
    forall i | 0 <= i < |attempts| :: Occurrences(FailedTexts(attempts[i].checks), text) <= 1
  }

  lemma OccurrencesJoin(a: seq<string>, b: seq<string>, text: string)
    ensures Occurrences(a + b, text) == Occurrences(a, text) + Occurrences(b, text)
    ensures Occurrences(a, text) > 0 <==> text in a
  {
    assert multiset(a + b) == multiset(a) + multiset(b);
  }

  lemma NotRepeatedSplit(attempts: seq<Attempt>, text: string)
    requires attempts != []
    ensures NotRepeated(attempts, text) <==>
            && NotRepeated(attempts[..|attempts| - 1], text)
            && Occurrences(FailedTexts(attempts[|attempts| - 1].checks), text) <= 1
  {
    var front := attempts[..|attempts| - 1];
    assert forall i | 0 <= i < |front| :: front[i] == attempts[i];
  }

  /** The count of a failure after one more attempt. */
  lemma CountSplit(attempts: seq<Attempt>, text: string)
    requires attempts != []
    ensures Occurrences(AllFailedTexts(attempts), text)
            == Occurrences(AllFailedTexts(attempts[..|attempts| - 1]), text)
               + Occurrences(FailedTexts(attempts[|attempts| - 1].checks), text)
  {
    OccurrencesJoin(AllFailedTexts(attempts[..|attempts| - 1]), FailedTexts(attempts[|attempts| - 1].checks), text);
  }

  /** The count of a failure is the number of attempts that had it if and only if no attempt had it twice. */
  lemma {:induction false} CountIsAttemptsExactly(attempts: seq<Attempt>, text: string)
    ensures Occurrences(AllFailedTexts(attempts), text) >= AttemptsWith(attempts, text)
    ensures Occurrences(AllFailedTexts(attempts), text) == AttemptsWith(attempts, text) <==> NotRepeated(attempts, text)
    decreases |attempts|
  {
    if attempts != [] {
      CountIsAttemptsExactly(attempts[..|attempts| - 1], text);
      CountSplit(attempts, text);
      NotRepeatedSplit(attempts, text);
      OccurrencesJoin(FailedTexts(attempts[|attempts| - 1].checks), [], text);
    }
  }

  /** A check that is listed twice and fails is counted twice as often as it was attempted. */
  lemma CountCanExceedAttempts(attempt: Attempt, check: Check)
    requires !check.passed && attempt.checks == [check, check]
    ensures Occurrences(AllFailedTexts([attempt, attempt]), FailureText(check)) == 4
  {
    var text := FailureText(check);
    assert [check, check][..1] == [check] && [check][..0] == [];
    assert FailedTexts([check]) == [text];
    assert FailedTexts(attempt.checks) == [text, text];
    assert [attempt, attempt][..1] == [attempt] && [attempt][..0] == [];
    assert AllFailedTexts([attempt]) == [text, text];
    assert AllFailedTexts([attempt, attempt]) == [text, text, text, text];
  }

  function AllTools(attempts: seq<Attempt>): (r: seq<string>)
  {
    if attempts == [] then []
    else AllTools(attempts[..|attempts| - 1]) + attempts[|attempts| - 1].tools
  }

  function Occurrences(texts: seq<string>, text: string): (n: nat)
  {
    multiset(texts)[text]
  }

  function Total(failures: seq<Failure>): (n: nat)
  {
    if failures == [] then 0 else Total(failures[..|failures| - 1]) + failures[|failures| - 1].count
  }

  /** Each distinct text once, counted exactly. */
  ghost predicate Tallies(failures: seq<Failure>, texts: seq<string>)
  {
    && (forall i, j | 0 <= i < j < |failures| :: failures[i].text != failures[j].text)
    && (forall i | 0 <= i < |failures| ::
          failures[i].count == Occurrences(texts, failures[i].text) && failures[i].count > 0)
    && (forall text | text in texts :: exists i :: 0 <= i < |failures| && failures[i].text == text)
    && Total(failures) == |texts|
  }

  lemma {:induction false} TotalUpdate(failures: seq<Failure>, k: nat, count: nat)
    requires k < |failures|
    ensures Total(failures[k := failures[k].(count := count)]) == Total(failures) - failures[k].count + count
    decreases |failures|
  {
    var last := |failures| - 1;
    var updated := failures[k := failures[k].(count := count)];
    if k == last {
      assert updated[..last] == failures[..last];
    } else {
      assert updated[..last] == failures[..last][k := failures[k].(count := count)];
      TotalUpdate(failures[..last], k, count);
    }
  }

  lemma TallyKnown(failures: seq<Failure>, texts: seq<string>, k: nat)
    requires Tallies(failures, texts) && k < |failures|
    ensures Tallies(failures[k := failures[k].(count := failures[k].count + 1)], texts + [failures[k].text])
  {
    var updated := failures[k := failures[k].(count := failures[k].count + 1)];
    var more := texts + [failures[k].text];
    TotalUpdate(failures, k, failures[k].count + 1);
    assert multiset(more) == multiset(texts) + multiset{failures[k].text};
    forall text | text in more ensures exists i :: 0 <= i < |updated| && updated[i].text == text {
      if text == failures[k].text {
        assert updated[k].text == text;
      } else {
        var i :| 0 <= i < |failures| && failures[i].text == text;
        assert updated[i].text == text;
      }
    }
  }

  lemma TallyNew(failures: seq<Failure>, texts: seq<string>, text: string)
    requires Tallies(failures, texts) && forall i | 0 <= i < |failures| :: failures[i].text != text
    ensures Tallies(failures + [Failure(text, 1)], texts + [text])
  {
    var updated := failures + [Failure(text, 1)];
    var more := texts + [text];
    assert updated[..|failures|] == failures;
    assert text !in texts;
    assert multiset(more) == multiset(texts) + multiset{text};
    forall t | t in more ensures exists i :: 0 <= i < |updated| && updated[i].text == t {
      if t in texts {
        var i :| 0 <= i < |failures| && failures[i].text == t;
        assert updated[i].text == t;
      } else {
        assert updated[|failures|].text == t;
      }
    }
  }

  /** Counts one more failed check. */
  method AddFailure(failures: seq<Failure>, text: string, ghost texts: seq<string>) returns (r: seq<Failure>)
    requires Tallies(failures, texts)
    ensures Tallies(r, texts + [text])
    ensures |r| >= |failures| && forall i | 0 <= i < |failures| :: r[i].text == failures[i].text
  {
    var k := 0;
    while k < |failures| && failures[k].text != text
      invariant 0 <= k <= |failures|
      invariant forall i | 0 <= i < k :: failures[i].text != text
    {
      k := k + 1;
    }
    if k < |failures| {
      TallyKnown(failures, texts, k);
      r := failures[k := failures[k].(count := failures[k].count + 1)];
    } else {
      TallyNew(failures, texts, text);
      r := failures + [Failure(text, 1)];
    }
  }

  method AddFailures(failures: seq<Failure>, checks: seq<Check>, ghost texts: seq<string>) returns (r: seq<Failure>)
    requires Tallies(failures, texts)
    ensures Tallies(r, texts + FailedTexts(checks))
  {
    r := failures;
    var n := 0;
    ghost var counted := texts;
    assert texts + FailedTexts(checks[..0]) == texts;
    while n < |checks|
      invariant 0 <= n <= |checks|
      invariant counted == texts + FailedTexts(checks[..n])
      invariant Tallies(r, counted)
    {
      assert checks[..n + 1][..n] == checks[..n];
      if !checks[n].passed {
        var check := checks[n];
        var text := if check.detail == "" then check.name else check.name + ": " + check.detail;
        r := AddFailure(r, text, counted);
        counted := counted + [FailureText(checks[n])];
      }
      n := n + 1;
    }
    assert checks[..n] == checks;
  }

  /** The distinct tools, first use first. */
  method AddTools(known: seq<string>, tools: seq<string>) returns (r: seq<string>)
    requires Distinct(known)
    ensures Distinct(r) && known <= r
    ensures forall t :: t in r <==> t in known || t in tools
  {
    r := known;
    for n := 0 to |tools|
      invariant Distinct(r) && known <= r
      invariant forall t :: t in r <==> t in known || t in tools[..n]
    {
      if tools[n] !in r {
        r := r + [tools[n]];
      }
    }
    assert tools[..|tools|] == tools;
  }

  predicate Distinct(texts: seq<string>)
  {
    forall i, j | 0 <= i < j < |texts| :: texts[i] != texts[j]
  }

  function Sum(values: seq<nat>): (n: nat)
  {
    if values == [] then 0 else Sum(values[..|values| - 1]) + values[|values| - 1]
  }

  function SecondsOf(attempts: seq<Attempt>): (r: seq<nat>)
    ensures |r| == |attempts| && forall i | 0 <= i < |r| :: r[i] == attempts[i].seconds
  {
    seq(|attempts|, i requires 0 <= i < |attempts| => attempts[i].seconds)
  }

  function InputOf(attempts: seq<Attempt>): (r: seq<nat>)
    ensures |r| == |attempts| && forall i | 0 <= i < |r| :: r[i] == attempts[i].inputTokens
  {
    seq(|attempts|, i requires 0 <= i < |attempts| => attempts[i].inputTokens)
  }

  function OutputOf(attempts: seq<Attempt>): (r: seq<nat>)
    ensures |r| == |attempts| && forall i | 0 <= i < |r| :: r[i] == attempts[i].outputTokens
  {
    seq(|attempts|, i requires 0 <= i < |attempts| => attempts[i].outputTokens)
  }

  function Mean(values: seq<nat>): (n: nat)
  {
    Sum(values) / if |values| == 0 then 1 else |values|
  }

  function Passes(attempts: seq<Attempt>): (n: nat)
    ensures n <= |attempts|
  {
    if attempts == [] then 0
    else Passes(attempts[..|attempts| - 1]) + if Held(attempts[|attempts| - 1].checks) then 1 else 0
  }

  /** All attempts pass exactly when no check failed anywhere. */
  lemma {:induction false} PassesMeansNoFailure(attempts: seq<Attempt>)
    ensures Passes(attempts) == |attempts| <==> AllFailedTexts(attempts) == []
    ensures Passes(attempts) == |attempts| <==> forall i | 0 <= i < |attempts| :: Held(attempts[i].checks)
    decreases |attempts|
  {
    if attempts != [] {
      var front, last := attempts[..|attempts| - 1], attempts[|attempts| - 1];
      PassesMeansNoFailure(front);
      HeldMeansNoText(last.checks);
      assert forall i | 0 <= i < |front| :: attempts[i] == front[i];
      assert |AllFailedTexts(attempts)| == |AllFailedTexts(front)| + |FailedTexts(last.checks)|;
    }
  }

  ghost predicate Collects(tools: seq<string>, used: seq<string>)
  {
    Distinct(tools) && forall t :: t in tools <==> t in used
  }

  /** The mean of some values, rounded down; of none it is zero. */
  method MeanOf(values: seq<nat>) returns (mean: nat)
    ensures mean == Mean(values)
    ensures values != [] ==> mean * |values| <= Sum(values) < (mean + 1) * |values|
  {
    var total := 0;
    for n := 0 to |values|
      invariant total == Sum(values[..n])
    {
      assert values[..n + 1][..n] == values[..n];
      total := total + values[n];
    }
    assert values[..|values|] == values;
    mean := total / if |values| == 0 then 1 else |values|;
    if values != [] {
      Division(total, |values|);
    }
  }

  lemma Division(total: nat, count: nat)
    requires count > 0
    ensures total / count * count <= total < (total / count + 1) * count
  {
  }

  /** The running totals after some attempts. */
  ghost predicate Folded(attempts: seq<Attempt>, failures: seq<Failure>, tools: seq<string>, passes: nat)
  {
    && Tallies(failures, AllFailedTexts(attempts))
    && Collects(tools, AllTools(attempts))
    && passes == Passes(attempts)
  }

  /** One more attempt in the fold. */
  method FoldOne(front: seq<Attempt>, last: Attempt, failures: seq<Failure>, tools: seq<string>, passes: nat)
    returns (failures': seq<Failure>, tools': seq<string>, passes': nat)
    requires Folded(front, failures, tools, passes)
    ensures Folded(front + [last], failures', tools', passes')
  {
    assert (front + [last])[..|front|] == front && (front + [last])[|front|] == last;
    tools' := AddTools(tools, last.tools);
    failures' := AddFailures(failures, last.checks, AllFailedTexts(front));
    passes' := passes + if Held(last.checks) then 1 else 0;
  }

  method FoldAttempts(attempts: seq<Attempt>) returns (failures: seq<Failure>, tools: seq<string>, passes: nat)
    ensures Folded(attempts, failures, tools, passes)
  {
    failures, tools, passes := [], [], 0;
    var n := 0;
    while n < |attempts|
      invariant 0 <= n <= |attempts|
      invariant Folded(attempts[..n], failures, tools, passes)
    {
      failures, tools, passes := FoldOne(attempts[..n], attempts[n], failures, tools, passes);
      assert attempts[..n] + [attempts[n]] == attempts[..n + 1];
      n := n + 1;
    }
    assert attempts[..n] == attempts;
  }

  // ----- printing -----------------------------------------------------------------------------------------

  predicate Digit(c: char)
  {
    '0' <= c <= '9'
  }

  function Decimal(n: nat): (r: string)
    ensures r != [] && forall i | 0 <= i < |r| :: Digit(r[i])
  {
    var last := [(n % 10 + '0' as int) as char];
    if n < 10 then last else Decimal(n / 10) + last
  }

  /** The number that a row of digits stands for. */
  function ValueOf(digits: string): (n: int)
  {
    if digits == [] then 0
    else ValueOf(digits[..|digits| - 1]) * 10 + (digits[|digits| - 1] as int - '0' as int)
  }

  /** A number is printed as itself, without leading zeros. */
  lemma {:induction false} DecimalReads(n: nat)
    ensures ValueOf(Decimal(n)) == n
    ensures Decimal(n)[0] == '0' ==> n == 0 && |Decimal(n)| == 1
    decreases n
  {
    var last: string := [(n % 10 + '0' as int) as char];
    if n >= 10 {
      DecimalReads(n / 10);
      assert Decimal(n)[..|Decimal(n)| - 1] == Decimal(n / 10);
    } else {
      assert last[..0] == [];
    }
  }

  /** The print of a failure: its text, and over several attempts its count and their number. */
  lemma PrintedReads(failure: Failure, attempts: nat) returns (count: string, number: string)
    ensures attempts <= 1 ==> Printed(failure, attempts) == failure.text
    ensures attempts > 1 ==> Printed(failure, attempts) == failure.text + " (" + count + " of " + number + " attempts)"
    ensures ValueOf(count) == failure.count && ValueOf(number) == attempts
  {
    count, number := Decimal(failure.count), Decimal(attempts);
    DecimalReads(failure.count);
    DecimalReads(attempts);
    assert failure.text + " (" + count + (" of " + number + " attempts)")
        == failure.text + " (" + count + " of " + number + " attempts)";
  }

  /** Over several attempts a failure is printed with its count, as if that were a number of attempts. */
  function Printed(failure: Failure, attempts: nat): (r: string)
  {
    if attempts > 1
    then failure.text + " (" + Decimal(failure.count) + (" of " + Decimal(attempts) + " attempts)")
    else failure.text
  }

  function PrintedAll(failures: seq<Failure>, attempts: nat): (r: seq<string>)
    ensures |r| == |failures| && forall i | 0 <= i < |r| :: r[i] == Printed(failures[i], attempts)
  {
    seq(|failures|, i requires 0 <= i < |failures| => Printed(failures[i], attempts))
  }

  lemma SameEnd(a: string, b: string, tail: string)
    requires a + tail == b + tail
    ensures a == b
  {
    assert |a| == |b|;
    assert a == (a + tail)[..|a|] == b;
  }

  /** A text and the number behind it are told apart by the bracket. */
  lemma NumberedText(a: string, b: string, x: string, y: string)
    requires a + " (" + x == b + " (" + y && |x| <= |y|
    requires (forall i | 0 <= i < |x| :: Digit(x[i])) && forall i | 0 <= i < |y| :: Digit(y[i])
    ensures a == b && x == y
  {
    var whole := a + " (" + x;
    var at := |whole| - |x| - 1;
    assert whole[at] == '(';
    assert |x| < |y| ==> Digit(whole[at]);
    assert a == whole[..|a|] == b;
    assert x == whole[|whole| - |x|..] == y;
  }

  /** Different failures stay different in print. */
  lemma PrintedApart(a: Failure, b: Failure, attempts: nat)
    requires a.text != b.text
    ensures Printed(a, attempts) != Printed(b, attempts)
  {
    if attempts > 1 && Printed(a, attempts) == Printed(b, attempts) {
      var x, y := Decimal(a.count), Decimal(b.count);
      SameEnd(a.text + " (" + x, b.text + " (" + y, " of " + Decimal(attempts) + " attempts)");
      if |x| <= |y| {
        NumberedText(a.text, b.text, x, y);
      } else {
        NumberedText(b.text, a.text, y, x);
      }
    }
  }

  const ANSWER_HEAD_CHARS := 500

  /** How many characters the first word has. */
  function WordLength(s: string): (n: nat)
    ensures n <= |s| && (s != [] && !White(s[0]) ==> n > 0)
    ensures forall i | 0 <= i < n :: !White(s[i])
    ensures n < |s| ==> White(s[n])
  {
    if s == [] || White(s[0]) then 0 else WordLength(s[1..]) + 1
  }

  /** The words of a text with one space between them. */
  function Flat(s: string): (r: string)
    ensures r != [] ==> !White(r[0])
  {
    if s == [] then []
    else if White(s[0]) then Flat(s[1..])
    else
      var n := WordLength(s);
      var rest := Flat(s[n..]);
      if rest == [] then s[..n] else s[..n] + " " + rest
  }

  lemma {:induction false} FlatAfterWhite(blanks: string, rest: string)
    requires AllWhite(blanks)
    ensures Flat(blanks + rest) == Flat(rest)
  {
    if blanks == [] {
      assert blanks + rest == rest;
    } else {
      assert (blanks + rest)[1..] == blanks[1..] + rest;
      FlatAfterWhite(blanks[1..], rest);
    }
  }

  lemma {:induction false} WordAhead(word: string, rest: string)
    requires (forall i | 0 <= i < |word| :: !White(word[i])) && (rest == [] || White(rest[0]))
    ensures WordLength(word + rest) == |word|
  {
    if word == [] {
      assert word + rest == rest;
    } else {
      assert (word + rest)[1..] == word[1..] + rest;
      WordAhead(word[1..], rest);
    }
  }

  /** Word by word: a word is kept, and what white space follows becomes one space, or nothing at the end. */
  lemma FlatWord(word: string, blanks: string, rest: string)
    requires word != [] && (forall i | 0 <= i < |word| :: !White(word[i])) && AllWhite(blanks)
    requires blanks == [] ==> rest == []
    ensures Flat([]) == []
    ensures Flat(blanks + rest) == Flat(rest)
    ensures Flat(word + (blanks + rest)) == if Flat(rest) == [] then word else word + " " + Flat(rest)
  {
    var s := word + (blanks + rest);
    FlatAfterWhite(blanks, rest);
    WordAhead(word, blanks + rest);
    assert !White(s[0]) && s[..|word|] == word && s[|word|..] == blanks + rest;
  }

  function HeadOf(text: string): (r: string)
    ensures |r| == Min(|Flat(text)|, 500) && r <= Flat(text)
  {
    var flat := Flat(text);
    if |flat| <= ANSWER_HEAD_CHARS then flat else flat[..ANSWER_HEAD_CHARS]
  }

  /** The attempt whose answer is kept: the first that failed, or the last. */
  method ShownAttempt(attempts: seq<Attempt>) returns (k: nat)
    requires attempts != []
    ensures k < |attempts| && (forall j | 0 <= j < k :: Held(attempts[j].checks))
    ensures !Held(attempts[k].checks) || k == |attempts| - 1
  {
    k := 0;
    while k < |attempts| - 1 && Held(attempts[k].checks)
      invariant 0 <= k < |attempts| && forall j | 0 <= j < k :: Held(attempts[j].checks)
    {
      k := k + 1;
    }
  }

  /** The kept answer is that of the first failed attempt, or of the last when none failed. */
  ghost predicate ShowsAnswer(attempts: seq<Attempt>, head: string)
  {
    if attempts == [] then head == []
    else exists k: nat ::
        && k < |attempts| && (forall j | 0 <= j < k :: Held(attempts[j].checks))
        && (!Held(attempts[k].checks) || k == |attempts| - 1)
        && head == HeadOf(if attempts[k].answer.Some? then attempts[k].answer.value else [])
  }

  /** Each distinct failure is printed once, with its exact count, and the prints are distinct. */
  ghost predicate PrintsFailures(attempts: seq<Attempt>, failures: seq<string>)
  {
    && Distinct(failures)
    && exists tally: seq<Failure> ::
         Tallies(tally, AllFailedTexts(attempts)) && failures == PrintedAll(tally, |attempts|)
  }

  lemma PrintedDistinct(tally: seq<Failure>, attempts: nat)
    requires forall i, j | 0 <= i < j < |tally| :: tally[i].text != tally[j].text
    ensures Distinct(PrintedAll(tally, attempts))
  {
    forall i, j | 0 <= i < j < |tally| ensures Printed(tally[i], attempts) != Printed(tally[j], attempts) {
      PrintedApart(tally[i], tally[j], attempts);
    }
  }

  /** Folds the attempts at one case. It passes exactly when there was an attempt and no check failed in any. */
  method RecordCase(id: string, attempts: seq<Attempt>) returns (r: CaseRecord)
    ensures r.passed <==> attempts != [] && AllFailedTexts(attempts) == []
    ensures r.passed <==>
            && attempts != []
            && forall i, j | 0 <= i < |attempts| && 0 <= j < |attempts[i].checks| :: attempts[i].checks[j].passed
    ensures PrintsFailures(attempts, r.failures) && ShowsAnswer(attempts, r.answerHead)
    ensures Collects(r.tools, AllTools(attempts)) && r.passes == Passes(attempts)
    ensures r.id == id && r.attempts == |attempts|
    ensures r.seconds == Mean(SecondsOf(attempts)) && r.inputTokens == Mean(InputOf(attempts))
    ensures r.outputTokens == Mean(OutputOf(attempts))
  {
    var failures, tools, passes := FoldAttempts(attempts);
    PassesMeansNoFailure(attempts);
    PrintedDistinct(failures, |attempts|);
    var head := "";
    if attempts != [] {
      var k := ShownAttempt(attempts);
      head := HeadOf(if attempts[k].answer.Some? then attempts[k].answer.value else []);
    }
    var seconds := MeanOf(SecondsOf(attempts));
    var inputTokens := MeanOf(InputOf(attempts));
    var outputTokens := MeanOf(OutputOf(attempts));
    r := CaseRecord(id, attempts != [] && passes == |attempts|, seconds, inputTokens, outputTokens, tools,
                    PrintedAll(failures, |attempts|), head, |attempts|, passes);
  }

  // ----- comparing ----------------------------------------------------------------------------------------

  datatype Comparison = Comparison(regressions: seq<string>, fixed: seq<string>, newCases: seq<string>)

  datatype Verdict = Regression | Fixed | New | Unchanged

  /** The first earlier record of the same id decides. */
  function Earlier(before: seq<CaseRecord>, id: string): (r: Option<CaseRecord>)
    ensures r.Some? ==> r.value in before && r.value.id == id
    ensures r.None? ==> forall c | c in before :: c.id != id
  {
    if before == [] then None else if before[0].id == id then Some(before[0]) else Earlier(before[1..], id)
  }

  function VerdictOf(before: seq<CaseRecord>, now: CaseRecord): (v: Verdict)
  {
    match Earlier(before, now.id)
    case None => New
    case Some(earlier) =>
      if earlier.passed && !now.passed then Regression
      else if !earlier.passed && now.passed then Fixed
      else Unchanged
  }

  /** Case `k` is the first earlier one with this id. */
  predicate FirstWithId(before: seq<CaseRecord>, id: string, k: nat)
  {
    k < |before| && before[k].id == id && forall j | 0 <= j < k :: before[j].id != id
  }

  lemma {:induction false} EarlierIsFirst(before: seq<CaseRecord>, id: string)
    ensures Earlier(before, id).None? <==> forall j | 0 <= j < |before| :: before[j].id != id
    ensures forall k: nat | FirstWithId(before, id, k) :: Earlier(before, id) == Some(before[k])
    ensures Earlier(before, id).Some? ==> exists k: nat :: FirstWithId(before, id, k)
  {
    if before != [] {
      var rest := before[1..];
      EarlierIsFirst(rest, id);
      assert forall j | 1 <= j < |before| :: before[j] == rest[j - 1];
      forall k: nat | FirstWithId(before, id, k) ensures Earlier(before, id) == Some(before[k]) {
        if k > 0 {
          assert FirstWithId(rest, id, k - 1);
        }
      }
      if before[0].id == id {
        assert FirstWithId(before, id, 0);
      } else if Earlier(rest, id).Some? {
        var k: nat :| FirstWithId(rest, id, k);
        assert FirstWithId(before, id, k + 1);
      }
    }
  }

  /** A verdict, by the two `passed` flags of the case and of the first earlier case with its id. */
  lemma VerdictByFlags(before: seq<CaseRecord>, now: CaseRecord)
    ensures VerdictOf(before, now) == New <==> forall j | 0 <= j < |before| :: before[j].id != now.id
    ensures VerdictOf(before, now) == Regression <==>
            exists k: nat :: FirstWithId(before, now.id, k) && before[k].passed && !now.passed
    ensures VerdictOf(before, now) == Fixed <==>
            exists k: nat :: FirstWithId(before, now.id, k) && !before[k].passed && now.passed
  {
    EarlierIsFirst(before, now.id);
  }

  /** The ids of the cases with this verdict, in order. */
  function WithVerdict(before: seq<CaseRecord>, now: seq<CaseRecord>, v: Verdict): (r: seq<string>)
  {
    if now == [] then []
    else
      WithVerdict(before, now[..|now| - 1], v)
      + if VerdictOf(before, now[|now| - 1]) == v then [now[|now| - 1].id] else []
  }

  method Compare(before: seq<CaseRecord>, now: seq<CaseRecord>) returns (r: Comparison)
    ensures r.regressions == WithVerdict(before, now, Regression)
    ensures r.fixed == WithVerdict(before, now, Fixed)
    ensures r.newCases == WithVerdict(before, now, New)
  {
    r := Comparison([], [], []);
    var n := 0;
    while n < |now|
      invariant 0 <= n <= |now|
      invariant r.regressions == WithVerdict(before, now[..n], Regression)
      invariant r.fixed == WithVerdict(before, now[..n], Fixed)
      invariant r.newCases == WithVerdict(before, now[..n], New)
    {
      assert now[..n + 1][..n] == now[..n];
      var case_ := now[n];
      var earlier := Earlier(before, case_.id);
      if earlier.None? {
        r := r.(newCases := r.newCases + [case_.id]);
      } else if earlier.value.passed && !case_.passed {
        r := r.(regressions := r.regressions + [case_.id]);
      } else if !earlier.value.passed && case_.passed {
        r := r.(fixed := r.fixed + [case_.id]);
      }
      n := n + 1;
    }
    assert now[..n] == now;
  }

  /** Every current case is in exactly one of the four groups. */
  lemma {:induction false} ComparisonPartitions(before: seq<CaseRecord>, now: seq<CaseRecord>)
    ensures |WithVerdict(before, now, Regression)| + |WithVerdict(before, now, Fixed)|
            + |WithVerdict(before, now, New)| + |WithVerdict(before, now, Unchanged)| == |now|
    ensures forall i, v | 0 <= i < |now| && VerdictOf(before, now[i]) == v :: now[i].id in WithVerdict(before, now, v)
    decreases |now|
  {
    if now != [] {
      ComparisonPartitions(before, now[..|now| - 1]);
    }
  }

  /** With unique ids a case is listed in no group but its own. */
  lemma {:induction false} OneGroupEach(before: seq<CaseRecord>, now: seq<CaseRecord>, i: nat, v: Verdict)
    requires i < |now| && forall j, k | 0 <= j < k < |now| :: now[j].id != now[k].id
    ensures now[i].id in WithVerdict(before, now, v) <==> VerdictOf(before, now[i]) == v
    decreases |now|
  {
    var last := |now| - 1;
    if i == last {
      ListedComesFrom(before, now[..last], v, now[i].id);
    } else {
      OneGroupEach(before, now[..last], i, v);
    }
  }

  lemma {:induction false} ListedComesFrom(before: seq<CaseRecord>, now: seq<CaseRecord>, v: Verdict, id: string)
    ensures id in WithVerdict(before, now, v) ==> exists j :: 0 <= j < |now| && now[j].id == id
    decreases |now|
  {
    if now != [] {
      ListedComesFrom(before, now[..|now| - 1], v, id);
    }
  }
}
