/**
 Choosing which runs a kill switch asks to stop: all unfinished runs except those whose parent is asked anyway, or the
 one run a typed prefix names.
 */
module CancelAll {
  import opened Options

  datatype Run = Run(id: string, parent: Option<string>, finished: bool)

  datatype Choice = Chosen(runs: seq<Run>) | NotChosen

  function Going(runs: seq<Run>): (r: seq<Run>)
    ensures forall x :: x in r <==> x in runs && !x.finished
  {
    if runs == [] then [] else (if runs[0].finished then [] else [runs[0]]) + Going(runs[1..])
  }

  predicate HasId(runs: seq<Run>, id: string)
  {
    exists x | x in runs :: x.id == id
  }

  predicate ParentGoing(going: seq<Run>, run: Run)
  {
    run.parent.Some? && HasId(going, run.parent.value)
  }

  function Roots(going: seq<Run>, all: seq<Run>): (r: seq<Run>)
    ensures forall x :: x in r <==> x in going && !ParentGoing(all, x)
  {
    if going == [] then []
    else (if ParentGoing(all, going[0]) then [] else [going[0]]) + Roots(going[1..], all)
  }

  function Named(runs: seq<Run>, typed: string): (r: seq<Run>)
    ensures forall x :: x in r <==> x in runs && typed <= x.id
    ensures |r| <= |runs|
  {
    if runs == [] then [] else (if typed <= runs[0].id then [runs[0]] else []) + Named(runs[1..], typed)
  }

  function Choose(runs: seq<Run>, typed: Option<string>, all: bool): (r: Choice)
  {
    if all then Chosen(Roots(Going(runs), Going(runs)))
    else if typed.None? || typed.value == [] then NotChosen
    else
      var named := Named(runs, typed.value);
      if |named| == 1 then Chosen(named) else NotChosen
  }

  predicate UniqueIds(runs: seq<Run>)
  {
    forall i, j | 0 <= i < j < |runs| :: runs[i].id != runs[j].id
  }

  /** `path` follows parents: each run after the first is the parent of the one before, and all are in `going`. */
  predicate Chain(going: seq<Run>, path: seq<Run>)
  {
    && path != []
    && (forall i | 0 <= i < |path| :: path[i] in going)
    && (forall i | 0 <= i < |path| - 1 :: path[i].parent == Some(path[i + 1].id))
  }

  /** No run is its own ancestor. */
  ghost predicate Acyclic(going: seq<Run>)
  {
    forall path | Chain(going, path) && |path| > 1 :: path[0] != path[|path| - 1]
  }

  lemma SameRun(runs: seq<Run>, a: Run, b: Run)
    requires UniqueIds(runs) && a in runs && b in runs && a.id == b.id
    ensures a == b
  {
  }

  lemma {:induction false} GoingUnique(runs: seq<Run>)
    requires UniqueIds(runs)
    ensures UniqueIds(Going(runs))
  {
    if runs != [] {
      assert UniqueIds(runs[1..]) by {
        assert forall i | 0 <= i < |runs| - 1 :: runs[1..][i] == runs[i + 1];
      }
      GoingUnique(runs[1..]);
      assert forall x | x in runs[1..] :: x.id != runs[0].id;
      var rest := Going(runs[1..]);
      assert forall j | 0 <= j < |rest| :: rest[j] in rest;
    }
  }

  predicate DistinctRuns(path: seq<Run>)
  {
    forall i, j | 0 <= i < j < |path| :: path[i] != path[j]
  }

  /** In an acyclic listing a chain never visits a run twice. */
  lemma ChainDistinct(going: seq<Run>, path: seq<Run>)
    requires Acyclic(going) && Chain(going, path)
    ensures DistinctRuns(path)
  {
    forall i, j | 0 <= i < j < |path| ensures path[i] != path[j] {
      var loop := path[i..j + 1];
      assert Chain(going, loop);
      assert loop[0] == path[i] && loop[|loop| - 1] == path[j];
    }
  }

  lemma {:induction false} DistinctFits(path: seq<Run>, going: seq<Run>)
    requires DistinctRuns(path) && forall i | 0 <= i < |path| :: path[i] in going
    ensures |path| <= |going|
    decreases |path|
  {
    if path != [] {
      var last := path[|path| - 1];
      var k :| 0 <= k < |going| && going[k] == last;
      var rest := going[..k] + going[k + 1..];
      var shorter := path[..|path| - 1];
      forall i | 0 <= i < |shorter| ensures shorter[i] in rest {
        var m :| 0 <= m < |going| && going[m] == path[i];
        assert m != k;
        assert rest[if m < k then m else m - 1] == path[i];
      }
      DistinctFits(shorter, rest);
    }
  }

  /** From any chain, parents lead on to a run whose parent is not going. */
  lemma {:induction false} ClimbToRoot(going: seq<Run>, path: seq<Run>) returns (full: seq<Run>)
    requires Acyclic(going) && Chain(going, path)
    ensures Chain(going, full) && full[0] == path[0] && !ParentGoing(going, full[|full| - 1])
    decreases |going| - |path|
  {
    ChainDistinct(going, path);
    DistinctFits(path, going);
    var last := path[|path| - 1];
    if ParentGoing(going, last) {
      var up :| up in going && up.id == last.parent.value;
      var longer := path + [up];
      assert Chain(going, longer);
      ChainDistinct(going, longer);
      DistinctFits(longer, going);
      full := ClimbToRoot(going, longer);
    } else {
      full := path;
    }
  }

  /** Two chains from one run agree as far as both go. */
  lemma {:induction false} ChainsAgree(going: seq<Run>, a: seq<Run>, b: seq<Run>, k: nat)
    requires UniqueIds(going) && Chain(going, a) && Chain(going, b) && a[0] == b[0]
    requires k < |a| && k < |b|
    ensures a[k] == b[k]
    decreases k
  {
    if k > 0 {
      ChainsAgree(going, a, b, k - 1);
      assert a[k - 1].parent == Some(a[k].id) && b[k - 1].parent == Some(b[k].id);
      SameRun(going, a[k], b[k]);
    }
  }

  lemma {:induction false} RootsUnique(going: seq<Run>, all: seq<Run>)
    requires UniqueIds(going)
    ensures UniqueIds(Roots(going, all))
  {
    if going != [] {
      assert UniqueIds(going[1..]) by {
        assert forall i | 0 <= i < |going| - 1 :: going[1..][i] == going[i + 1];
      }
      RootsUnique(going[1..], all);
      assert forall x | x in going[1..] :: x.id != going[0].id;
      var rest := Roots(going[1..], all);
      assert forall j | 0 <= j < |rest| :: rest[j] in rest;
    }
  }

  /** What `--all` asks to stop, whatever was typed. */
  predicate AskedToStop(runs: seq<Run>, run: Run)
  {
    var choice := Choose(runs, None, true);
    choice.Chosen? && run in choice.runs
  }

  /** `root` is chosen and `run` reaches it by following parents through unfinished listed runs. */
  ghost predicate Covers(runs: seq<Run>, run: Run, root: Run)
  {
    && AskedToStop(runs, root)
    && exists path :: Chain(Going(runs), path) && path[0] == run && path[|path| - 1] == root
  }

  lemma RootsMeet(runs: seq<Run>, run: Run, a: Run, b: Run)
    requires UniqueIds(runs) && Covers(runs, run, a) && Covers(runs, run, b)
    ensures a == b
  {
    var going := Going(runs);
    GoingUnique(runs);
    var p: seq<Run> :| Chain(going, p) && p[0] == run && p[|p| - 1] == a;
    var q: seq<Run> :| Chain(going, q) && q[0] == run && q[|q| - 1] == b;
    var k := if |p| <= |q| then |p| - 1 else |q| - 1;
    ChainsAgree(going, p, q, k);
    if |p| < |q| {
      assert q[k].parent == Some(q[k + 1].id) && q[k + 1] in going;
      assert ParentGoing(going, a);
    } else if |q| < |p| {
      assert p[k].parent == Some(p[k + 1].id) && p[k + 1] in going;
      assert ParentGoing(going, b);
    }
  }

  /** `--all` covers the forest once: an unfinished run has one chosen ancestor, and a chosen run has none above it. */
  lemma CancelAllCoversOnce(runs: seq<Run>, run: Run) returns (root: Run)
    requires UniqueIds(runs) && Acyclic(Going(runs)) && run in runs && !run.finished
    ensures Covers(runs, run, root)
    ensures forall other | Covers(runs, run, other) :: other == root
    ensures forall chosen | AskedToStop(runs, chosen) ::
              && !chosen.finished && chosen in runs
              && forall other | other in runs && !other.finished :: chosen.parent != Some(other.id)
    ensures forall typed :: var choice := Choose(runs, typed, true);
              choice.Chosen? && UniqueIds(choice.runs) && forall x :: x in choice.runs <==> AskedToStop(runs, x)
  {
    var going := Going(runs);
    var path := ClimbToRoot(going, [run]);
    root := path[|path| - 1];
    assert AskedToStop(runs, root);
    GoingUnique(runs);
    RootsUnique(going, going);
    forall other | Covers(runs, run, other) ensures other == root {
      RootsMeet(runs, run, other, root);
    }
  }

  /** Run `j`, and no other, starts with the typed text. */
  predicate OnlyMatch(runs: seq<Run>, typed: string, j: nat)
  {
    && j < |runs| && typed <= runs[j].id
    && forall k | 0 <= k < |runs| && k != j :: !(typed <= runs[k].id)
  }

  lemma {:induction false} NoMatchNoName(runs: seq<Run>, typed: string)
    requires forall k | 0 <= k < |runs| :: !(typed <= runs[k].id)
    ensures Named(runs, typed) == []
  {
    if runs != [] {
      NoMatchNoName(runs[1..], typed);
    }
  }

  lemma {:induction false} OnlyMatchIsNamed(runs: seq<Run>, typed: string, j: nat)
    requires OnlyMatch(runs, typed, j)
    ensures Named(runs, typed) == [runs[j]]
  {
    if j == 0 {
      NoMatchNoName(runs[1..], typed);
    } else {
      assert !(typed <= runs[0].id);
      OnlyMatchIsNamed(runs[1..], typed, j - 1);
    }
  }

  lemma {:induction false} SingleNameIsOnlyMatch(runs: seq<Run>, typed: string) returns (j: nat)
    requires |Named(runs, typed)| == 1
    ensures OnlyMatch(runs, typed, j)
  {
    if typed <= runs[0].id {
      j := 0;
      assert Named(runs[1..], typed) == [];
      assert forall k | 1 <= k < |runs| :: runs[k] == runs[1..][k - 1] && runs[k] !in Named(runs[1..], typed);
    } else {
      j := SingleNameIsOnlyMatch(runs[1..], typed);
      j := j + 1;
    }
  }

  /** A typed prefix chooses a run exactly when it is the only recent run with that prefix. */
  lemma PrefixMustBeUnambiguous(runs: seq<Run>, typed: string)
    requires typed != []
    ensures forall j: nat | OnlyMatch(runs, typed, j) :: Choose(runs, Some(typed), false) == Chosen([runs[j]])
    ensures Choose(runs, Some(typed), false).Chosen? <==> exists j: nat :: OnlyMatch(runs, typed, j)
  {
    forall j: nat | OnlyMatch(runs, typed, j) ensures Named(runs, typed) == [runs[j]] {
      OnlyMatchIsNamed(runs, typed, j);
    }
    if |Named(runs, typed)| == 1 {
      var j := SingleNameIsOnlyMatch(runs, typed);
    }
  }

  /**
   Without `--all` one run is chosen or none: a choice is made if and only if a text was typed and exactly one listed
   run starts with it, and the choice is that run. A bare cancel chooses nothing.
   */
  lemma OneNameOneRun(runs: seq<Run>, typed: Option<string>)
    ensures Choose(runs, typed, false).Chosen? <==>
            typed.Some? && typed.value != [] && exists j: nat :: OnlyMatch(runs, typed.value, j)
    ensures Choose(runs, typed, false).Chosen? ==>
              var chosen := Choose(runs, typed, false).runs;
              |chosen| == 1 && chosen[0] in runs && typed.value <= chosen[0].id
  {
    if typed.Some? && typed.value != [] {
      PrefixMustBeUnambiguous(runs, typed.value);
      var named := Named(runs, typed.value);
      assert |named| == 1 ==> named[0] in named;
    }
  }
}
