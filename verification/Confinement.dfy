/**
 The permission policy of a coding task: which requests it allows, and when a path is confined to the working folder.
 A file system is a tree of real folders with links. A link's target is the place it finally leads to, whether or not
 anything is there.
 */
module Confinement {
  import opened Options

  /** A component of a written absolute path, after its root. */
  datatype Component = ParentDir | CurDir | Normal(name: string)

  datatype WrittenPath = WrittenPath(absolute: bool, components: seq<Component>)

  /** A path from the root, as folder names. */
  type Names = seq<string>

  datatype Entry = Absent | Plain | Link(target: Names)

  /** What each name inside each real folder is. */
  datatype FileSystem = FileSystem(entry: (Names, string) -> Entry)

  // ----- lexical normalisation ----------------------------------------------------------------------------

  /** Drops `.` and lets `..` remove the name before it; climbing above the top is refused. */
  method Normalise(components: seq<Component>) returns (normal: Option<Names>)
    ensures normal.None? <==> exists k | 0 <= k <= |components| :: Depth(components[..k]) < 0
    ensures normal.Some? ==> |normal.value| == Depth(components)
    ensures normal == Folded(components)
  {
    var names: Names := [];
    var i := 0;
    while i < |components|
      invariant 0 <= i <= |components|
      invariant Folded(components[..i]) == Some(names)
      invariant |names| == Depth(components[..i])
      invariant forall k | 0 <= k <= i :: Depth(components[..k]) >= 0
    {
      assert components[..i + 1][..i] == components[..i];
      match components[i] {
        case ParentDir =>
          if names == [] {
            assert Depth(components[..i + 1]) < 0;
            StuckForever(components, i + 1);
            return None;
          }
          names := names[..|names| - 1];
        case CurDir =>
        case Normal(name) =>
          names := names + [name];
      }
      i := i + 1;
    }
    assert components[..i] == components;
    return Some(names);
  }

  /** How deep below the top a written path is. */
  function Depth(components: seq<Component>): (d: int)
  {
    if components == [] then 0
    else
      Depth(components[..|components| - 1])
      + match components[|components| - 1]
        case ParentDir => -1
        case CurDir => 0
        case Normal(_) => 1
  }

  function Folded(components: seq<Component>): (r: Option<Names>)
  {
    if components == [] then Some([])
    else
      match Folded(components[..|components| - 1])
      case None => None
      case Some(names) =>
        match components[|components| - 1]
        case ParentDir => if names == [] then None else Some(names[..|names| - 1])
        case CurDir => Some(names)
        case Normal(name) => Some(names + [name])
  }

  lemma {:induction false} StuckForever(components: seq<Component>, k: nat)
    requires k <= |components| && Folded(components[..k]) == None
    ensures Folded(components) == None
    decreases |components|
  {
    if k == |components| {
      assert components[..k] == components;
    } else {
      var shorter := components[..|components| - 1];
      assert shorter[..k] == components[..k];
      StuckForever(shorter, k);
    }
  }

  /** A path without `..` keeps exactly its names. */
  lemma {:induction false} FoldedWithoutParents(components: seq<Component>)
    requires forall i | 0 <= i < |components| :: !components[i].ParentDir?
    ensures Folded(components) == Some(NamesOf(components))
  {
    if components != [] {
      FoldedWithoutParents(components[..|components| - 1]);
      assert NamesOf(components[..|components| - 1]) + [] == NamesOf(components[..|components| - 1]);
    }
  }

  function NamesOf(components: seq<Component>): (r: Names)
  {
    if components == [] then []
    else
      NamesOf(components[..|components| - 1])
      + if components[|components| - 1].Normal? then [components[|components| - 1].name] else []
  }

  // ----- resolving links ----------------------------------------------------------------------------------

  /** A place exists when every name on the way to it is really there. */
  predicate Present(fs: FileSystem, place: Names)
  {
    forall i | 0 <= i < |place| :: fs.entry(place[..i], place[i]).Plain?
  }

  /** The real path, when every name on the way exists; a link with a missing target does not exist. */
  function Real(fs: FileSystem, path: Names): (r: Option<Names>)
  {
    if path == [] then Some([])
    else
      match Real(fs, path[..|path| - 1])
      case None => None
      case Some(folder) => Next(fs, folder, path[|path| - 1])
  }

  function Next(fs: FileSystem, folder: Names, name: string): (r: Option<Names>)
  {
    match fs.entry(folder, name)
    case Absent => None
    case Plain => Some(folder + [name])
    case Link(target) => if Present(fs, target) then Some(target) else None
  }

  lemma NextPresent(fs: FileSystem, folder: Names, name: string)
    requires Present(fs, folder) && Next(fs, folder, name).Some?
    ensures Present(fs, Next(fs, folder, name).value)
  {
    var place := Next(fs, folder, name).value;
    if fs.entry(folder, name).Plain? {
      assert place[..|folder|] == folder;
      assert forall i | 0 <= i < |folder| :: place[..i] == folder[..i] && place[i] == folder[i];
    }
  }

  /** A real path leads through no link. */
  lemma {:induction false} RealIsPresent(fs: FileSystem, path: Names)
    requires Real(fs, path).Some?
    ensures Present(fs, Real(fs, path).value)
    decreases |path|
  {
    if path != [] {
      var folder := path[..|path| - 1];
      RealIsPresent(fs, folder);
      NextPresent(fs, Real(fs, folder).value, path[|path| - 1]);
    }
  }

  lemma PresentPrefix(fs: FileSystem, place: Names, k: nat)
    requires Present(fs, place) && k <= |place|
    ensures Present(fs, place[..k])
  {
    assert forall i | 0 <= i < k :: place[..k][..i] == place[..i];
  }

  /** A place that exists is its own real path. */
  lemma {:induction false} PresentIsReal(fs: FileSystem, place: Names)
    requires Present(fs, place)
    ensures Real(fs, place) == Some(place)
    decreases |place|
  {
    if place != [] {
      var last := |place| - 1;
      PresentPrefix(fs, place, last);
      PresentIsReal(fs, place[..last]);
      assert place[..last] + [place[last]] == place;
    }
  }

  lemma {:induction false} AncestorsExist(fs: FileSystem, path: Names, k: nat)
    requires k <= |path| && Real(fs, path).Some?
    ensures Real(fs, path[..k]).Some?
    decreases |path|
  {
    if k == |path| {
      assert path[..k] == path;
    } else {
      var folder := path[..|path| - 1];
      assert folder[..k] == path[..k];
      AncestorsExist(fs, folder, k);
    }
  }

  /** `k` names is the longest existing ancestor. */
  predicate LongestExisting(fs: FileSystem, path: Names, k: nat)
  {
    k <= |path| && Real(fs, path[..k]).Some? && (k < |path| ==> Real(fs, path[..k + 1]).None?)
  }

  lemma LongestUnique(fs: FileSystem, path: Names, j: nat, k: nat)
    requires LongestExisting(fs, path, j) && LongestExisting(fs, path, k)
    ensures j == k
  {
    if j < k {
      assert path[..k][..j + 1] == path[..j + 1];
      AncestorsExist(fs, path[..k], j + 1);
    } else if k < j {
      assert path[..j][..k + 1] == path[..k + 1];
      AncestorsExist(fs, path[..j], k + 1);
    }
  }

  ghost predicate RealAncestorInside(fs: FileSystem, root: Names, path: Names)
  {
    exists k: nat :: LongestExisting(fs, path, k) && root <= Real(fs, path[..k]).value
  }

  /** Whether a written path is absolute and resolves inside the root. */
  method Confined(fs: FileSystem, root: Names, candidate: WrittenPath) returns (inside: bool)
    ensures inside <==> IsConfined(fs, root, candidate)
  {
    if !candidate.absolute {
      return false;
    }
    var normal := Normalise(candidate.components);
    if normal.None? {
      return false;
    }
    var path := normal.value;
    var k := |path|;
    assert path[..k] == path;
    while Real(fs, path[..k]).None?
      invariant 0 <= k <= |path|
      invariant forall j | k < j <= |path| :: Real(fs, path[..j]).None?
      decreases k
    {
      k := k - 1;
    }
    assert LongestExisting(fs, path, k);
    inside := root <= Real(fs, path[..k]).value;
    forall j: nat | LongestExisting(fs, path, j) ensures j == k {
      LongestUnique(fs, path, j, k);
    }
  }

  ghost predicate IsConfined(fs: FileSystem, root: Names, path: WrittenPath)
  {
    path.absolute && Folded(path.components).Some? && RealAncestorInside(fs, root, Folded(path.components).value)
  }

  // ----- where a path leads -------------------------------------------------------------------------------

  /**
   Where writing to `path` ends up when its first `k` names exist and no more: at the real path, below it, or, when the
   first missing name is a link, at that link's target.
   */
  function PlaceFrom(fs: FileSystem, path: Names, k: nat): (place: Names)
    requires LongestExisting(fs, path, k)
  {
    var folder := Real(fs, path[..k]).value;
    if k < |path| && fs.entry(folder, path[k]).Link?
    then fs.entry(folder, path[k]).target + path[k + 1..]
    else folder + path[k..]
  }

  ghost predicate LandsAt(fs: FileSystem, path: Names, place: Names)
  {
    exists k: nat :: LongestExisting(fs, path, k) && place == PlaceFrom(fs, path, k)
  }

  /** The first missing name is a link, and its target is not below the root. */
  ghost predicate LinkLeavesRoot(fs: FileSystem, root: Names, path: Names)
  {
    exists k: nat :: LongestExisting(fs, path, k) && LeavesAt(fs, root, path, k)
  }

  predicate LeavesAt(fs: FileSystem, root: Names, path: Names, k: nat)
    requires LongestExisting(fs, path, k)
  {
    && k < |path| && fs.entry(Real(fs, path[..k]).value, path[k]).Link?
    && !(root <= fs.entry(Real(fs, path[..k]).value, path[k]).target)
  }

  /** A missing place is not above an existing one. */
  lemma MissingIsNotAbove(fs: FileSystem, root: Names, folder: Names, target: Names, rest: Names)
    requires Present(fs, folder) && root <= folder && !Present(fs, target) && root <= target + rest
    ensures root <= target
  {
    if |root| > |target| {
      assert target == (target + rest)[..|target|] == root[..|target|] == folder[..|target|];
      PresentPrefix(fs, folder, |target|);
    } else {
      assert root == (target + rest)[..|root|] == target[..|root|];
    }
  }

  lemma PlaceInsideAt(fs: FileSystem, root: Names, path: Names, k: nat)
    requires LongestExisting(fs, path, k) && root <= Real(fs, path[..k]).value
    ensures root <= PlaceFrom(fs, path, k) <==> !LeavesAt(fs, root, path, k)
  {
    var folder := Real(fs, path[..k]).value;
    if k < |path| && fs.entry(folder, path[k]).Link? {
      var target := fs.entry(folder, path[k]).target;
      assert path[..k + 1][..k] == path[..k];
      assert !Present(fs, target);
      RealIsPresent(fs, path[..k]);
      if root <= target + path[k + 1..] {
        MissingIsNotAbove(fs, root, folder, target, path[k + 1..]);
      }
    }
  }

  /**
   The place that a confined path names in its normalised form, existing or new, is below the root if and only if the
   first missing name is not a link to a place outside. For a form that exists, confined means inside.
   */
  lemma ConfinedMeansInside(fs: FileSystem, root: Names, candidate: WrittenPath, place: Names)
    requires candidate.absolute && Folded(candidate.components).Some?
    requires LandsAt(fs, Folded(candidate.components).value, place)
    ensures IsConfined(fs, root, candidate) ==>
              (root <= place <==> !LinkLeavesRoot(fs, root, Folded(candidate.components).value))
    ensures Real(fs, Folded(candidate.components).value).Some? ==>
              (IsConfined(fs, root, candidate) <==> root <= place)
  {
    var path := Folded(candidate.components).value;
    var k: nat :| LongestExisting(fs, path, k) && place == PlaceFrom(fs, path, k);
    forall j: nat | LongestExisting(fs, path, j) ensures j == k {
      LongestUnique(fs, path, j, k);
    }
    if IsConfined(fs, root, candidate) {
      PlaceInsideAt(fs, root, path, k);
    }
    if Real(fs, path).Some? {
      assert path[..|path|] == path && path[|path|..] == [];
      assert LongestExisting(fs, path, |path|);
      assert place == Real(fs, path).value + [];
    }
  }

  /** One folder below the top, holding one link to a missing name elsewhere. */
  function OneLink(): (fs: FileSystem)
  {
    FileSystem((folder: Names, name: string) =>
      if folder == [] && name == "work" then Plain
      else if folder == ["work"] && name == "new" then Link(["elsewhere"])
      else Absent)
  }

  /** The exception is real: a path is confined although what it leads to is not below the root. */
  lemma ConfinedCanLeadElsewhere() returns (candidate: WrittenPath)
    ensures IsConfined(OneLink(), ["work"], candidate)
    ensures LandsAt(OneLink(), NamesOf(candidate.components), ["elsewhere"])
    ensures forall c | c in candidate.components :: !c.ParentDir?
    ensures Folded(candidate.components) == Some(NamesOf(candidate.components))
  {
    candidate := WrittenPath(true, [Normal("work"), Normal("new")]);
    var fs, path := OneLink(), ["work", "new"];
    NamesOfTwo("work", "new");
    FoldedWithoutParents(candidate.components);
    assert path[..1] == ["work"] && path[..1][..0] == [] && path[..2] == path;
    assert Present(fs, ["work"]);
    PresentIsReal(fs, ["work"]);
    assert !Present(fs, ["elsewhere"]) by {
      assert ["elsewhere"][..0] == [];
    }
    assert Real(fs, path).None?;
    assert LongestExisting(fs, path, 1);
    assert PlaceFrom(fs, path, 1) == ["elsewhere"];
  }

  lemma NamesOfTwo(a: string, b: string)
    ensures NamesOf([Normal(a), Normal(b)]) == [a, b]
  {
    var one: seq<Component> := [Normal(a)];
    assert one[..0] == [] && NamesOf(one) == [a];
    assert [Normal(a), Normal(b)][..1] == one;
  }

  // ----- parents ------------------------------------------------------------------------------------------

  /** Resolving name by name as the system does: `..` leaves the real folder, not the written one. */
  function Opened(fs: FileSystem, components: seq<Component>): (r: Option<Names>)
  {
    if components == [] then Some([])
    else
      match Opened(fs, components[..|components| - 1])
      case None => None
      case Some(folder) =>
        match components[|components| - 1]
        case ParentDir => Some(if folder == [] then [] else folder[..|folder| - 1])
        case CurDir => Some(folder)
        case Normal(name) => Next(fs, folder, name)
  }

  function Parent(place: Names): (r: Names)
  {
    if place == [] then [] else place[..|place| - 1]
  }

  /** Going back from the last of these names leaves the real folder that holds it. */
  predicate StepsBack(fs: FileSystem, names: Names)
  {
    && names != []
    && match Real(fs, Parent(names))
       case None => true
       case Some(folder) =>
         match fs.entry(folder, names[|names| - 1])
         case Absent => false
         case Plain => true
         case Link(target) => Present(fs, target) && Parent(target) == folder
  }

  /** Every `..` goes back from a plain name, from a link to a neighbour, or where nothing exists anyway. */
  predicate BacksOut(fs: FileSystem, components: seq<Component>)
  {
    components != [] ==>
      var front, last := components[..|components| - 1], components[|components| - 1];
      && BacksOut(fs, front)
      && (last.ParentDir? ==> Folded(front).Some? && StepsBack(fs, Folded(front).value))
  }

  /** At every prefix the normalised form names what the system opens. */
  predicate AgreesThroughout(fs: FileSystem, components: seq<Component>)
  {
    && Folded(components).Some? && Real(fs, Folded(components).value) == Opened(fs, components)
    && (components != [] ==> AgreesThroughout(fs, components[..|components| - 1]))
  }

  function ParentOf(place: Option<Names>): (r: Option<Names>)
  {
    if place.Some? then Some(Parent(place.value)) else None
  }

  lemma ParentAgrees(fs: FileSystem, names: Names)
    requires names != []
    ensures StepsBack(fs, names) <==> Real(fs, Parent(names)) == ParentOf(Real(fs, names))
  {
    var folder := Real(fs, Parent(names));
    if folder.Some? && fs.entry(folder.value, names[|names| - 1]).Plain? {
      assert Parent(folder.value + [names[|names| - 1]]) == folder.value;
    }
  }

  lemma NameAgrees(fs: FileSystem, names: Names, name: string)
    ensures Real(fs, names).Some? ==> Real(fs, names + [name]) == Next(fs, Real(fs, names).value, name)
    ensures Real(fs, names).None? ==> Real(fs, names + [name]).None?
  {
    assert (names + [name])[..|names|] == names;
  }

  /**
   The lexical treatment of `..` is right, at every prefix of a path, if and only if every `..` in it goes back from a
   plain name, from a link whose target lies in the same real folder, or where nothing exists anyway.
   */
  lemma {:induction false} LexicalParentsExactly(fs: FileSystem, components: seq<Component>)
    ensures BacksOut(fs, components) <==> AgreesThroughout(fs, components)
    decreases |components|
  {
    if components != [] {
      var front, last := components[..|components| - 1], components[|components| - 1];
      LexicalParentsExactly(fs, front);
      if AgreesThroughout(fs, front) {
        var names := Folded(front).value;
        match last
        case ParentDir =>
          if names != [] {
            ParentAgrees(fs, names);
          }
        case CurDir =>
        case Normal(name) => NameAgrees(fs, names, name);
      }
    }
  }

  /** For such a path, if it can be opened, confined means that what is opened is below the root. */
  lemma ConfinedOpensInside(fs: FileSystem, root: Names, candidate: WrittenPath)
    requires candidate.absolute && BacksOut(fs, candidate.components) && Opened(fs, candidate.components).Some?
    ensures IsConfined(fs, root, candidate) <==> root <= Opened(fs, candidate.components).value
  {
    LexicalParentsExactly(fs, candidate.components);
    var path := Folded(candidate.components).value;
    assert path[..|path|] == path;
    assert LongestExisting(fs, path, |path|);
    forall j: nat | LongestExisting(fs, path, j) ensures j == |path| {
      LongestUnique(fs, path, j, |path|);
    }
  }

  /** Where opening a path, or creating its last name, ends up; nothing when a name before the last is missing. */
  function Target(fs: FileSystem, components: seq<Component>): (place: Option<Names>)
  {
    if Opened(fs, components).Some? || components == [] then Opened(fs, components)
    else
      var front, last := components[..|components| - 1], components[|components| - 1];
      match Opened(fs, front)
      case None => None
      case Some(folder) =>
        if last.Normal? then Some(NewPlace(fs, folder, last.name)) else None
  }

  lemma ExistingLands(fs: FileSystem, path: Names)
    requires Real(fs, path).Some?
    ensures LandsAt(fs, path, Real(fs, path).value)
  {
    assert path[..|path|] == path && path[|path|..] == [];
    assert LongestExisting(fs, path, |path|);
    assert PlaceFrom(fs, path, |path|) == Real(fs, path).value + [];
  }

  /** Where creating a missing name in a real folder puts it. */
  function NewPlace(fs: FileSystem, folder: Names, name: string): (place: Names)
  {
    if fs.entry(folder, name).Link? then fs.entry(folder, name).target else folder + [name]
  }

  lemma NewNameLands(fs: FileSystem, names: Names, name: string)
    requires Real(fs, names).Some? && Real(fs, names + [name]).None?
    ensures LandsAt(fs, names + [name], NewPlace(fs, Real(fs, names).value, name))
  {
    var path, k := names + [name], |names|;
    assert path[..k] == names && path[..k + 1] == path && path[k..] == [name] && path[k + 1..] == [];
    assert LongestExisting(fs, path, k);
    assert fs.entry(Real(fs, names).value, name).Link? ==>
        fs.entry(Real(fs, names).value, name).target + [] == fs.entry(Real(fs, names).value, name).target;
    assert LandsAt(fs, path, PlaceFrom(fs, path, k));
  }

  /** For such a path, what is opened or created is where its normalised form leads. */
  lemma TargetIsNormalised(fs: FileSystem, components: seq<Component>)
    requires BacksOut(fs, components) && Target(fs, components).Some?
    ensures Folded(components).Some? && LandsAt(fs, Folded(components).value, Target(fs, components).value)
  {
    LexicalParentsExactly(fs, components);
    if Opened(fs, components).Some? {
      ExistingLands(fs, Folded(components).value);
    } else {
      var front, last := components[..|components| - 1], components[|components| - 1];
      assert AgreesThroughout(fs, front);
      NewNameLands(fs, Folded(front).value, last.name);
    }
  }

  /**
   Absolute paths, with or without `..`, whose every `..` goes back as above: a confined one opens or creates something
   below the root if and only if its first missing name is not a link to a place outside.
   */
  lemma ConfinedWritesInside(fs: FileSystem, root: Names, candidate: WrittenPath)
    requires candidate.absolute && BacksOut(fs, candidate.components) && Target(fs, candidate.components).Some?
    requires IsConfined(fs, root, candidate)
    ensures root <= Target(fs, candidate.components).value <==>
            !LinkLeavesRoot(fs, root, Folded(candidate.components).value)
  {
    TargetIsNormalised(fs, candidate.components);
    ConfinedMeansInside(fs, root, candidate, Target(fs, candidate.components).value);
  }

  /** One folder with a link to a folder elsewhere. */
  function FolderLink(): (fs: FileSystem)
  {
    FileSystem((folder: Names, name: string) =>
      if folder == [] && (name == "work" || name == "far") then Plain
      else if folder == ["far"] && name == "deep" then Plain
      else if folder == ["work"] && name == "link" then Link(["far", "deep"])
      else Absent)
  }

  /** The exception is real: `/work/link/..` is confined to `/work`, and what is opened is `/far`. */
  lemma ConfinedOpensElsewhere() returns (candidate: WrittenPath)
    ensures IsConfined(FolderLink(), ["work"], candidate) && Opened(FolderLink(), candidate.components) == Some(["far"])
  {
    var fs := FolderLink();
    var one: seq<Component> := [Normal("work")];
    var two := one + [Normal("link")];
    candidate := WrittenPath(true, two + [ParentDir]);
    OneMore(fs, [], Normal("work"));
    OneMore(fs, one, Normal("link"));
    OneMore(fs, two, ParentDir);
    assert [] + [Normal("work")] == one;
    assert Present(fs, ["far", "deep"]) by {
      assert ["far", "deep"][..0] == [] && ["far", "deep"][..1] == ["far"];
    }
    assert ["far", "deep"][..1] == ["far"] && ["work", "link"][..1] == ["work"];
    assert Folded(candidate.components) == Some(["work"]);
    WorkIsThere(fs);
  }

  lemma WorkIsThere(fs: FileSystem)
    requires fs.entry([], "work").Plain?
    ensures RealAncestorInside(fs, ["work"], ["work"])
  {
    assert ["work"][..0] == [] && ["work"][..1] == ["work"];
    PresentIsReal(fs, ["work"]);
    assert LongestExisting(fs, ["work"], 1);
  }

  lemma OneMore(fs: FileSystem, front: seq<Component>, last: Component)
    ensures last.Normal? && Opened(fs, front).Some? ==>
              Opened(fs, front + [last]) == Next(fs, Opened(fs, front).value, last.name)
    ensures last.ParentDir? && Opened(fs, front).Some? && Opened(fs, front).value != [] ==>
              Opened(fs, front + [last]) == Some(Opened(fs, front).value[..|Opened(fs, front).value| - 1])
    ensures last.Normal? && Folded(front).Some? ==> Folded(front + [last]) == Some(Folded(front).value + [last.name])
    ensures last.ParentDir? && Folded(front).Some? && Folded(front).value != [] ==>
              Folded(front + [last]) == Some(Folded(front).value[..|Folded(front).value| - 1])
  {
    assert (front + [last])[..|front|] == front;
  }

  // ----- the policy ---------------------------------------------------------------------------------------

  datatype Request = Request(kind: string, paths: seq<WrittenPath>)

  datatype Policy = Policy(root: Names, allowCommands: bool, allowNetwork: bool)

  ghost predicate AllConfined(fs: FileSystem, root: Names, paths: seq<WrittenPath>)
  {
    forall i | 0 <= i < |paths| :: IsConfined(fs, root, paths[i])
  }

  method CheckPaths(fs: FileSystem, root: Names, paths: seq<WrittenPath>) returns (all: bool)
    ensures all <==> AllConfined(fs, root, paths)
  {
    for i := 0 to |paths|
      invariant forall j | 0 <= j < i :: IsConfined(fs, root, paths[j])
    {
      var inside := Confined(fs, root, paths[i]);
      if !inside {
        return false;
      }
    }
    return true;
  }

  const WRITES := {"edit", "delete", "move"}
  const READS := {"read", "search"}

  /** The answer to one permission request. */
  method Verdict(fs: FileSystem, policy: Policy, request: Request) returns (allow: bool)
    ensures request.kind in WRITES ==>
              (allow <==> request.paths != [] && AllConfined(fs, policy.root, request.paths))
    ensures request.kind in READS ==> (allow <==> AllConfined(fs, policy.root, request.paths))
    ensures request.kind == "think" ==> allow
    ensures request.kind == "execute" ==> allow == policy.allowCommands
    ensures request.kind == "fetch" ==> allow == policy.allowNetwork
    ensures request.kind !in WRITES + READS + {"think", "execute", "fetch"} ==> !allow
  {
    if request.kind == "think" {
      return true;
    } else if request.kind == "read" || request.kind == "search" {
      allow := CheckPaths(fs, policy.root, request.paths);
    } else if request.kind == "edit" || request.kind == "delete" || request.kind == "move" {
      if request.paths == [] {
        return false;
      }
      allow := CheckPaths(fs, policy.root, request.paths);
    } else if request.kind == "execute" {
      return policy.allowCommands;
    } else if request.kind == "fetch" {
      return policy.allowNetwork;
    } else {
      return false;
    }
  }
}
