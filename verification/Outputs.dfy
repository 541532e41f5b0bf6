/** Collecting the declared outputs of a job into its staging directory. */
module Outputs {
  import opened Basics
  import opened Attempts

  /** A normalized relative path as its parts; "." has none. */
  type Path = seq<string>

  datatype OutputSpec = OutputSpec(name: string, dest: Path, required: bool)

  /** Whether the remote path still exists when a pull failed. */
  datatype Probe = Exists | Absent | ProbeRaises(exc: Exc)

  datatype PullEnd = Returned | PullFailed(exc: Exc, code: int, probe: Probe)

  /** What one pull does: the paths below its destination that it creates (the destination itself is
      []), and how it ends. */
  datatype Pull = Pull(created: set<Path>, end: PullEnd)

  /** A failed pull passes for a missing output only when rsync says so and the path is really not
      there. */
  function PullError(end: PullEnd): (raised: Option<Exc>)
    ensures raised.None? <==>
            end.Returned? || (end.exc.kind == Transport && (end.code == 23 || end.code == 24) && end.probe.Absent?)
    ensures raised.Some? && raised != Some(end.exc) ==>
            end.exc.kind == Transport && (end.code == 23 || end.code == 24) && end.probe == ProbeRaises(raised.value)
    ensures end.PullFailed? && end.exc.kind == Transport && (end.code == 23 || end.code == 24) ==>
            (end.probe.Exists? ==> raised == Some(end.exc))
            && (end.probe.ProbeRaises? ==> raised == Some(end.probe.exc))
  {
    match end
    case Returned => None
    case PullFailed(exc, code, probe) =>
      if exc.kind != Transport || (code != 23 && code != 24) then Some(exc)
      else match probe
           case Exists => Some(exc)
           case Absent => None
           case ProbeRaises(e) => Some(e)
  }

  /** Nothing is created below a destination that is not itself created. */
  predicate Rooted(p: Pull) { p.created == {} || [] in p.created }

  predicate Overlap(a: Path, b: Path) { a <= b || b <= a }

  /** The destinations are pairwise distinct, and none lies below another. */
  ghost predicate PrefixFree(specs: seq<OutputSpec>) {
    forall i, j :: 0 <= i < j < |specs| ==> !Overlap(specs[i].dest, specs[j].dest)
  }

  /** The check a job makes on its outputs. */
  method Accepts(specs: seq<OutputSpec>) returns (ok: bool)
    ensures ok <==> PrefixFree(specs)
  {
    for i := 0 to |specs|
      invariant forall h, j :: 0 <= h < i && h < j < |specs| ==> !Overlap(specs[h].dest, specs[j].dest)
    {
      for j := i + 1 to |specs|
        invariant forall k :: i < k < j ==> !Overlap(specs[i].dest, specs[k].dest)
      {
        if specs[i].dest <= specs[j].dest || specs[j].dest <= specs[i].dest { return false; }
      }
    }
    return true;
  }

  // --- the local file system -----------------------------------------------------------

  function Parent(p: Path): Path { if p == [] then [] else p[..|p| - 1] }

  /** x exists under staging after the first n outputs were dealt with: for each, the parent of its
      destination is made, and then it is pulled; staging itself exists. */
  predicate There(specs: seq<OutputSpec>, pulls: seq<Pull>, n: nat, x: Path)
    requires n <= |specs| && |pulls| == |specs|
  {
    if n == 0 then x == []
    else There(specs, pulls, n - 1, x) || x <= Parent(specs[n - 1].dest) || Creates(specs[n - 1].dest, pulls[n - 1], x)
  }

  predicate Creates(dest: Path, p: Pull, x: Path) { dest <= x && x[|dest|..] in p.created }

  /** The destination of the i-th output exists after its pull. */
  predicate Present(specs: seq<OutputSpec>, pulls: seq<Pull>, i: nat)
    requires i < |specs| && |pulls| == |specs|
  {
    There(specs, pulls, i + 1, specs[i].dest)
  }

  datatype Class = IsPresent | MissesRequired | MissesOptional

  function ClassOf(specs: seq<OutputSpec>, pulls: seq<Pull>, i: nat): Class
    requires i < |specs| && |pulls| == |specs|
  {
    if Present(specs, pulls, i) then IsPresent
    else if specs[i].required then MissesRequired
    else MissesOptional
  }

  /** The names of the outputs of one class among the first n, in order. */
  function Labels(specs: seq<OutputSpec>, pulls: seq<Pull>, n: nat, kind: Class): seq<string>
    requires n <= |specs| && |pulls| == |specs|
  {
    if n == 0 then []
    else if ClassOf(specs, pulls, n - 1) == kind then Labels(specs, pulls, n - 1, kind) + [specs[n - 1].name]
    else Labels(specs, pulls, n - 1, kind)
  }

  datatype CollectionResult = CollectionResult(present: seq<string>, missingRequired: seq<string>,
                                               missingOptional: seq<string>)

  /** Pull every output in order, and sort it by whether it is there afterwards. */
  method CollectOutputs(specs: seq<OutputSpec>, pulls: seq<Pull>)
    returns (result: CollectionResult, raised: Option<Exc>)
    requires |pulls| == |specs|
    ensures raised.None? <==> forall i :: 0 <= i < |pulls| ==> PullError(pulls[i].end).None?
    ensures raised.Some? ==> exists i :: 0 <= i < |pulls| && PullError(pulls[i].end) == raised
                                         && forall j :: 0 <= j < i ==> PullError(pulls[j].end).None?
    ensures raised.None? ==> result == CollectionResult(Labels(specs, pulls, |specs|, IsPresent),
                                                        Labels(specs, pulls, |specs|, MissesRequired),
                                                        Labels(specs, pulls, |specs|, MissesOptional))
  {
    var files: set<Path> := {[]};
    var present, missingRequired, missingOptional := [], [], [];
    for i := 0 to |specs|
      invariant forall x :: x in files <==> There(specs, pulls, i, x)
      invariant present == Labels(specs, pulls, i, IsPresent)
      invariant missingRequired == Labels(specs, pulls, i, MissesRequired)
      invariant missingOptional == Labels(specs, pulls, i, MissesOptional)
      invariant forall j :: 0 <= j < i ==> PullError(pulls[j].end).None?
    {
      var dest := specs[i].dest;
      ghost var before := files;
      files := files + (set k | 0 <= k <= |Parent(dest)| :: Parent(dest)[..k]);
      files := files + (set x | x in pulls[i].created :: dest + x);
      forall x ensures x in files <==> There(specs, pulls, i + 1, x) {
        assert x <= Parent(dest) ==> x == Parent(dest)[..|x|];
        assert dest <= x ==> x == dest + x[|dest|..];
        assert forall y :: x == dest + y ==> y == x[|dest|..];
        assert x in before <==> There(specs, pulls, i, x);
      }
      if pulls[i].end.PullFailed? {
        if pulls[i].end.exc.kind != Transport || pulls[i].end.code !in {23, 24} {
          return CollectionResult([], [], []), Some(pulls[i].end.exc);
        }
        match pulls[i].end.probe {
          case Exists => return CollectionResult([], [], []), Some(pulls[i].end.exc);
          case ProbeRaises(exc) => return CollectionResult([], [], []), Some(exc);
          case Absent =>
        }
      }
      if dest in files {
        present := present + [specs[i].name];
      } else if specs[i].required {
        missingRequired := missingRequired + [specs[i].name];
      } else {
        missingOptional := missingOptional + [specs[i].name];
      }
    }
    return CollectionResult(present, missingRequired, missingOptional), None;
  }

  // --- the three lists ---------------------------------------------------------------------

  /** The labels are the names of the chosen outputs, each once, in the order of the declarations. */
  ghost predicate Lists(specs: seq<OutputSpec>, chosen: set<nat>, labels: seq<string>, places: seq<nat>) {
    && |places| == |labels|
    && (forall k, l :: 0 <= k < l < |places| ==> places[k] < places[l])
    && (forall k :: 0 <= k < |places| ==> places[k] in chosen && places[k] < |specs|)
    && (forall i :: i in chosen ==> i in places)
    && (forall k :: 0 <= k < |places| ==> labels[k] == specs[places[k]].name)
  }

  /** The places of the outputs of one class among the first n. */
  function Places(specs: seq<OutputSpec>, pulls: seq<Pull>, n: nat, kind: Class): seq<nat>
    requires n <= |specs| && |pulls| == |specs|
  {
    if n == 0 then []
    else Places(specs, pulls, n - 1, kind) + if ClassOf(specs, pulls, n - 1) == kind then [n - 1] else []
  }

  lemma {:induction false} PlacesList(specs: seq<OutputSpec>, pulls: seq<Pull>, n: nat, kind: Class)
    requires n <= |specs| && |pulls| == |specs|
    ensures Lists(specs, (set i: nat | i < n && ClassOf(specs, pulls, i) == kind), Labels(specs, pulls, n, kind),
                  Places(specs, pulls, n, kind))
  {
    if n > 0 {
      PlacesList(specs, pulls, n - 1, kind);
    }
  }

  ghost predicate ListedInOrder(specs: seq<OutputSpec>, chosen: set<nat>, labels: seq<string>) {
    exists places :: Lists(specs, chosen, labels, places)
  }

  function PresentOnes(specs: seq<OutputSpec>, pulls: seq<Pull>): set<nat>
    requires |pulls| == |specs|
  {
    set i: nat | i < |specs| && Present(specs, pulls, i)
  }

  /** The outputs that are absent and are required, or are absent and are not. */
  function AbsentOnes(specs: seq<OutputSpec>, pulls: seq<Pull>, required: bool): set<nat>
    requires |pulls| == |specs|
  {
    set i: nat | i < |specs| && !Present(specs, pulls, i) && specs[i].required == required
  }

  /** A full collection reports every output once, in order: those that are there as present, the others
      by whether they are required. */
  lemma ListsExact(specs: seq<OutputSpec>, pulls: seq<Pull>)
    requires |pulls| == |specs|
    ensures ListedInOrder(specs, PresentOnes(specs, pulls), Labels(specs, pulls, |specs|, IsPresent))
    ensures ListedInOrder(specs, AbsentOnes(specs, pulls, true), Labels(specs, pulls, |specs|, MissesRequired))
    ensures ListedInOrder(specs, AbsentOnes(specs, pulls, false), Labels(specs, pulls, |specs|, MissesOptional))
  {
    ListOf(specs, pulls, IsPresent, PresentOnes(specs, pulls));
    ListOf(specs, pulls, MissesRequired, AbsentOnes(specs, pulls, true));
    ListOf(specs, pulls, MissesOptional, AbsentOnes(specs, pulls, false));
  }

  lemma ListOf(specs: seq<OutputSpec>, pulls: seq<Pull>, kind: Class, chosen: set<nat>)
    requires |pulls| == |specs|
    requires forall i: nat :: i in chosen <==> i < |specs| && ClassOf(specs, pulls, i) == kind
    ensures ListedInOrder(specs, chosen, Labels(specs, pulls, |specs|, kind))
  {
    PlacesList(specs, pulls, |specs|, kind);
    assert chosen == set i: nat | i < |specs| && ClassOf(specs, pulls, i) == kind;
  }

  // --- presence is genuine ---------------------------------------------------------------

  /** What can make a path under staging: it is staging or a directory above the destination of an
      output, or the pull of an output created it. */
  predicate MadeBy(spec: OutputSpec, pull: Pull, x: Path) {
    || (|x| < |spec.dest| && x == spec.dest[..|x|])
    || (exists y :: y in pull.created && x == spec.dest + y)
  }

  /** Exactly these are there: staging itself, and what was made for one of the outputs so far. */
  lemma {:induction false} ThereHasCause(specs: seq<OutputSpec>, pulls: seq<Pull>, n: nat, x: Path)
    requires n <= |specs| && |pulls| == |specs|
    ensures There(specs, pulls, n, x) <==> x == [] || exists j: nat :: j < n && MadeBy(specs[j], pulls[j], x)
    decreases n
  {
    if n > 0 {
      ThereHasCause(specs, pulls, n - 1, x);
      MadeHere(specs[n - 1], pulls[n - 1], x);
    }
  }

  lemma MadeHere(spec: OutputSpec, pull: Pull, x: Path)
    ensures x <= Parent(spec.dest) || Creates(spec.dest, pull, x) ==> x == [] || MadeBy(spec, pull, x)
    ensures MadeBy(spec, pull, x) ==> x <= Parent(spec.dest) || Creates(spec.dest, pull, x)
  {
    if Creates(spec.dest, pull, x) { assert x == spec.dest + x[|spec.dest|..]; }
    if y :| y in pull.created && x == spec.dest + y { assert x[|spec.dest|..] == y; }
  }

  lemma RootStays(specs: seq<OutputSpec>, pulls: seq<Pull>, n: nat)
    requires n <= |specs| && |pulls| == |specs|
    ensures There(specs, pulls, n, [])
  {}

  /** Neither another output's subtree nor the directories made for it or for another output can be
      the destination of an output, so it is there only if its own pull created it. */
  lemma {:induction false} PresentIffPulled(specs: seq<OutputSpec>, pulls: seq<Pull>, i: nat)
    requires i < |specs| && |pulls| == |specs| && PrefixFree(specs) && Rooted(pulls[i])
    ensures Present(specs, pulls, i) <==> specs[i].dest == [] || pulls[i].created != {}
  {
    var d := specs[i].dest;
    if d == [] {
      RootStays(specs, pulls, i + 1);
    } else {
      assert !There(specs, pulls, i, d) by {
        forall j: nat | j < i ensures !(d <= Parent(specs[j].dest) || specs[j].dest <= d) {
          assert !Overlap(specs[j].dest, d);
        }
        ThereHasCause(specs, pulls, i, d);
      }
      assert d[|d|..] == [];
    }
  }

  ghost predicate AllRooted(pulls: seq<Pull>) { forall i :: 0 <= i < |pulls| ==> Rooted(pulls[i]) }

  ghost predicate Genuine(specs: seq<OutputSpec>, pulls: seq<Pull>)
    requires |pulls| == |specs|
  {
    forall i: nat :: i < |specs| ==> (Present(specs, pulls, i) <==> pulls[i].created != {})
  }

  /** For outputs that the job accepts, being marked present always means having been created by the
      output's own pull exactly when no destination is the staging directory itself. */
  lemma GenuineExact(specs: seq<OutputSpec>)
    requires PrefixFree(specs)
    ensures (forall i :: 0 <= i < |specs| ==> specs[i].dest != []) <==>
            (forall pulls: seq<Pull> :: |pulls| == |specs| && AllRooted(pulls) ==> Genuine(specs, pulls))
  {
    if i: nat :| i < |specs| && specs[i].dest == [] {
      var pulls := seq(|specs|, _ => Pull({}, Returned));
      PresentIffPulled(specs, pulls, i);
      assert AllRooted(pulls) && !Genuine(specs, pulls);
    } else {
      forall pulls: seq<Pull> | |pulls| == |specs| && AllRooted(pulls) ensures Genuine(specs, pulls) {
        forall i: nat | i < |specs| ensures Present(specs, pulls, i) <==> pulls[i].created != {} {
          PresentIffPulled(specs, pulls, i);
        }
      }
    }
  }

  /** "." is accepted on its own, and is marked present although its pull found nothing. */
  lemma RootOutputAlwaysPresent(name: string)
    ensures var specs, pulls := [OutputSpec(name, [], true)], [Pull({}, PullFailed(Exc(Transport, ""), 23, Absent))];
            PrefixFree(specs) && Labels(specs, pulls, 1, IsPresent) == [name]
            && Labels(specs, pulls, 1, MissesRequired) == []
  {
    var specs, pulls := [OutputSpec(name, [], true)], [Pull({}, PullFailed(Exc(Transport, ""), 23, Absent))];
    RootStays(specs, pulls, 1);
    assert Present(specs, pulls, 0);
  }

  lemma {:induction false} MissingListed(specs: seq<OutputSpec>, pulls: seq<Pull>, n: nat, i: nat)
    requires i < n <= |specs| && |pulls| == |specs| && specs[i].required && !Present(specs, pulls, i)
    ensures Labels(specs, pulls, n, MissesRequired) != []
  {
    if i < n - 1 { MissingListed(specs, pulls, n - 1, i); }
  }

  /** An attempt that succeeded has published every required output, each created by its own pull. */
  lemma {:induction false} SucceededHasRequired(specs: seq<OutputSpec>, pulls: seq<Pull>, s: AttemptScript,
                                                     n: nat, host: string, i: nat)
    requires |pulls| == |specs| && PrefixFree(specs) && AllRooted(pulls)
    requires forall j :: 0 <= j < |specs| ==> specs[j].dest != []
    requires s.collection == Collected(Labels(specs, pulls, |specs|, MissesRequired))
    requires var o := Classified(s, n, host); o.Produced? && o.result.status == Succeeded
    requires i < |specs| && specs[i].required
    ensures pulls[i].created != {} && Publishes(s, Completed(false))
  {
    if !Present(specs, pulls, i) { MissingListed(specs, pulls, |specs|, i); }
    PresentIffPulled(specs, pulls, i);
  }
}
