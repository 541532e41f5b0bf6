/** Replacing a directory (the synced source, a built environment) through a staging and an old
    copy, by commands that may stop anywhere, any number of times. */
module Publishing {
  import opened Basics

  type Version = nat

  /** What a name holds: nothing, a tree with only part of its files, a whole version, or a tree
      into which another was moved because the name was taken. */
  datatype Tree = Absent | Partial | Complete(version: Version) | Nested

  datatype Names = Names(target: Tree, backup: Tree, staging: Tree)

  /** How far one attempt to publish a version gets.  built: what the preparation of staging leaves
      if the attempt stops before its script starts; otherwise the script runs until `steps` of its
      five commands have completed (5 is a full run); a stop inside a removal may leave the tree
      partly removed. */
  datatype Attempt = StopsPreparing(built: Tree) | RunsScript(version: Version, steps: nat, halfRemoved: bool)

  predicate Exists(t: Tree) { t != Absent }

  function Moved(from: Tree, to: Tree): Tree { if to == Absent then from else Nested }

  /** What a removal that stops inside leaves. */
  function Removing(t: Tree, half: bool): Tree { if t != Absent && half then Partial else t }

  // The five commands: recover the old copy, drop it, set the target aside, move staging into
  // place, drop the old copy.

  function Recovered(n: Names): Names {
    if !Exists(n.target) && Exists(n.backup) then n.(target := Moved(n.backup, n.target), backup := Absent) else n
  }

  function OldDropped(n: Names): Names { n.(backup := Absent) }

  function SetAside(n: Names): Names {
    if Exists(n.target) then n.(backup := Moved(n.target, n.backup), target := Absent) else n
  }

  function PutInPlace(n: Names): Names { n.(target := Moved(n.staging, n.target), staging := Absent) }

  function Completed(n: Names, steps: nat): Names {
    if steps == 0 then n
    else if steps == 1 then Recovered(n)
    else if steps == 2 then OldDropped(Recovered(n))
    else if steps == 3 then SetAside(OldDropped(Recovered(n)))
    else if steps == 4 then PutInPlace(SetAside(OldDropped(Recovered(n))))
    else OldDropped(PutInPlace(SetAside(OldDropped(Recovered(n)))))
  }

  /** The names after the script stopped: the commands completed, and perhaps part of a removal. */
  function Stopped(n: Names, steps: nat, half: bool): Names {
    var m := Completed(n, steps);
    if steps == 1 || steps == 4 then m.(backup := Removing(m.backup, half)) else m
  }

  function Attempted(n: Names, a: Attempt): Names {
    match a
    case StopsPreparing(built) => n.(staging := built)
    case RunsScript(v, steps, half) => Stopped(n.(staging := Complete(v)), steps, half)
  }

  class RemoteDirectory {
    var target: Tree
    var backup: Tree
    var staging: Tree

    function State(): Names
      reads this
    {
      Names(target, backup, staging)
    }

    /** The script.  A command that fails, or a lost connection, stops it where it is. */
    method Replace(steps: nat, half: bool) returns (finished: bool)
      modifies this
      ensures State() == Stopped(old(State()), steps, half)
      ensures finished <==> steps >= 5
    {
      if steps == 0 { return false; }
      if target == Absent && backup != Absent {
        target, backup := Moved(backup, target), Absent;
      }
      if steps == 1 {
        backup := Removing(backup, half);
        return false;
      }
      backup := Absent;
      if steps == 2 { return false; }
      if target != Absent {
        backup, target := Moved(target, backup), Absent;
      }
      if steps == 3 { return false; }
      target, staging := Moved(staging, target), Absent;
      if steps == 4 {
        backup := Removing(backup, half);
        return false;
      }
      backup := Absent;
      return true;
    }
  }

  // --- crash safety -----------------------------------------------------------------

  /** The version that was put in place last, by attempts run from a state whose last one is latest. */
  function Latest(latest: Option<Version>, attempts: seq<Attempt>): Option<Version> {
    if attempts == [] then latest
    else
      var a := attempts[|attempts| - 1];
      if a.RunsScript? && a.steps >= 4 then Some(a.version) else Latest(latest, attempts[..|attempts| - 1])
  }

  function After(n: Names, attempts: seq<Attempt>): Names {
    if attempts == [] then n
    else Attempted(After(n, attempts[..|attempts| - 1]), attempts[|attempts| - 1])
  }

  predicate Whole(t: Tree) { t == Absent || t.Complete? }

  /** The target is absent or whole, nothing was ever moved into a taken name, a partly removed old
      copy is only found beside a whole target, and the version put in place last is the target,
      or else the target is absent and that version is the old copy. */
  predicate Safe(n: Names, latest: Option<Version>) {
    && Whole(n.target) && n.backup != Nested
    && (n.backup == Partial ==> n.target.Complete?)
    && (latest.None? ==> n.target == Absent && n.backup == Absent)
    && (latest.Some? ==>
          n.target == Complete(latest.value) || (n.target == Absent && n.backup == Complete(latest.value)))
  }

  /** Preparing never leaves a tree nested in another. */
  predicate Possible(a: Attempt) { a.StopsPreparing? ==> a.built != Nested }

  lemma ScriptKeepsSafe(n: Names, latest: Option<Version>, v: Version, steps: nat, half: bool)
    requires Safe(n, latest)
    ensures Safe(Attempted(n, RunsScript(v, steps, half)), if steps >= 4 then Some(v) else latest)
  {
  }

  /** From any safe state, however many attempts stop anywhere: the names stay safe, and the version
      that was put in place last is always there, whole, under the target or the old name. */
  lemma {:induction false} CrashSafe(n: Names, latest: Option<Version>, attempts: seq<Attempt>)
    requires Safe(n, latest) && forall i :: 0 <= i < |attempts| ==> Possible(attempts[i])
    ensures Safe(After(n, attempts), Latest(latest, attempts))
    ensures var m, l := After(n, attempts), Latest(latest, attempts);
            l.Some? ==> Complete(l.value) in {m.target, m.backup}
    decreases |attempts|
  {
    if attempts != [] {
      var a := attempts[|attempts| - 1];
      CrashSafe(n, latest, attempts[..|attempts| - 1]);
      if a.RunsScript? {
        ScriptKeepsSafe(After(n, attempts[..|attempts| - 1]), Latest(latest, attempts[..|attempts| - 1]),
                        a.version, a.steps, a.halfRemoved);
      }
    }
  }

  /** Whatever happened before, every move of the next script has an absent destination: setting the
      target aside finds no old copy, and putting staging in place finds no target. */
  lemma {:induction false} MovesFindRoom(n: Names, latest: Option<Version>, attempts: seq<Attempt>, v: Version)
    requires Safe(n, latest) && forall i :: 0 <= i < |attempts| ==> Possible(attempts[i])
    ensures var m := After(n, attempts).(staging := Complete(v));
            && (Exists(m.target) ==> Completed(m, 2).backup == Absent && Completed(m, 3).backup == m.target)
            && (Exists(Completed(m, 2).target) ==> Completed(m, 2).backup == Absent)
            && Completed(m, 3).target == Absent && Completed(m, 4).target == Complete(v)
  {
    CrashSafe(n, latest, attempts);
  }

  /** An attempt that is not stopped ends with the new version alone, whatever happened before. */
  lemma {:induction false} RerunPublishes(n: Names, latest: Option<Version>, attempts: seq<Attempt>, v: Version,
                                          half: bool)
    requires Safe(n, latest) && forall i :: 0 <= i < |attempts| ==> Possible(attempts[i])
    ensures Attempted(After(n, attempts), RunsScript(v, 5, half)) == Names(Complete(v), Absent, Absent)
  {
    CrashSafe(n, latest, attempts);
  }

  /** The first published version appears whole: before it is put in place, the target is absent. */
  lemma {:induction false} NeverPartial(attempts: seq<Attempt>, k: nat)
    requires k <= |attempts| && forall i :: 0 <= i < |attempts| ==> Possible(attempts[i])
    ensures var m := After(Names(Absent, Absent, Absent), attempts[..k]);
            && (m.target == Absent || exists v :: m.target == Complete(v))
            && (Latest(None, attempts[..k]).None? ==> m.target == Absent)
            && (m.target.Complete? ==> Latest(None, attempts[..k]) == Some(m.target.version))
  {
    CrashSafe(Names(Absent, Absent, Absent), None, attempts[..k]);
  }
}
