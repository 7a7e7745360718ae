/**
 Reversible skill deployment (scripts/deploy-skills.py): every skill is copied beside its
 destination, the swap is written into a manifest, and two renames put it in place.  A
 run may be stopped before any single step on disk; a rollback puts the originals back.
 */
module SkillDeploy {
  type Tree = map<string, string>

  datatype Place = Target(path: string) | Backup(number: nat) | Prepared(number: nat)

  /** The manifest is rewritten in place: it is truncated first and complete only afterwards. */
  datatype Manifest = Absent | Torn | Whole(entries: seq<Swap>)
  datatype Swap = Swap(target: string, backup: nat)

  datatype Destination = Destination(target: string, content: Tree)

  /** How many steps on disk a run may take before it is stopped. */
  datatype Fuel = Endless | Steps(n: nat)

  predicate Enough(f: Fuel, cost: nat) {
    f.Steps? ==> cost <= f.n
  }

  function Minus(f: Fuel, cost: nat): Fuel
    requires Enough(f, cost)
  {
    if f.Endless? then Endless else Steps(f.n - cost)
  }

  // ------------------------------------------------------------- the steps --

  function SwapsOf(plan: seq<Destination>): (r: seq<Swap>)
    ensures |r| == |plan| && forall i | 0 <= i < |r| :: r[i] == Swap(plan[i].target, i)
  {
    seq(|plan|, i requires 0 <= i < |plan| => Swap(plan[i].target, i))
  }

  /** Steps of one swap: the copy, the two of the manifest, the two renames. */
  function SwapCost(d: Destination): nat {
    1 + |d.content| + 4
  }

  function CostBefore(plan: seq<Destination>, k: nat): nat
    requires k <= |plan|
  {
    if k == 0 then 0 else CostBefore(plan, k - 1) + SwapCost(plan[k - 1])
  }

  /** After these steps swap k has been prepared and the manifest is truncated but not rewritten. */
  function TearingPoint(plan: seq<Destination>, k: nat): nat
    requires k < |plan|
  {
    CostBefore(plan, k) + 1 + |plan[k].content| + 1
  }

  lemma CostGrows(plan: seq<Destination>, j: nat, k: nat)
    requires j <= k <= |plan|
    ensures CostBefore(plan, j) <= CostBefore(plan, k)
    ensures j < k ==> CostBefore(plan, j) + SwapCost(plan[j]) <= CostBefore(plan, k)
    decreases k - j
  {
    if j < k { CostGrows(plan, j, k - 1); }
  }

  // ------------------------------------------------------------- invariant --

  /** Each original is either still in place or safe in its backup, and a readable manifest lists that backup. */
  ghost predicate Recoverable(
    plan: seq<Destination>, original: map<string, Tree>, dirs: map<Place, Tree>, manifest: Manifest)
  {
    && (forall i, j | 0 <= i < j < |plan| :: plan[i].target != plan[j].target)
    && (forall i | 0 <= i < |plan| :: plan[i].target in original
          && var home := if Backup(i) in dirs then Backup(i) else Target(plan[i].target);
             home in dirs && dirs[home] == original[plan[i].target])
    && (forall b: nat | Backup(b) in dirs :: b < |plan|)
    && (manifest.Absent? ==> forall b: nat :: Backup(b) !in dirs)
    && (manifest.Whole? ==>
          && |manifest.entries| <= |plan| && manifest.entries == SwapsOf(plan)[..|manifest.entries|]
          && forall b: nat | Backup(b) in dirs :: b < |manifest.entries|)
  }

  /** The first k destinations hold the new skills and their originals are in the backups. */
  ghost predicate Replaced(plan: seq<Destination>, original: map<string, Tree>, dirs: map<Place, Tree>, k: nat)
    requires k <= |plan|
  {
    forall i | 0 <= i < k ::
      && Target(plan[i].target) in dirs && dirs[Target(plan[i].target)] == plan[i].content
      && Backup(i) in dirs
  }

  lemma SpendOne(f: Fuel, cost: nat)
    requires Enough(f, cost)
    ensures Minus(f, cost) == Steps(0) <==> !Enough(f, cost + 1)
    ensures Enough(f, cost + 1) ==> Enough(Minus(f, cost), 1) && Minus(Minus(f, cost), 1) == Minus(f, cost + 1)
    ensures forall n: nat | n > cost :: !Enough(f, cost + 1) ==> !Enough(f, n)
  {
  }

  lemma Overwrite(dirs: map<Place, Tree>, place: Place, first: Tree, second: Tree)
    ensures dirs[place := first][place := second] == dirs[place := second]
  {
  }

  lemma FileGone(t: Tree, file: string)
    requires file in t
    ensures |(t - {file}).Keys| < |t.Keys|
  {
    assert (t - {file}).Keys == t.Keys - {file};
  }

  /** The tree without the files still to be copied. */
  function Part(from: Tree, rest: set<string>): Tree {
    map f | f in from && f !in rest :: from[f]
  }

  lemma PartOfNothing(from: Tree)
    ensures Part(from, from.Keys) == map[] && Part(from, {}) == from && |from| == |from.Keys|
  {
  }

  lemma PartGrows(from: Tree, rest: set<string>, file: string)
    requires file in rest && rest <= from.Keys
    ensures Part(from, rest - {file}) == Part(from, rest)[file := from[file]]
  {
  }

  /** What is in the prepared copies matters to nobody. */
  lemma PreparedIsApart(
    plan: seq<Destination>, original: map<string, Tree>, dirs: map<Place, Tree>, manifest: Manifest,
    b: nat, t: Tree, k: nat)
    requires Recoverable(plan, original, dirs, manifest) && k <= |plan| && Replaced(plan, original, dirs, k)
    ensures Recoverable(plan, original, dirs[Prepared(b) := t], manifest)
    ensures Replaced(plan, original, dirs[Prepared(b) := t], k)
  {
  }

  /** The manifest may be rewritten as long as it goes on listing every backup. */
  lemma RewritingIsSafe(
    plan: seq<Destination>, original: map<string, Tree>, dirs: map<Place, Tree>, manifest: Manifest, k: nat)
    requires Recoverable(plan, original, dirs, manifest) && k < |plan|
    requires forall b: nat | k <= b :: Backup(b) !in dirs
    ensures Recoverable(plan, original, dirs, Torn)
    ensures Recoverable(plan, original, dirs, Whole(SwapsOf(plan)[..k + 1]))
  {
  }

  lemma MovingAwayIsSafe(plan: seq<Destination>, original: map<string, Tree>, dirs: map<Place, Tree>, k: nat)
    requires k < |plan| && Recoverable(plan, original, dirs, Whole(SwapsOf(plan)[..k + 1]))
    requires Replaced(plan, original, dirs, k) && forall b: nat | k <= b :: Backup(b) !in dirs
    ensures Target(plan[k].target) in dirs
    ensures var after := (dirs - {Target(plan[k].target)})[Backup(k) := dirs[Target(plan[k].target)]];
      && Recoverable(plan, original, after, Whole(SwapsOf(plan)[..k + 1]))
      && Replaced(plan, original, after, k) && Backup(k) in after && Target(plan[k].target) !in after
      && forall b: nat | k + 1 <= b :: Backup(b) !in after
  {
  }

  lemma MovingInIsSafe(plan: seq<Destination>, original: map<string, Tree>, dirs: map<Place, Tree>, k: nat)
    requires k < |plan| && Recoverable(plan, original, dirs, Whole(SwapsOf(plan)[..k + 1]))
    requires Replaced(plan, original, dirs, k) && Backup(k) in dirs
    requires Prepared(k) in dirs && dirs[Prepared(k)] == plan[k].content
    ensures var after := (dirs - {Prepared(k)})[Target(plan[k].target) := dirs[Prepared(k)]];
      Recoverable(plan, original, after, Whole(SwapsOf(plan)[..k + 1])) && Replaced(plan, original, after, k + 1)
  {
  }

  /** While the original is in its backup, what is at the destination does not matter. */
  lemma DestinationIsApart(
    plan: seq<Destination>, original: map<string, Tree>, dirs: map<Place, Tree>, manifest: Manifest, k: nat, t: Tree)
    requires Recoverable(plan, original, dirs, manifest) && k < |plan| && Backup(k) in dirs
    ensures Recoverable(plan, original, dirs - {Target(plan[k].target)}, manifest)
    ensures Recoverable(plan, original, dirs[Target(plan[k].target) := t], manifest)
  {
  }

  lemma MovingBackIsSafe(
    plan: seq<Destination>, original: map<string, Tree>, dirs: map<Place, Tree>, manifest: Manifest, k: nat)
    requires Recoverable(plan, original, dirs, manifest) && k < |plan| && Backup(k) in dirs
    ensures Recoverable(plan, original, (dirs - {Backup(k)})[Target(plan[k].target) := dirs[Backup(k)]], manifest)
  {
  }

  // ----------------------------------------------------------------- Stage --

  class Stage {
    const plan: seq<Destination>
    ghost const original: map<string, Tree>
    var dirs: map<Place, Tree>
    var manifest: Manifest

    ghost predicate Valid()
      reads this
    {
      Recoverable(plan, original, dirs, manifest)
    }

    /** Every destination holds its original, no backup is left and the stage can be used again. */
    ghost predicate Restored()
      reads this
    {
      && manifest.Absent?
      && (forall b: nat :: Backup(b) !in dirs)
      && forall i | 0 <= i < |plan| ::
           plan[i].target in original && Target(plan[i].target) in dirs
           && dirs[Target(plan[i].target)] == original[plan[i].target]
    }

    /** A stage over destinations that exist; anything else on disk is somebody else's. */
    constructor (plan: seq<Destination>, homes: map<string, Tree>)
      requires forall i, j | 0 <= i < j < |plan| :: plan[i].target != plan[j].target
      requires forall i | 0 <= i < |plan| :: plan[i].target in homes
      ensures Valid() && Restored() && this.plan == plan && original == homes
      ensures forall b: nat :: Prepared(b) !in dirs
    {
      this.plan, original, manifest := plan, homes, Absent;
      dirs := map t | t in homes :: Target(t) := homes[t];
    }

    /** Copies a tree file by file to a place where nothing is. */
    method CopyTree(from: Tree, to: Place, fuel: Fuel) returns (left: Fuel, ok: bool)
      requires to !in dirs
      modifies this`dirs
      ensures ok <==> Enough(fuel, 1 + |from|)
      ensures ok ==> dirs == old(dirs)[to := from] && left == Minus(fuel, 1 + |from|)
      ensures !ok ==> dirs == old(dirs) || (to in dirs && dirs == old(dirs)[to := dirs[to]])
    {
      if fuel == Steps(0) { return fuel, false; }
      left := Minus(fuel, 1);
      var copied: Tree := map[];
      dirs := dirs[to := copied];
      var rest := from.Keys;
      PartOfNothing(from);
      while rest != {}
        invariant rest <= from.Keys && copied == Part(from, rest)
        invariant dirs == old(dirs)[to := copied]
        invariant |rest| <= |from| && Enough(fuel, 1 + |from| - |rest|) && left == Minus(fuel, 1 + |from| - |rest|)
        decreases |rest|
      {
        hide Part, Enough, Minus;
        SpendOne(fuel, 1 + |from| - |rest|);
        if left == Steps(0) { return left, false; }
        var file :| file in rest;
        PartGrows(from, rest, file);
        Overwrite(old(dirs), to, copied, copied[file := from[file]]);
        left := Minus(left, 1);
        copied := copied[file := from[file]];
        dirs := dirs[to := copied];
        rest := rest - {file};
      }
      ok := true;
    }

    /** Removes a tree file by file, then the directory. */
    method RemoveTree(place: Place, fuel: Fuel) returns (left: Fuel, ok: bool)
      requires place in dirs
      modifies this`dirs
      ensures ok ==> dirs == old(dirs) - {place}
      ensures !ok ==> place in dirs && dirs == old(dirs)[place := dirs[place]]
      ensures fuel.Endless? ==> ok && left.Endless?
    {
      left := fuel;
      var remaining := dirs[place];
      assert dirs[place := remaining] == dirs;
      while remaining != map[]
        invariant dirs == old(dirs)[place := remaining]
        invariant fuel.Endless? ==> left.Endless?
        decreases |remaining.Keys|
      {
        if left == Steps(0) { return left, false; }
        left := Minus(left, 1);
        var file :| file in remaining;
        FileGone(remaining, file);
        Overwrite(old(dirs), place, remaining, remaining - {file});
        remaining := remaining - {file};
        dirs := dirs[place := remaining];
      }
      if left == Steps(0) { return left, false; }
      assert dirs - {place} == old(dirs) - {place};
      dirs := dirs - {place};
      left, ok := Minus(left, 1), true;
    }

    method Rename(from: Place, to: Place, fuel: Fuel) returns (left: Fuel, ok: bool)
      requires from in dirs && to !in dirs
      modifies this`dirs
      ensures ok <==> Enough(fuel, 1)
      ensures ok ==> dirs == (old(dirs) - {from})[to := old(dirs)[from]] && left == Minus(fuel, 1)
      ensures !ok ==> dirs == old(dirs)
    {
      if fuel == Steps(0) { return fuel, false; }
      dirs := (dirs - {from})[to := dirs[from]];
      left, ok := Minus(fuel, 1), true;
    }

    /** Swaps destination k: prepare, record, move the original away, move the new one in. */
    method SwapOne(k: nat, fuel: Fuel) returns (left: Fuel, ok: bool)
      requires Valid() && k < |plan| && Replaced(plan, original, dirs, k)
      requires forall b: nat | k <= b :: Backup(b) !in dirs
      modifies this
      ensures Valid()
      ensures ok <==> Prepared(k) !in old(dirs) && Enough(fuel, SwapCost(plan[k]))
      ensures ok ==>
        && left == Minus(fuel, SwapCost(plan[k])) && Replaced(plan, original, dirs, k + 1) && manifest.Whole?
        && (forall b: nat | k + 1 <= b :: Backup(b) !in dirs)
        && (forall b: nat | b != k :: Prepared(b) in dirs <==> Prepared(b) in old(dirs))
      ensures !old(manifest).Torn? ==>
        (manifest.Torn? <==> Prepared(k) !in old(dirs) && fuel == Steps(1 + |plan[k].content| + 1))
      ensures !old(manifest).Torn? && manifest.Torn? ==> Replaced(plan, original, dirs, k)
    {
      hide Recoverable, Replaced, SwapsOf;
      var d := plan[k];
      if Prepared(k) in dirs { return fuel, false; }
      left, ok := CopyTree(d.content, Prepared(k), fuel);
      if Prepared(k) in dirs { PreparedIsApart(plan, original, old(dirs), manifest, k, dirs[Prepared(k)], k); }
      if !ok { return; }
      RewritingIsSafe(plan, original, dirs, manifest, k);
      if left == Steps(0) { return left, false; }
      left := Minus(left, 1);
      manifest := Torn;
      if left == Steps(0) { return left, false; }
      left := Minus(left, 1);
      manifest := Whole(SwapsOf(plan)[..k + 1]);
      MovingAwayIsSafe(plan, original, dirs, k);
      left, ok := Rename(Target(d.target), Backup(k), left);
      if !ok { return; }
      MovingInIsSafe(plan, original, dirs, k);
      left, ok := Rename(Prepared(k), Target(d.target), left);
    }

    /** The mode apply. */
    method Apply(fuel: Fuel) returns (ok: bool)
      requires Valid()
      modifies this
      ensures Valid()
      ensures !old(manifest).Absent? ==> !ok && dirs == old(dirs) && manifest == old(manifest)
      ensures ok ==> Replaced(plan, original, dirs, |plan|)
      ensures old(manifest).Absent? ==>
        && (ok <==> Unprepared(old(dirs), |plan|) && Enough(fuel, CostBefore(plan, |plan|)))
        && (manifest.Torn? <==> exists k :: TearsAt(plan, old(dirs), fuel, k))
        && forall k | TearsAt(plan, old(dirs), fuel, k) :: Replaced(plan, original, dirs, k)
    {
      hide Recoverable, Replaced, TearingPoint, CostBefore, SwapCost;
      if !manifest.Absent? { return false; }
      Untouched(plan, original, dirs);
      var left := fuel;
      for k := 0 to |plan|
        invariant Valid() && Replaced(plan, original, dirs, k)
        invariant forall b: nat | k <= b :: Backup(b) !in dirs
        invariant !manifest.Torn? && Unprepared(old(dirs), k)
        invariant forall b: nat | k <= b :: Prepared(b) in dirs <==> Prepared(b) in old(dirs)
        invariant Enough(fuel, CostBefore(plan, k)) && left == Minus(fuel, CostBefore(plan, k))
      {
        StoppedAt(plan, fuel, k);
        left, ok := SwapOne(k, left);
        if !ok {
          assert TearsAt(plan, old(dirs), fuel, k) <==> manifest.Torn?;
          return;
        }
      }
      NeverTorn(plan, fuel);
      ok := true;
    }

    /** The mode rollback, last swap first. */
    method Rollback(fuel: Fuel) returns (ok: bool)
      requires Valid()
      modifies this
      ensures Valid()
      ensures ok ==> Restored()
      ensures old(manifest).Torn? ==> !ok && dirs == old(dirs) && manifest == old(manifest)
      ensures fuel.Endless? ==> (ok <==> !old(manifest).Torn?)
      ensures forall b: nat | Prepared(b) in dirs :: Prepared(b) in old(dirs)
    {
      if manifest.Absent? { return true; }
      if manifest.Torn? { return false; }
      var entries := manifest.entries;
      var left := fuel;
      var i := |entries|;
      while i > 0
        invariant i <= |entries| <= |plan| && manifest == Whole(entries) == old(manifest)
        invariant entries == SwapsOf(plan)[..|entries|]
        invariant Valid() && forall b: nat | i <= b :: Backup(b) !in dirs
        invariant forall b: nat | Prepared(b) in dirs :: Prepared(b) in old(dirs)
        invariant fuel.Endless? ==> left.Endless?
      {
        hide Recoverable;
        i := i - 1;
        left, ok := PutBack(i, left);
        if !ok { return; }
      }
      if left == Steps(0) { return false; }
      manifest := Absent;
      ok := true;
    }

    /** Moves one original back if it is in its backup. */
    method PutBack(k: nat, fuel: Fuel) returns (left: Fuel, ok: bool)
      requires Valid() && k < |plan|
      modifies this`dirs
      ensures Valid()
      ensures ok ==> Backup(k) !in dirs
      ensures forall b: nat | Backup(b) in dirs :: Backup(b) in old(dirs)
      ensures forall b: nat | Prepared(b) in dirs :: Prepared(b) in old(dirs)
      ensures fuel.Endless? ==> ok && left.Endless?
    {
      hide Recoverable;
      if Backup(k) !in dirs { return fuel, true; }
      var target := Target(plan[k].target);
      left := fuel;
      if target in dirs {
        left, ok := RemoveTree(target, left);
        DestinationIsApart(plan, original, old(dirs), manifest, k, if ok then map[] else dirs[target]);
        if !ok { return; }
      }
      MovingBackIsSafe(plan, original, dirs, manifest, k);
      left, ok := Rename(Backup(k), target, left);
    }

    /**
     Any history of applies and rollbacks, each stopped wherever it may be: the originals
     stay recoverable, and whenever the last rollback ran to its end they are all back.
     */
    method Live(commands: seq<Command>) returns (oks: seq<bool>)
      requires Valid()
      modifies this
      ensures Valid() && |oks| == |commands|
      ensures commands != [] && commands[|commands| - 1].Undo? && oks[|oks| - 1] ==> Restored()
      ensures commands != [] && commands[|commands| - 1].Do? && oks[|oks| - 1] ==>
        Replaced(plan, original, dirs, |plan|)
    {
      oks := [];
      for i := 0 to |commands|
        invariant Valid() && |oks| == i
        invariant i > 0 && commands[i - 1].Undo? && oks[i - 1] ==> Restored()
        invariant i > 0 && commands[i - 1].Do? && oks[i - 1] ==> Replaced(plan, original, dirs, |plan|)
      {
        hide Recoverable, Replaced, Restored;
        var ok;
        if commands[i].Do? { ok := Apply(commands[i].fuel); } else { ok := Rollback(commands[i].fuel); }
        oks := oks + [ok];
      }
    }

    /**
     The one gap: stopped while the manifest is being rewritten for swap k, the first k
     destinations keep the new skills, however often a rollback is tried.
     */
    method StopWhileRewriting(k: nat, tries: seq<Fuel>)
      requires Valid() && manifest.Absent? && k < |plan| && Unprepared(dirs, k + 1)
      modifies this
      ensures Valid() && manifest.Torn? && Replaced(plan, original, dirs, k)
    {
      assert TearsAt(plan, dirs, Steps(TearingPoint(plan, k)), k);
      var ok := Apply(Steps(TearingPoint(plan, k)));
      for i := 0 to |tries|
        invariant Valid() && manifest.Torn? && Replaced(plan, original, dirs, k)
      {
        ok := Rollback(tries[i]);
      }
    }
  }

  datatype Command = Do(fuel: Fuel) | Undo(fuel: Fuel)

  /** No copy for the first k swaps is left from an earlier apply that was stopped. */
  ghost predicate Unprepared(dirs: map<Place, Tree>, k: nat) {
    forall b: nat | b < k :: Prepared(b) !in dirs
  }

  /** An apply with this much fuel is stopped while it rewrites the manifest for swap k. */
  ghost predicate TearsAt(plan: seq<Destination>, dirs: map<Place, Tree>, fuel: Fuel, k: nat) {
    k < |plan| && Unprepared(dirs, k + 1) && fuel == Steps(TearingPoint(plan, k))
  }

  /** Before the first swap nothing has been touched. */
  lemma Untouched(plan: seq<Destination>, original: map<string, Tree>, dirs: map<Place, Tree>)
    requires Recoverable(plan, original, dirs, Absent)
    ensures Replaced(plan, original, dirs, 0) && CostBefore(plan, 0) == 0 && forall b: nat :: Backup(b) !in dirs
  {
  }

  /** What fuel left for swap k means for the whole plan. */
  lemma StoppedAt(plan: seq<Destination>, fuel: Fuel, k: nat)
    requires k < |plan| && Enough(fuel, CostBefore(plan, k))
    ensures var left := Minus(fuel, CostBefore(plan, k));
      && (Enough(left, SwapCost(plan[k])) <==> Enough(fuel, CostBefore(plan, k + 1)))
      && (Enough(left, SwapCost(plan[k])) ==> Minus(left, SwapCost(plan[k])) == Minus(fuel, CostBefore(plan, k + 1)))
      && (!Enough(left, SwapCost(plan[k])) ==> !Enough(fuel, CostBefore(plan, |plan|)))
      && (left == Steps(1 + |plan[k].content| + 1) <==> fuel == Steps(TearingPoint(plan, k)))
      && (!Enough(left, SwapCost(plan[k])) ==>
            forall j | 0 <= j < |plan| && fuel == Steps(TearingPoint(plan, j)) :: j == k)
      && forall j | 0 <= j < |plan| && fuel == Steps(TearingPoint(plan, j)) :: k <= j
  {
    CostGrows(plan, k + 1, |plan|);
    forall j | 0 <= j < k ensures fuel != Steps(TearingPoint(plan, j)) { CostGrows(plan, j, k); }
    forall j | 0 <= j < |plan| && fuel == Steps(TearingPoint(plan, j)) && !Enough(fuel, CostBefore(plan, k + 1))
      ensures j == k
    {
      if k < j { CostGrows(plan, k + 1, j); }
    }
  }

  lemma NeverTorn(plan: seq<Destination>, fuel: Fuel)
    requires Enough(fuel, CostBefore(plan, |plan|))
    ensures forall j | 0 <= j < |plan| :: fuel != Steps(TearingPoint(plan, j))
  {
    forall j | 0 <= j < |plan| ensures fuel != Steps(TearingPoint(plan, j)) { CostGrows(plan, j, |plan|); }
  }
}
