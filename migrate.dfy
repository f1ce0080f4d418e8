/**
 * The migration script: its command-line flags, the order in which it runs
 * the migration files (sorted by name), the skipping of those already
 * recorded, the stop at the first failure, the status listing and the seed
 * loop, which goes on past a failing seed.
 */
module Migrate {
  import opened Php

  /** The flags the script reads from its arguments. */
  datatype Flags = Flags(seed: bool, fromScratch: bool, status: bool, help: bool)

  /** `in_array` over the arguments, with the short forms. */
  function ReadFlags(argv: seq<string>): (f: Flags)
    ensures f.seed <==> "--seed" in argv || "-s" in argv
    ensures f.fromScratch <==> "--fresh" in argv || "-f" in argv
    ensures f.status <==> "--status" in argv
    ensures f.help <==> "--help" in argv || "-h" in argv
  {
    Flags("--seed" in argv || "-s" in argv, "--fresh" in argv || "-f" in argv,
          "--status" in argv, "--help" in argv || "-h" in argv)
  }

  /** `strcmp($a, $b) <= 0`: character by character, a prefix first. */
  predicate Below(a: string, b: string)
    decreases |a|
  {
    if a == [] then true
    else if b == [] then false
    else if a[0] != b[0] then a[0] < b[0]
    else Below(a[1..], b[1..])
  }

  lemma {:induction false} BelowTotal(a: string, b: string)
    ensures Below(a, b) || Below(b, a)
    decreases |a|
  {
    if a != [] && b != [] && a[0] == b[0] {
      BelowTotal(a[1..], b[1..]);
    }
  }

  lemma {:induction false} BelowTransitive(a: string, b: string, c: string)
    requires Below(a, b) && Below(b, c)
    ensures Below(a, c)
    decreases |a|
  {
    if a != [] && b != [] && c != [] && a[0] == b[0] && b[0] == c[0] {
      BelowTransitive(a[1..], b[1..], c[1..]);
    }
  }

  predicate Sorted(s: seq<string>)
  {
    forall i, j :: 0 <= i < j < |s| ==> Below(s[i], s[j])
  }

  /** One name put in its place in a sorted list. */
  function Insert(x: string, s: seq<string>): (r: seq<string>)
    requires Sorted(s)
    ensures Sorted(r) && multiset(r) == multiset(s) + multiset{x} && |r| == |s| + 1
  {
    if s == [] then [x]
    else if Below(x, s[0]) then
      InsertFirst(x, s);
      [x] + s
    else
      var rest := Insert(x, s[1..]);
      assert s == [s[0]] + s[1..];
      BelowTotal(x, s[0]);
      InsertAfter(s[0], x, s[1..], rest);
      [s[0]] + rest
  }

  lemma InsertFirst(x: string, s: seq<string>)
    requires Sorted(s) && s != [] && Below(x, s[0])
    ensures Sorted([x] + s)
  {
    forall j | 0 < j < |s| ensures Below(x, s[j]) {
      BelowTransitive(x, s[0], s[j]);
    }
    forall i, j | 0 <= i < j < |[x] + s| ensures Below(([x] + s)[i], ([x] + s)[j]) {
      if i > 0 {
        assert ([x] + s)[i] == s[i - 1] && ([x] + s)[j] == s[j - 1];
      }
    }
  }

  lemma InsertAfter(h: string, x: string, tail: seq<string>, rest: seq<string>)
    requires Sorted([h] + tail) && Below(h, x)
    requires Sorted(rest) && multiset(rest) == multiset(tail) + multiset{x}
    ensures Sorted([h] + rest)
  {
    forall j | 0 <= j < |rest| ensures Below(h, rest[j]) {
      assert rest[j] in multiset(rest);
      if rest[j] != x {
        assert rest[j] in multiset(tail);
        var k :| 0 <= k < |tail| && tail[k] == rest[j];
        assert ([h] + tail)[0] == h && ([h] + tail)[k + 1] == tail[k];
      }
    }
    forall i, j | 0 <= i < j < |[h] + rest| ensures Below(([h] + rest)[i], ([h] + rest)[j]) {
      if i > 0 {
        assert ([h] + rest)[i] == rest[i - 1] && ([h] + rest)[j] == rest[j - 1];
      }
    }
  }

  /** `sort($files)`: the same names, each below the next. */
  function Sort(s: seq<string>): (r: seq<string>)
    ensures Sorted(r) && multiset(r) == multiset(s) && |r| == |s|
  {
    if s == [] then []
    else
      SortLast(s);
      Insert(s[|s| - 1], Sort(s[..|s| - 1]))
  }

  lemma SortLast(s: seq<string>)
    requires s != []
    ensures multiset(s) == multiset(s[..|s| - 1]) + multiset{s[|s| - 1]}
  {
    assert s == s[..|s| - 1] + [s[|s| - 1]];
  }

  /** The migrations to run: the base names of the sorted files not yet recorded, in order. */
  function Pending(files: seq<string>, executed: seq<string>): (p: seq<string>)
    ensures |p| <= |files|
  {
    if files == [] then []
    else
      var name := Basename(files[|files| - 1]);
      Pending(files[..|files| - 1], executed) + (if name in executed then [] else [name])
  }

  /** How many of `p`, from the start, succeed before the first that fails. */
  function Succeeded(p: seq<string>, ok: string -> bool): (k: nat)
    ensures k <= |p|
    ensures forall i :: 0 <= i < k ==> ok(p[i])
    ensures k < |p| ==> !ok(p[k])
  {
    if p == [] || !ok(p[0]) then 0 else 1 + Succeeded(p[1..], ok)
  }

  /** Whether each sorted file has been executed, as `--status` lists it. */
  function StatusLines(files: seq<string>, executed: seq<string>): (lines: seq<(string, bool)>)
    ensures |lines| == |files|
    ensures forall i :: 0 <= i < |files| ==> lines[i] == (Basename(files[i]), Basename(files[i]) in executed)
  {
    seq(|files|, i requires 0 <= i < |files| => (Basename(files[i]), Basename(files[i]) in executed))
  }

  /** How the script ends. */
  datatype Report =
    | Help                                               // the usage text, exit 0
    | Status(lines: seq<(string, bool)>)                 // the status listing, exit 0
    | Failed(name: string, count: nat)                   // a migration failed, exit 1
    | Finished(count: nat, seeds: seq<(string, bool)>)   // done, with each seed and whether it ran

  /** The database file: whether it exists, and the names in its `migrations` table, in insertion order. */
  class Database {
    var present: bool
    var migrations: seq<string>

    constructor(exists0: bool, names: seq<string>)
      ensures present == exists0 && migrations == names
    {
      present := exists0;
      migrations := names;
    }

    /**
     * The migration loop: each file whose name is not in `executed` runs
     * (`ok` says whether its SQL succeeds) and, when it succeeds, is
     * recorded; the first failure stops the loop, the earlier ones staying
     * recorded.
     */
    method RunMigrations(files: seq<string>, executed: seq<string>, ok: string -> bool) returns (count: nat, failed: Option<string>)
      modifies this`migrations
      ensures var p := Pending(files, executed);
        && count == Succeeded(p, ok)
        && migrations == old(migrations) + p[..count]
        && (failed.Some? <==> count < |p|)
        && (failed.Some? ==> failed.value == p[count])
    {
      count := 0;
      failed := None;
      ghost var done: seq<string> := [];
      for i := 0 to |files|
        invariant failed.None?
        invariant done == Pending(files[..i], executed)
        invariant count == |done| && forall j :: 0 <= j < count ==> ok(done[j])
        invariant migrations == old(migrations) + done
      {
        PendingSnoc(files, executed, i);
        var name := Basename(files[i]);
        if name in executed {
          continue;
        }
        if !ok(name) {
          failed := Some(name);
          PendingPrefix(files, executed, i);
          SucceededAt(Pending(files, executed), done, ok);
          return;
        }
        migrations := migrations + [name];
        count := count + 1;
        done := done + [name];
      }
      assert files[..|files|] == files;
      SucceededAll(done, ok);
    }
  }

  /** One more file adds its name to the pending ones unless it was executed. */
  lemma PendingSnoc(files: seq<string>, executed: seq<string>, i: nat)
    requires i < |files|
    ensures Pending(files[..i + 1], executed)
         == Pending(files[..i], executed) + (if Basename(files[i]) in executed then [] else [Basename(files[i])])
  {
    assert files[..i + 1][..i] == files[..i];
  }

  /** No pending name was executed, and every file whose name was not executed is pending. */
  lemma {:induction false} PendingNames(files: seq<string>, executed: seq<string>)
    ensures forall n :: n in Pending(files, executed) ==> n !in executed
    ensures forall i :: 0 <= i < |files| && Basename(files[i]) !in executed ==> Basename(files[i]) in Pending(files, executed)
  {
    if files != [] {
      var init := files[..|files| - 1];
      PendingNames(init, executed);
      forall i | 0 <= i < |init| ensures init[i] == files[i] { }
    }
  }

  /** Once every file's name is recorded, nothing is pending. */
  lemma {:induction false} AllRecorded(files: seq<string>, executed: seq<string>)
    requires forall i :: 0 <= i < |files| ==> Basename(files[i]) in executed
    ensures Pending(files, executed) == []
  {
    if files != [] {
      AllRecorded(files[..|files| - 1], executed);
    }
  }

  /** A run in which every migration succeeded leaves nothing for the next run. */
  lemma {:induction false} RerunFindsNothing(files: seq<string>, executed: seq<string>)
    ensures Pending(files, executed + Pending(files, executed)) == []
  {
    var after := executed + Pending(files, executed);
    PendingNames(files, executed);
    AllRecorded(files, after);
  }

  /** The pending names of a prefix of the files, then the rest, are those of all the files. */
  lemma {:induction false} PendingPrefix(files: seq<string>, executed: seq<string>, i: nat)
    requires i < |files| && Basename(files[i]) !in executed
    ensures Pending(files[..i], executed) + [Basename(files[i])] <= Pending(files, executed)
    decreases |files| - i
  {
    if i + 1 < |files| {
      PendingGrows(files, executed, i + 1);
    } else {
      assert files[..i + 1] == files;
    }
    assert files[..i + 1][..i] == files[..i];
  }

  /** The pending names of a prefix start the pending names of the whole. */
  lemma {:induction false} PendingGrows(files: seq<string>, executed: seq<string>, i: nat)
    requires i <= |files|
    ensures Pending(files[..i], executed) <= Pending(files, executed)
    decreases |files| - i
  {
    if i < |files| {
      PendingGrows(files, executed, i + 1);
      assert files[..i + 1][..i] == files[..i];
    } else {
      assert files[..i] == files;
    }
  }

  /** When all of `p` succeed, `Succeeded` counts them all. */
  lemma {:induction false} SucceededAll(p: seq<string>, ok: string -> bool)
    requires forall j :: 0 <= j < |p| ==> ok(p[j])
    ensures Succeeded(p, ok) == |p|
  {
    if p != [] {
      SucceededAll(p[1..], ok);
    }
  }

  /** When `p` starts with successes `done` and then one failure, `Succeeded` counts `done`. */
  lemma {:induction false} SucceededAt(p: seq<string>, done: seq<string>, ok: string -> bool)
    requires |done| < |p| && done == p[..|done|] && !ok(p[|done|])
    requires forall j :: 0 <= j < |done| ==> ok(done[j])
    ensures Succeeded(p, ok) == |done|
  {
    if done != [] {
      assert ok(p[0]);
      SucceededAt(p[1..], done[1..], ok);
    }
  }

  /** The seed loop: every seed runs, in order, and a failing one (`ok` false) does not stop the rest. */
  method RunSeeds(files: seq<string>, ok: string -> bool) returns (results: seq<(string, bool)>)
    ensures |results| == |files|
    ensures forall i :: 0 <= i < |files| ==> results[i] == (Basename(files[i]), ok(Basename(files[i])))
  {
    results := [];
    for i := 0 to |files|
      invariant |results| == i
      invariant forall j :: 0 <= j < i ==> results[j] == (Basename(files[j]), ok(Basename(files[j])))
    {
      var name := Basename(files[i]);
      results := results + [(name, ok(name))];
    }
  }

  /**
   * The script: `--help` prints the usage and touches nothing; `--fresh`
   * deletes the database first; `--status` lists the sorted migrations and
   * runs nothing; otherwise the pending migrations run in sorted order,
   * and, unless one failed, the sorted seeds run when `--seed` is given.
   */
  method Run(db: Database, argv: seq<string>, migrationFiles: seq<string>, seedFiles: seq<string>,
             sqlOk: string -> bool, seedOk: string -> bool) returns (report: Report)
    modifies db
    ensures var flags := ReadFlags(argv);
      var executed := if flags.fromScratch then [] else old(db.migrations);
      var sorted := Sort(migrationFiles);
      var p := Pending(sorted, executed);
      var k := Succeeded(p, sqlOk);
      && (flags.help ==> report == Help && db.migrations == old(db.migrations) && db.present == old(db.present))
      && (!flags.help ==> db.present)
      && (!flags.help && flags.status ==> report == Status(StatusLines(sorted, executed)) && db.migrations == executed)
      && (!flags.help && !flags.status ==> db.migrations == executed + p[..k])
      && (!flags.help && !flags.status && k < |p| ==> report == Failed(p[k], k))
      && (!flags.help && !flags.status && k == |p| ==> report.Finished? && report.count == |p|)
      && (report.Finished? && flags.seed ==>
            && |report.seeds| == |seedFiles|
            && forall i :: 0 <= i < |seedFiles| ==>
                 report.seeds[i].0 == Basename(Sort(seedFiles)[i]) && report.seeds[i].1 == seedOk(report.seeds[i].0))
      && (report.Finished? && !flags.seed ==> report.seeds == [])
  {
    var flags := ReadFlags(argv);
    if flags.help {
      return Help;
    }
    if flags.fromScratch {
      db.present := false;
      db.migrations := [];
    }
    db.present := true;
    var executed := db.migrations;
    var sorted := Sort(migrationFiles);
    if flags.status {
      return Status(StatusLines(sorted, executed));
    }
    var count, failed := db.RunMigrations(sorted, executed, sqlOk);
    if failed.Some? {
      return Failed(failed.value, count);
    }
    var seeds: seq<(string, bool)> := [];
    if flags.seed {
      var seedSorted := Sort(seedFiles);
      seeds := RunSeeds(seedSorted, seedOk);
    }
    report := Finished(count, seeds);
  }
}
