/** The migration runner (backend/src/migrations/migration-runner.ts):
    loads the registered migrations in name order, keeps the ones not yet
    executed, and runs them in order, recording each one after it
    completes and stopping at the first failure. */
module Migrations {
  import opened Common
  import opened Tables

  /** A registry entry: whether it has an `up` function and a `down`
      function. */
  datatype Entry = Entry(hasUp: bool, hasDown: bool)

  /** A loaded migration: its name, and whether it can be rolled back. */
  datatype MigrationFile = MigrationFile(name: string, hasDown: bool)

  /** The registry as the source declares it. */
  const Registry: map<string, Entry> := map[
    "0001-initial-setup" := Entry(true, true),
    "0002-add-example-index" := Entry(true, true),
    "0003-seed-initial-data" := Entry(true, true)
  ]

  /** `Object.keys` of the registry: its names in declaration order. */
  const RegistryKeys: seq<string> := ["0001-initial-setup", "0002-add-example-index", "0003-seed-initial-data"]

  // ---------------------------------------------------------------------
  // The order of Array.prototype.sort on strings
  // ---------------------------------------------------------------------

  /** `a` sorts before `b`: at the first position where they differ `a`
      has the smaller character, or `a` is a proper prefix of `b`. */
  predicate Less(a: string, b: string)
    decreases |a|
  {
    if a == [] then b != []
    else if b == [] then false
    else if a[0] == b[0] then Less(a[1..], b[1..])
    else a[0] < b[0]
  }

  lemma {:induction false} LessIrreflexive(a: string)
    ensures !Less(a, a)
    decreases |a|
  {
    if a != [] {
      LessIrreflexive(a[1..]);
    }
  }

  lemma {:induction false} LessTransitive(a: string, b: string, c: string)
    requires Less(a, b) && Less(b, c)
    ensures Less(a, c)
    decreases |a|
  {
    if a != [] && a[0] == b[0] && b[0] == c[0] {
      LessTransitive(a[1..], b[1..], c[1..]);
    }
  }

  lemma {:induction false} LessTotal(a: string, b: string)
    ensures a == b || Less(a, b) || Less(b, a)
    decreases |a|
  {
    if a != [] && b != [] && a[0] == b[0] {
      LessTotal(a[1..], b[1..]);
      if a[1..] == b[1..] {
        assert a == [a[0]] + a[1..] && b == [b[0]] + b[1..];
      }
    }
  }

  lemma LessAsymmetric(a: string, b: string)
    ensures !(Less(a, b) && Less(b, a))
  {
    if Less(a, b) && Less(b, a) {
      LessTransitive(a, b, a);
      LessIrreflexive(a);
    }
  }

  /** "Sorts no later than" is transitive. */
  lemma AtMostTransitive(a: string, b: string, c: string)
    requires !Less(b, a) && !Less(c, b)
    ensures !Less(c, a)
  {
    LessTotal(a, b);
    LessTotal(b, c);
    if a != b && b != c {
      LessTransitive(a, b, c);
    }
    LessAsymmetric(a, c);
  }

  ghost predicate Ascending(s: seq<string>)
  {
    forall i, j :: 0 <= i < j < |s| ==> !Less(s[j], s[i])
  }

  lemma PrependAscending(h: string, t: seq<string>)
    requires Ascending(t)
    requires forall y :: y in t ==> !Less(y, h)
    ensures Ascending([h] + t)
  {
    var s := [h] + t;
    forall i, j | 0 <= i < j < |s| ensures !Less(s[j], s[i]) {
      assert s[j] == t[j - 1];
      if 0 < i {
        assert s[i] == t[i - 1];
      }
    }
  }

  /** Inserts `x` into an ascending sequence, before the first element that
      does not sort before it. */
  function Insert(x: string, s: seq<string>): (r: seq<string>)
    requires Ascending(s)
    ensures Ascending(r)
    ensures multiset(r) == multiset(s) + multiset{x}
  {
    if s == [] then [x]
    else if !Less(s[0], x) then
      assert forall y :: y in s ==> !Less(y, x) by {
        forall y | y in s ensures !Less(y, x) {
          var j :| 0 <= j < |s| && s[j] == y;
          if 0 < j {
            AtMostTransitive(x, s[0], y);
          }
        }
      }
      PrependAscending(x, s);
      [x] + s
    else
      var t := Insert(x, s[1..]);
      assert forall y :: y in t ==> !Less(y, s[0]) by {
        forall y | y in t ensures !Less(y, s[0]) {
          assert y in multiset(t);
          if y == x {
            LessAsymmetric(s[0], x);
          } else {
            assert y in multiset(s[1..]);
            var j :| 0 <= j < |s[1..]| && s[1..][j] == y;
            assert s[j + 1] == y;
          }
        }
      }
      PrependAscending(s[0], t);
      assert s == [s[0]] + s[1..];
      [s[0]] + t
  }

  /** `.sort()` on strings: an ascending permutation of its input. */
  function SortStrings(s: seq<string>): (r: seq<string>)
    ensures Ascending(r)
    ensures multiset(r) == multiset(s)
  {
    if s == [] then []
    else
      assert s == [s[0]] + s[1..];
      Insert(s[0], SortStrings(s[1..]))
  }

  /** Sorting has one possible outcome: two ascending sequences with the
      same elements are equal, so the order in which the keys come does
      not matter. */
  lemma {:induction false} AscendingUnique(a: seq<string>, b: seq<string>)
    requires Ascending(a) && Ascending(b) && multiset(a) == multiset(b)
    ensures a == b
    decreases |a|
  {
    if a != [] {
      assert |b| == |multiset(b)| == |multiset(a)| == |a|;
      assert a[0] in multiset(b) && b[0] in multiset(a);
      var i :| 0 <= i < |b| && b[i] == a[0];
      var j :| 0 <= j < |a| && a[j] == b[0];
      assert !Less(a[0], b[0]) by {
        if 0 < i {
          assert !Less(b[i], b[0]);
        } else {
          LessIrreflexive(a[0]);
        }
      }
      assert !Less(b[0], a[0]) by {
        if 0 < j {
          assert !Less(a[j], a[0]);
        } else {
          LessIrreflexive(b[0]);
        }
      }
      LessTotal(a[0], b[0]);
      assert a[0] == b[0];
      assert a == [a[0]] + a[1..] && b == [b[0]] + b[1..];
      assert multiset(a) == multiset{a[0]} + multiset(a[1..]);
      assert multiset(b) == multiset{a[0]} + multiset(b[1..]);
      forall x ensures multiset(a[1..])[x] == multiset(b[1..])[x] {
        assert multiset(a)[x] == multiset{a[0]}[x] + multiset(a[1..])[x];
        assert multiset(b)[x] == multiset{a[0]}[x] + multiset(b[1..])[x];
      }
      assert multiset(a[1..]) == multiset(b[1..]);
      AscendingUnique(a[1..], b[1..]);
    }
  }

  /** No element occurs twice. */
  ghost predicate Distinct(s: seq<string>)
  {
    forall i, j :: 0 <= i < |s| && 0 <= j < |s| && i != j ==> s[i] != s[j]
  }

  lemma {:induction false} DistinctOnce(s: seq<string>)
    requires Distinct(s)
    ensures forall x :: multiset(s)[x] <= 1
    decreases |s|
  {
    if s != [] {
      assert Distinct(s[1..]) by {
        forall i, j | 0 <= i < |s[1..]| && 0 <= j < |s[1..]| && i != j ensures s[1..][i] != s[1..][j] {
          assert s[1..][i] == s[i + 1] && s[1..][j] == s[j + 1];
        }
      }
      DistinctOnce(s[1..]);
      assert s[0] !in s[1..] by {
        forall j | 0 <= j < |s[1..]| ensures s[1..][j] != s[0] {
          assert s[1..][j] == s[j + 1];
        }
      }
      assert s == [s[0]] + s[1..];
    }
  }

  lemma OnceDistinct(s: seq<string>)
    requires forall x :: multiset(s)[x] <= 1
    ensures Distinct(s)
  {
    forall i, j | 0 <= i < j < |s| ensures s[i] != s[j] {
      CountedTwice(s, i, j);
    }
  }

  lemma CountedTwice(s: seq<string>, lo: nat, hi: nat)
    requires lo < hi < |s|
    ensures s[lo] == s[hi] ==> multiset(s)[s[lo]] >= 2
  {
    assert s == s[..hi] + s[hi..];
    assert s[lo] in s[..hi] && s[hi] in s[hi..];
    assert multiset(s)[s[lo]] == multiset(s[..hi])[s[lo]] + multiset(s[hi..])[s[lo]];
  }

  /** The names of an ascending sequence without repeats strictly
      increase. */
  ghost predicate Increasing(s: seq<string>)
  {
    forall i, j :: 0 <= i < j < |s| ==> Less(s[i], s[j])
  }

  lemma StrictlyAscending(s: seq<string>)
    requires Ascending(s) && Distinct(s)
    ensures Increasing(s)
  {
    forall i, j | 0 <= i < j < |s| ensures Less(s[i], s[j]) {
      LessTotal(s[i], s[j]);
    }
  }

  // ---------------------------------------------------------------------
  // loadMigrations
  // ---------------------------------------------------------------------

  /** `keys` is what `Object.keys(registry)` returns: each key once. */
  ghost predicate KeyList(keys: seq<string>, registry: map<string, Entry>)
  {
    Distinct(keys) && forall k :: k in keys <==> k in registry
  }

  /** The migrations the loop collects from the names, in order: those the
      registry holds with an `up` function. */
  function LoadedFrom(registry: map<string, Entry>, names: seq<string>): seq<MigrationFile>
    decreases |names|
  {
    if names == [] then []
    else
      var name := names[|names| - 1];
      LoadedFrom(registry, names[..|names| - 1]) +
        if name in registry && registry[name].hasUp then [MigrationFile(name, registry[name].hasDown)] else []
  }

  function Loaded(registry: map<string, Entry>, keys: seq<string>): seq<MigrationFile>
  {
    LoadedFrom(registry, SortStrings(keys))
  }

  /** loadMigrations: sorts the registry's names, then keeps each entry
      that has an `up` function. */
  method LoadMigrations(registry: map<string, Entry>, keys: seq<string>) returns (migrations: seq<MigrationFile>)
    requires KeyList(keys, registry)
    ensures migrations == Loaded(registry, keys)
  {
    var names := SortStrings(keys);
    migrations := [];
    for i := 0 to |names|
      invariant migrations == LoadedFrom(registry, names[..i])
    {
      var name := names[i];
      if name in registry && registry[name].hasUp {
        migrations := migrations + [MigrationFile(name, registry[name].hasDown)];
      }
      assert names[..i + 1][..i] == names[..i];
    }
    assert names[..|names|] == names;
  }

  lemma {:induction false} LoadedFromMembers(registry: map<string, Entry>, names: seq<string>)
    ensures forall m :: m in LoadedFrom(registry, names) <==>
      m.name in names && m.name in registry && registry[m.name].hasUp && m.hasDown == registry[m.name].hasDown
    decreases |names|
  {
    if names != [] {
      LoadedFromMembers(registry, names[..|names| - 1]);
      assert names == names[..|names| - 1] + [names[|names| - 1]];
    }
  }

  /** The names strictly increase along the sequence. */
  ghost predicate NamesAscend(ms: seq<MigrationFile>)
  {
    forall i, j :: 0 <= i < j < |ms| ==> Less(ms[i].name, ms[j].name)
  }

  lemma {:induction false} LoadedFromOrdered(registry: map<string, Entry>, names: seq<string>)
    requires Increasing(names)
    ensures NamesAscend(LoadedFrom(registry, names))
    decreases |names|
  {
    if names != [] {
      var pre := names[..|names| - 1];
      var last := names[|names| - 1];
      assert Increasing(pre) by {
        assert forall a :: 0 <= a < |pre| ==> pre[a] == names[a];
      }
      LoadedFromOrdered(registry, pre);
      LoadedFromMembers(registry, pre);
      var ms := LoadedFrom(registry, names);
      var head := LoadedFrom(registry, pre);
      var extra := if last in registry && registry[last].hasUp then [MigrationFile(last, registry[last].hasDown)] else [];
      assert ms == head + extra;
      forall i, j | 0 <= i < j < |ms| ensures Less(ms[i].name, ms[j].name) {
        assert ms[i] == head[i];
        if j < |head| {
          assert ms[j] == head[j];
          assert Less(head[i].name, head[j].name);
        } else {
          assert ms[j] == extra[0] && extra[0].name == last;
          assert head[i] in head;
          var k :| 0 <= k < |pre| && pre[k] == head[i].name;
          assert names[k] == pre[k];
          assert Less(names[k], names[|names| - 1]);
          assert Less(head[i].name, last);
        }
      }
    }
  }

  /** loadMigrations returns exactly the registry entries that have an
      `up` function, in strictly ascending name order, whatever order the
      keys come in. */
  lemma LoadedSpec(registry: map<string, Entry>, keys: seq<string>)
    requires KeyList(keys, registry)
    ensures forall m :: m in Loaded(registry, keys) <==>
      m.name in registry && registry[m.name].hasUp && m.hasDown == registry[m.name].hasDown
    ensures NamesAscend(Loaded(registry, keys))
  {
    var names := SortStrings(keys);
    LoadedFromMembers(registry, names);
    SortedKeys(registry, keys);
    LoadedFromOrdered(registry, names);
  }

  /** The sorted keys are the registry's names, each once, strictly
      ascending. */
  lemma SortedKeys(registry: map<string, Entry>, keys: seq<string>)
    requires KeyList(keys, registry)
    ensures forall k :: k in SortStrings(keys) <==> k in registry
    ensures Increasing(SortStrings(keys))
  {
    var names := SortStrings(keys);
    forall k ensures k in names <==> k in keys {
      assert k in names <==> k in multiset(names);
    }
    DistinctOnce(keys);
    OnceDistinct(names);
    StrictlyAscending(names);
  }

  /** Two enumerations of the same keys load the same migrations. */
  lemma LoadedIgnoresKeyOrder(registry: map<string, Entry>, keys1: seq<string>, keys2: seq<string>)
    requires multiset(keys1) == multiset(keys2)
    ensures Loaded(registry, keys1) == Loaded(registry, keys2)
  {
    AscendingUnique(SortStrings(keys1), SortStrings(keys2));
  }

  // ---------------------------------------------------------------------
  // The pending filter
  // ---------------------------------------------------------------------

  function NotExecuted(executed: seq<string>): MigrationFile -> bool
  {
    (m: MigrationFile) => m.name !in executed
  }

  /** The loaded migrations not yet executed, in loaded order. */
  function Pending(loaded: seq<MigrationFile>, executed: seq<string>): (r: seq<MigrationFile>)
    ensures forall m :: m in r <==> m in loaded && m.name !in executed
  {
    Filter(loaded, NotExecuted(executed))
  }

  /** Pending migrations keep the ascending name order of the loaded
      ones. */
  lemma PendingOrdered(loaded: seq<MigrationFile>, executed: seq<string>)
    requires NamesAscend(loaded)
    ensures NamesAscend(Pending(loaded, executed))
  {
    FilterPairwise(loaded, NotExecuted(executed), (a: MigrationFile, b: MigrationFile) => Less(a.name, b.name));
  }

  // ---------------------------------------------------------------------
  // The run loop
  // ---------------------------------------------------------------------

  /** The names of migrations, in order. */
  function NamesOf(ms: seq<MigrationFile>): (r: seq<string>)
    ensures |r| == |ms| && forall i :: 0 <= i < |ms| ==> r[i] == ms[i].name
  {
    seq(|ms|, i requires 0 <= i < |ms| => ms[i].name)
  }

  /** What the loop has done: the migrations whose `up` it started, those
      it recorded as executed, and the one that failed, if any. */
  datatype Trace = Trace(ran: seq<string>, recorded: seq<string>, failed: Option<string>)

  /** One pass of the loop: nothing once a migration has failed; otherwise
      run `up`, and record the migration only when `up` completed. A throw
      from `up` or from recording ends the run at this migration. */
  function Step(t: Trace, m: MigrationFile, upFails: string -> bool, recordFails: string -> bool): Trace
  {
    if t.failed.Some? then t
    else if upFails(m.name) || recordFails(m.name) then Trace(t.ran + [m.name], t.recorded, Some(m.name))
    else Trace(t.ran + [m.name], t.recorded + [m.name], None)
  }

  function RunAll(p: seq<MigrationFile>, upFails: string -> bool, recordFails: string -> bool): Trace
    decreases |p|
  {
    if p == [] then Trace([], [], None)
    else Step(RunAll(p[..|p| - 1], upFails, recordFails), p[|p| - 1], upFails, recordFails)
  }

  /** The index of the first migration whose `up` or recording fails, or
      the length when none does. */
  function FirstFailure(p: seq<MigrationFile>, upFails: string -> bool, recordFails: string -> bool): (k: nat)
    ensures k <= |p|
    ensures forall i :: 0 <= i < k ==> !upFails(p[i].name) && !recordFails(p[i].name)
    ensures k < |p| ==> upFails(p[k].name) || recordFails(p[k].name)
    decreases |p|
  {
    if p == [] then 0
    else if upFails(p[0].name) || recordFails(p[0].name) then 0
    else
      var k := FirstFailure(p[1..], upFails, recordFails);
      assert forall i :: 1 <= i < k + 1 ==> p[i] == p[1..][i - 1];
      k + 1
  }

  /** The first failure is determined by its two properties. */
  lemma FirstFailureUnique(p: seq<MigrationFile>, upFails: string -> bool, recordFails: string -> bool, k: nat)
    requires k <= |p|
    requires forall i :: 0 <= i < k ==> !upFails(p[i].name) && !recordFails(p[i].name)
    requires k < |p| ==> upFails(p[k].name) || recordFails(p[k].name)
    ensures FirstFailure(p, upFails, recordFails) == k
  {
  }

  /** The loop, in closed form: with k the first failure, the migrations
      before k run and are recorded, the one at k runs, fails and is not
      recorded, and none after it runs. */
  ghost predicate Closed(p: seq<MigrationFile>, upFails: string -> bool, recordFails: string -> bool)
  {
    var k := FirstFailure(p, upFails, recordFails);
    var t := RunAll(p, upFails, recordFails);
    && t.recorded == NamesOf(p[..k])
    && t.ran == NamesOf(p[..if k < |p| then k + 1 else k])
    && t.failed == if k < |p| then Some(p[k].name) else None
  }

  lemma {:induction false} RunAllClosed(p: seq<MigrationFile>, upFails: string -> bool, recordFails: string -> bool)
    ensures Closed(p, upFails, recordFails)
    decreases |p|
  {
    if p != [] {
      var pre := p[..|p| - 1];
      RunAllClosed(pre, upFails, recordFails);
      if FirstFailure(pre, upFails, recordFails) < |pre| {
        ClosedAfterFailure(p, upFails, recordFails);
      } else {
        ClosedAfterSuccesses(p, upFails, recordFails);
      }
    }
  }

  /** A migration after the first failure changes nothing. */
  lemma ClosedAfterFailure(p: seq<MigrationFile>, upFails: string -> bool, recordFails: string -> bool)
    requires p != [] && Closed(p[..|p| - 1], upFails, recordFails)
    requires FirstFailure(p[..|p| - 1], upFails, recordFails) < |p| - 1
    ensures Closed(p, upFails, recordFails)
  {
    var pre := p[..|p| - 1];
    var k := FirstFailure(pre, upFails, recordFails);
    assert forall i :: 0 <= i < |pre| ==> p[i] == pre[i];
    FirstFailureUnique(p, upFails, recordFails, k);
    assert p[..k] == pre[..k] && p[..k + 1] == pre[..k + 1];
  }

  /** A migration after only successes runs, and is recorded unless it
      fails. */
  lemma ClosedAfterSuccesses(p: seq<MigrationFile>, upFails: string -> bool, recordFails: string -> bool)
    requires p != [] && Closed(p[..|p| - 1], upFails, recordFails)
    requires FirstFailure(p[..|p| - 1], upFails, recordFails) == |p| - 1
    ensures Closed(p, upFails, recordFails)
  {
    var pre := p[..|p| - 1];
    var m := p[|p| - 1];
    assert pre[..|pre|] == pre;
    assert forall i :: 0 <= i < |pre| ==> p[i] == pre[i];
    assert NamesOf(p) == NamesOf(pre) + [m.name];
    if upFails(m.name) || recordFails(m.name) {
      FirstFailureUnique(p, upFails, recordFails, |pre|);
      assert p[..|pre|] == pre && p[..|pre| + 1] == p;
    } else {
      FirstFailureUnique(p, upFails, recordFails, |p|);
      assert p[..|p|] == p;
    }
  }

  /** Once a prefix has failed, the rest of the list changes nothing. */
  lemma {:induction false} RunAllStopped(p: seq<MigrationFile>, k: nat, upFails: string -> bool, recordFails: string -> bool)
    requires k <= |p| && RunAll(p[..k], upFails, recordFails).failed.Some?
    ensures RunAll(p, upFails, recordFails) == RunAll(p[..k], upFails, recordFails)
    decreases |p|
  {
    if k < |p| {
      var pre := p[..|p| - 1];
      assert pre[..k] == p[..k];
      RunAllStopped(pre, k, upFails, recordFails);
    } else {
      assert p[..k] == p;
    }
  }

  /** The loop runs a prefix of the pending migrations, in their order,
      and records a prefix of what it ran. */
  lemma RunInOrder(p: seq<MigrationFile>, upFails: string -> bool, recordFails: string -> bool)
    ensures var t := RunAll(p, upFails, recordFails);
      t.ran <= NamesOf(p) && t.recorded <= t.ran
  {
    RunAllClosed(p, upFails, recordFails);
    var k := FirstFailure(p, upFails, recordFails);
    var j := if k < |p| then k + 1 else k;
    assert NamesOf(p)[..j] == NamesOf(p[..j]);
    assert NamesOf(p[..j])[..k] == NamesOf(p[..k]);
  }

  /** A migration is recorded only when its `up` and its recording
      completed. */
  lemma RunRecordsCompleted(p: seq<MigrationFile>, upFails: string -> bool, recordFails: string -> bool)
    ensures forall n :: n in RunAll(p, upFails, recordFails).recorded ==> !upFails(n) && !recordFails(n)
  {
    RunAllClosed(p, upFails, recordFails);
    var k := FirstFailure(p, upFails, recordFails);
    forall n | n in NamesOf(p[..k]) ensures !upFails(n) && !recordFails(n) {
      var i :| 0 <= i < k && NamesOf(p[..k])[i] == n;
      assert n == p[i].name;
    }
  }

  /** The run either records every pending migration, or stops at a
      failing one: that one ran, was not recorded, and was the last to
      run. */
  lemma RunStopsAtFailure(p: seq<MigrationFile>, upFails: string -> bool, recordFails: string -> bool)
    ensures var t := RunAll(p, upFails, recordFails);
      && (t.failed.None? <==> t.recorded == NamesOf(p))
      && (t.failed.Some? ==> t.ran == t.recorded + [t.failed.value]
                             && (upFails(t.failed.value) || recordFails(t.failed.value)))
  {
    RunAllClosed(p, upFails, recordFails);
    var k := FirstFailure(p, upFails, recordFails);
    if k < |p| {
      assert NamesOf(p[..k + 1]) == NamesOf(p[..k]) + [p[k].name];
      assert |NamesOf(p[..k])| != |NamesOf(p)|;
    } else {
      assert p[..k] == p;
    }
  }

  /** The outcome of runMigrations. */
  datatype Outcome = NoMigrations | UpToDate | Completed(count: nat) | Failed(name: string)

  class MigrationRunner {
    /** The names in the migrations table, in order of execution. */
    var executed: seq<string>

    constructor (executed: seq<string>)
      ensures this.executed == executed
    {
      this.executed := executed;
    }

    /** runMigrations over a registry: `upFails` and `recordFails` say
        which `up` functions and which inserts into the migrations table
        throw. Returns the outcome and the migrations whose `up` it
        started, in order. */
    method RunMigrations(registry: map<string, Entry>, keys: seq<string>,
                         upFails: string -> bool, recordFails: string -> bool)
      returns (outcome: Outcome, ran: seq<string>)
      requires KeyList(keys, registry)
      modifies this
      ensures var loaded := Loaded(registry, keys);
        var pending := Pending(loaded, old(executed));
        var t := RunAll(pending, upFails, recordFails);
        && (|loaded| == 0 ==> outcome == NoMigrations && ran == [] && executed == old(executed))
        && (|loaded| != 0 && |pending| == 0 ==> outcome == UpToDate && ran == [] && executed == old(executed))
        && (|pending| != 0 ==>
              && ran == t.ran
              && executed == old(executed) + t.recorded
              && outcome == if t.failed.Some? then Failed(t.failed.value) else Completed(|pending|))
    {
      var loaded := LoadMigrations(registry, keys);
      if |loaded| == 0 {
        return NoMigrations, [];
      }
      var pending := Pending(loaded, executed);
      if |pending| == 0 {
        return UpToDate, [];
      }
      outcome, ran := RunPending(pending, upFails, recordFails);
    }

    /** The loop of runMigrations over the pending migrations, in order:
        run `up`, then record the migration; the first throw ends the run
        with that migration's name. */
    method RunPending(pending: seq<MigrationFile>, upFails: string -> bool, recordFails: string -> bool)
      returns (outcome: Outcome, ran: seq<string>)
      modifies this
      ensures var t := RunAll(pending, upFails, recordFails);
        && ran == t.ran
        && executed == old(executed) + t.recorded
        && outcome == if t.failed.Some? then Failed(t.failed.value) else Completed(|pending|)
    {
      ran := [];
      var recorded: seq<string> := [];
      var i := 0;
      while i < |pending|
        invariant 0 <= i <= |pending|
        invariant RunAll(pending[..i], upFails, recordFails) == Trace(ran, recorded, None)
        invariant executed == old(executed) + recorded
      {
        var m := pending[i];
        assert pending[..i + 1][..i] == pending[..i];
        ran := ran + [m.name];
        if upFails(m.name) || recordFails(m.name) {
          RunAllStopped(pending, i + 1, upFails, recordFails);
          return Failed(m.name), ran;
        }
        executed := executed + [m.name];
        recorded := recorded + [m.name];
        i := i + 1;
      }
      assert pending[..i] == pending;
      outcome := Completed(|pending|);
    }
  }

  /** The runner never reruns a migration already in the table: every
      migration it starts is a loaded one missing from the table. */
  lemma RunSkipsExecuted(loaded: seq<MigrationFile>, executed: seq<string>,
                         upFails: string -> bool, recordFails: string -> bool)
    ensures forall n :: n in RunAll(Pending(loaded, executed), upFails, recordFails).ran ==>
      n !in executed && exists m :: m in loaded && m.name == n
  {
    var p := Pending(loaded, executed);
    RunInOrder(p, upFails, recordFails);
    var t := RunAll(p, upFails, recordFails);
    forall n | n in t.ran ensures n !in executed && exists m :: m in loaded && m.name == n {
      var i :| 0 <= i < |t.ran| && t.ran[i] == n;
      assert NamesOf(p)[i] == n;
      assert p[i] in p;
    }
  }

  /** The registry's declared names are each listed once. */
  lemma RegistryKeyList()
    ensures KeyList(RegistryKeys, Registry)
  {
    var k := RegistryKeys;
    assert k[0][3] == '1' && k[1][3] == '2' && k[2][3] == '3';
  }

  /** The registry as declared loads its three migrations, each with a
      `down`, in ascending name order, whatever order its keys come in. */
  lemma RegistryLoaded(keys: seq<string>)
    requires KeyList(keys, Registry)
    ensures forall m :: m in Loaded(Registry, keys) <==>
      m in [MigrationFile("0001-initial-setup", true),
            MigrationFile("0002-add-example-index", true),
            MigrationFile("0003-seed-initial-data", true)]
    ensures NamesAscend(Loaded(Registry, keys))
  {
    LoadedSpec(Registry, keys);
    var files := [MigrationFile("0001-initial-setup", true),
                  MigrationFile("0002-add-example-index", true),
                  MigrationFile("0003-seed-initial-data", true)];
    forall m ensures m in Loaded(Registry, keys) <==> m in files {
      RegistryEntry(m.name);
    }
  }

  /** A name is in the registry exactly when it is one of the three
      declared names, and each of them has an `up` and a `down`. */
  lemma RegistryEntry(n: string)
    ensures n in Registry <==> n == "0001-initial-setup" || n == "0002-add-example-index" || n == "0003-seed-initial-data"
    ensures n in Registry ==> Registry[n] == Entry(true, true)
  {
  }
}
