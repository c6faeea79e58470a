// Configuration revisions: saves run one at a time under a lock, but jobs and
// relay operations add change rows without taking it.
module Revision {
  import opened RelayItems

  // A row of the changes table: a locked save with the revision it named, if
  // any, or a change made outside the lock.
  datatype Row = Locked(owner: nat, expected: Option<nat>) | Unlocked

  // What can go wrong in a save, and the changes made outside the lock while
  // it runs and before it reads the revision again.
  datatype Faults = Faults(works: bool, coreUpdates: bool, during: nat, after: nat)

  datatype Outcome =
    | Conflict(expected: nat, current: nat)
    | Failed(current: nat)                       // nothing committed, or the core did not follow
    | Saved(revision: nat)

  function Repeated(n: nat): seq<Row> {
    seq(n, i => Unlocked)
  }

  // Nothing but unlocked changes from `low` up to `high`.
  ghost predicate Quiet(rows: seq<Row>, low: nat, high: nat) {
    low <= high <= |rows| && forall p :: low <= p < high ==> rows[p].Unlocked?
  }

  // A checked save sits on the revision it named, with only unlocked changes
  // in between.
  ghost predicate Consistent(rows: seq<Row>) {
    forall p :: 0 <= p < |rows| && rows[p].Locked? && rows[p].expected.Some? ==> Quiet(rows, rows[p].expected.value, p)
  }

  // MAIN: of several checked saves naming one revision at most one commits.
  lemma AtMostOnePerRevision(rows: seq<Row>, p: nat, q: nat)
    requires Consistent(rows) && p < |rows| && q < |rows|
    requires rows[p].Locked? && rows[q].Locked? && rows[p].expected == rows[q].expected && rows[p].expected.Some?
    ensures p == q
  {
    assert Quiet(rows, rows[p].expected.value, p);
    assert Quiet(rows, rows[q].expected.value, q);
  }

  // -------------------------------------------------------------- runs

  // What may happen to the table: locked saves, checked or not, and changes
  // outside the lock.
  datatype Step =
    | Unchecked(owner: nat, faults: Faults)
    | Checked(owner: nat, expected: nat, faults: Faults)
    | Outside(n: nat)

  function After(rows: seq<Row>, step: Step): seq<Row> {
    match step
    case Outside(n) => rows + Repeated(n)
    case Unchecked(owner, f) => rows + Repeated(f.during) + if f.works then [Locked(owner, None)] else []
    case Checked(owner, expected, f) =>
      if expected != |rows| then rows
      else
        rows + Repeated(f.during) + (if f.works then [Locked(owner, Some(expected))] else [])
        + Repeated(if f.works && f.coreUpdates then f.after else 0)
  }

  function AfterAll(rows: seq<Row>, steps: seq<Step>): seq<Row> {
    if steps == [] then rows else After(AfterAll(rows, steps[..|steps| - 1]), steps[|steps| - 1])
  }

  // Step i is a checked save that commits.
  ghost predicate Commits(rows: seq<Row>, steps: seq<Step>, i: nat) {
    && i < |steps| && steps[i].Checked? && steps[i].faults.works
    && steps[i].expected == |AfterAll(rows, steps[..i])|
  }

  // Row p is the one the checked save of step i committed.
  ghost predicate CommittedBy(rows: seq<Row>, steps: seq<Step>, p: nat, i: nat) {
    && Commits(rows, steps, i)
    && p == steps[i].expected + steps[i].faults.during
    && p < |AfterAll(rows, steps)|
    && AfterAll(rows, steps)[p] == Locked(steps[i].owner, Some(steps[i].expected))
  }

  lemma {:induction false} RunsOnlyAppend(rows: seq<Row>, steps: seq<Step>)
    ensures rows <= AfterAll(rows, steps)
  {
    if steps != [] {
      RunsOnlyAppend(rows, steps[..|steps| - 1]);
    }
  }

  // Each committed checked save has its row where it was checked, further by
  // what was changed outside the lock while it ran.
  lemma {:induction false} CommitsAreStored(rows: seq<Row>, steps: seq<Step>, i: nat)
    requires Commits(rows, steps, i)
    ensures CommittedBy(rows, steps, steps[i].expected + steps[i].faults.during, i)
  {
    var init := steps[..|steps| - 1];
    if i < |init| {
      assert init[..i] == steps[..i];
      CommitsAreStored(rows, init, i);
    }
  }

  // And each checked row of the run is such a save's.
  lemma {:induction false} CheckedRowsAreCommits(rows: seq<Row>, steps: seq<Step>, p: nat) returns (i: nat)
    requires |rows| <= p < |AfterAll(rows, steps)|
    requires AfterAll(rows, steps)[p].Locked? && AfterAll(rows, steps)[p].expected.Some?
    ensures CommittedBy(rows, steps, p, i)
  {
    var init := steps[..|steps| - 1];
    if p < |AfterAll(rows, init)| {
      i := CheckedRowsAreCommits(rows, init, p);
      assert init[..i] == steps[..i];
    } else {
      i := |init|;
      assert steps[..i] == init;
    }
  }

  // MAIN: over any run, a checked save sits directly on the revision it named
  // exactly when nothing was changed outside the lock while it ran itself,
  // whatever happened before, between and after the saves.
  lemma DirectlyOnTop(rows: seq<Row>, steps: seq<Step>, p: nat) returns (i: nat)
    requires |rows| <= p < |AfterAll(rows, steps)|
    requires AfterAll(rows, steps)[p].Locked? && AfterAll(rows, steps)[p].expected.Some?
    ensures Commits(rows, steps, i) && AfterAll(rows, steps)[p] == Locked(steps[i].owner, Some(steps[i].expected))
    ensures AfterAll(rows, steps)[p].expected == Some(p) <==> steps[i].faults.during == 0
    ensures steps[i].expected <= p && forall q :: steps[i].expected <= q < p ==> AfterAll(rows, steps)[q].Unlocked?
  {
    i := CheckedRowsAreCommits(rows, steps, p);
    GapIsUnlocked(rows, steps, i);
  }

  lemma {:induction false} GapIsUnlocked(rows: seq<Row>, steps: seq<Step>, i: nat)
    requires Commits(rows, steps, i)
    ensures var low := steps[i].expected;
            low + steps[i].faults.during < |AfterAll(rows, steps)|
            && forall q :: low <= q < low + steps[i].faults.during ==> AfterAll(rows, steps)[q].Unlocked?
  {
    var init := steps[..|steps| - 1];
    if i < |init| {
      assert init[..i] == steps[..i];
      GapIsUnlocked(rows, init, i);
    }
  }

  // MAIN: a run keeps every checked save directly on top exactly when none of
  // its committing saves had a change outside the lock while it ran.
  lemma RunIsLinearExactly(rows: seq<Row>, steps: seq<Step>)
    ensures (forall p :: |rows| <= p < |AfterAll(rows, steps)| && CheckedRow(AfterAll(rows, steps)[p])
                     ==> AfterAll(rows, steps)[p].expected == Some(p))
       <==> forall i :: 0 <= i < |steps| && Commits(rows, steps, i) ==> steps[i].faults.during == 0
  {
    var all := AfterAll(rows, steps);
    if forall p :: |rows| <= p < |all| && CheckedRow(all[p]) ==> all[p].expected == Some(p) {
      forall i | 0 <= i < |steps| && Commits(rows, steps, i)
        ensures steps[i].faults.during == 0
      {
        CommitsAreStored(rows, steps, i);
        RunsOnlyAppend(rows, steps[..i]);
        assert CheckedRow(all[steps[i].expected + steps[i].faults.during]);
      }
    }
    if forall i :: 0 <= i < |steps| && Commits(rows, steps, i) ==> steps[i].faults.during == 0 {
      forall p | |rows| <= p < |all| && CheckedRow(all[p])
        ensures all[p].expected == Some(p)
      {
        var i := DirectlyOnTop(rows, steps, p);
      }
    }
  }

  predicate CheckedRow(row: Row) {
    row.Locked? && row.expected.Some?
  }

  // A job records one change while a save that named revision 0 runs.
  lemma ChangeSlipsIn() returns (steps: seq<Step>)
    ensures steps == [Checked(1, 0, Faults(true, true, 1, 0))]
    ensures AfterAll([], steps) == [Unlocked, Locked(1, Some(0))]
  {
    steps := [Checked(1, 0, Faults(true, true, 1, 0))];
    assert steps[..0] == [];
    assert AfterAll([], steps) == After([], steps[0]);
    assert Repeated(1) == [Unlocked] && Repeated(0) == [];
  }

  // ------------------------------------------------------------- the store

  class ConfigStore {
    ghost var rows: seq<Row>
    var maxId: nat                             // the largest change id

    ghost predicate Valid()
      reads this
    {
      maxId == |rows| && Consistent(rows)
    }

    constructor ()
      ensures Valid() && rows == []
    {
      rows, maxId := [], 0;
    }

    method CurrentRevision() returns (revision: nat)
      requires Valid()
      ensures revision == |rows|
    {
      revision := maxId;
    }

    method ChangeOutsideLock(n: nat)
      requires Valid()
      modifies this
      ensures Valid() && rows == old(rows) + Repeated(n)
    {
      QuietGrows(rows, n);
      rows := rows + Repeated(n);
      maxId := maxId + n;
    }

    // The part of a save under the lock. The revision it may have been checked
    // against is `expected`; unlocked changes may come before it commits.
    method SaveLocked(ghost owner: nat, ghost expected: Option<nat>, f: Faults) returns (ok: bool)
      requires Valid() && (expected.Some? ==> expected.value == |rows|)
      modifies this
      ensures Valid() && ok == (f.works && f.coreUpdates)
      ensures rows == old(rows) + Repeated(f.during) + if f.works then [Locked(owner, expected)] else []
    {
      ChangeOutsideLock(f.during);
      if !f.works {
        assert rows == old(rows) + Repeated(f.during) + [];
        return false;
      }
      rows := rows + [Locked(owner, expected)];
      maxId := maxId + 1;
      ok := f.coreUpdates;
    }

    // MAIN: an unchecked save.
    method Save(ghost owner: nat, f: Faults) returns (ok: bool)
      requires Valid()
      modifies this
      ensures Valid() && (ok ==> f.works)
      ensures rows == After(old(rows), Unchecked(owner, f))
    {
      ok := SaveLocked(owner, None, f);
    }

    // MAIN: a checked save commits nothing on a stale revision. When it
    // succeeds, the revision is strictly larger, and only unlocked changes
    // came between the revision named and the one returned, besides itself.
    method SaveWithRevision(ghost owner: nat, expected: nat, f: Faults) returns (outcome: Outcome)
      requires Valid()
      modifies this
      ensures Valid() && old(rows) <= rows && rows == After(old(rows), Checked(owner, expected, f))
      ensures outcome.Conflict? <==> expected != |old(rows)|
      ensures outcome.Conflict? ==> rows == old(rows) && outcome == Conflict(expected, |old(rows)|)
      ensures !outcome.Conflict? && f.works ==>
                expected + f.during < |rows| && rows[expected + f.during] == Locked(owner, Some(expected))
      ensures !outcome.Conflict? && !f.works ==> outcome.Failed? && Quiet(rows, expected, |rows|)
      ensures outcome.Saved? <==> !(expected != |old(rows)|) && f.works && f.coreUpdates
      ensures outcome.Saved? ==> outcome.revision == |rows| > expected
      ensures outcome.Saved? ==> forall p :: expected <= p < |rows| ==>
                rows[p].Unlocked? || rows[p] == Locked(owner, Some(expected))
      ensures outcome.Failed? ==> outcome.current == expected
    {
      var current := CurrentRevision();
      if current != expected {
        return Conflict(expected, current);
      }
      var ok := SaveLocked(owner, Some(expected), f);
      if !ok {
        assert rows + Repeated(0) == rows;
        return Failed(current);
      }
      ChangeOutsideLock(f.after);
      current := CurrentRevision();
      outcome := Saved(current);
    }

    // Any steps in any order.
    method Run(steps: seq<Step>)
      requires Valid()
      modifies this
      ensures Valid() && rows == AfterAll(old(rows), steps)
    {
      for i := 0 to |steps|
        invariant Valid() && rows == AfterAll(old(rows), steps[..i])
      {
        assert steps[..i + 1][..i] == steps[..i];
        match steps[i]
        case Unchecked(owner, f) => var ok := Save(owner, f);
        case Checked(owner, expected, f) => var outcome := SaveWithRevision(owner, expected, f);
        case Outside(n) => ChangeOutsideLock(n);
      }
      assert steps[..|steps|] == steps;
    }

    // MAIN: the chain of saves of a quick add. Each save names the revision
    // the one before returned; when all succeed, no other locked save came
    // between the first and the last.
    method QuickAddChain(me: nat, expected: nat, saves: seq<Faults>, between: nat -> seq<Step>)
        returns (created: nat, revision: nat)
      requires Valid()
      modifies this
      ensures Valid() && old(rows) <= rows && created <= |saves|
      ensures created == |saves| > 0 ==> expected >= |old(rows)| && expected < revision <= |rows|
      ensures created == |saves| > 0 ==> forall p :: expected <= p < revision ==>
                rows[p].Unlocked? || rows[p].owner == me
    {
      created, revision := 0, expected;
      while created < |saves|
        invariant Valid() && old(rows) <= rows && created <= |saves|
        invariant created == 0 ==> revision == expected
        invariant created > 0 ==> |old(rows)| <= expected < revision <= |rows|
        invariant created > 0 ==> forall p :: expected <= p < revision ==> rows[p].Unlocked? || rows[p].owner == me
        decreases |saves| - created
      {
        RunsOnlyAppend(rows, between(created));
        Run(between(created));
        var outcome := SaveWithRevision(me, revision, saves[created]);
        if !outcome.Saved? {
          return;
        }
        revision := outcome.revision;
        created := created + 1;
      }
    }
  }

  lemma QuietGrows(rows: seq<Row>, n: nat)
    requires Consistent(rows)
    ensures Consistent(rows + Repeated(n))
  {
    var more := rows + Repeated(n);
    forall p | 0 <= p < |more| && more[p].Locked? && more[p].expected.Some?
      ensures Quiet(more, more[p].expected.value, p)
    {
      assert p < |rows|;
      assert Quiet(rows, rows[p].expected.value, p);
    }
  }
}
