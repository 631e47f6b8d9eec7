/** Which backups a retention pass drops. */
module Retention {
  import opened BackupStore
  import opened Sorting

  /** A day in nanoseconds; instants are nanoseconds since the zero time. */
  const DAY: int := 86_400_000_000_000

  /** Zero or negative values switch a rule off. */
  datatype Policy = Policy(retentionDays: int, maxCount: int)

  /** The 64-bit value congruent to n. */
  function Wrap(n: int): int {
    (n + 0x8000_0000_0000_0000) % 0x1_0000_0000_0000_0000 - 0x8000_0000_0000_0000
  }

  /** now.Add(-Duration(days) * 24 * Hour), in 64-bit arithmetic; the zero time means no cutoff. */
  function Cutoff(now: int, p: Policy): int {
    if p.retentionDays > 0 then now + Wrap(-(p.retentionDays * DAY)) else 0
  }

  /** The window is the configured number of days exactly up to 106751 of them. */
  lemma CutoffIsExactly(now: int, p: Policy)
    requires p.retentionDays > 0
    ensures Cutoff(now, p) == now - p.retentionDays * DAY <==> p.retentionDays <= 106_751
  {
    var n := p.retentionDays * DAY;
    if p.retentionDays <= 106_751 {
      assert n <= 106_751 * DAY;
    } else {
      assert n >= 106_752 * DAY;
      assert -n < -0x8000_0000_0000_0000;
    }
  }

  predicate Drops(p: Policy, now: int, i: int, r: Backup) {
    || (p.maxCount > 0 && i >= p.maxCount)
    || (Cutoff(now, p) != 0 && r.created < Cutoff(now, p))
  }

  /** What the policy says of the row at position i of the newest-first list. */
  predicate Covers(p: Policy, now: int, i: int, r: Backup) {
    && (p.maxCount > 0 ==> i < p.maxCount)
    && (p.retentionDays > 0 ==> r.created >= now - p.retentionDays * DAY)
  }

  /** Up to 106751 days the loop drops exactly what the policy does not cover. */
  lemma DropsWhatIsNotCovered(p: Policy, now: int, i: int, r: Backup)
    requires p.retentionDays <= 106_751 && r.created >= 0
    ensures Drops(p, now, i, r) <==> !Covers(p, now, i, r)
  {
    if p.retentionDays > 0 {
      CutoffIsExactly(now, p);
    }
  }

  /** The ids the loop collects, in list order. */
  function DropList(p: Policy, now: int, rows: seq<Backup>): seq<Id> {
    if rows == [] then []
    else
      var last := |rows| - 1;
      DropList(p, now, rows[..last]) + if Drops(p, now, last, rows[last]) then [rows[last].id] else []
  }

  lemma {:induction false} DropListMembers(p: Policy, now: int, rows: seq<Backup>, id: Id)
    ensures id in DropList(p, now, rows) <==> exists i :: 0 <= i < |rows| && rows[i].id == id && Drops(p, now, i, rows[i])
  {
    if rows != [] {
      var last := |rows| - 1;
      DropListMembers(p, now, rows[..last], id);
      forall i | 0 <= i < last
        ensures rows[..last][i] == rows[i]
      {
      }
      if id in DropList(p, now, rows[..last]) {
        var i :| 0 <= i < last && rows[..last][i].id == id && Drops(p, now, i, rows[..last][i]);
        assert rows[i].id == id;
      }
    }
  }

  /** How many rows stay: in newest-first order everything after the first dropped row is dropped too. */
  function KeptCount(p: Policy, now: int, rows: seq<Backup>): (n: nat)
    ensures n <= |rows|
  {
    if rows == [] then 0
    else
      var last := |rows| - 1;
      if Drops(p, now, last, rows[last]) then KeptCount(p, now, rows[..last]) else |rows|
  }

  lemma {:induction false} KeptIsPrefix(p: Policy, now: int, rows: seq<Backup>, i: nat)
    requires Sorted(Newer, rows) && i < |rows|
    ensures Drops(p, now, i, rows[i]) <==> i >= KeptCount(p, now, rows)
  {
    var last := |rows| - 1;
    if Drops(p, now, last, rows[last]) {
      if i < last {
        KeptIsPrefix(p, now, rows[..last], i);
      }
    } else if i < last {
      assert !Newer(rows[last], rows[i]);
    }
  }

  lemma KeptAreCovered(p: Policy, now: int, rows: seq<Backup>, i: nat)
    requires Sorted(Newer, rows) && i < |rows|
    requires p.retentionDays <= 106_751 && rows[i].created >= 0
    ensures i < KeptCount(p, now, rows) <==> Covers(p, now, i, rows[i])
  {
    KeptIsPrefix(p, now, rows, i);
    DropsWhatIsNotCovered(p, now, i, rows[i]);
  }

  /** The rows a pass leaves form the newest-first prefix inside both limits; the rows it drops are over one. */
  lemma RetentionIsPrefix(p: Policy, now: int, rows: seq<Backup>, id: Id)
    requires UniqueIds(rows) && Sorted(Newer, rows)
    ensures id in DropList(p, now, rows) <==>
      exists i :: KeptCount(p, now, rows) <= i < |rows| && rows[i].id == id
  {
    DropListMembers(p, now, rows, id);
    if id in DropList(p, now, rows) {
      var i :| 0 <= i < |rows| && rows[i].id == id && Drops(p, now, i, rows[i]);
      KeptIsPrefix(p, now, rows, i);
    }
    if exists i :: KeptCount(p, now, rows) <= i < |rows| && rows[i].id == id {
      var i :| KeptCount(p, now, rows) <= i < |rows| && rows[i].id == id;
      KeptIsPrefix(p, now, rows, i);
    }
  }

  /** A later pass with the same cutoff drops none of the rows that stayed, however it orders equal instants. */
  lemma SecondPassDropsNothing(p: Policy, now: int, rows: seq<Backup>, left: seq<Backup>)
    requires Sorted(Newer, rows) && UniqueIds(rows) && UniqueIds(left)
    requires TableOf(left) == TableOf(rows) - (set id | id in DropList(p, now, rows))
    ensures DropList(p, now, left) == []
  {
    var n := KeptCount(p, now, rows);
    LeftIsShort(p, now, rows, left);
    forall i | 0 <= i < |left|
      ensures !Drops(p, now, i, left[i])
    {
      assert left[i] in left;
      var k := PositionOf(p, now, rows, left, i);
      KeptIsPrefix(p, now, rows, k);
      if n > 0 {
        KeptIsPrefix(p, now, rows, n - 1);
      }
    }
    NoneDropped(p, now, left);
  }

  lemma {:induction false} NoneDropped(p: Policy, now: int, rows: seq<Backup>)
    requires forall i :: 0 <= i < |rows| ==> !Drops(p, now, i, rows[i])
    ensures DropList(p, now, rows) == []
  {
    if rows != [] {
      NoneDropped(p, now, rows[..|rows| - 1]);
    }
  }

  lemma PositionOf(p: Policy, now: int, rows: seq<Backup>, left: seq<Backup>, i: nat) returns (k: nat)
    requires Sorted(Newer, rows) && UniqueIds(rows) && UniqueIds(left) && i < |left|
    requires TableOf(left) == TableOf(rows) - (set id | id in DropList(p, now, rows))
    ensures k < KeptCount(p, now, rows) && rows[k] == left[i]
  {
    assert left[i] in left;
    assert left[i].id in TableOf(left);
    assert TableOf(rows)[left[i].id] in rows;
    k :| 0 <= k < |rows| && rows[k] == left[i];
    RetentionIsPrefix(p, now, rows, left[i].id);
  }

  function Ids(rows: seq<Backup>): set<Id> {
    set r | r in rows :: r.id
  }

  lemma {:induction false} IdSetSize(rows: seq<Backup>)
    requires UniqueIds(rows)
    ensures |Ids(rows)| == |rows|
  {
    if rows != [] {
      var front, last := rows[..|rows| - 1], rows[|rows| - 1];
      IdSetSize(front);
      assert rows == front + [last];
      assert Ids(rows) == Ids(front) + {last.id};
      assert last.id !in Ids(front);
    }
  }

  lemma LeftIsInPrefix(p: Policy, now: int, rows: seq<Backup>, left: seq<Backup>, id: Id)
    requires Sorted(Newer, rows) && UniqueIds(rows) && UniqueIds(left)
    requires TableOf(left) == TableOf(rows) - (set id | id in DropList(p, now, rows))
    requires id in Ids(left)
    ensures id in Ids(rows[..KeptCount(p, now, rows)])
  {
    var r :| r in left && r.id == id;
    var i :| 0 <= i < |left| && left[i] == r;
    var k := PositionOf(p, now, rows, left, i);
    assert rows[..KeptCount(p, now, rows)][k] == r;
  }

  lemma LeftIsShort(p: Policy, now: int, rows: seq<Backup>, left: seq<Backup>)
    requires Sorted(Newer, rows) && UniqueIds(rows) && UniqueIds(left)
    requires TableOf(left) == TableOf(rows) - (set id | id in DropList(p, now, rows))
    ensures |left| <= KeptCount(p, now, rows)
  {
    var prefix := rows[..KeptCount(p, now, rows)];
    forall id | id in Ids(left)
      ensures id in Ids(prefix)
    {
      LeftIsInPrefix(p, now, rows, left, id);
    }
    IdSetSize(left);
    IdSetSize(prefix);
    SubsetCard(Ids(left), Ids(prefix));
  }

  /** At most maxCount rows stay. */
  lemma KeptWithinCount(p: Policy, now: int, rows: seq<Backup>)
    requires Sorted(Newer, rows) && p.maxCount > 0
    ensures KeptCount(p, now, rows) <= p.maxCount
  {
    if p.maxCount < |rows| {
      KeptIsPrefix(p, now, rows, p.maxCount);
    }
  }

  /** Past 106751 days the 64-bit duration wraps: at 106752 a pass drops even a backup made this instant. */
  lemma WrappedWindowDropsEverything(r: Backup)
    requires r.created >= 0
    ensures Drops(Policy(106_752, 0), r.created, 0, r)
  {
  }
}
