/** The per-organisation limit table (server/lib/billing/limitsService.ts): one row per
    (organisation, feature), keyed by the composite id `orgId-featureId`. Applying a limit
    set replaces all of an organisation's rows inside one transaction; the lookup reads the
    row with the composite id. */
module Limits {
  import opened Common

  /** A row of the `limits` table; `limitId` is the primary key. */
  datatype Limit = Limit(limitId: string, orgId: string, featureId: string, value: Option<real>, description: Option<string>)

  /** One entry of a limit set, in `Object.entries` order. */
  datatype Entry = Entry(featureId: string, value: Option<real>, description: Option<string>)

  /** The composite id `${orgId}-${featureId}`. */
  function LimitId(orgId: string, featureId: string): (id: string)
    ensures |id| == |orgId| + 1 + |featureId| && id[|orgId|] == '-'
    ensures id[..|orgId|] == orgId && id[|orgId| + 1..] == featureId
  {
    orgId + "-" + featureId
  }

  function RowFor(orgId: string, e: Entry): Limit {
    Limit(LimitId(orgId, e.featureId), orgId, e.featureId, e.value, e.description)
  }

  /** The rows an application of `entries` to `orgId` inserts, in insertion order. */
  function RowsOf(orgId: string, entries: seq<Entry>): (r: seq<Limit>)
    ensures |r| == |entries|
    ensures forall i :: 0 <= i < |entries| ==> r[i] == RowFor(orgId, entries[i])
  {
    if entries == [] then [] else [RowFor(orgId, entries[0])] + RowsOf(orgId, entries[1..])
  }

  /** The primary key holds: no two rows share a `limitId`. */
  predicate KeysUnique(rows: seq<Limit>) {
    forall i, j :: 0 <= i < j < |rows| ==> rows[i].limitId != rows[j].limitId
  }

  predicate HasKey(rows: seq<Limit>, id: string) {
    exists i :: 0 <= i < |rows| && rows[i].limitId == id
  }

  /** `delete from limits where orgId = ?`. */
  function Without(rows: seq<Limit>, orgId: string): (r: seq<Limit>)
    ensures forall x :: x in r <==> x in rows && x.orgId != orgId
  {
    if rows == [] then []
    else (if rows[0].orgId == orgId then [] else [rows[0]]) + Without(rows[1..], orgId)
  }

  /** The rows of one organisation, in table order. */
  function OrgRows(rows: seq<Limit>, orgId: string): (r: seq<Limit>)
    ensures forall x :: x in r <==> x in rows && x.orgId == orgId
  {
    if rows == [] then []
    else (if rows[0].orgId == orgId then [rows[0]] else []) + OrgRows(rows[1..], orgId)
  }

  /** Reference definition of the insert loop over the first entries: `None` once an insert
      hits an existing `limitId`, which throws and rolls the transaction back. */
  function InsertAll(base: seq<Limit>, orgId: string, entries: seq<Entry>): (r: Option<seq<Limit>>)
    decreases |entries|
  {
    if entries == [] then Some(base)
    else
      match InsertAll(base, orgId, entries[..|entries| - 1])
      case None => None
      case Some(t) =>
        var row := RowFor(orgId, entries[|entries| - 1]);
        if HasKey(t, row.limitId) then None else Some(t + [row])
  }

  /** Reference definition of `applyLimitSetToOrg`: the new table, and whether it committed. */
  function Apply(rows: seq<Limit>, orgId: string, entries: seq<Entry>): (seq<Limit>, bool) {
    match InsertAll(Without(rows, orgId), orgId, entries)
    case None => (rows, false)
    case Some(t) => (t, true)
  }

  /** The row with the given key, first in table order. */
  function Find(rows: seq<Limit>, id: string): (r: Option<Limit>)
    ensures r.Some? ==> r.value in rows && r.value.limitId == id
    ensures r.None? <==> !HasKey(rows, id)
    ensures r.Some? ==> exists i :: 0 <= i < |rows| && rows[i] == r.value && forall k :: 0 <= k < i ==> rows[k].limitId != id
  {
    if rows == [] then None
    else if rows[0].limitId == id then Some(rows[0])
    else
      var r := Find(rows[1..], id);
      if r.Some? then
        var i :| 0 <= i < |rows[1..]| && rows[1..][i] == r.value && forall k :: 0 <= k < i ==> rows[1..][k].limitId != id;
        assert rows[i + 1] == r.value;
        r
      else
        assert forall i :: 1 <= i < |rows| ==> rows[i] == rows[1..][i - 1];
        r
  }

  /** `getOrgLimit`: the value of the row `orgId-featureId`; none when there is no such row or its value is null. */
  function OrgLimit(rows: seq<Limit>, orgId: string, featureId: string): (r: Option<real>)
    ensures KeysUnique(rows) ==> forall x :: x in rows && x.limitId == LimitId(orgId, featureId) ==> r == x.value
    ensures !HasKey(rows, LimitId(orgId, featureId)) ==> r == None
  {
    var found := Find(rows, LimitId(orgId, featureId));
    if found.Some? then found.value.value else None
  }

  // ---------------------------------------------------------------------
  // The table
  // ---------------------------------------------------------------------

  class LimitsTable {
    var rows: seq<Limit>

    constructor (rows: seq<Limit>)
      ensures this.rows == rows
    {
      this.rows := rows;
    }

    /** `applyLimitSetToOrg`: the delete and the inserts run on the transaction's copy,
        committed only when every insert succeeded. */
    method ApplyLimitSetToOrg(orgId: string, limitSet: seq<Entry>) returns (committed: bool)
      modifies this
      ensures (rows, committed) == Apply(old(rows), orgId, limitSet)
    {
      var base := Without(rows, orgId);
      var trx := base;
      var i := 0;
      while i < |limitSet|
        invariant 0 <= i <= |limitSet|
        invariant InsertAll(base, orgId, limitSet[..i]) == Some(trx)
      {
        var entry := limitSet[i];
        var limitId := orgId + "-" + entry.featureId;
        assert limitSet[..i + 1][..i] == limitSet[..i];
        if HasKey(trx, limitId) {
          InsertFailureIsFinal(base, orgId, limitSet, i + 1);
          return false;
        }
        trx := trx + [Limit(limitId, orgId, entry.featureId, entry.value, entry.description)];
        i := i + 1;
      }
      assert limitSet[..i] == limitSet;
      rows := trx;
      return true;
    }
  }

  // ---------------------------------------------------------------------
  // Properties
  // ---------------------------------------------------------------------

  /** A rolled-back transaction stays rolled back whatever entries follow. */
  lemma {:induction false} InsertFailureIsFinal(base: seq<Limit>, orgId: string, entries: seq<Entry>, k: nat)
    requires k <= |entries| && InsertAll(base, orgId, entries[..k]).None?
    ensures InsertAll(base, orgId, entries).None?
    decreases |entries| - k
  {
    if k < |entries| {
      assert entries[..k + 1][..k] == entries[..k];
      InsertFailureIsFinal(base, orgId, entries, k + 1);
    } else {
      assert entries[..k] == entries;
    }
  }

  lemma KeysUniqueSnoc(rows: seq<Limit>, row: Limit)
    requires KeysUnique(rows)
    ensures KeysUnique(rows + [row]) <==> !HasKey(rows, row.limitId)
  {
    var all := rows + [row];
    if !HasKey(rows, row.limitId) {
      forall i, j | 0 <= i < j < |all| ensures all[i].limitId != all[j].limitId {
        if j == |rows| {
          assert all[i] == rows[i];
        } else {
          assert all[i] == rows[i] && all[j] == rows[j];
        }
      }
    } else {
      var i :| 0 <= i < |rows| && rows[i].limitId == row.limitId;
      assert all[i] == rows[i] && all[|rows|] == row;
    }
  }

  lemma RowsOfSnoc(orgId: string, entries: seq<Entry>)
    requires entries != []
    ensures RowsOf(orgId, entries) == RowsOf(orgId, entries[..|entries| - 1]) + [RowFor(orgId, entries[|entries| - 1])]
  {
  }

  /** The inserts commit exactly when the primary key still holds with every new row
      added, and then the table is the previous rows followed by one row per entry. */
  lemma {:induction false} InsertAllExact(base: seq<Limit>, orgId: string, entries: seq<Entry>)
    requires KeysUnique(base)
    ensures InsertAll(base, orgId, entries).Some? <==> KeysUnique(base + RowsOf(orgId, entries))
    ensures InsertAll(base, orgId, entries).Some? ==> InsertAll(base, orgId, entries).value == base + RowsOf(orgId, entries)
    decreases |entries|
  {
    if entries == [] {
      assert base + RowsOf(orgId, entries) == base;
    } else {
      var init := entries[..|entries| - 1];
      var row := RowFor(orgId, entries[|entries| - 1]);
      InsertAllExact(base, orgId, init);
      RowsOfSnoc(orgId, entries);
      var prefix := base + RowsOf(orgId, init);
      assert base + RowsOf(orgId, entries) == prefix + [row];
      if KeysUnique(prefix) {
        KeysUniqueSnoc(prefix, row);
      } else {
        assert !KeysUnique(prefix + [row]) by {
          var i, j :| 0 <= i < j < |prefix| && prefix[i].limitId == prefix[j].limitId;
          assert (prefix + [row])[i] == prefix[i] && (prefix + [row])[j] == prefix[j];
        }
      }
    }
  }

  lemma {:induction false} OrgRowsAppend(a: seq<Limit>, b: seq<Limit>, orgId: string)
    ensures OrgRows(a + b, orgId) == OrgRows(a, orgId) + OrgRows(b, orgId)
    decreases |a|
  {
    if a == [] {
      assert a + b == b;
    } else {
      assert (a + b)[1..] == a[1..] + b;
      OrgRowsAppend(a[1..], b, orgId);
    }
  }

  lemma {:induction false} OrgRowsOfWithout(rows: seq<Limit>, orgId: string, other: string)
    ensures OrgRows(Without(rows, orgId), other) == if other == orgId then [] else OrgRows(rows, other)
    decreases |rows|
  {
    if rows != [] {
      OrgRowsOfWithout(rows[1..], orgId, other);
      var head := if rows[0].orgId == orgId then [] else [rows[0]];
      OrgRowsAppend(head, Without(rows[1..], orgId), other);
    }
  }

  lemma {:induction false} OrgRowsOfRowsOf(orgId: string, entries: seq<Entry>, other: string)
    ensures OrgRows(RowsOf(orgId, entries), other) == if other == orgId then RowsOf(orgId, entries) else []
    decreases |entries|
  {
    if entries != [] {
      OrgRowsOfRowsOf(orgId, entries[1..], other);
      OrgRowsAppend([RowFor(orgId, entries[0])], RowsOf(orgId, entries[1..]), other);
      assert RowsOf(orgId, entries) == [RowFor(orgId, entries[0])] + RowsOf(orgId, entries[1..]);
    }
  }

  lemma {:induction false} WithoutKeepsKeysUnique(rows: seq<Limit>, orgId: string)
    requires KeysUnique(rows)
    ensures KeysUnique(Without(rows, orgId))
    decreases |rows|
  {
    if rows != [] {
      WithoutKeepsKeysUnique(rows[1..], orgId);
      var rest := Without(rows[1..], orgId);
      if rows[0].orgId != orgId {
        forall j | 0 <= j < |rest| ensures rest[j].limitId != rows[0].limitId {
          assert rest[j] in rows[1..];
          var k :| 0 <= k < |rows[1..]| && rows[1..][k] == rest[j];
          assert rows[k + 1] == rest[j];
        }
        var all := [rows[0]] + rest;
        forall i, j | 0 <= i < j < |all| ensures all[i].limitId != all[j].limitId {
          if i > 0 {
            assert all[i] == rest[i - 1] && all[j] == rest[j - 1];
          } else {
            assert all[j] == rest[j - 1];
          }
        }
      }
    }
  }

  /** Applying keeps the primary key, and commits exactly when no composite id of the
      new rows is taken by another organisation's row or by another entry. */
  lemma ApplyExact(rows: seq<Limit>, orgId: string, entries: seq<Entry>)
    requires KeysUnique(rows)
    ensures var (after, committed) := Apply(rows, orgId, entries);
      && KeysUnique(after)
      && (committed <==> KeysUnique(Without(rows, orgId) + RowsOf(orgId, entries)))
      && (committed ==> after == Without(rows, orgId) + RowsOf(orgId, entries))
      && (!committed ==> after == rows)
  {
    WithoutKeepsKeysUnique(rows, orgId);
    InsertAllExact(Without(rows, orgId), orgId, entries);
  }

  /** After a committed apply the organisation's rows are exactly one per entry, with id
      `orgId-featureId` and the entry's value and description, and every other
      organisation's rows are as they were (also when it rolled back). */
  lemma ApplyReplacesOrgRows(rows: seq<Limit>, orgId: string, entries: seq<Entry>, other: string)
    requires KeysUnique(rows)
    ensures var (after, committed) := Apply(rows, orgId, entries);
      && (committed ==> OrgRows(after, orgId) == RowsOf(orgId, entries))
      && (other != orgId ==> OrgRows(after, other) == OrgRows(rows, other))
  {
    ApplyExact(rows, orgId, entries);
    var (after, committed) := Apply(rows, orgId, entries);
    if committed {
      OrgRowsAppend(Without(rows, orgId), RowsOf(orgId, entries), orgId);
      OrgRowsAppend(Without(rows, orgId), RowsOf(orgId, entries), other);
      OrgRowsOfWithout(rows, orgId, orgId);
      OrgRowsOfWithout(rows, orgId, other);
      OrgRowsOfRowsOf(orgId, entries, orgId);
      OrgRowsOfRowsOf(orgId, entries, other);
    }
  }

  /** Round trip: after a committed apply, the lookup of each entry's feature yields that entry's value. */
  lemma ApplyThenLookup(rows: seq<Limit>, orgId: string, entries: seq<Entry>, i: nat)
    requires KeysUnique(rows) && i < |entries|
    requires Apply(rows, orgId, entries).1
    ensures OrgLimit(Apply(rows, orgId, entries).0, orgId, entries[i].featureId) == entries[i].value
  {
    ApplyExact(rows, orgId, entries);
    var after := Apply(rows, orgId, entries).0;
    var base := Without(rows, orgId);
    assert after[|base| + i] == RowFor(orgId, entries[i]);
    assert after[|base| + i] in after;
  }

  /** A feature the set leaves out has no limit afterwards, unless another organisation's
      row carries the same composite id. */
  lemma ApplyDropsOmitted(rows: seq<Limit>, orgId: string, entries: seq<Entry>, featureId: string)
    requires KeysUnique(rows)
    requires Apply(rows, orgId, entries).1
    requires forall e :: e in entries ==> e.featureId != featureId
    requires forall x :: x in rows && x.orgId != orgId ==> x.limitId != LimitId(orgId, featureId)
    ensures OrgLimit(Apply(rows, orgId, entries).0, orgId, featureId) == None
  {
    ApplyExact(rows, orgId, entries);
    var after := Apply(rows, orgId, entries).0;
    var base := Without(rows, orgId);
    var id := LimitId(orgId, featureId);
    forall k | 0 <= k < |after| ensures after[k].limitId != id {
      if k < |base| {
        assert after[k] == base[k] && base[k] in base;
      } else {
        var e := entries[k - |base|];
        assert e in entries;
        assert after[k] == RowFor(orgId, e);
        assert LimitId(orgId, e.featureId)[|orgId| + 1..] == e.featureId;
      }
    }
  }

  /** Applying the same set twice leaves the table as applying it once. */
  lemma ApplyTwice(rows: seq<Limit>, orgId: string, entries: seq<Entry>)
    requires KeysUnique(rows)
    requires Apply(rows, orgId, entries).1
    ensures Apply(Apply(rows, orgId, entries).0, orgId, entries) == Apply(rows, orgId, entries)
  {
    ApplyExact(rows, orgId, entries);
    var base := Without(rows, orgId);
    var after := base + RowsOf(orgId, entries);
    WithoutAppend(base, RowsOf(orgId, entries), orgId);
    WithoutIdempotent(rows, orgId);
    WithoutOwnRows(orgId, entries);
    assert Without(after, orgId) == base;
  }

  lemma {:induction false} WithoutAppend(a: seq<Limit>, b: seq<Limit>, orgId: string)
    ensures Without(a + b, orgId) == Without(a, orgId) + Without(b, orgId)
    decreases |a|
  {
    if a == [] {
      assert a + b == b;
    } else {
      assert (a + b)[1..] == a[1..] + b;
      WithoutAppend(a[1..], b, orgId);
    }
  }

  lemma {:induction false} WithoutIdempotent(rows: seq<Limit>, orgId: string)
    ensures Without(Without(rows, orgId), orgId) == Without(rows, orgId)
    decreases |rows|
  {
    if rows != [] {
      WithoutIdempotent(rows[1..], orgId);
      var head := if rows[0].orgId == orgId then [] else [rows[0]];
      WithoutAppend(head, Without(rows[1..], orgId), orgId);
    }
  }

  lemma {:induction false} WithoutOwnRows(orgId: string, entries: seq<Entry>)
    ensures Without(RowsOf(orgId, entries), orgId) == []
    decreases |entries|
  {
    if entries != [] {
      WithoutOwnRows(orgId, entries[1..]);
      WithoutAppend([RowFor(orgId, entries[0])], RowsOf(orgId, entries[1..]), orgId);
      assert RowsOf(orgId, entries) == [RowFor(orgId, entries[0])] + RowsOf(orgId, entries[1..]);
    }
  }

  /** Composite ids of different organisations can coincide: org `a` with feature `b-c`
      and org `a-b` with feature `c` share the id `a-b-c`, so the second apply rolls back. */
  lemma CompositeIdsCollide()
    ensures LimitId("a", "b-c") == LimitId("a-b", "c")
    ensures !Apply([RowFor("a", Entry("b-c", None, None))], "a-b", [Entry("c", None, None)]).1
  {
    var rows := [RowFor("a", Entry("b-c", None, None))];
    assert Without(rows, "a-b") == rows;
    assert HasKey(rows, LimitId("a-b", "c"));
  }
}
