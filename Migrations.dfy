/** The SQLite migration planner and runner (server/setup/migrationsSqlite.ts):
    the scripted migration list, the start version read from the recorded
    versions, the pending list, the run loop with its error policy, and the
    top-level choice between a fresh and an existing database. */
module Migrations {
  import opened Common
  import opened SemVer

  function Beta(n: nat): Version {
    Version(1, 0, 0, [Alpha("beta"), Num(n)], [])
  }

  function Release(major: nat, minor: nat, patch: nat): Version {
    Version(major, minor, patch, [], [])
  }

  /** The `version` of each entry of `migrations`, as written. */
  const MigrationTexts: seq<string> := [
    "1.0.0-beta.1", "1.0.0-beta.2", "1.0.0-beta.3", "1.0.0-beta.5", "1.0.0-beta.6",
    "1.0.0-beta.9", "1.0.0-beta.10", "1.0.0-beta.12", "1.0.0-beta.13", "1.0.0-beta.15",
    "1.0.0", "1.1.0", "1.2.0", "1.3.0", "1.5.0", "1.6.0", "1.7.0", "1.8.0", "1.9.0",
    "1.10.0", "1.10.1", "1.10.2", "1.11.0"]

  /** The same list as versions: the betas of 1.0.0, then the releases. */
  const MigrationList: seq<Version> := [
    Beta(1), Beta(2), Beta(3), Beta(5), Beta(6), Beta(9), Beta(10), Beta(12), Beta(13), Beta(15),
    Release(1, 0, 0), Release(1, 1, 0), Release(1, 2, 0), Release(1, 3, 0), Release(1, 5, 0),
    Release(1, 6, 0), Release(1, 7, 0), Release(1, 8, 0), Release(1, 9, 0), Release(1, 10, 0),
    Release(1, 10, 1), Release(1, 10, 2), Release(1, 11, 0)]

  /** `APP_VERSION` (server/lib/consts.ts). */
  const AppVersionText: string := "1.11.0"
  const AppVersion: Version := Release(1, 11, 0)

  lemma BetaWellFormed(n: nat)
    ensures WellFormed(Beta(n))
  {
    var b := "beta";
    assert IdentChar(b[0]) && IdentChar(b[1]) && IdentChar(b[2]) && IdentChar(b[3]);
    assert !IsDigit(b[0]);
    assert ValidIdent(Beta(n).pre[0]);
  }

  /** Every listed version is a beta of 1.0.0 or a release, and so well formed. */
  lemma ListWellFormed()
    ensures |MigrationList| == |MigrationTexts| == 23
    ensures forall v :: v in MigrationList ==> WellFormed(v)
  {
    BetaWellFormed(1); BetaWellFormed(2); BetaWellFormed(3); BetaWellFormed(5); BetaWellFormed(6);
    BetaWellFormed(9); BetaWellFormed(10); BetaWellFormed(12); BetaWellFormed(13); BetaWellFormed(15);
    assert forall i :: 0 <= i < |MigrationList| ==> WellFormed(MigrationList[i]);
  }

  lemma RenderBeta(n: nat)
    ensures WellFormed(Beta(n)) && Render(Beta(n)) == "1.0.0-beta." + NatToString(n)
  {
    BetaWellFormed(n);
    OneZeroZero();
    RenderBetaPre(n);
    assert RenderBuild(Beta(n)) == "";
  }

  lemma RenderBetaPre(n: nat)
    ensures WellFormed(Beta(n)) && RenderPre(Beta(n)) == "-beta." + NatToString(n)
  {
    BetaWellFormed(n);
    var ids := RenderIdents(Beta(n).pre);
    assert ids[0] == "beta" && ids[1] == NatToString(n);
    assert ids == ["beta", NatToString(n)];
    Join2("beta", NatToString(n), '.');
  }

  lemma OneZeroZero()
    ensures NatToString(1) + "." + NatToString(0) + "." + NatToString(0) == "1.0.0"
  {
    assert NatToString(1) == "1" && NatToString(0) == "0";
  }

  lemma Join2(a: string, b: string, sep: char)
    ensures Join([a, b], sep) == a + [sep] + b
  {
    assert [a, b][1..] == [b];
  }

  lemma RenderRelease(major: nat, minor: nat, patch: nat)
    ensures WellFormed(Release(major, minor, patch))
    ensures Render(Release(major, minor, patch)) == NatToString(major) + "." + NatToString(minor) + "." + NatToString(patch)
  {
  }

  /** One beta entry of the list: its version renders to its text. */
  lemma BetaAt(i: nat, n: nat)
    requires i < 10 && MigrationList[i] == Beta(n) && MigrationTexts[i] == "1.0.0-beta." + NatToString(n)
    ensures WellFormed(MigrationList[i]) && Render(MigrationList[i]) == MigrationTexts[i]
  {
    RenderBeta(n);
  }

  /** One release entry of the list: its version renders to its text. */
  lemma ReleaseAt(i: nat, minor: nat, patch: nat)
    requires 10 <= i < 23 && MigrationList[i] == Release(1, minor, patch)
    requires MigrationTexts[i] == "1." + NatToString(minor) + "." + NatToString(patch)
    ensures WellFormed(MigrationList[i]) && Render(MigrationList[i]) == MigrationTexts[i]
  {
    RenderRelease(1, minor, patch);
    assert NatToString(1) == "1";
  }

  lemma RenderedBetas()
    ensures forall i :: 0 <= i < 10 ==> WellFormed(MigrationList[i]) && Render(MigrationList[i]) == MigrationTexts[i]
  {
    forall i | 0 <= i < 10
      ensures WellFormed(MigrationList[i]) && Render(MigrationList[i]) == MigrationTexts[i]
    {
      if i == 0 { BetaAt(0, 1); }
      else if i == 1 { BetaAt(1, 2); }
      else if i == 2 { BetaAt(2, 3); }
      else if i == 3 { BetaAt(3, 5); }
      else if i == 4 { BetaAt(4, 6); }
      else if i == 5 { BetaAt(5, 9); }
      else if i == 6 { assert NatToString(10) == "10"; BetaAt(6, 10); }
      else if i == 7 { assert NatToString(12) == "12"; BetaAt(7, 12); }
      else if i == 8 { assert NatToString(13) == "13"; BetaAt(8, 13); }
      else { assert NatToString(15) == "15"; BetaAt(9, 15); }
    }
  }

  lemma RenderedReleases()
    ensures forall i :: 10 <= i < 23 ==> WellFormed(MigrationList[i]) && Render(MigrationList[i]) == MigrationTexts[i]
  {
    forall i | 10 <= i < 23
      ensures WellFormed(MigrationList[i]) && Render(MigrationList[i]) == MigrationTexts[i]
    {
      if i == 10 { ReleaseAt(10, 0, 0); }
      else if i == 11 { ReleaseAt(11, 1, 0); }
      else if i == 12 { ReleaseAt(12, 2, 0); }
      else if i == 13 { ReleaseAt(13, 3, 0); }
      else if i == 14 { ReleaseAt(14, 5, 0); }
      else if i == 15 { ReleaseAt(15, 6, 0); }
      else if i == 16 { ReleaseAt(16, 7, 0); }
      else if i == 17 { ReleaseAt(17, 8, 0); }
      else if i == 18 { ReleaseAt(18, 9, 0); }
      else if i == 19 { assert NatToString(10) == "10"; ReleaseAt(19, 10, 0); }
      else if i == 20 { assert NatToString(10) == "10"; ReleaseAt(20, 10, 1); }
      else if i == 21 { assert NatToString(10) == "10"; ReleaseAt(21, 10, 2); }
      else { assert NatToString(11) == "11"; ReleaseAt(22, 11, 0); }
    }
  }

  /** The texts are the canonical forms of the versions. */
  lemma RenderedTexts()
    ensures |MigrationList| == |MigrationTexts| == 23
    ensures forall i :: 0 <= i < |MigrationList| ==> WellFormed(MigrationList[i]) && Render(MigrationList[i]) == MigrationTexts[i]
  {
    RenderedBetas();
    RenderedReleases();
  }

  /** Each text of the list parses to its version, and `APP_VERSION` to the last one. */
  lemma TextsAreVersions()
    ensures forall i :: 0 <= i < |MigrationList| ==> Parse(MigrationTexts[i]) == Some(MigrationList[i])
  {
    RenderedTexts();
    forall i | 0 <= i < |MigrationList| ensures Parse(MigrationTexts[i]) == Some(MigrationList[i]) {
      ParseRender(MigrationList[i]);
    }
  }

  /** `APP_VERSION` is the text of the last listed version. */
  lemma AppVersionIsLast()
    ensures WellFormed(AppVersion) && Render(AppVersion) == AppVersionText && Parse(AppVersionText) == Some(AppVersion)
    ensures AppVersion == MigrationList[|MigrationList| - 1]
  {
    RenderAppVersion();
    ParseRender(AppVersion);
  }

  lemma RenderAppVersion()
    ensures WellFormed(AppVersion) && Render(AppVersion) == AppVersionText
  {
    RenderRelease(1, 11, 0);
    assert NatToString(1) == "1" && NatToString(11) == "11" && NatToString(0) == "0";
  }

  /** Every entry precedes every later one.  The pairs are named by `InOrder`,
      so the fact is unfolded only for the pairs a proof asks about. */
  predicate Ascending(vs: seq<Version>) {
    forall i, j :: 0 <= i < j < |vs| ==> InOrder(vs, i, j)
  }

  predicate InOrder(vs: seq<Version>, i: int, j: int)
    requires 0 <= i < |vs| && 0 <= j < |vs|
  {
    Lt(vs[i], vs[j])
  }

  lemma {:induction false} AdjacentAscending(vs: seq<Version>)
    requires forall i :: 0 <= i < |vs| - 1 ==> Lt(vs[i], vs[i + 1])
    ensures Ascending(vs)
    decreases |vs|
  {
    if |vs| > 1 {
      var tail := vs[1..];
      AdjacentAscending(tail);
      forall i, j | 0 <= i < j < |vs| ensures InOrder(vs, i, j) {
        if i > 0 {
          assert InOrder(tail, i - 1, j - 1);
          assert vs[i] == tail[i - 1] && vs[j] == tail[j - 1];
        } else if j > 1 {
          assert InOrder(tail, 0, j - 1);
          assert vs[1] == tail[0] && vs[j] == tail[j - 1];
          LtOrder(vs[0], vs[1], vs[j]);
        }
      }
    }
  }

  /** The list is strictly ascending in precedence: every beta before 1.0.0, beta.9 before beta.10. */
  lemma ListAscending()
    ensures Ascending(MigrationList)
  {
    forall i | 0 <= i < |MigrationList| - 1 ensures Lt(MigrationList[i], MigrationList[i + 1]) {
      AdjacentInOrder(i);
    }
    AdjacentAscending(MigrationList);
  }

  lemma AdjacentInOrder(i: nat)
    requires i < |MigrationList| - 1
    ensures Lt(MigrationList[i], MigrationList[i + 1])
  {
    if i < 5 { EarlyBetasInOrder(i); }
    else if i < 10 { LateBetasInOrder(i); }
    else if i < 16 { EarlyReleasesInOrder(i); }
    else { LateReleasesInOrder(i); }
  }

  lemma EarlyBetasInOrder(i: nat)
    requires i < 5
    ensures Lt(MigrationList[i], MigrationList[i + 1])
  {
    if i == 0 { BetasInOrder(1, 2); }
    else if i == 1 { BetasInOrder(2, 3); }
    else if i == 2 { BetasInOrder(3, 5); }
    else if i == 3 { BetasInOrder(5, 6); }
    else { BetasInOrder(6, 9); }
  }

  lemma LateBetasInOrder(i: nat)
    requires 5 <= i < 10
    ensures Lt(MigrationList[i], MigrationList[i + 1])
  {
    if i == 5 { BetasInOrder(9, 10); }
    else if i == 6 { BetasInOrder(10, 12); }
    else if i == 7 { BetasInOrder(12, 13); }
    else if i == 8 { BetasInOrder(13, 15); }
    else { BetaBelowRelease(15); }
  }

  lemma EarlyReleasesInOrder(i: nat)
    requires 10 <= i < 16
    ensures Lt(MigrationList[i], MigrationList[i + 1])
  {
    if i == 10 { ReleasesInOrder(1, 0, 0, 1, 1, 0); }
    else if i == 11 { ReleasesInOrder(1, 1, 0, 1, 2, 0); }
    else if i == 12 { ReleasesInOrder(1, 2, 0, 1, 3, 0); }
    else if i == 13 { ReleasesInOrder(1, 3, 0, 1, 5, 0); }
    else if i == 14 { ReleasesInOrder(1, 5, 0, 1, 6, 0); }
    else { ReleasesInOrder(1, 6, 0, 1, 7, 0); }
  }

  lemma LateReleasesInOrder(i: nat)
    requires 16 <= i < 22
    ensures Lt(MigrationList[i], MigrationList[i + 1])
  {
    if i == 16 { ReleasesInOrder(1, 7, 0, 1, 8, 0); }
    else if i == 17 { ReleasesInOrder(1, 8, 0, 1, 9, 0); }
    else if i == 18 { ReleasesInOrder(1, 9, 0, 1, 10, 0); }
    else if i == 19 { ReleasesInOrder(1, 10, 0, 1, 10, 1); }
    else if i == 20 { ReleasesInOrder(1, 10, 1, 1, 10, 2); }
    else { ReleasesInOrder(1, 10, 2, 1, 11, 0); }
  }

  /** Betas of 1.0.0 compare by their number (section 11.4.1). */
  lemma BetasInOrder(a: nat, b: nat)
    requires a < b
    ensures Lt(Beta(a), Beta(b))
  {
    CompareTextProps("beta", "beta");
    assert CompareIdent(Alpha("beta"), Alpha("beta")) == 0;
    assert ComparePre([Num(a)], [Num(b)]) == -1;
    assert Beta(a).pre[1..] == [Num(a)] && Beta(b).pre[1..] == [Num(b)];
  }

  /** A beta of 1.0.0 is below 1.0.0 itself (section 11.3). */
  lemma BetaBelowRelease(n: nat)
    ensures Lt(Beta(n), Release(1, 0, 0))
  {
  }

  /** Releases compare by major, minor, patch. */
  lemma ReleasesInOrder(a1: nat, b1: nat, c1: nat, a2: nat, b2: nat, c2: nat)
    requires a1 < a2 || (a1 == a2 && (b1 < b2 || (b1 == b2 && c1 < c2)))
    ensures Lt(Release(a1, b1, c1), Release(a2, b2, c2))
  {
  }

  // ---------------------------------------------------------------------
  // Planning
  // ---------------------------------------------------------------------

  /** Every recorded version, read; `None` when one does not parse, where `semver` throws. */
  function ParseAll(texts: seq<string>): (r: Option<seq<Version>>)
    ensures r.Some? ==> |r.value| == |texts| && forall i :: 0 <= i < |texts| ==> Parse(texts[i]) == Some(r.value[i])
    ensures r.None? <==> exists i :: 0 <= i < |texts| && Parse(texts[i]).None?
  {
    if exists i :: 0 <= i < |texts| && Parse(texts[i]).None? then None
    else Some(seq(|texts|, i requires 0 <= i < |texts| => Parse(texts[i]).value))
  }

  /** The head of the descending stable sort: the first version of highest precedence. */
  function Greatest(vs: seq<Version>): (r: Version)
    requires vs != []
    ensures r in vs
    ensures forall v :: v in vs ==> !Lt(r, v)
    decreases |vs|
  {
    if |vs| == 1 then LtOrder(vs[0], vs[0], vs[0]); vs[0]
    else
      var init := vs[..|vs| - 1];
      var g := Greatest(init);
      var last := vs[|vs| - 1];
      assert vs == init + [last];
      if Lt(g, last) then
        assert forall v :: v in init ==> !Lt(last, v) by {
          forall v | v in init ensures !Lt(last, v) {
            LtOrder(g, last, v);
          }
        }
        LtOrder(last, last, last);
        last
      else
        LtOrder(g, g, g);
        g
  }

  /** `pendingMigrations[0]?.version ?? APP_VERSION`, read. */
  function StartVersion(recorded: seq<Version>): (r: Version)
    ensures recorded == [] ==> r == AppVersion
    ensures recorded != [] ==> r in recorded && forall v :: v in recorded ==> !Lt(r, v)
  {
    if recorded == [] then AppVersion else Greatest(recorded)
  }

  /** `migrations.filter(m => semver.gt(m.version, start))`. */
  function Pending(list: seq<Version>, start: Version): (r: seq<Version>)
    ensures |r| <= |list|
    ensures forall v :: v in r <==> v in list && Lt(start, v)
    ensures (forall i :: 0 <= i < |list| ==> !Lt(start, list[i])) ==> r == []
  {
    if list == [] then []
    else (if Lt(start, list[0]) then [list[0]] else []) + Pending(list[1..], start)
  }

  lemma {:induction false} PendingAll(list: seq<Version>, start: Version)
    requires forall i :: 0 <= i < |list| ==> Lt(start, list[i])
    ensures Pending(list, start) == list
    decreases |list|
  {
    if list != [] {
      PendingAll(list[1..], start);
    }
  }

  /** The filter keeps list order: the plan of a concatenation is the plan of its
      front followed by the plan of its back. */
  lemma {:induction false} PendingAppend(a: seq<Version>, b: seq<Version>, start: Version)
    ensures Pending(a + b, start) == Pending(a, start) + Pending(b, start)
    decreases |a|
  {
    if a == [] {
      assert a + b == b;
    } else {
      assert (a + b)[1..] == a[1..] + b;
      PendingAppend(a[1..], b, start);
    }
  }

  /** On an ascending list the pending migrations are a suffix of it, so they run in list order. */
  lemma {:induction false} PendingIsSuffix(list: seq<Version>, start: Version)
    requires Ascending(list)
    ensures exists k :: 0 <= k <= |list| && Pending(list, start) == list[k..]
    decreases |list|
  {
    if list == [] {
      assert Pending(list, start) == list[0..];
    } else if Lt(start, list[0]) {
      forall i | 0 <= i < |list| ensures Lt(start, list[i]) {
        if i > 0 {
          assert InOrder(list, 0, i);
          LtOrder(start, list[0], list[i]);
        }
      }
      PendingAll(list, start);
      assert list == list[0..];
    } else {
      forall i, j | 0 <= i < j < |list| - 1 ensures InOrder(list[1..], i, j) {
        assert InOrder(list, i + 1, j + 1);
      }
      PendingIsSuffix(list[1..], start);
      var k :| 0 <= k <= |list[1..]| && Pending(list[1..], start) == list[1..][k..];
      assert list[1..][k..] == list[k + 1..];
    }
  }

  // ---------------------------------------------------------------------
  // The run loop
  // ---------------------------------------------------------------------

  /** How a migration (script, then version insert) fails; absent from the map means it succeeds. */
  datatype ScriptError = UniqueViolation | OtherError

  /** The versions recorded so far, and whether the loop was thrown out of. */
  datatype RunState = RunState(recorded: seq<Version>, stopped: bool)

  /** One iteration of the loop: `m` runs unless the loop was already thrown out of. */
  function Next(before: RunState, m: Version, errors: map<Version, ScriptError>): (r: RunState)
    ensures r.recorded == before.recorded || r.recorded == before.recorded + [m]
  {
    if before.stopped then before
    else if m !in errors then before.(recorded := before.recorded + [m])
    else if errors[m] == UniqueViolation then before
    else before.(stopped := true)
  }

  /** Reference definition of the loop over the first pending migrations, iteration by iteration. */
  function RunPrefix(pending: seq<Version>, errors: map<Version, ScriptError>): (r: RunState)
    ensures forall v :: v in r.recorded ==> v in pending
    decreases |pending|
  {
    if pending == [] then RunState([], false)
    else Next(RunPrefix(pending[..|pending| - 1], errors), pending[|pending| - 1], errors)
  }

  lemma PrefixStep(pending: seq<Version>, i: nat, errors: map<Version, ScriptError>)
    requires i < |pending|
    ensures RunPrefix(pending[..i + 1], errors) == Next(RunPrefix(pending[..i], errors), pending[i], errors)
  {
    assert pending[..i + 1][..i] == pending[..i];
  }

  /** The same loop read from the front. */
  function Run(pending: seq<Version>, errors: map<Version, ScriptError>): (r: RunState)
    ensures forall v :: v in r.recorded ==> v in pending
  {
    if pending == [] then RunState([], false)
    else if pending[0] in errors && errors[pending[0]] == OtherError then RunState([], true)
    else
      var rest := Run(pending[1..], errors);
      if pending[0] !in errors then rest.(recorded := [pending[0]] + rest.recorded) else rest
  }

  lemma {:induction false} RunSnoc(pending: seq<Version>, m: Version, errors: map<Version, ScriptError>)
    ensures Run(pending + [m], errors) == Next(Run(pending, errors), m, errors)
    decreases |pending|
  {
    if pending == [] {
      assert [] + [m] == [m];
      assert [m][1..] == [];
    } else {
      assert (pending + [m])[1..] == pending[1..] + [m];
      RunSnoc(pending[1..], m, errors);
    }
  }

  /** The iterative loop and the front-to-back reading agree. */
  lemma {:induction false} RunPrefixIsRun(pending: seq<Version>, errors: map<Version, ScriptError>)
    ensures RunPrefix(pending, errors) == Run(pending, errors)
    decreases |pending|
  {
    if pending != [] {
      var init := pending[..|pending| - 1];
      RunPrefixIsRun(init, errors);
      RunSnoc(init, pending[|pending| - 1], errors);
      assert init + [pending[|pending| - 1]] == pending;
    }
  }

  /** Error policy: a migration is recorded iff it succeeded and no earlier one failed
      with another error; a unique violation skips it; another error stops the run. */
  lemma RunPolicy(pending: seq<Version>, errors: map<Version, ScriptError>)
    ensures var r := Run(pending, errors);
      && (forall v :: v in r.recorded ==> v !in errors)
      && (r.stopped <==> exists i :: 0 <= i < |pending| && pending[i] in errors && errors[pending[i]] == OtherError)
      && ((forall i :: 0 <= i < |pending| ==> pending[i] !in errors) ==> r == RunState(pending, false))
  {
    RunRecordsNoErrors(pending, errors);
    RunStoppedIff(pending, errors);
    RunCleanRecordsAll(pending, errors);
  }

  lemma {:induction false} RunRecordsNoErrors(pending: seq<Version>, errors: map<Version, ScriptError>)
    ensures forall v :: v in Run(pending, errors).recorded ==> v !in errors
    decreases |pending|
  {
    if pending != [] {
      RunRecordsNoErrors(pending[1..], errors);
    }
  }

  lemma {:induction false} RunStoppedIff(pending: seq<Version>, errors: map<Version, ScriptError>)
    ensures Run(pending, errors).stopped <==>
      exists i :: 0 <= i < |pending| && pending[i] in errors && errors[pending[i]] == OtherError
    decreases |pending|
  {
    if pending != [] {
      RunStoppedIff(pending[1..], errors);
      if Run(pending[1..], errors).stopped {
        var i :| 0 <= i < |pending[1..]| && pending[1..][i] in errors && errors[pending[1..][i]] == OtherError;
        assert pending[i + 1] == pending[1..][i];
      }
      if exists i :: 0 <= i < |pending| && pending[i] in errors && errors[pending[i]] == OtherError {
        var i :| 0 <= i < |pending| && pending[i] in errors && errors[pending[i]] == OtherError;
        if i > 0 { assert pending[1..][i - 1] == pending[i]; }
      }
    }
  }

  lemma {:induction false} RunCleanRecordsAll(pending: seq<Version>, errors: map<Version, ScriptError>)
    ensures (forall i :: 0 <= i < |pending| ==> pending[i] !in errors) ==> Run(pending, errors) == RunState(pending, false)
    decreases |pending|
  {
    if pending != [] && forall i :: 0 <= i < |pending| ==> pending[i] !in errors {
      assert pending[0] !in errors;
      assert forall i :: 0 <= i < |pending[1..]| ==> pending[1..][i] !in errors by {
        forall i | 0 <= i < |pending[1..]| ensures pending[1..][i] !in errors {
          assert pending[1..][i] == pending[i + 1];
        }
      }
      RunCleanRecordsAll(pending[1..], errors);
      assert [pending[0]] + pending[1..] == pending;
    }
  }

  /** After another error nothing later runs: what is recorded precedes the failing migration. */
  lemma {:induction false} RunStopsAtError(pending: seq<Version>, errors: map<Version, ScriptError>, k: nat)
    requires k < |pending| && pending[k] in errors && errors[pending[k]] == OtherError
    ensures Run(pending, errors) == Run(pending[..k], errors).(stopped := true)
    decreases k
  {
    if k == 0 {
    } else {
      RunStopsAtError(pending[1..], errors, k - 1);
      assert pending[1..][..k - 1] == pending[..k][1..];
      RunPolicy(pending[..k], errors);
    }
  }

  // ---------------------------------------------------------------------
  // The runner against the version table
  // ---------------------------------------------------------------------

  /** What a run ends in: disabled, completed, or failed (logged, followed by the day-long sleep). */
  datatype RunResult = Disabled | Completed | Failed

  /** The version texts inserted for migrations of the list. */
  function RenderAll(vs: seq<Version>): (r: seq<string>)
    requires forall v :: v in vs ==> WellFormed(v)
    ensures |r| == |vs|
    ensures forall i :: 0 <= i < |vs| ==> r[i] == Render(vs[i])
  {
    if vs == [] then [] else [Render(vs[0])] + RenderAll(vs[1..])
  }

  lemma {:induction false} RenderAllSnoc(vs: seq<Version>, v: Version)
    requires forall x :: x in vs ==> WellFormed(x)
    requires WellFormed(v)
    ensures RenderAll(vs + [v]) == RenderAll(vs) + [Render(v)]
  {
    var both := vs + [v];
    assert forall x :: x in both ==> WellFormed(x);
  }

  /** The versions still to run after the given recorded ones. */
  function PendingFor(recorded: seq<Version>): (r: seq<Version>)
    ensures forall v :: v in r ==> WellFormed(v)
  {
    ListWellFormed();
    Pending(MigrationList, StartVersion(recorded))
  }

  /** The table and the result after a run over `pending` from `records`. */
  function AfterRun(records: seq<string>, pending: seq<Version>, errors: map<Version, ScriptError>): (seq<string>, RunResult)
    requires forall v :: v in pending ==> WellFormed(v)
  {
    (records + RenderAll(Run(pending, errors).recorded), if Run(pending, errors).stopped then Failed else Completed)
  }

  /** Reference definition of `executeScripts` on the recorded version texts. */
  function ExecuteScriptsEffect(records: seq<string>, errors: map<Version, ScriptError>): (seq<string>, RunResult) {
    if ParseAll(records).None? then (records, Failed)
    else AfterRun(records, PendingFor(ParseAll(records).value), errors)
  }

  /** Reference definition of `runMigrations`. */
  function RunMigrationsEffect(records: seq<string>, disabled: bool, dbExists: bool, freshInsertFails: bool,
                         errors: map<Version, ScriptError>): (seq<string>, RunResult) {
    if disabled then (records, Disabled)
    else if dbExists then ExecuteScriptsEffect(records, errors)
    else if freshInsertFails then (records, Failed)
    else (records + [AppVersionText], Completed)
  }

  /** The `versionMigrations` table. */
  class VersionTable {
    var records: seq<string>

    constructor (records: seq<string>)
      ensures this.records == records
    {
      this.records := records;
    }

    /** The loop of `executeScripts` over the planned migrations. */
    method RunPending(pending: seq<Version>, errors: map<Version, ScriptError>) returns (stopped: bool)
      requires forall v :: v in pending ==> WellFormed(v)
      modifies this
      ensures records == old(records) + RenderAll(Run(pending, errors).recorded)
      ensures stopped == Run(pending, errors).stopped
    {
      ghost var start := records;
      var i := 0;
      while i < |pending|
        invariant 0 <= i <= |pending|
        invariant !RunPrefix(pending[..i], errors).stopped
        invariant records == start + RenderAll(RunPrefix(pending[..i], errors).recorded)
      {
        var migration := pending[i];
        PrefixStep(pending, i, errors);
        if migration in errors && errors[migration] == OtherError {
          RunStopsAtError(pending, errors, i);
          RunPrefixIsRun(pending[..i], errors);
          return true;
        }
        if migration !in errors {
          RenderAllSnoc(RunPrefix(pending[..i], errors).recorded, migration);
          records := records + [Render(migration)];
        }
        i := i + 1;
      }
      assert pending[..i] == pending;
      RunPrefixIsRun(pending, errors);
      return false;
    }

    /** `executeScripts`. */
    method ExecuteScripts(errors: map<Version, ScriptError>) returns (result: RunResult)
      modifies this
      ensures (records, result) == ExecuteScriptsEffect(old(records), errors)
    {
      var parsed := ParseAll(records);
      if parsed.None? {
        return Failed;
      }
      var start := StartVersion(parsed.value);
      var pending := Pending(MigrationList, start);
      ListWellFormed();
      var stopped := RunPending(pending, errors);
      result := if stopped then Failed else Completed;
    }

    /** `runMigrations`: `DISABLE_MIGRATIONS`, then the scripts on an existing database, else the initial schema and the `APP_VERSION` record. */
    method RunMigrations(disabled: bool, dbExists: bool, freshInsertFails: bool, errors: map<Version, ScriptError>)
      returns (result: RunResult)
      modifies this
      ensures (records, result) == RunMigrationsEffect(old(records), disabled, dbExists, freshInsertFails, errors)
    {
      if disabled {
        return Disabled;
      }
      if dbExists {
        result := ExecuteScripts(errors);
      } else if freshInsertFails {
        result := Failed;
      } else {
        records := records + [AppVersionText];
        result := Completed;
      }
    }
  }

  // ---------------------------------------------------------------------
  // Properties of the runner
  // ---------------------------------------------------------------------

  lemma ParseRenderAll(records: seq<string>, vs: seq<Version>)
    requires ParseAll(records).Some?
    requires forall v :: v in vs ==> WellFormed(v)
    ensures ParseAll(records + RenderAll(vs)) == Some(ParseAll(records).value + vs)
  {
    var texts := records + RenderAll(vs);
    var parsed := ParseAll(records).value + vs;
    forall i | 0 <= i < |texts| ensures Parse(texts[i]) == Some(parsed[i]) {
      if i >= |records| {
        ParseRender(vs[i - |records|]);
      }
    }
    var r := ParseAll(texts);
    assert r.Some?;
    assert forall i :: 0 <= i < |texts| ==> r.value[i] == parsed[i];
    assert r.value == parsed;
  }

  /** With no failing migration the run records every pending version, in list order. */
  lemma CleanRunRecordsAll(records: seq<string>)
    requires ParseAll(records).Some?
    ensures ExecuteScriptsEffect(records, map[]) == (records + RenderAll(PendingFor(ParseAll(records).value)), Completed)
  {
    RunPolicy(PendingFor(ParseAll(records).value), map[]);
  }

  /** Once the last listed version is at or below the start, nothing is pending. */
  lemma NothingAboveLast(start: Version)
    requires !Lt(start, MigrationList[|MigrationList| - 1])
    ensures Pending(MigrationList, start) == []
  {
    var list := MigrationList;
    assert Ascending(list) by { ListAscending(); }
    NothingAboveMaximum(list, start);
  }

  /** On an ascending list, nothing is above a version that is not below the last entry. */
  lemma NothingAboveMaximum(list: seq<Version>, start: Version)
    requires Ascending(list) && list != [] && !Lt(start, list[|list| - 1])
    ensures Pending(list, start) == []
  {
    var last := list[|list| - 1];
    forall j | 0 <= j < |list| ensures !Lt(start, list[j]) {
      if j < |list| - 1 && Lt(start, list[j]) {
        assert InOrder(list, j, |list| - 1);
        LtOrder(start, list[j], last);
      }
    }
  }

  /** When the highest recorded version is at or above the last listed one, a run changes nothing. */
  lemma UpToDateRunsNothing(records: seq<string>, errors: map<Version, ScriptError>)
    requires ParseAll(records).Some?
    requires !Lt(StartVersion(ParseAll(records).value), MigrationList[|MigrationList| - 1])
    ensures ExecuteScriptsEffect(records, errors) == (records, Completed)
  {
    var p := ParseAll(records).value;
    NothingAboveLast(StartVersion(p));
    assert PendingFor(p) == [];
    NothingPending(records, p, errors);
  }

  /** A clean run leaves nothing for the next one: run again, the table stays as it is. */
  lemma RerunIsNoOp(records: seq<string>)
    requires ParseAll(records).Some?
    ensures var after := ExecuteScriptsEffect(records, map[]).0;
      ExecuteScriptsEffect(after, map[]) == (after, Completed)
  {
    var p := ParseAll(records).value;
    var pending := PendingFor(p);
    CleanRunRecordsAll(records);
    var after := records + RenderAll(pending);
    if pending == [] {
      assert after == records;
      NothingPending(records, p, map[]);
    } else {
      LastIsPending(StartVersion(p));
      ParseRenderAll(records, pending);
      var q := p + pending;
      assert pending[|pending| - 1] in q;
      UpToDateRunsNothing(after, map[]);
    }
  }

  /** When nothing is pending, the run is already a no-op. */
  lemma NothingPending(records: seq<string>, p: seq<Version>, errors: map<Version, ScriptError>)
    requires ParseAll(records) == Some(p) && PendingFor(p) == []
    ensures ExecuteScriptsEffect(records, errors) == (records, Completed)
  {
    assert RenderAll([]) == [];
    assert records + [] == records;
  }

  /** A nonempty pending list ends with the last listed version. */
  lemma LastIsPending(start: Version)
    requires Pending(MigrationList, start) != []
    ensures Pending(MigrationList, start)[|Pending(MigrationList, start)| - 1] == MigrationList[|MigrationList| - 1]
  {
    var list := MigrationList;
    assert Ascending(list) by { ListAscending(); }
    PendingEndsWithLast(list, start);
  }

  lemma PendingEndsWithLast(list: seq<Version>, start: Version)
    requires Ascending(list) && Pending(list, start) != []
    ensures Pending(list, start)[|Pending(list, start)| - 1] == list[|list| - 1]
  {
    PendingIsSuffix(list, start);
    var k :| 0 <= k <= |list| && Pending(list, start) == list[k..];
  }

  /** A fresh database records `APP_VERSION`; a restart on it runs no script. */
  lemma FreshInstallRunsNothing(errors: map<Version, ScriptError>)
    ensures RunMigrationsEffect([], false, false, false, errors).0 == [AppVersionText]
    ensures var installed := RunMigrationsEffect([], false, false, false, errors).0;
      RunMigrationsEffect(installed, false, true, false, errors) == (installed, Completed)
  {
    var installed := [AppVersionText];
    assert RunMigrationsEffect([], false, false, false, errors).0 == installed;
    AppVersionIsLast();
    assert ParseAll(installed).value == [AppVersion];
    LtOrder(AppVersion, AppVersion, AppVersion);
    UpToDateRunsNothing(installed, errors);
  }

  /** `DISABLE_MIGRATIONS` leaves the table alone. */
  lemma DisabledDoesNothing(records: seq<string>, dbExists: bool, freshInsertFails: bool, errors: map<Version, ScriptError>)
    ensures RunMigrationsEffect(records, true, dbExists, freshInsertFails, errors) == (records, Disabled)
  {
  }

  /** The version table only grows, and only by texts of the list or `APP_VERSION`. */
  lemma OnlyAppendsListedVersions(records: seq<string>, disabled: bool, dbExists: bool, freshInsertFails: bool,
                                  errors: map<Version, ScriptError>)
    ensures var after := RunMigrationsEffect(records, disabled, dbExists, freshInsertFails, errors).0;
      && records <= after
      && forall i :: |records| <= i < |after| ==> after[i] in MigrationTexts || after[i] == AppVersionText
  {
    var (after, _) := RunMigrationsEffect(records, disabled, dbExists, freshInsertFails, errors);
    if !disabled && dbExists && ParseAll(records).Some? {
      var pending := PendingFor(ParseAll(records).value);
      var recorded := Run(pending, errors).recorded;
      assert after == records + RenderAll(recorded);
      forall i | |records| <= i < |after| ensures after[i] in MigrationTexts {
        var v := recorded[i - |records|];
        assert v in pending;
        assert v in MigrationList;
        ListedRendersToText(v);
      }
    }
  }

  lemma ListedRendersToText(v: Version)
    requires v in MigrationList
    ensures WellFormed(v) && Render(v) in MigrationTexts
  {
    RenderedTexts();
    var j :| 0 <= j < |MigrationList| && MigrationList[j] == v;
    assert Render(v) == MigrationTexts[j];
  }
}
