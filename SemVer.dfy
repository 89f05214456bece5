/** Semantic Versioning 2.0.0 as the migration planner uses it: versions as
    values, the precedence of section 11 (node-semver `compare`), the canonical
    rendering and the strict parser, and the round trip between the two. */
module SemVer {
  import opened Common

  /** A pre-release identifier: numeric, or containing a letter or hyphen. */
  datatype Ident = Num(n: nat) | Alpha(s: string)

  /** Build metadata is kept but takes no part in precedence (section 10). */
  datatype Version = Version(major: nat, minor: nat, patch: nat, pre: seq<Ident>, build: seq<string>)

  // ---------------------------------------------------------------------
  // Precedence (section 11)
  // ---------------------------------------------------------------------

  function Sign(a: int, b: int): (r: int)
    ensures r == -1 || r == 0 || r == 1
    ensures r == 0 <==> a == b
    ensures r < 0 <==> a < b
  {
    if a < b then -1 else if a > b then 1 else 0
  }

  /** ASCII order of alphanumeric identifiers, character by character; a proper prefix comes first. */
  function CompareText(a: string, b: string): (r: int)
    ensures r == -1 || r == 0 || r == 1
  {
    if a == [] && b == [] then 0
    else if a == [] then -1
    else if b == [] then 1
    else if a[0] != b[0] then Sign(a[0] as int, b[0] as int)
    else CompareText(a[1..], b[1..])
  }

  /** Numeric identifiers compare numerically and come before alphanumeric ones (section 11.4). */
  function CompareIdent(a: Ident, b: Ident): (r: int)
    ensures r == -1 || r == 0 || r == 1
  {
    match (a, b)
    case (Num(x), Num(y)) => Sign(x, y)
    case (Num(_), Alpha(_)) => -1
    case (Alpha(_), Num(_)) => 1
    case (Alpha(x), Alpha(y)) => CompareText(x, y)
  }

  /** Identifiers left to right; a longer list whose start is equal is greater (section 11.4.4). */
  function ComparePre(a: seq<Ident>, b: seq<Ident>): (r: int)
    ensures r == -1 || r == 0 || r == 1
  {
    if a == [] && b == [] then 0
    else if a == [] then -1
    else if b == [] then 1
    else if CompareIdent(a[0], b[0]) != 0 then CompareIdent(a[0], b[0])
    else ComparePre(a[1..], b[1..])
  }

  /** `semver.compare`: major, minor, patch, then a pre-release below its release (section 11.3), then the identifiers. */
  function Compare(a: Version, b: Version): (r: int)
    ensures r == -1 || r == 0 || r == 1
  {
    if a.major != b.major then Sign(a.major, b.major)
    else if a.minor != b.minor then Sign(a.minor, b.minor)
    else if a.patch != b.patch then Sign(a.patch, b.patch)
    else if a.pre == [] && b.pre == [] then 0
    else if a.pre == [] then 1
    else if b.pre == [] then -1
    else ComparePre(a.pre, b.pre)
  }

  /** `semver.gt(b, a)`: `a` has lower precedence than `b`. */
  predicate Lt(a: Version, b: Version) {
    Compare(a, b) < 0
  }

  /** What precedence looks at. */
  function Precedence(v: Version): Version {
    v.(build := [])
  }

  lemma {:induction false} CompareTextProps(a: string, b: string)
    ensures CompareText(a, b) == -CompareText(b, a)
    ensures CompareText(a, b) == 0 <==> a == b
    decreases |a|
  {
    if a != [] && b != [] && a[0] == b[0] {
      CompareTextProps(a[1..], b[1..]);
      if a[1..] == b[1..] {
        assert a == [a[0]] + a[1..] && b == [b[0]] + b[1..];
      }
    }
  }

  lemma {:induction false} CompareTextTrans(a: string, b: string, c: string)
    requires CompareText(a, b) < 0 && CompareText(b, c) < 0
    ensures CompareText(a, c) < 0
    decreases |a|
  {
    if a != [] && b != [] && c != [] && a[0] == b[0] && b[0] == c[0] {
      CompareTextTrans(a[1..], b[1..], c[1..]);
    }
  }

  lemma CompareIdentProps(a: Ident, b: Ident)
    ensures CompareIdent(a, b) == -CompareIdent(b, a)
    ensures CompareIdent(a, b) == 0 <==> a == b
  {
    if a.Alpha? && b.Alpha? {
      CompareTextProps(a.s, b.s);
    }
  }

  lemma CompareIdentTrans(a: Ident, b: Ident, c: Ident)
    requires CompareIdent(a, b) < 0 && CompareIdent(b, c) < 0
    ensures CompareIdent(a, c) < 0
  {
    if a.Alpha? && b.Alpha? && c.Alpha? {
      CompareTextTrans(a.s, b.s, c.s);
    }
  }

  lemma {:induction false} ComparePreProps(a: seq<Ident>, b: seq<Ident>)
    ensures ComparePre(a, b) == -ComparePre(b, a)
    ensures ComparePre(a, b) == 0 <==> a == b
    decreases |a|
  {
    if a != [] && b != [] {
      CompareIdentProps(a[0], b[0]);
      if CompareIdent(a[0], b[0]) == 0 {
        ComparePreProps(a[1..], b[1..]);
        if a[1..] == b[1..] {
          assert a == [a[0]] + a[1..] && b == [b[0]] + b[1..];
        }
      }
    }
  }

  lemma {:induction false} ComparePreTrans(a: seq<Ident>, b: seq<Ident>, c: seq<Ident>)
    requires ComparePre(a, b) < 0 && ComparePre(b, c) < 0
    ensures ComparePre(a, c) < 0
    decreases |a|
  {
    if a != [] && b != [] && c != [] {
      CompareIdentProps(a[0], b[0]);
      CompareIdentProps(b[0], c[0]);
      if CompareIdent(a[0], b[0]) == 0 && CompareIdent(b[0], c[0]) == 0 {
        ComparePreTrans(a[1..], b[1..], c[1..]);
      } else if CompareIdent(a[0], b[0]) < 0 && CompareIdent(b[0], c[0]) < 0 {
        CompareIdentTrans(a[0], b[0], c[0]);
      }
    }
  }

  /** Precedence is antisymmetric, and versions of equal precedence differ at most in build metadata. */
  lemma CompareProps(a: Version, b: Version)
    ensures Compare(a, b) == -Compare(b, a)
    ensures Compare(a, b) == 0 <==> Precedence(a) == Precedence(b)
  {
    ComparePreProps(a.pre, b.pre);
  }

  /** `Lt` is a strict order, total up to equal precedence. */
  lemma LtOrder(a: Version, b: Version, c: Version)
    ensures !Lt(a, a)
    ensures Lt(a, b) ==> !Lt(b, a)
    ensures Lt(a, b) && Lt(b, c) ==> Lt(a, c)
    ensures Lt(a, b) || Lt(b, a) || Precedence(a) == Precedence(b)
  {
    CompareProps(a, a);
    CompareProps(a, b);
    if Lt(a, b) && Lt(b, c) && a.major == b.major == c.major && a.minor == b.minor == c.minor
       && a.patch == b.patch == c.patch && a.pre != [] && b.pre != [] && c.pre != [] {
      ComparePreTrans(a.pre, b.pre, c.pre);
    }
  }

  /** Build metadata does not move a version in the order. */
  lemma CompareIgnoresBuild(a: Version, b: Version, c: Version)
    requires Precedence(b) == Precedence(c)
    ensures Compare(a, b) == Compare(a, c) && Compare(b, a) == Compare(c, a)
  {
  }

  /** A pre-release has lower precedence than its release (section 11.3). */
  lemma PrereleaseBelowRelease(v: Version)
    requires v.pre != []
    ensures Lt(v, v.(pre := []))
  {
  }

  /** The example chain of section 11.4:
      1.0.0-alpha < 1.0.0-alpha.1 < 1.0.0-alpha.beta < 1.0.0-beta < 1.0.0-beta.2 < 1.0.0-beta.11 < 1.0.0-rc.1 < 1.0.0. */
  lemma SectionElevenChain()
    ensures var chain := [
        [Alpha("alpha")], [Alpha("alpha"), Num(1)], [Alpha("alpha"), Alpha("beta")], [Alpha("beta")],
        [Alpha("beta"), Num(2)], [Alpha("beta"), Num(11)], [Alpha("rc"), Num(1)], []];
      forall i :: 0 <= i < |chain| - 1 ==> Lt(Version(1, 0, 0, chain[i], []), Version(1, 0, 0, chain[i + 1], []))
  {
    assert CompareText("alpha", "beta") < 0;
    assert CompareText("beta", "rc") < 0;
  }

  // ---------------------------------------------------------------------
  // Text form (section 2, 9, 10)
  // ---------------------------------------------------------------------

  predicate IdentChar(c: char) {
    IsDigit(c) || ('A' <= c <= 'Z') || ('a' <= c <= 'z') || c == '-'
  }

  predicate IdentChars(s: string) {
    |s| > 0 && forall i :: 0 <= i < |s| ==> IdentChar(s[i])
  }

  /** An alphanumeric identifier holds a non-digit, so it cannot be read as a number. */
  predicate ValidIdent(id: Ident) {
    id.Alpha? ==> IdentChars(id.s) && !AllDigits(id.s)
  }

  predicate WellFormed(v: Version) {
    && (forall k :: 0 <= k < |v.pre| ==> ValidIdent(v.pre[k]))
    && (forall k :: 0 <= k < |v.build| ==> IdentChars(v.build[k]))
  }

  lemma IdentCharsHaveNoSeparator(s: string)
    requires IdentChars(s)
    ensures '.' !in s && '+' !in s
  {
  }

  function RenderIdent(id: Ident): (s: string)
    requires ValidIdent(id)
    ensures '.' !in s && '+' !in s
  {
    if id.Alpha? then IdentCharsHaveNoSeparator(id.s); id.s else NatToString(id.n)
  }


  function RenderIdents(ids: seq<Ident>): (r: seq<string>)
    requires forall k :: 0 <= k < |ids| ==> ValidIdent(ids[k])
    ensures |r| == |ids|
    ensures forall k :: 0 <= k < |ids| ==> r[k] == RenderIdent(ids[k])
  {
    if ids == [] then [] else [RenderIdent(ids[0])] + RenderIdents(ids[1..])
  }

  function RenderCore(v: Version): string {
    NatToString(v.major) + "." + NatToString(v.minor) + "." + NatToString(v.patch)
  }

  function RenderPre(v: Version): string
    requires WellFormed(v)
  {
    if v.pre == [] then "" else "-" + Join(RenderIdents(v.pre), '.')
  }

  function RenderBuild(v: Version): string
    requires WellFormed(v)
  {
    if v.build == [] then "" else "+" + Join(v.build, '.')
  }

  /** The canonical text form. */
  function Render(v: Version): string
    requires WellFormed(v)
  {
    RenderCore(v) + RenderPre(v) + RenderBuild(v)
  }

  /** `0|[1-9]\d*`. */
  predicate NumericIdent(s: string) {
    |s| > 0 && AllDigits(s) && (|s| == 1 || s[0] != '0')
  }

  function ParseIdent(s: string): Option<Ident> {
    if NumericIdent(s) then Some(Num(DigitsValue(s)))
    else if IdentChars(s) && !AllDigits(s) then Some(Alpha(s))
    else None
  }

  function ParseIdents(parts: seq<string>): Option<seq<Ident>> {
    if parts == [] then Some([])
    else
      match (ParseIdent(parts[0]), ParseIdents(parts[1..]))
      case (Some(id), Some(rest)) => Some([id] + rest)
      case _ => None
  }

  function ParseCore(s: string): Option<(nat, nat, nat)> {
    var parts := Split(s, '.');
    if |parts| == 3 && NumericIdent(parts[0]) && NumericIdent(parts[1]) && NumericIdent(parts[2])
    then Some((DigitsValue(parts[0]), DigitsValue(parts[1]), DigitsValue(parts[2])))
    else None
  }

  /** Core and pre-release, the text before any `+`. */
  function ParseMain(main: string): Option<Version> {
    var core := PrefixBefore(main, '-');
    var pre := if |core| < |main| then ParseIdents(Split(main[|core| + 1..], '.')) else Some([]);
    var nums := ParseCore(core);
    if nums.Some? && pre.Some? then Some(Version(nums.value.0, nums.value.1, nums.value.2, pre.value, [])) else None
  }

  /** The strict parser: core, then `-` and the pre-release identifiers, then `+` and the build identifiers. */
  function Parse(s: string): Option<Version> {
    var main := PrefixBefore(s, '+');
    var build := if |main| < |s| then Split(s[|main| + 1..], '.') else [];
    var v := ParseMain(main);
    if v.Some? && (forall k :: 0 <= k < |build| ==> IdentChars(build[k])) then Some(v.value.(build := build)) else None
  }

  lemma NatToStringIsNumeric(n: nat)
    ensures NumericIdent(NatToString(n)) && DigitsValue(NatToString(n)) == n
    ensures '.' !in NatToString(n) && '-' !in NatToString(n) && '+' !in NatToString(n)
  {
    DigitsValueOfNatToString(n);
  }

  lemma ParseRenderedIdent(id: Ident)
    requires ValidIdent(id)
    ensures ParseIdent(RenderIdent(id)) == Some(id)
  {
    if id.Num? {
      NatToStringIsNumeric(id.n);
    } else {
      assert !NumericIdent(id.s);
    }
  }

  lemma {:induction false} ParseRenderedIdents(ids: seq<Ident>)
    requires forall k :: 0 <= k < |ids| ==> ValidIdent(ids[k])
    ensures ParseIdents(RenderIdents(ids)) == Some(ids)
    decreases |ids|
  {
    if ids != [] {
      var r := RenderIdents(ids);
      assert r[1..] == RenderIdents(ids[1..]);
      ParseRenderedIdents(ids[1..]);
      ParseRenderedIdent(ids[0]);
      assert [ids[0]] + ids[1..] == ids;
    }
  }

  lemma Join3(a: string, b: string, c: string, sep: char)
    ensures Join([a, b, c], sep) == a + [sep] + b + [sep] + c
  {
    assert [a, b, c][1..] == [b, c];
    assert [b, c][1..] == [c];
    assert Join([c], sep) == c;
    assert Join([b, c], sep) == b + [sep] + c;
    assert Join([a, b, c], sep) == a + [sep] + (b + [sep] + c);
  }

  lemma ParseRenderedCore(v: Version)
    ensures ParseCore(RenderCore(v)) == Some((v.major, v.minor, v.patch))
  {
    var a, b, c := NatToString(v.major), NatToString(v.minor), NatToString(v.patch);
    NatToStringIsNumeric(v.major);
    NatToStringIsNumeric(v.minor);
    NatToStringIsNumeric(v.patch);
    Join3(a, b, c, '.');
    assert RenderCore(v) == Join([a, b, c], '.');
    SplitJoin([a, b, c], '.');
  }

  lemma RenderedCoreFree(v: Version)
    ensures '-' !in RenderCore(v) && '+' !in RenderCore(v)
  {
    NatToStringIsNumeric(v.major);
    NatToStringIsNumeric(v.minor);
    NatToStringIsNumeric(v.patch);
  }

  lemma NoSeparatorInJoin(parts: seq<string>, c: char, d: char)
    requires |parts| >= 1
    requires c != d
    requires forall i :: 0 <= i < |parts| ==> d !in parts[i]
    ensures d !in Join(parts, c)
    decreases |parts|
  {
    if |parts| > 1 {
      NoSeparatorInJoin(parts[1..], c, d);
    }
  }

  lemma ParseMainRelease(core: string, nums: (nat, nat, nat))
    requires '-' !in core && ParseCore(core) == Some(nums)
    ensures ParseMain(core) == Some(Version(nums.0, nums.1, nums.2, [], []))
  {
    PrefixOfSeparatorFree(core, '-');
  }

  lemma ParseMainPre(core: string, tail: string, nums: (nat, nat, nat), ids: seq<Ident>)
    requires '-' !in core && ParseCore(core) == Some(nums)
    requires tail != [] && tail[0] == '-' && ParseIdents(Split(tail[1..], '.')) == Some(ids)
    ensures ParseMain(core + tail) == Some(Version(nums.0, nums.1, nums.2, ids, []))
  {
    var main := core + tail;
    PrefixBeforeSeparator(core, tail, '-');
    assert main[|core| + 1..] == tail[1..];
  }

  lemma ParseRenderedMain(v: Version)
    requires WellFormed(v)
    ensures ParseMain(RenderCore(v) + RenderPre(v)) == Some(Precedence(v))
  {
    var pre := RenderPre(v);
    ParseRenderedCore(v);
    RenderedCoreFree(v);
    if v.pre != [] {
      assert pre[1..] == Join(RenderIdents(v.pre), '.');
      SplitJoin(RenderIdents(v.pre), '.');
      ParseRenderedIdents(v.pre);
      ParseMainPre(RenderCore(v), pre, (v.major, v.minor, v.patch), v.pre);
    } else {
      assert RenderCore(v) + pre == RenderCore(v);
      ParseMainRelease(RenderCore(v), (v.major, v.minor, v.patch));
    }
  }

  lemma RenderedMainFree(v: Version)
    requires WellFormed(v)
    ensures '+' !in RenderCore(v) + RenderPre(v)
  {
    RenderedCoreFree(v);
    if v.pre != [] {
      NoSeparatorInJoin(RenderIdents(v.pre), '.', '+');
    }
  }

  lemma ParseNoBuild(main: string, v: Version)
    requires '+' !in main && ParseMain(main) == Some(v)
    ensures Parse(main) == Some(v.(build := []))
  {
    PrefixOfSeparatorFree(main, '+');
  }

  lemma ParseWithBuild(main: string, tail: string, v: Version, build: seq<string>)
    requires '+' !in main && ParseMain(main) == Some(v)
    requires tail != [] && tail[0] == '+' && Split(tail[1..], '.') == build
    requires forall k :: 0 <= k < |build| ==> IdentChars(build[k])
    ensures Parse(main + tail) == Some(v.(build := build))
  {
    PrefixBeforeSeparator(main, tail, '+');
    assert (main + tail)[|main| + 1..] == tail[1..];
  }

  /** Reading the canonical form of a well-formed version gives the version back. */
  lemma ParseRender(v: Version)
    requires WellFormed(v)
    ensures Parse(Render(v)) == Some(v)
  {
    var main, build := RenderCore(v) + RenderPre(v), RenderBuild(v);
    ParseRenderedMain(v);
    RenderedMainFree(v);
    if v.build != [] {
      assert build[1..] == Join(v.build, '.');
      forall k | 0 <= k < |v.build| ensures '.' !in v.build[k] {
        IdentCharsHaveNoSeparator(v.build[k]);
      }
      SplitJoin(v.build, '.');
      ParseWithBuild(main, build, Precedence(v), v.build);
    } else {
      ParseNoBuild(main, Precedence(v));
      assert Render(v) == main;
    }
  }
}
