/** The pure rules of the domain creation form (src/components/CreateDomainForm.tsx):
    the domain-name format check, the punycode conversions with their fallbacks,
    the preview rule, and the choice of default domain type and offered types. */
module DomainForm {
  import opened Common

  // ---------------------------------------------------------------------
  // Lengths as JavaScript counts them
  // ---------------------------------------------------------------------

  /** `s.length`: UTF-16 code units, two for a character outside the basic plane. */
  function Utf16Length(s: string): (n: nat)
    ensures |s| <= n <= 2 * |s|
  {
    if s == [] then 0 else (if s[0] as int >= 0x1_0000 then 2 else 1) + Utf16Length(s[1..])
  }

  /** The characters `\s` matches in a JavaScript regular expression. */
  predicate IsSpace(c: char) {
    var n := c as int;
    || 0x09 <= n <= 0x0D || n == 0x20 || n == 0xA0 || n == 0x1680 || 0x2000 <= n <= 0x200A
    || n == 0x2028 || n == 0x2029 || n == 0x202F || n == 0x205F || n == 0x3000 || n == 0xFEFF
  }

  predicate NoSpace(s: string) {
    forall i :: 0 <= i < |s| ==> !IsSpace(s[i])
  }

  // ---------------------------------------------------------------------
  // The pattern ^(?!://)([^\s.]+\.)*[^\s.]+$
  // ---------------------------------------------------------------------

  /** The anchored pattern after the look-ahead, as an automaton: `inLabel` says the
      current label already has a character, so a dot or the end may follow. */
  function ScanLabels(s: string, inLabel: bool): bool
    decreases |s|
  {
    if s == [] then inLabel
    else if IsSpace(s[0]) then false
    else if s[0] == '.' then inLabel && ScanLabels(s[1..], false)
    else ScanLabels(s[1..], true)
  }

  /** `unicodeRegex.test(domain)`. */
  predicate MatchesPattern(domain: string) {
    !("://" <= domain) && ScanLabels(domain, false)
  }

  lemma SplitCons(c: char, s: string)
    ensures c == '.' ==> Split([c] + s, '.') == [""] + Split(s, '.')
    ensures c != '.' ==> Split([c] + s, '.') == [[c] + Split(s, '.')[0]] + Split(s, '.')[1..]
  {
    var t := [c] + s;
    assert t[1..] == s;
    if c != '.' {
      var p := PrefixBefore(s, '.');
      assert PrefixBefore(t, '.') == [c] + p;
      if |p| < |s| {
        assert t[|p| + 2..] == s[|p| + 1..];
      }
    } else {
      assert PrefixBefore(t, '.') == [];
    }
  }

  /** No label is empty, except perhaps the first when the automaton is already inside one. */
  predicate LabelsFilled(parts: seq<string>, inLabel: bool)
    requires |parts| >= 1
  {
    (inLabel || parts[0] != []) && forall i :: 1 <= i < |parts| ==> parts[i] != []
  }

  lemma NoSpaceCons(c: char, s: string)
    ensures NoSpace([c] + s) <==> !IsSpace(c) && NoSpace(s)
  {
    var t := [c] + s;
    if !IsSpace(c) && NoSpace(s) {
      forall i | 0 <= i < |t| ensures !IsSpace(t[i]) {
        if i > 0 { assert t[i] == s[i - 1]; }
      }
    }
    if NoSpace(t) {
      forall i | 0 <= i < |s| ensures !IsSpace(s[i]) {
        assert s[i] == t[i + 1];
      }
      assert t[0] == c;
    }
  }

  lemma FilledAfterDot(s: string)
    ensures LabelsFilled([""] + Split(s, '.'), false) <==> false
    ensures LabelsFilled([""] + Split(s, '.'), true) <==> LabelsFilled(Split(s, '.'), false)
  {
    var parts := [""] + Split(s, '.');
    var rest := Split(s, '.');
    if LabelsFilled(parts, true) {
      assert rest[0] == parts[1];
      forall i | 1 <= i < |rest| ensures rest[i] != [] {
        assert rest[i] == parts[i + 1];
      }
    }
    if LabelsFilled(rest, false) {
      forall i | 1 <= i < |parts| ensures parts[i] != [] {
        assert parts[i] == rest[i - 1];
      }
    }
  }

  lemma FilledAfterChar(c: char, s: string, inLabel: bool)
    ensures LabelsFilled([[c] + Split(s, '.')[0]] + Split(s, '.')[1..], inLabel) <==> LabelsFilled(Split(s, '.'), true)
  {
    var rest := Split(s, '.');
    var parts := [[c] + rest[0]] + rest[1..];
    assert forall i :: 1 <= i < |parts| ==> parts[i] == rest[i];
  }

  /** The automaton accepts exactly the dot-separated runs of non-space characters with no empty label. */
  lemma {:induction false} ScanLabelsSplit(s: string, inLabel: bool)
    ensures ScanLabels(s, inLabel) <==> NoSpace(s) && LabelsFilled(Split(s, '.'), inLabel)
    decreases |s|
  {
    if s != [] {
      var rest := s[1..];
      assert s == [s[0]] + rest;
      SplitCons(s[0], rest);
      NoSpaceCons(s[0], rest);
      ScanLabelsSplit(rest, s[0] != '.');
      if s[0] == '.' {
        FilledAfterDot(rest);
      } else {
        FilledAfterChar(s[0], rest, inLabel);
      }
    }
  }

  /** The pattern, read without the automaton: no leading `://`, no whitespace, no empty label. */
  lemma PatternExact(domain: string)
    ensures MatchesPattern(domain) <==>
      !("://" <= domain) && NoSpace(domain) && forall part :: part in Split(domain, '.') ==> part != []
  {
    ScanLabelsSplit(domain, false);
    var parts := Split(domain, '.');
    if forall part :: part in parts ==> part != [] {
      assert parts[0] in parts;
      forall i | 1 <= i < |parts| ensures parts[i] != [] {
        assert parts[i] in parts;
      }
    }
    if LabelsFilled(parts, false) {
      forall part | part in parts ensures part != [] {
        var i :| 0 <= i < |parts| && parts[i] == part;
      }
    }
  }

  // ---------------------------------------------------------------------
  // isValidDomainFormat
  // ---------------------------------------------------------------------

  /** The per-label checks of the loop. */
  predicate LabelAllowed(part: string) {
    |part| > 0 && part[0] != '-' && part[|part| - 1] != '-' && Utf16Length(part) <= 63
  }

  /** Reference definition: pattern, every label, then the whole length. */
  predicate ValidDomain(domain: string) {
    && MatchesPattern(domain)
    && (forall part :: part in Split(domain, '.') ==> LabelAllowed(part))
    && Utf16Length(domain) <= 253
  }

  /** `isValidDomainFormat`: the pattern test, then the loop over labels with early returns, then the length. */
  method IsValidDomainFormat(domain: string) returns (ok: bool)
    ensures ok == ValidDomain(domain)
  {
    if !MatchesPattern(domain) {
      return false;
    }
    var parts := Split(domain, '.');
    var i := 0;
    while i < |parts|
      invariant 0 <= i <= |parts|
      invariant forall k :: 0 <= k < i ==> LabelAllowed(parts[k])
    {
      var part := parts[i];
      assert part in parts;
      if |part| == 0 || part[0] == '-' || part[|part| - 1] == '-' {
        return false;
      }
      if Utf16Length(part) > 63 {
        return false;
      }
      i := i + 1;
    }
    if Utf16Length(domain) > 253 {
      return false;
    }
    return true;
  }

  /** The exact characterisation: everything passing these checks is accepted, and nothing else. */
  lemma ValidDomainExact(domain: string)
    ensures ValidDomain(domain) <==>
      && !("://" <= domain)
      && NoSpace(domain)
      && (forall part :: part in Split(domain, '.') ==>
            |part| > 0 && part[0] != '-' && part[|part| - 1] != '-' && Utf16Length(part) <= 63)
      && Utf16Length(domain) <= 253
  {
    PatternExact(domain);
  }

  /** A dot in an accepted name is followed by a label character. */
  lemma {:induction false} ScanLabelsDots(s: string, inLabel: bool, i: int)
    requires ScanLabels(s, inLabel) && 0 <= i < |s| && s[i] == '.'
    ensures i + 1 < |s| && s[i + 1] != '.'
    ensures i > 0 || inLabel
    decreases |s|
  {
    if i > 0 {
      ScanLabelsDots(s[1..], s[0] != '.', i - 1);
    }
  }

  /** Rejected: whitespace anywhere, a leading `://`, an empty name, or an empty label from a leading, trailing or doubled dot. */
  lemma RejectsMalformed(domain: string)
    ensures !NoSpace(domain) ==> !ValidDomain(domain)
    ensures "://" <= domain ==> !ValidDomain(domain)
    ensures domain == [] ==> !ValidDomain(domain)
    ensures |domain| > 0 && (domain[0] == '.' || domain[|domain| - 1] == '.') ==> !ValidDomain(domain)
    ensures forall i :: 0 <= i < |domain| - 1 && domain[i] == '.' && domain[i + 1] == '.' ==> !ValidDomain(domain)
  {
    ValidDomainExact(domain);
    if ValidDomain(domain) && |domain| > 0 {
      if domain[0] == '.' {
        ScanLabelsDots(domain, false, 0);
      }
      if domain[|domain| - 1] == '.' {
        ScanLabelsDots(domain, false, |domain| - 1);
      }
      forall i | 0 <= i < |domain| - 1 && domain[i] == '.' && domain[i + 1] == '.'
        ensures false
      {
        ScanLabelsDots(domain, false, i);
      }
    }
  }

  /** Rejected: a label with a hyphen at either end, a label over 63 code units (section 2.3.4 of RFC 1035), a name over 253. */
  lemma RejectsBadLabels(domain: string)
    ensures (exists part :: part in Split(domain, '.') && |part| > 0 && (part[0] == '-' || part[|part| - 1] == '-'))
            ==> !ValidDomain(domain)
    ensures (exists part :: part in Split(domain, '.') && Utf16Length(part) > 63) ==> !ValidDomain(domain)
    ensures Utf16Length(domain) > 253 ==> !ValidDomain(domain)
  {
  }

  // ---------------------------------------------------------------------
  // punycode fallbacks and the preview
  // ---------------------------------------------------------------------

  /** `toLowerCase` on the ASCII letters. */
  function Lower(s: string): (r: string)
    ensures |r| == |s|
    ensures forall i :: 0 <= i < |s| ==> r[i] == (if 'A' <= s[i] <= 'Z' then (s[i] as int + 32) as char else s[i])
  {
    seq(|s|, i requires 0 <= i < |s| => if 'A' <= s[i] <= 'Z' then (s[i] as int + 32) as char else s[i])
  }

  lemma LowerIdempotent(s: string)
    ensures Lower(Lower(s)) == Lower(s)
  {
  }

  /** `toPunycode`: what `toASCII` returns, or the lowercased input when it throws (`None`). */
  function ToPunycode(domain: string, toAscii: Option<string>): string {
    if toAscii.Some? then toAscii.value else Lower(domain)
  }

  /** `fromPunycode`: what `toUnicode` returns, or the input unchanged when it throws. */
  function FromPunycode(domain: string, toUnicode: Option<string>): string {
    if toUnicode.Some? then toUnicode.value else domain
  }

  /** `punycodePreview`. */
  function PunycodePreview(input: string, toAscii: Option<string>): string {
    if input == "" then ""
    else
      var punycode := ToPunycode(input, toAscii);
      if punycode != Lower(input) then punycode else ""
  }

  /** The preview is empty for an empty input or a conversion that only lowercases, in
      particular when the conversion throws; otherwise it shows the conversion. */
  lemma PreviewRule(input: string, toAscii: Option<string>)
    ensures input == "" || ToPunycode(input, toAscii) == Lower(input) ==> PunycodePreview(input, toAscii) == ""
    ensures input != "" && ToPunycode(input, toAscii) != Lower(input) ==> PunycodePreview(input, toAscii) == ToPunycode(input, toAscii)
    ensures toAscii.None? ==> PunycodePreview(input, toAscii) == ""
  {
  }

  /** For the same conversion result, the preview does not depend on the letter case
      of the input: the comparison is against the lowercased input either way. */
  lemma PreviewIgnoresCase(input: string, toAscii: Option<string>)
    ensures PunycodePreview(Lower(input), toAscii) == PunycodePreview(input, toAscii)
  {
    LowerIdempotent(input);
  }

  // ---------------------------------------------------------------------
  // Domain type
  // ---------------------------------------------------------------------

  datatype Build = Oss | Saas | Enterprise
  datatype DomainType = Ns | Cname | Wildcard

  /** The form's default `type`. */
  function DefaultType(build: Build, usePangolinDns: bool): DomainType {
    if build == Oss || !usePangolinDns then Wildcard else Ns
  }

  /** The choice of types offered, decided by its own condition. */
  function DomainOptions(build: Build, usePangolinDns: bool): seq<DomainType> {
    if build != Oss && usePangolinDns then [Ns, Cname] else [Wildcard]
  }

  /** The two conditions agree: the default is always one of the offered types, and
      wildcard is offered exactly when it is the default. */
  lemma DefaultIsOffered(build: Build, usePangolinDns: bool)
    ensures DefaultType(build, usePangolinDns) in DomainOptions(build, usePangolinDns)
    ensures Wildcard in DomainOptions(build, usePangolinDns) <==> DefaultType(build, usePangolinDns) == Wildcard
    ensures DomainOptions(build, usePangolinDns) == [Wildcard] <==> build == Oss || !usePangolinDns
  {
  }
}
