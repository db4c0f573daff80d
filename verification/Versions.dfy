/** The version order that keeps a console request from moving an instance to
    an older release. */
module Versions {
  import opened Base
  import opened Text

  /** `norm_version`: a leading `v` before a digit is not part of the version. */
  function Norm(v: string): string {
    var s := Strip(v);
    if |s| >= 2 && (s[0] == 'v' || s[0] == 'V') && IsDigit(s[1]) then s[1..] else s
  }

  // ---- reading a version -------------------------------------------------

  datatype SemVer = SemVer(major: nat, minor: nat, patch: nat, pre: Option<string>)

  predicate IsIdentChar(c: char) {
    IsDigit(c) || 'A' <= c <= 'Z' || 'a' <= c <= 'z' || c == '.' || c == '-'
  }

  /** `[0-9A-Za-z.-]+` */
  predicate IsIdents(s: string) {
    s != "" && forall i :: 0 <= i < |s| ==> IsIdentChar(s[i])
  }

  function NatOf(digits: string): nat
    requires forall i :: 0 <= i < |digits| ==> IsDigit(digits[i])
  {
    if digits == "" then 0 else
      assert IsDigit(digits[|digits| - 1]);
      10 * NatOf(digits[..|digits| - 1]) + (digits[|digits| - 1] as int - '0' as int)
  }

  function DigitRun(s: string): (n: nat)
    ensures n <= |s| && forall i :: 0 <= i < n ==> IsDigit(s[i])
  {
    if s == "" || !IsDigit(s[0]) then 0 else 1 + DigitRun(s[1..])
  }

  function IndexOf(s: string, c: char): (i: nat)
    ensures i <= |s| && c !in s[..i]
    ensures i < |s| ==> s[i] == c
  {
    if s == "" || s[0] == c then 0 else
      var i := 1 + IndexOf(s[1..], c);
      assert s[..i] == [s[0]] + s[1..][..i - 1];
      i
  }

  /** `(\d+)\.` : the number and what follows the dot. */
  function NumberAndDot(s: string): Option<(nat, string)> {
    var n := DigitRun(s);
    if 0 < n < |s| && s[n] == '.' then Some((NatOf(s[..n]), s[n + 1..])) else None
  }

  /** `(\d+)(?:-([0-9A-Za-z.-]+))?$` */
  function PatchAndPre(s: string): Option<(nat, Option<string>)> {
    var n := DigitRun(s);
    if n == 0 then None
    else if n == |s| then Some((NatOf(s), None))
    else if s[n] == '-' && IsIdents(s[n + 1..]) then Some((NatOf(s[..n]), Some(s[n + 1..])))
    else None
  }

  function ParseNumbers(s: string): Option<SemVer> {
    match NumberAndDot(s)
    case None => None
    case Some((major, s1)) =>
      match NumberAndDot(s1)
      case None => None
      case Some((minor, s2)) =>
        match PatchAndPre(s2)
        case None => None
        case Some((patch, pre)) => Some(SemVer(major, minor, patch, pre))
  }

  function ParseCore(core: string): Option<SemVer> {
    ParseNumbers(if core != "" && (core[0] == 'v' || core[0] == 'V') then core[1..] else core)
  }

  /** `_SEMVER` on the stripped string. Only build metadata can hold a `+`. */
  function Parse(v: string): Option<SemVer> {
    var s := Strip(v);
    var i := IndexOf(s, '+');
    if i == |s| then ParseCore(s) else if IsIdents(s[i + 1..]) then ParseCore(s[..i]) else None
  }

  // ---- the sort key, compared as Python compares tuples ------------------

  datatype Ident = Numeric(n: nat) | Alpha(s: string)

  datatype PreKey = Released | Prerelease(ids: seq<Ident>)

  datatype Key = Key(major: nat, minor: nat, patch: nat, pre: PreKey)

  function SplitDots(s: string): (parts: seq<string>)
    ensures parts != []
    decreases |s|
  {
    var i := IndexOf(s, '.');
    if i == |s| then [s] else [s[..i]] + SplitDots(s[i + 1..])
  }

  function IdentOf(p: string): Ident {
    if AllDigits(p) then Numeric(NatOf(p)) else Alpha(p)
  }

  function IdentsOf(parts: seq<string>): (ids: seq<Ident>)
    ensures |ids| == |parts| && forall i :: 0 <= i < |ids| ==> ids[i] == IdentOf(parts[i])
  {
    seq(|parts|, i requires 0 <= i < |parts| => IdentOf(parts[i]))
  }

  function KeyOf(v: SemVer): Key {
    Key(v.major, v.minor, v.patch,
        if v.pre.None? then Released else Prerelease(IdentsOf(SplitDots(v.pre.value))))
  }

  /** `version_key` */
  function VersionKey(v: string): Option<Key> {
    match Parse(v)
    case None => None
    case Some(s) => Some(KeyOf(s))
  }

  predicate IdentLess(a: Ident, b: Ident) {
    match (a, b)
    case (Numeric(m), Numeric(n)) => m < n
    case (Numeric(_), Alpha(_)) => true
    case (Alpha(_), Numeric(_)) => false
    case (Alpha(s), Alpha(t)) => Before(s, t)
  }

  predicate TupleLess(a: seq<Ident>, b: seq<Ident>) {
    if b == [] then false
    else if a == [] then true
    else IdentLess(a[0], b[0]) || (a[0] == b[0] && TupleLess(a[1..], b[1..]))
  }

  predicate PreLess(a: PreKey, b: PreKey) {
    match (a, b)
    case (Released, _) => false
    case (Prerelease(_), Released) => true
    case (Prerelease(x), Prerelease(y)) => TupleLess(x, y)
  }

  predicate KeyLess(a: Key, b: Key) {
    a.major < b.major || (a.major == b.major &&
      (a.minor < b.minor || (a.minor == b.minor &&
        (a.patch < b.patch || (a.patch == b.patch && PreLess(a.pre, b.pre))))))
  }

  predicate IsDowngrade(target: string, current: string) {
    var t, c := VersionKey(target), VersionKey(current);
    t.Some? && c.Some? && KeyLess(t.value, c.value)
  }

  // ---- SemVer 2.0.0, section 11 ------------------------------------------

  /** Item 4: numeric identifiers by value, others in ASCII order, numeric below the rest. */
  ghost predicate IdentPrecedes(a: string, b: string) {
    if AllDigits(a) && AllDigits(b) then NatOf(a) < NatOf(b)
    else if AllDigits(a) || AllDigits(b) then AllDigits(a)
    else exists k: nat :: FirstDifference(a, b, k)
  }

  /** Two identifiers of equal precedence. */
  predicate IdentTies(a: string, b: string) {
    if AllDigits(a) && AllDigits(b) then NatOf(a) == NatOf(b) else a == b
  }

  /** The first difference decides at position `k`; running out first is lower. */
  ghost predicate DecidedAt(a: seq<string>, b: seq<string>, k: nat) {
    && k <= |a| && k < |b|
    && (forall i :: 0 <= i < k ==> IdentTies(a[i], b[i]))
    && (k == |a| || IdentPrecedes(a[k], b[k]))
  }

  ghost predicate Precedes(a: SemVer, b: SemVer) {
    if a.major != b.major then a.major < b.major
    else if a.minor != b.minor then a.minor < b.minor
    else if a.patch != b.patch then a.patch < b.patch
    else a.pre.Some? && (b.pre.None? || exists k: nat :: DecidedAt(SplitDots(a.pre.value), SplitDots(b.pre.value), k))
  }

  lemma IdentAgrees(a: string, b: string)
    ensures IdentLess(IdentOf(a), IdentOf(b)) <==> IdentPrecedes(a, b)
    ensures IdentOf(a) == IdentOf(b) <==> IdentTies(a, b)
  {
    BeforeIsFirstDifference(a, b);
  }

  function JoinDots(parts: seq<string>): string
    requires parts != []
  {
    if |parts| == 1 then parts[0] else parts[0] + "." + JoinDots(parts[1..])
  }

  /** Splitting at dots loses nothing and leaves no dot. */
  lemma {:induction false} SplitDotsJoins(s: string)
    ensures JoinDots(SplitDots(s)) == s && forall i :: 0 <= i < |SplitDots(s)| ==> '.' !in SplitDots(s)[i]
    decreases |s|
  {
    var i := IndexOf(s, '.');
    if i == |s| {
      assert s[..i] == s;
    } else {
      SplitDotsJoins(s[i + 1..]);
      assert s == s[..i] + "." + s[i + 1..];
      assert SplitDots(s)[1..] == SplitDots(s[i + 1..]);
    }
  }

  lemma TupleLessUnfolds(a: seq<string>, b: seq<string>)
    requires a != [] && b != []
    ensures TupleLess(IdentsOf(a), IdentsOf(b)) <==>
            IdentPrecedes(a[0], b[0]) || (IdentTies(a[0], b[0]) && TupleLess(IdentsOf(a[1..]), IdentsOf(b[1..])))
  {
    IdentAgrees(a[0], b[0]);
    assert IdentsOf(a)[1..] == IdentsOf(a[1..]) && IdentsOf(b)[1..] == IdentsOf(b[1..]);
    hide IdentLess;
    hide IdentPrecedes;
    hide IdentTies;
  }

  lemma DecidedShifts(a: seq<string>, b: seq<string>, k: nat)
    requires a != [] && b != []
    ensures DecidedAt(a, b, k + 1) <==> IdentTies(a[0], b[0]) && DecidedAt(a[1..], b[1..], k)
    ensures DecidedAt(a, b, 0) <==> IdentPrecedes(a[0], b[0])
  {
    hide IdentTies;
    hide IdentPrecedes;
    if IdentTies(a[0], b[0]) && DecidedAt(a[1..], b[1..], k) {
      assert forall i :: 0 < i < k + 1 ==> a[i] == a[1..][i - 1] && b[i] == b[1..][i - 1];
    }
    if DecidedAt(a, b, k + 1) {
      assert forall i :: 0 <= i < k ==> a[1..][i] == a[i + 1] && b[1..][i] == b[i + 1];
    }
  }

  lemma {:induction false} TupleLessIsFirstDifference(a: seq<string>, b: seq<string>)
    ensures TupleLess(IdentsOf(a), IdentsOf(b)) <==> exists k: nat :: DecidedAt(a, b, k)
  {
    if b == [] {
    } else if a == [] {
      assert DecidedAt(a, b, 0);
    } else {
      TupleLessUnfolds(a, b);
      TupleLessIsFirstDifference(a[1..], b[1..]);
      hide TupleLess;
      DecidedShifts(a, b, 0);
      hide DecidedAt;
      if k: nat :| DecidedAt(a[1..], b[1..], k) {
        DecidedShifts(a, b, k);
      }
      if k: nat :| DecidedAt(a, b, k) && k > 0 {
        DecidedShifts(a, b, k - 1);
      }
    }
  }

  lemma KeysArePrecedence(a: SemVer, b: SemVer)
    ensures KeyLess(KeyOf(a), KeyOf(b)) <==> Precedes(a, b)
  {
    hide TupleLess;
    hide DecidedAt;
    hide SplitDots;
    if a.pre.Some? && b.pre.Some? {
      TupleLessIsFirstDifference(SplitDots(a.pre.value), SplitDots(b.pre.value));
    }
  }

  /** A downgrade is exactly a target of lower SemVer precedence. */
  lemma DowngradeIsPrecedence(target: string, current: string)
    ensures IsDowngrade(target, current) <==>
            Parse(target).Some? && Parse(current).Some? && Precedes(Parse(target).value, Parse(current).value)
  {
    hide Parse;
    hide KeyOf;
    hide KeyLess;
    hide Precedes;
    if Parse(target).Some? && Parse(current).Some? {
      KeysArePrecedence(Parse(target).value, Parse(current).value);
    }
  }

  // ---- a strict order, total on keys -------------------------------------

  lemma {:induction false} TupleOrder(a: seq<Ident>, b: seq<Ident>)
    ensures !TupleLess(a, a)
    ensures TupleLess(a, b) || a == b || TupleLess(b, a)
  {
    if a != [] {
      if a[0].Alpha? { BeforeIsStrict(a[0].s); }
      TupleOrder(a[1..], a[1..]);
      if b != [] {
        if a[0].Alpha? && b[0].Alpha? { BeforeIsTotal(a[0].s, b[0].s); }
        TupleOrder(a[1..], b[1..]);
        assert a == [a[0]] + a[1..] && b == [b[0]] + b[1..];
      }
    }
  }

  lemma IdentTransitive(a: Ident, b: Ident, c: Ident)
    requires IdentLess(a, b) && IdentLess(b, c)
    ensures IdentLess(a, c)
  {
    if a.Alpha? && b.Alpha? && c.Alpha? { BeforeIsTransitive(a.s, b.s, c.s); }
  }

  lemma {:induction false} TupleTransitive(a: seq<Ident>, b: seq<Ident>, c: seq<Ident>)
    requires TupleLess(a, b) && TupleLess(b, c)
    ensures TupleLess(a, c)
  {
    if a != [] {
      if IdentLess(a[0], b[0]) && IdentLess(b[0], c[0]) {
        IdentTransitive(a[0], b[0], c[0]);
      } else if a[0] == b[0] == c[0] {
        TupleTransitive(a[1..], b[1..], c[1..]);
      }
    }
  }

  /** Irreflexive, transitive, and any two keys are comparable or equal. */
  lemma KeyOrder(a: Key, b: Key, c: Key)
    ensures !KeyLess(a, a)
    ensures KeyLess(a, b) && KeyLess(b, c) ==> KeyLess(a, c)
    ensures KeyLess(a, b) || a == b || KeyLess(b, a)
  {
    if a.pre.Prerelease? { TupleOrder(a.pre.ids, a.pre.ids); }
    if a.pre.Prerelease? && b.pre.Prerelease? {
      TupleOrder(a.pre.ids, b.pre.ids);
      if c.pre.Prerelease? && TupleLess(a.pre.ids, b.pre.ids) && TupleLess(b.pre.ids, c.pre.ids) {
        TupleTransitive(a.pre.ids, b.pre.ids, c.pre.ids);
      }
    }
  }

  /** Section 10: build metadata changes nothing, whatever white space surrounds
      the version. */
  lemma BuildMetadataIsIgnored(core: string, build: string, long: string, short: string)
    requires '+' !in core && IsIdents(build)
    requires Strip(long) == core + "+" + build && Strip(short) == core
    ensures VersionKey(long) == VersionKey(short)
  {
    var s := core + "+" + build;
    FirstOccurrence(core, build, '+');
    hide Strip;
    assert s[..|core|] == core && s[|core| + 1..] == build;
    assert IndexOf(core, '+') == |core|;
  }

  lemma {:induction false} FirstOccurrence(core: string, build: string, c: char)
    requires c !in core
    ensures IndexOf(core + [c] + build, c) == |core|
  {
    if core == "" {
      assert (core + [c] + build)[0] == c;
    } else {
      assert (core + [c] + build)[0] == core[0] && (core + [c] + build)[1..] == core[1..] + [c] + build;
      FirstOccurrence(core[1..], build, c);
    }
  }

  // ---- runs of upgrades --------------------------------------------------

  predicate IsSemantic(v: string) {
    VersionKey(v).Some?
  }

  lemma NoDescentComposes(a: string, b: string, c: string)
    requires IsSemantic(a) && IsSemantic(b) && IsSemantic(c)
    requires !IsDowngrade(b, a) && !IsDowngrade(c, b)
    ensures !IsDowngrade(c, a)
  {
    var x, y, z := VersionKey(a).value, VersionKey(b).value, VersionKey(c).value;
    KeyOrder(y, x, z);
    KeyOrder(z, y, x);
    KeyOrder(z, x, y);
    KeyOrder(x, y, z);
  }

  /** No single step down means no descent over the whole run. */
  lemma {:induction false} NeverDescends(versions: seq<string>)
    requires versions != [] && forall i :: 0 <= i < |versions| ==> IsSemantic(versions[i])
    requires forall i :: 0 <= i < |versions| - 1 ==> !IsDowngrade(versions[i + 1], versions[i])
    ensures !IsDowngrade(versions[|versions| - 1], versions[0])
  {
    var n := |versions| - 1;
    if n == 0 {
      var key := VersionKey(versions[0]).value;
      KeyOrder(key, key, key);
    } else {
      NeverDescends(versions[..n]);
      NoDescentComposes(versions[0], versions[n - 1], versions[n]);
    }
  }

  // ---- the versions that are read back whole -------------------------------

  function Digits(n: nat): (s: string)
    ensures s != "" && forall i :: 0 <= i < |s| ==> IsDigit(s[i])
  {
    var d := ('0' as int + n % 10) as char;
    if n < 10 then [d] else Digits(n / 10) + [d]
  }

  lemma {:induction false} DigitsRead(n: nat)
    ensures NatOf(Digits(n)) == n
  {
    if n >= 10 {
      DigitsRead(n / 10);
      assert Digits(n)[..|Digits(n)| - 1] == Digits(n / 10);
    } else {
      assert Digits(n)[..0] == "";
    }
  }

  lemma {:induction false} DigitRunStops(d: string, rest: string)
    requires forall i :: 0 <= i < |d| ==> IsDigit(d[i])
    requires rest != "" ==> !IsDigit(rest[0])
    ensures DigitRun(d + rest) == |d|
  {
    if d == "" {
      assert d + rest == rest;
    } else {
      DigitRunStops(d[1..], rest);
      assert (d + rest)[1..] == d[1..] + rest;
    }
  }

  /** Canonical form: decimal numbers, and the prerelease after a hyphen. */
  function Show(v: SemVer): string {
    Digits(v.major) + ("." + (Digits(v.minor) + ("." + ShowPatch(v.patch, v.pre))))
  }

  function ShowPatch(patch: nat, pre: Option<string>): string {
    Digits(patch) + Tail(pre)
  }

  lemma NumberSplits(d: string, rest: string)
    requires AllDigits(d)
    ensures NumberAndDot(d + ("." + rest)) == Some((NatOf(d), rest))
  {
    var s := d + ("." + rest);
    DigitRunStops(d, "." + rest);
    hide DigitRun;
    hide NatOf;
    assert s[..|d|] == d && s[|d|] == '.' && s[|d| + 1..] == rest;
  }

  /** `-` and the prerelease, if there is one. */
  function Tail(pre: Option<string>): string {
    if pre.None? then "" else "-" + pre.value
  }

  lemma PatchSplits(d: string, pre: Option<string>)
    requires AllDigits(d) && (pre.Some? ==> IsIdents(pre.value))
    ensures PatchAndPre(d + Tail(pre)) == Some((NatOf(d), pre))
  {
    var s := d + Tail(pre);
    DigitRunStops(d, Tail(pre));
    hide DigitRun;
    hide NatOf;
    assert s[..|d|] == d;
    if pre.Some? {
      assert s[|d|] == '-' && s[|d| + 1..] == pre.value;
    } else {
      assert s == d;
    }
  }

  lemma NumberReads(n: nat, rest: string)
    ensures NumberAndDot(Digits(n) + ("." + rest)) == Some((n, rest))
  {
    NumberSplits(Digits(n), rest);
    DigitsRead(n);
  }

  lemma PatchReads(patch: nat, pre: Option<string>)
    requires pre.Some? ==> IsIdents(pre.value)
    ensures PatchAndPre(ShowPatch(patch, pre)) == Some((patch, pre))
  {
    PatchSplits(Digits(patch), pre);
    DigitsRead(patch);
  }

  // ---- exactly which texts are versions -------------------------------------

  /** Three runs of digits between dots, and the prerelease. */
  function Numbers(a: string, b: string, c: string, pre: Option<string>): string {
    a + ("." + (b + ("." + (c + Tail(pre)))))
  }

  ghost predicate Reads(v: SemVer, a: string, b: string, c: string) {
    && AllDigits(a) && AllDigits(b) && AllDigits(c) && (v.pre.Some? ==> IsIdents(v.pre.value))
    && v.major == NatOf(a) && v.minor == NatOf(b) && v.patch == NatOf(c)
  }

  ghost predicate IsNumbers(s: string, v: SemVer) {
    exists a, b, c :: Reads(v, a, b, c) && s == Numbers(a, b, c, v.pre)
  }

  /** With an optional `v` before them. */
  ghost predicate IsCore(core: string, v: SemVer) {
    IsNumbers(core, v) || (core != "" && (core[0] == 'v' || core[0] == 'V') && IsNumbers(core[1..], v))
  }

  /** Build metadata, after a `+`, may follow. */
  ghost predicate IsVersion(s: string, v: SemVer) {
    IsCore(s, v) || exists core, build :: s == core + "+" + build && IsIdents(build) && IsCore(core, v)
  }

  lemma NumberIs(s: string)
    requires NumberAndDot(s).Some?
    ensures exists d :: AllDigits(d) && s == d + ("." + NumberAndDot(s).value.1) && NumberAndDot(s).value.0 == NatOf(d)
  {
    var n := DigitRun(s);
    assert s == s[..n] + ("." + s[n + 1..]);
    assert AllDigits(s[..n]);
  }

  lemma PatchIs(s: string)
    requires PatchAndPre(s).Some?
    ensures var (patch, pre) := PatchAndPre(s).value;
      && (pre.Some? ==> IsIdents(pre.value))
      && exists d :: AllDigits(d) && s == d + Tail(pre) && patch == NatOf(d)
  {
    var n := DigitRun(s);
    var pre := PatchAndPre(s).value.1;
    if n == |s| {
      assert s == s + Tail(pre) && AllDigits(s);
    } else {
      assert s == s[..n] + Tail(pre) && AllDigits(s[..n]);
    }
  }

  lemma NumbersAre(s: string) returns (a: string, b: string, c: string)
    requires ParseNumbers(s).Some?
    ensures var v := ParseNumbers(s).value; Reads(v, a, b, c) && s == Numbers(a, b, c, v.pre)
  {
    var v := ParseNumbers(s).value;
    NumberIs(s);
    var s1 := NumberAndDot(s).value.1;
    NumberIs(s1);
    var s2 := NumberAndDot(s1).value.1;
    PatchIs(s2);
    hide NumberAndDot;
    hide PatchAndPre;
    hide NatOf;
    hide AllDigits;
    hide IsIdents;
    hide Tail;
    a :| AllDigits(a) && s == a + ("." + s1) && v.major == NatOf(a);
    b :| AllDigits(b) && s1 == b + ("." + s2) && v.minor == NatOf(b);
    c :| AllDigits(c) && s2 == c + Tail(v.pre) && v.patch == NatOf(c);
  }

  lemma NumbersParse(v: SemVer, a: string, b: string, c: string)
    requires Reads(v, a, b, c)
    ensures ParseNumbers(Numbers(a, b, c, v.pre)) == Some(v)
  {
    var s2 := c + Tail(v.pre);
    NumberSplits(a, b + ("." + s2));
    NumberSplits(b, s2);
    PatchSplits(c, v.pre);
    hide NumberAndDot;
    hide PatchAndPre;
    hide NatOf;
  }

  lemma CoreIs(core: string)
    requires ParseCore(core).Some?
    ensures IsCore(core, ParseCore(core).value)
  {
    var s := if core != "" && (core[0] == 'v' || core[0] == 'V') then core[1..] else core;
    var a, b, c := NumbersAre(s);
    hide ParseNumbers;
    hide Numbers;
    hide Reads;
  }

  lemma NumbersRead(s: string, v: SemVer)
    requires IsNumbers(s, v)
    ensures ParseNumbers(s) == Some(v) && '+' !in s && s != "" && IsDigit(s[0])
  {
    var a, b, c :| Reads(v, a, b, c) && s == Numbers(a, b, c, v.pre);
    NumbersParse(v, a, b, c);
    PlainParts(a, b, c, v.pre);
    StartsWithDigit(a, b, c, v.pre);
    hide ParseNumbers;
    hide Numbers;
  }

  lemma CoreParses(core: string, v: SemVer)
    requires IsCore(core, v)
    ensures ParseCore(core) == Some(v) && '+' !in core
  {
    if IsNumbers(core, v) {
      NumbersRead(core, v);
    } else {
      NumbersRead(core[1..], v);
    }
    hide ParseNumbers;
    hide IsNumbers;
  }

  lemma StartsWithDigit(a: string, b: string, c: string, pre: Option<string>)
    requires AllDigits(a)
    ensures var s := Numbers(a, b, c, pre); s != "" && IsDigit(s[0])
  {
    assert Numbers(a, b, c, pre)[0] == a[0];
  }

  lemma PlainParts(a: string, b: string, c: string, pre: Option<string>)
    requires AllDigits(a) && AllDigits(b) && AllDigits(c) && (pre.Some? ==> IsIdents(pre.value))
    ensures '+' !in Numbers(a, b, c, pre)
  {
    assert '+' !in a && '+' !in b && '+' !in c && '+' !in Tail(pre);
  }

  /** `version_key` reads exactly the versions of this shape, white space around
      them aside, with these numbers and this prerelease. */
  lemma ParsesIff(text: string, v: SemVer)
    ensures Parse(text) == Some(v) <==> IsVersion(Strip(text), v)
  {
    var s := Strip(text);
    hide Strip;
    hide ParseCore;
    hide IsCore;
    if Parse(text) == Some(v) {
      var i := IndexOf(s, '+');
      if i == |s| {
        CoreIs(s);
      } else {
        CoreIs(s[..i]);
        assert s == s[..i] + "+" + s[i + 1..];
      }
    }
    if IsCore(s, v) {
      CoreParses(s, v);
      assert IndexOf(s, '+') == |s|;
    } else if core, build :| s == core + "+" + build && IsIdents(build) && IsCore(core, v) {
      CoreParses(core, v);
      FirstOccurrence(core, build, '+');
      assert s[..|core|] == core && s[|core| + 1..] == build;
    }
  }

  /** Digits, dots, hyphens and letters only: nothing to strip and no `+`. */
  predicate PlainVersion(s: string) {
    s != "" && forall i :: 0 <= i < |s| ==> IsIdentChar(s[i])
  }

  lemma ShowIsPlain(v: SemVer)
    requires v.pre.Some? ==> IsIdents(v.pre.value)
    ensures PlainVersion(Show(v)) && IsDigit(Show(v)[0])
  {
    hide Digits;
    assert PlainVersion(ShowPatch(v.patch, v.pre));
  }

  lemma PlainStays(s: string)
    requires PlainVersion(s)
    ensures Strip(s) == s && IndexOf(s, '+') == |s|
  {
    assert IsIdentChar(s[0]) && IsIdentChar(s[|s| - 1]);
    assert '+' !in s;
  }

  lemma CoreReads(v: SemVer)
    requires v.pre.Some? ==> IsIdents(v.pre.value)
    ensures ParseCore(Show(v)) == Some(v)
  {
    hide Digits;
    hide NumberAndDot;
    hide PatchAndPre;
    ShowIsPlain(v);
    NumberReads(v.major, Digits(v.minor) + ("." + ShowPatch(v.patch, v.pre)));
    NumberReads(v.minor, ShowPatch(v.patch, v.pre));
    PatchReads(v.patch, v.pre);
  }

  lemma PlainParses(s: string)
    requires PlainVersion(s)
    ensures Parse(s) == ParseCore(s)
  {
    PlainStays(s);
    hide Strip;
    hide IndexOf;
    hide ParseCore;
  }

  lemma CoreIgnoresV(s: string)
    requires s != "" && IsDigit(s[0])
    ensures ParseCore("v" + s) == ParseCore(s)
  {
    hide NumberAndDot;
    hide PatchAndPre;
    assert ("v" + s)[1..] == s;
  }

  /** Every semantic version is read back whole, with or without a leading `v`. */
  lemma ShownVersionParses(v: SemVer)
    requires v.pre.Some? ==> IsIdents(v.pre.value)
    ensures Parse(Show(v)) == Some(v) && Parse("v" + Show(v)) == Some(v)
  {
    var s := Show(v);
    ShowIsPlain(v);
    CoreReads(v);
    hide Show;
    hide Parse;
    hide ParseCore;
    CoreIgnoresV(s);
    PlainParses(s);
    PlainWithV(s);
    hide PlainVersion;
    PlainParses("v" + s);
  }

  lemma PlainWithV(s: string)
    requires PlainVersion(s)
    ensures PlainVersion("v" + s)
  {
    var t := "v" + s;
    assert forall i :: 0 < i < |t| ==> t[i] == s[i - 1];
  }

  /** A leading `v` of either case makes no difference to what a version is
      compared with, nor does white space around it. */
  lemma NormIgnoresV(s: string, v: char, long: string, short: string)
    requires s != "" && IsDigit(s[0]) && (v == 'v' || v == 'V')
    requires Strip(long) == [v] + s && Strip(short) == s
    ensures Norm(long) == Norm(short) == s
  {
    assert ([v] + s)[1..] == s;
  }

  /** Nothing but white space is taken off any other text. */
  lemma NormKeepsOthers(t: string)
    requires var s := Strip(t); |s| < 2 || s[0] !in {'v', 'V'} || !('0' <= s[1] <= '9')
    ensures Norm(t) == Strip(t)
  {
    hide Strip;
  }

  lemma NotSemantic()
    ensures !IsSemantic("n")
  {
    assert PlainVersion("n");
    PlainStays("n");
    hide Strip;
    hide IndexOf;
    assert DigitRun("n") == 0;
    assert ParseCore("n") == None;
  }

  lemma OneBelowTwo(one: string, two: string)
    requires Parse(one) == Some(SemVer(1, 0, 0, None)) && Parse(two) == Some(SemVer(2, 0, 0, None))
    ensures IsDowngrade(one, two)
  {
  }

  /** One version that is not semantic in between, and the run can descend. */
  lemma NonSemanticBreaksTheChain() returns (one: string, two: string)
    ensures !IsDowngrade("n", two) && !IsDowngrade(one, "n") && IsDowngrade(one, two)
  {
    hide Parse;
    one, two := Show(SemVer(1, 0, 0, None)), Show(SemVer(2, 0, 0, None));
    ShownVersionParses(SemVer(1, 0, 0, None));
    ShownVersionParses(SemVer(2, 0, 0, None));
    OneBelowTwo(one, two);
    NotSemantic();
  }
}
