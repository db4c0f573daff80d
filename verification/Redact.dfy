/** Masking registered secrets: every occurrence of every one is replaced by
    three stars, one secret after another. */
module Redact {
  import opened Base
  import opened Text

  const MASK := "***"

  /** `out.replace(secret, "***")`: leftmost occurrences, none overlapping. */
  function Replace(s: string, w: string): string
    requires w != ""
    decreases |s|
  {
    if |s| < |w| then s
    else if s[..|w|] == w then MASK + Replace(s[|w|..], w)
    else [s[0]] + Replace(s[1..], w)
  }

  function ReplaceAll(s: string, secrets: seq<string>): string
    requires forall i :: 0 <= i < |secrets| ==> secrets[i] != ""
  {
    if secrets == [] then s
    else Replace(ReplaceAll(s, secrets[..|secrets| - 1]), secrets[|secrets| - 1])
  }

  /** A secret a mask can be no part of: it neither begins nor ends with a star
      and has no three in a row. Any secret without stars is one. */
  ghost predicate Safe(w: string) {
    w != "" && w[0] != '*' && Tail(w)
  }

  ghost predicate Tail(w: string) {
    w == "" || (w[|w| - 1] != '*' && !Occurs(MASK, w))
  }

  lemma StarFreeIsSafe(w: string)
    requires w != "" && '*' !in w
    ensures Safe(w)
  {
    forall i ensures !OccursAt(MASK, w, i) {
      if OccursAt(MASK, w, i) {
        CharOf(MASK, w, i, 0);
      }
    }
  }

  lemma InLater(w: string, s: string, k: nat)
    requires k <= |s| && Occurs(w, s[k..])
    ensures Occurs(w, s)
  {
    var i :| 0 <= i <= |s[k..]| && OccursAt(w, s[k..], i);
    assert s[k..][i..i + |w|] == s[i + k..i + k + |w|];
    assert OccursAt(w, s, i + k);
  }

  lemma TailOfTail(w: string)
    requires w != "" && Tail(w)
    ensures Tail(w[1..])
  {
    if w[1..] != "" && Occurs(MASK, w[1..]) {
      InLater(MASK, w, 1);
    }
  }

  lemma MaskAt(w: string, k: nat)
    requires k + 3 <= |w| && w[k] == '*' && w[k + 1] == '*' && w[k + 2] == '*'
    ensures OccursAt(MASK, w, k)
  {
    assert w[k..k + 3] == MASK;
  }

  lemma CharOf(w: string, s: string, i: int, j: nat)
    requires OccursAt(w, s, i) && j < |w|
    ensures s[i + j] == w[j]
  {
    assert s[i..i + |w|][j] == s[i + j];
  }

  lemma MaskIsNoTail(u: string, rest: string)
    requires u <= MASK + rest && Tail(u)
    ensures u == ""
  {
    var t := MASK + rest;
    assert forall i :: 0 <= i < |u| ==> u[i] == t[i];
    if |u| >= 3 {
      MaskAt(u, 0);
    }
  }

  /** A safe beginning of the masked text was the beginning of the text. */
  lemma {:induction false} PrefixWasThere(u: string, s: string, w: string)
    requires w != "" && Tail(u) && u <= Replace(s, w)
    ensures u <= s
    decreases |s|
  {
    if u != "" && |s| >= |w| {
      if s[..|w|] == w {
        MaskIsNoTail(u, Replace(s[|w|..], w));
      } else {
        var t := [s[0]] + Replace(s[1..], w);
        assert u[0] == t[0] && t[1..] == Replace(s[1..], w) && u[1..] == t[1..][..|u| - 1];
        TailOfTail(u);
        PrefixWasThere(u[1..], s[1..], w);
        assert u == [u[0]] + u[1..] && s == [s[0]] + s[1..];
      }
    }
  }

  lemma ReplaceSplits(s: string, w: string)
    requires 0 < |w| <= |s|
    ensures s[..|w|] == w ==> Replace(s, w) == MASK + Replace(s[|w|..], w)
    ensures s[..|w|] != w ==> Replace(s, w) == [s[0]] + Replace(s[1..], w)
  {
  }

  lemma OccursAfter(v: string, head: string, rest: string, i: int)
    requires OccursAt(v, head + rest, i) && i >= |head|
    ensures Occurs(v, rest)
  {
    assert rest[i - |head|..i - |head| + |v|] == (head + rest)[i..i + |v|];
    assert OccursAt(v, rest, i - |head|);
  }

  lemma NoStartInMask(v: string, rest: string, i: int)
    requires Safe(v) && OccursAt(v, MASK + rest, i)
    ensures i >= 3
  {
    CharOf(v, MASK + rest, i, 0);
  }

  /** Where a safe word of the masked text comes from: further on, or right here. */
  lemma ComesFrom(v: string, s: string, w: string, i: int)
    requires Safe(v) && 0 < |w| <= |s| && OccursAt(v, Replace(s, w), i)
    ensures var k := if s[..|w|] == w then |w| else 1;
      Occurs(v, Replace(s[k..], w)) || (v <= s && s[..|w|] != w)
  {
    ReplaceSplits(s, w);
    if s[..|w|] == w {
      NoStartInMask(v, Replace(s[|w|..], w), i);
      OccursAfter(v, MASK, Replace(s[|w|..], w), i);
    } else if i >= 1 {
      OccursAfter(v, [s[0]], Replace(s[1..], w), i);
    } else {
      assert v <= Replace(s, w);
      PrefixWasThere(v, s, w);
    }
  }

  /** Masking one secret never creates another. */
  lemma {:induction false} MaskingCreatesNothing(v: string, s: string, w: string)
    requires w != "" && Safe(v) && Occurs(v, Replace(s, w))
    ensures Occurs(v, s)
    decreases |s|
  {
    if |s| >= |w| {
      var i :| 0 <= i <= |Replace(s, w)| && OccursAt(v, Replace(s, w), i);
      ComesFrom(v, s, w, i);
      hide Replace;
      var k := if s[..|w|] == w then |w| else 1;
      if Occurs(v, Replace(s[k..], w)) {
        MaskingCreatesNothing(v, s[k..], w);
        InLater(v, s, k);
      } else {
        assert OccursAt(v, s, 0);
      }
    }
  }

  /** A safe secret is gone once it has been masked. */
  lemma {:induction false} MaskedIsGone(v: string, s: string)
    requires Safe(v)
    ensures !Occurs(v, Replace(s, v))
    decreases |s|
  {
    if |s| >= |v| {
      MaskedIsGone(v, s[if s[..|v|] == v then |v| else 1..]);
      if i :| 0 <= i <= |Replace(s, v)| && OccursAt(v, Replace(s, v), i) {
        ComesFrom(v, s, v, i);
      }
    }
  }

  /** Whatever else is registered and in whatever order they are masked, no safe
      secret is left anywhere. */
  lemma {:induction false} NoSecretIsLeft(s: string, secrets: seq<string>, v: string)
    requires forall i :: 0 <= i < |secrets| ==> secrets[i] != ""
    requires v in secrets && Safe(v)
    ensures !Occurs(v, ReplaceAll(s, secrets))
  {
    var n := |secrets| - 1;
    if secrets[n] == v {
      MaskedIsGone(v, ReplaceAll(s, secrets[..n]));
    } else {
      NoSecretIsLeft(s, secrets[..n], v);
      if Occurs(v, ReplaceAll(s, secrets)) {
        MaskingCreatesNothing(v, ReplaceAll(s, secrets[..n]), secrets[n]);
      }
    }
  }

  // ---- and exactly the safe secrets ----------------------------------------

  ghost predicate AlwaysGone(w: string)
    requires w != ""
  {
    forall s: string :: !Occurs(w, Replace(s, w))
  }

  /** Nothing else is touched: before the first occurrence the text stays as it
      is, and masking goes on after it. */
  lemma {:induction false} ReplaceAfter(a: string, w: string, b: string)
    requires w != "" && forall k :: 0 <= k < |a| ==> !OccursAt(w, a + w + b, k)
    ensures Replace(a + w + b, w) == a + MASK + Replace(b, w)
    decreases |a|
  {
    var s := a + w + b;
    if a == "" {
      assert s == w + b && s[..|w|] == w && s[|w|..] == b;
      assert a + MASK + Replace(b, w) == MASK + Replace(b, w);
    } else {
      assert !OccursAt(w, s, 0);
      assert s[..|w|] == s[0..0 + |w|];
      assert s[1..] == a[1..] + w + b;
      forall k | 0 <= k < |a[1..]| ensures !OccursAt(w, s[1..], k) {
        assert !OccursAt(w, s, k + 1);
        if k + |w| <= |s[1..]| {
          assert s[1..][k..k + |w|] == s[k + 1..k + 1 + |w|];
        }
      }
      ReplaceAfter(a[1..], w, b);
      assert [s[0]] + (a[1..] + MASK + Replace(b, w)) == a + MASK + Replace(b, w);
    }
  }

  /** A text that does not hold the secret is left alone. */
  lemma {:induction false} NothingToMask(w: string, s: string)
    requires w != "" && !Occurs(w, s)
    ensures Replace(s, w) == s
    decreases |s|
  {
    if |s| >= |w| {
      assert !OccursAt(w, s, 0);
      assert s[..|w|] == s[0..0 + |w|];
      if Occurs(w, s[1..]) {
        InLater(w, s, 1);
      }
      NothingToMask(w, s[1..]);
      assert [s[0]] + s[1..] == s;
    }
  }

  lemma TooShort(w: string, s: string)
    requires |s| < |w|
    ensures Replace(s, w) == s
  {
  }

  /** A star at the start: mask the first of `*u` and `u`, and `***u` has it again. */
  lemma StarFirstComesBack(w: string)
    requires w != "" && w[0] == '*'
    ensures Occurs(w, Replace(w + w[1..], w))
  {
    assert "" + w + w[1..] == w + w[1..];
    ReplaceAfter("", w, w[1..]);
    TooShort(w, w[1..]);
    var t := "" + MASK + w[1..];
    assert t[2..2 + |w|] == w;
    assert OccursAt(w, t, 2);
  }

  lemma StarLastComesBack(w: string)
    requires w != "" && w[0] != '*' && w[|w| - 1] == '*'
    ensures Occurs(w, Replace(w[..|w| - 1] + w, w))
  {
    hide Replace;
    var u := w[..|w| - 1];
    var s := u + w + "";
    forall k: nat | k < |u| ensures !OccursAt(w, s, k) {
      StarLastOnce(w, k);
    }
    ReplaceAfter(u, w, "");
    TooShort(w, "");
    assert s == u + w;
    var t := u + MASK + "";
    assert t[0..0 + |w|] == w;
    assert OccursAt(w, t, 0);
  }

  lemma StarLastOnce(w: string, k: nat)
    requires w != "" && w[0] != '*' && w[|w| - 1] == '*' && k < |w| - 1
    ensures !OccursAt(w, w[..|w| - 1] + w + "", k)
  {
    var n := |w| - 1;
    var s := w[..n] + w + "";
    assert s[k] == w[k] && s[n + k] == w[k];
    if OccursAt(w, s, k) {
      CharOf(w, s, k, 0);
      CharOf(w, s, k, n);
    }
  }

  /** Three stars inside: `a***b`, cut at its first three. */
  lemma StarsInsideComeBack(w: string, n: nat)
    requires n + 3 <= |w| && OccursAt(MASK, w, n) && forall k :: 0 <= k < n ==> !OccursAt(MASK, w, k)
    ensures Occurs(w, Replace(w[..n] + w + w[n + 3..], w))
  {
    hide Replace;
    var a, b := w[..n], w[n + 3..];
    forall k: nat | k < n ensures !OccursAt(w, a + w + b, k) {
      StarsInsideOnce(w, n, k);
    }
    ReplaceAfter(a, w, b);
    TooShort(w, b);
    assert a + MASK + b == w;
    assert w[0..0 + |w|] == w;
    assert OccursAt(w, w, 0);
  }

  lemma StarsInsideOnce(w: string, n: nat, k: nat)
    requires n + 3 <= |w| && OccursAt(MASK, w, n) && k < n && !OccursAt(MASK, w, k)
    ensures !OccursAt(w, w[..n] + w + w[n + 3..], k)
  {
    var s := w[..n] + w + w[n + 3..];
    assert s[n + k] == w[k] && s[n + k + 1] == w[k + 1] && s[n + k + 2] == w[k + 2];
    CharOf(MASK, w, n, 0);
    CharOf(MASK, w, n, 1);
    CharOf(MASK, w, n, 2);
    if OccursAt(w, s, k) {
      CharOf(w, s, k, n);
      CharOf(w, s, k, n + 1);
      CharOf(w, s, k, n + 2);
      MaskAt(w, k);
    }
  }

  lemma {:induction false} FirstMask(w: string, i: nat) returns (n: nat)
    requires OccursAt(MASK, w, i)
    ensures OccursAt(MASK, w, n) && forall k :: 0 <= k < n ==> !OccursAt(MASK, w, k)
  {
    if k: nat :| k < i && OccursAt(MASK, w, k) {
      n := FirstMask(w, k);
    } else {
      n := i;
    }
  }

  /** A secret is gone from every text after its own masking exactly when it is
      safe; the others can put themselves together again around the mask. */
  lemma AlwaysGoneIff(w: string)
    requires w != ""
    ensures AlwaysGone(w) <==> Safe(w)
  {
    hide Replace;
    if Safe(w) {
      forall s: string ensures !Occurs(w, Replace(s, w)) {
        MaskedIsGone(w, s);
      }
    } else if w[0] == '*' {
      StarFirstComesBack(w);
    } else if w[|w| - 1] == '*' {
      StarLastComesBack(w);
    } else {
      var i: nat :| i <= |w| && OccursAt(MASK, w, i);
      var n := FirstMask(w, i);
      StarsInsideComeBack(w, n);
    }
  }

  lemma NoneYet(s: string)
    ensures ReplaceAll(s, []) == s
  {
  }

  lemma OneMore(s: string, secrets: seq<string>, w: string)
    requires w != "" && forall i :: 0 <= i < |secrets| ==> secrets[i] != ""
    ensures ReplaceAll(s, secrets + [w]) == Replace(ReplaceAll(s, secrets), w)
  {
    assert (secrets + [w])[..|secrets|] == secrets;
  }

  // ---- the registry and the loop -------------------------------------------

  class Secrets {
    var secrets: set<string>

    ghost predicate Valid()
      reads this
    {
      forall w :: w in secrets ==> |w| >= 4
    }

    constructor ()
      ensures Valid() && secrets == {}
    {
      secrets := {};
    }

    /** `register_secret` */
    method Register(value: Option<string>)
      requires Valid()
      modifies this
      ensures Valid()
      ensures secrets == old(secrets) + if value.Some? && |Strip(value.value)| >= 4 then {Strip(value.value)} else {}
    {
      if value.Some? && value.value != "" && |Strip(value.value)| >= 4 {
        secrets := secrets + {Strip(value.value)};
      }
    }

    /** The registered-secret layer of `redact`: longest first, each replaced everywhere. */
    method Redact(text: string) returns (out: string, ghost order: seq<string>)
      requires Valid()
      ensures forall w :: w in order <==> w in secrets
      ensures forall i, j :: 0 <= i < j < |order| ==> |order[i]| >= |order[j]| && order[i] != order[j]
      ensures (forall i :: 0 <= i < |order| ==> order[i] != "") && out == ReplaceAll(text, order)
      ensures forall w :: w in secrets && Safe(w) ==> !Occurs(w, out)
    {
      hide ReplaceAll;
      hide Replace;
      out, order := text, [];
      NoneYet(text);
      var todo := secrets;
      while todo != {}
        invariant todo <= secrets && forall w :: w in secrets <==> w in order || w in todo
        invariant forall w :: w in order ==> w !in todo
        invariant forall i, w :: 0 <= i < |order| && w in todo ==> |order[i]| >= |w|
        invariant forall i, j :: 0 <= i < j < |order| ==> |order[i]| >= |order[j]| && order[i] != order[j]
        invariant (forall i :: 0 <= i < |order| ==> order[i] != "") && out == ReplaceAll(text, order)
        decreases todo
      {
        var secret := Longest(todo);
        out := Replace(out, secret);
        OneMore(text, order, secret);
        order := order + [secret];
        todo := todo - {secret};
      }
      forall w | w in secrets && Safe(w) ensures !Occurs(w, out) {
        NoSecretIsLeft(text, order, w);
      }
    }

    method Longest(words: set<string>) returns (best: string)
      requires words != {}
      ensures best in words && forall w :: w in words ==> |w| <= |best|
    {
      best :| best in words;
      var todo := words - {best};
      while todo != {}
        invariant todo <= words && best in words
        invariant forall w :: w in words && w !in todo ==> |w| <= |best|
        decreases todo
      {
        var w :| w in todo;
        if |w| > |best| {
          best := w;
        }
        todo := todo - {w};
      }
    }
  }
}
