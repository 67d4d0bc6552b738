/**
  The string operations of Go's `strings` package that the command closures
  rely on, with the semantics Go gives them:
  - `ReplaceAll(s, pat, rep)` with a non-empty pattern scans left to right and
    replaces leftmost, non-overlapping occurrences;
  - `Join(parts, sep)`;
  - `SplitN(s, "=", 2)`, which splits at the first separator only.
  Characters are Dafny `char`s; Go works on UTF-8 bytes, but the patterns used
  here are ASCII, so the two agree.
 */
module Text {

  /** `t` occurs in `s` starting at index `i`. */
  predicate OccursAt(s: string, t: string, i: nat) {
    i + |t| <= |s| && s[i..i + |t|] == t
  }

  ghost predicate Contains(s: string, t: string) {
    exists i: nat :: OccursAt(s, t, i)
  }

  /** The first occurrence of `t` in `s` starts at `i`. */
  ghost predicate FirstAt(s: string, t: string, i: nat) {
    OccursAt(s, t, i) && forall j: nat :: j < i ==> !OccursAt(s, t, j)
  }

  /**
    strings.ReplaceAll for a non-empty pattern. Replacing a pattern by itself
    gives the text back.
   */
  function ReplaceAll(s: string, pat: string, rep: string): (r: string)
    requires pat != []
    ensures rep == pat ==> r == s
    decreases |s|
  {
    if |s| < |pat| then s
    else if s[..|pat|] == pat then
      assert s[..|pat|] + s[|pat|..] == s;
      rep + ReplaceAll(s[|pat|..], pat, rep)
    else
      assert [s[0]] + s[1..] == s;
      [s[0]] + ReplaceAll(s[1..], pat, rep)
  }

  lemma OccursTail(s: string, t: string, i: nat)
    requires s != [] && OccursAt(s[1..], t, i)
    ensures OccursAt(s, t, i + 1)
  {
    assert s[1..][i..i + |t|] == s[i + 1..i + 1 + |t|];
  }

  /** One step of the scan when the pattern starts the text. */
  lemma ReplaceStepMatch(s: string, pat: string, rep: string)
    requires pat != [] && OccursAt(s, pat, 0)
    ensures ReplaceAll(s, pat, rep) == rep + ReplaceAll(s[|pat|..], pat, rep)
  {
  }

  /** One step of the scan when the pattern does not start the text. */
  lemma ReplaceStepSkip(s: string, pat: string, rep: string)
    requires pat != [] && s != [] && !OccursAt(s, pat, 0)
    ensures ReplaceAll(s, pat, rep) == [s[0]] + ReplaceAll(s[1..], pat, rep)
  {
    if |s| < |pat| {
      assert [s[0]] + s[1..] == s;
    }
  }

  lemma ShortUnchanged(s: string, pat: string, rep: string)
    requires pat != [] && |s| < |pat|
    ensures ReplaceAll(s, pat, rep) == s
  {
  }

  /** A text with no occurrence of the pattern is left as it is. */
  lemma {:induction false} ReplaceAbsent(s: string, pat: string, rep: string)
    requires pat != [] && !Contains(s, pat)
    ensures ReplaceAll(s, pat, rep) == s
    decreases |s|
  {
    if s != [] {
      assert !OccursAt(s, pat, 0);
      ReplaceStepSkip(s, pat, rep);
      forall i: nat ensures !OccursAt(s[1..], pat, i) {
        if OccursAt(s[1..], pat, i) {
          OccursTail(s, pat, i);
        }
      }
      ReplaceAbsent(s[1..], pat, rep);
      assert [s[0]] + s[1..] == s;
    }
  }

  /**
    The text before the first occurrence is copied, that occurrence becomes
    `rep`, and the rest of the text is processed in the same way.  Together
    with ReplaceAbsent this determines ReplaceAll: every occurrence found by a
    left-to-right scan is replaced.
   */
  lemma ReplaceFirst(s: string, pat: string, rep: string, i: nat)
    requires pat != [] && FirstAt(s, pat, i)
    ensures ReplaceAll(s, pat, rep) == s[..i] + rep + ReplaceAll(s[i + |pat|..], pat, rep)
  {
    var u := s[..i];
    var b := s[i..];
    var tail := s[i + |pat|..];
    assert s == u + b;
    forall m: nat | m < |u| ensures !OccursAt(u + b, pat, m) {
      assert !OccursAt(s, pat, m);
    }
    CopyPrefix(u, b, pat, rep);
    assert OccursAt(b, pat, 0) by {
      assert b[..|pat|] == s[i..i + |pat|];
    }
    ReplaceStepMatch(b, pat, rep);
    assert b[|pat|..] == tail;
    Associate(u, rep, ReplaceAll(tail, pat, rep));
  }

  /**
    A text holding the pattern once, with a tail too short to hold another,
    has exactly that occurrence replaced.
   */
  lemma ReplaceOnly(a: string, pat: string, b: string, rep: string)
    requires pat != [] && |b| < |pat| && FirstAt(a + pat + b, pat, |a|)
    ensures ReplaceAll(a + pat + b, pat, rep) == a + rep + b
  {
    var s := a + pat + b;
    ReplaceFirst(s, pat, rep, |a|);
    assert s[..|a|] == a && s[|a| + |pat|..] == b;
    ShortUnchanged(b, pat, rep);
  }

  /** Regrouping concatenations, stated apart so that no `ReplaceAll` term is unfolded for it. */
  lemma Associate(a: string, b: string, c: string)
    ensures a + (b + c) == a + b + c
  {
  }

  lemma Regroup(a: string, b: string, c: string, d: string)
    ensures a + (b + c + d) == (a + b) + c + d
  {
  }

  /** A proper, non-empty suffix of `x` of length `k` is a prefix of `y`. */
  predicate EdgeShared(x: string, y: string, k: nat) {
    0 < k < |x| && k < |y| && x[|x| - k..] == y[..k]
  }

  /**
    Two non-empty texts that cannot meet: neither occurs inside the other and
    no occurrence of one can start inside an occurrence of the other.
   */
  ghost predicate Separate(x: string, y: string) {
    && x != [] && y != []
    && !Contains(x, y) && !Contains(y, x)
    && (forall k: nat :: !EdgeShared(x, y, k))
    && (forall k: nat :: !EdgeShared(y, x, k))
  }

  /** Copying a prefix `u` in which no occurrence of the pattern starts. */
  lemma {:induction false} CopyPrefix(u: string, b: string, pat: string, rep: string)
    requires pat != []
    requires forall m: nat :: m < |u| ==> !OccursAt(u + b, pat, m)
    ensures ReplaceAll(u + b, pat, rep) == u + ReplaceAll(b, pat, rep)
    decreases |u|
  {
    if u == [] {
      assert u + b == b;
    } else {
      var s := u + b;
      assert !OccursAt(s, pat, 0);
      ReplaceStepSkip(s, pat, rep);
      assert s[1..] == u[1..] + b;
      forall m: nat | m < |u[1..]| ensures !OccursAt(u[1..] + b, pat, m) {
        if OccursAt(u[1..] + b, pat, m) {
          OccursTail(s, pat, m);
        }
      }
      CopyPrefix(u[1..], b, pat, rep);
      calc {
        ReplaceAll(s, pat, rep);
        [s[0]] + ReplaceAll(s[1..], pat, rep);
        [u[0]] + (u[1..] + ReplaceAll(b, pat, rep));
        { assert [u[0]] + u[1..] == u; }
        u + ReplaceAll(b, pat, rep);
      }
    }
  }

  lemma OccursWithin(t: string, b: string, pat: string, m: nat)
    requires m + |pat| <= |t|
    ensures OccursAt(t + b, pat, m) ==> OccursAt(t, pat, m)
  {
    assert (t + b)[m..m + |pat|] == t[m..m + |pat|];
  }

  lemma OccursAcrossEnd(t: string, b: string, pat: string, m: nat)
    requires m < |t| < m + |pat|
    ensures OccursAt(t + b, pat, m) ==>
      if m == 0 then OccursAt(pat, t, 0) else EdgeShared(t, pat, |t| - m)
  {
    if OccursAt(t + b, pat, m) {
      var s := t + b;
      assert pat[..|t| - m] == s[m..m + |pat|][..|t| - m] == s[m..|t|] == t[m..];
    }
  }

  /** No occurrence of `pat` starts inside an occurrence of a separate `t`. */
  lemma NoStartInside(t: string, b: string, pat: string, m: nat)
    requires Separate(t, pat) && m < |t|
    ensures !OccursAt(t + b, pat, m)
  {
    if m + |pat| <= |t| {
      OccursWithin(t, b, pat, m);
    } else {
      OccursAcrossEnd(t, b, pat, m);
      if m > 0 {
        assert !EdgeShared(t, pat, |t| - m);
      }
    }
  }

  lemma ReachesInto(a: string, t: string, b: string, pat: string)
    requires 0 < |a| < |pat|
    ensures OccursAt(a + t + b, pat, 0) ==>
      if |pat| >= |a| + |t| then OccursAt(pat, t, |a|) else EdgeShared(pat, t, |pat| - |a|)
  {
    var s := a + t + b;
    if OccursAt(s, pat, 0) {
      if |pat| >= |a| + |t| {
        assert pat[|a|..|a| + |t|] == s[|a|..|a| + |t|] == t;
      } else {
        assert pat[|a|..] == s[|a|..|pat|] == t[..|pat| - |a|];
      }
    }
  }

  /** No occurrence of `pat` starting in `a` reaches into a separate `t`. */
  lemma NoStraddle(a: string, t: string, b: string, pat: string)
    requires Separate(t, pat) && a != [] && |pat| > |a|
    ensures !OccursAt(a + t + b, pat, 0)
  {
    ReachesInto(a, t, b, pat);
    if |pat| < |a| + |t| {
      assert !EdgeShared(pat, t, |pat| - |a|);
    }
  }

  /**
    Locality: an occurrence of a text `t` that is separate from the pattern
    survives the replacement, and the text on either side of it is processed
    independently.
   */
  lemma {:induction false} ReplaceAround(a: string, t: string, b: string, pat: string, rep: string)
    requires Separate(t, pat)
    ensures ReplaceAll(a + t + b, pat, rep) == ReplaceAll(a, pat, rep) + t + ReplaceAll(b, pat, rep)
    decreases |a|, 1
  {
    if a == [] {
      forall m: nat | m < |t| ensures !OccursAt(t + b, pat, m) {
        NoStartInside(t, b, pat, m);
      }
      CopyPrefix(t, b, pat, rep);
      assert a + t + b == t + b;
    } else if OccursAt(a + t + b, pat, 0) {
      AroundMatch(a, t, b, pat, rep);
    } else {
      AroundSkip(a, t, b, pat, rep);
    }
  }

  lemma {:induction false} AroundMatch(a: string, t: string, b: string, pat: string, rep: string)
    requires Separate(t, pat) && a != [] && OccursAt(a + t + b, pat, 0)
    ensures ReplaceAll(a + t + b, pat, rep) == ReplaceAll(a, pat, rep) + t + ReplaceAll(b, pat, rep)
    decreases |a|, 0
  {
    var s := a + t + b;
    assert OccursAt(a, pat, 0) by {
      if |pat| > |a| {
        NoStraddle(a, t, b, pat);
      }
      assert a[..|pat|] == s[..|pat|];
    }
    var ra := ReplaceAll(a[|pat|..], pat, rep);
    var rb := ReplaceAll(b, pat, rep);
    assert ReplaceAll(s, pat, rep) == rep + ReplaceAll(s[|pat|..], pat, rep) by {
      ReplaceStepMatch(s, pat, rep);
    }
    assert ReplaceAll(s[|pat|..], pat, rep) == ra + t + rb by {
      assert s[|pat|..] == a[|pat|..] + t + b;
      ReplaceAround(a[|pat|..], t, b, pat, rep);
    }
    assert ReplaceAll(a, pat, rep) == rep + ra by {
      ReplaceStepMatch(a, pat, rep);
    }
    Regroup(rep, ra, t, rb);
  }

  /** An occurrence at the start of a text is one at the start of any extension of it. */
  lemma OccursExtended(a: string, c: string, pat: string)
    ensures OccursAt(a, pat, 0) ==> OccursAt(a + c, pat, 0)
  {
    if OccursAt(a, pat, 0) {
      assert (a + c)[..|pat|] == a[..|pat|];
    }
  }

  lemma {:induction false} AroundSkip(a: string, t: string, b: string, pat: string, rep: string)
    requires Separate(t, pat) && a != [] && !OccursAt(a + t + b, pat, 0)
    ensures ReplaceAll(a + t + b, pat, rep) == ReplaceAll(a, pat, rep) + t + ReplaceAll(b, pat, rep)
    decreases |a|, 0
  {
    var s := a + t + b;
    var ra := ReplaceAll(a[1..], pat, rep);
    var rb := ReplaceAll(b, pat, rep);
    assert ReplaceAll(s, pat, rep) == [a[0]] + ReplaceAll(s[1..], pat, rep) by {
      ReplaceStepSkip(s, pat, rep);
    }
    assert ReplaceAll(s[1..], pat, rep) == ra + t + rb by {
      assert s[1..] == a[1..] + t + b;
      ReplaceAround(a[1..], t, b, pat, rep);
    }
    assert ReplaceAll(a, pat, rep) == [a[0]] + ra by {
      OccursExtended(a, t + b, pat);
      assert s == a + (t + b);
      ReplaceStepSkip(a, pat, rep);
    }
    Regroup([a[0]], ra, t, rb);
  }

  /** A template placeholder: `{{`, a name without curly braces, `}}`. */
  predicate IsPlaceholder(x: string) {
    && |x| >= 4
    && x[0] == '{' && x[1] == '{' && x[|x| - 2] == '}' && x[|x| - 1] == '}'
    && forall i :: 2 <= i < |x| - 2 ==> x[i] != '{' && x[i] != '}'
  }

  lemma PlaceholderOpen(x: string, i: nat)
    requires IsPlaceholder(x) && i < |x|
    ensures x[i] == '{' ==> i < 2
  {
  }

  lemma PlaceholderClose(x: string, i: nat)
    requires IsPlaceholder(x) && i < |x|
    ensures x[i] == '}' ==> i >= |x| - 2
  {
  }

  /** A placeholder found inside another one is that same placeholder. */
  lemma PlaceholderWithin(x: string, y: string, j: nat)
    requires IsPlaceholder(x) && IsPlaceholder(y) && OccursAt(y, x, j)
    ensures x == y
  {
    var n := |x|;
    assert y[j + 1] == x[1];
    PlaceholderOpen(y, j + 1);
    assert y[n - 2] == x[n - 2];
    PlaceholderClose(y, n - 2);
    assert y == y[..n];
  }

  lemma PlaceholderInside(x: string, y: string)
    requires IsPlaceholder(x) && IsPlaceholder(y) && x != y
    ensures !Contains(y, x)
  {
    forall j: nat ensures !OccursAt(y, x, j) {
      if OccursAt(y, x, j) {
        PlaceholderWithin(x, y, j);
      }
    }
  }

  lemma EdgeOpens(x: string, y: string, k: nat)
    requires IsPlaceholder(y)
    ensures EdgeShared(x, y, k) ==> x[|x| - k] == '{' && (k >= 2 ==> x[|x| - k + 1] == '{')
  {
    if EdgeShared(x, y, k) {
      assert x[|x| - k] == x[|x| - k..][0] == y[..k][0] == y[0];
      if k >= 2 {
        assert x[|x| - k + 1] == x[|x| - k..][1] == y[..k][1] == y[1];
      }
    }
  }

  lemma PlaceholderEdge(x: string, y: string, k: nat)
    requires IsPlaceholder(x) && IsPlaceholder(y)
    ensures !EdgeShared(x, y, k)
  {
    EdgeOpens(x, y, k);
    PlaceholderOpen(x, 2);
    if 0 < k < |x| {
      PlaceholderOpen(x, |x| - k);
    }
  }

  /** Two different placeholders can never meet in a text. */
  lemma PlaceholdersSeparate(x: string, y: string)
    requires IsPlaceholder(x) && IsPlaceholder(y) && x != y
    ensures Separate(x, y)
  {
    PlaceholderInside(x, y);
    PlaceholderInside(y, x);
    forall k: nat ensures !EdgeShared(x, y, k) && !EdgeShared(y, x, k) {
      PlaceholderEdge(x, y, k);
      PlaceholderEdge(y, x, k);
    }
  }

  /** A text without `{` holds no placeholder. */
  lemma NoBraceNoPlaceholder(s: string, x: string)
    requires IsPlaceholder(x) && '{' !in s
    ensures !Contains(s, x)
  {
    forall i: nat ensures !OccursAt(s, x, i) {
      OccursStart(s, x, i);
    }
  }

  /** An occurrence starts with the pattern's first character. */
  lemma OccursStart(s: string, x: string, i: nat)
    requires x != []
    ensures OccursAt(s, x, i) ==> i < |s| && s[i] == x[0]
  {
    if OccursAt(s, x, i) {
      assert s[i..i + |x|][0] == s[i];
    }
  }

  /** Replacing a placeholder in a text without `{` changes nothing. */
  lemma BraceFreeUnchanged(s: string, x: string, rep: string)
    requires IsPlaceholder(x) && '{' !in s
    ensures ReplaceAll(s, x, rep) == s
  {
    NoBraceNoPlaceholder(s, x);
    ReplaceAbsent(s, x, rep);
  }

  /** A lone placeholder amid text without `{` is replaced, and nothing else changes. */
  lemma ReplaceLone(a: string, x: string, b: string, rep: string)
    requires IsPlaceholder(x) && '{' !in a && '{' !in b
    ensures ReplaceAll(a + x + b, x, rep) == a + rep + b
  {
    var s := a + x + b;
    assert FirstAt(s, x, |a|) by {
      assert s[|a|..|a| + |x|] == x;
      forall j: nat | j < |a| ensures !OccursAt(s, x, j) {
        OccursStart(s, x, j);
        assert s[j] == a[j];
      }
    }
    ReplaceFirst(s, x, rep, |a|);
    assert s[..|a|] == a && s[|a| + |x|..] == b;
    BraceFreeUnchanged(b, x, rep);
  }

  /** Replacing another placeholder leaves a lone placeholder amid text without `{` as it is. */
  lemma KeepLone(a: string, x: string, b: string, y: string, rep: string)
    requires IsPlaceholder(x) && IsPlaceholder(y) && x != y && '{' !in a && '{' !in b
    ensures ReplaceAll(a + x + b, y, rep) == a + x + b
  {
    PlaceholdersSeparate(x, y);
    ReplaceAround(a, x, b, y, rep);
    BraceFreeUnchanged(a, y, rep);
    BraceFreeUnchanged(b, y, rep);
  }

  /** Replacing a placeholder copies a leading text without `{` unchanged. */
  lemma {:induction false} BraceFreePrefix(t: string, u: string, x: string, rep: string)
    requires IsPlaceholder(x) && '{' !in t
    ensures ReplaceAll(t + u, x, rep) == t + ReplaceAll(u, x, rep)
    decreases |t|
  {
    if t == [] {
      assert t + u == u;
    } else {
      var s := t + u;
      assert !OccursAt(s, x, 0) by {
        OccursStart(s, x, 0);
        assert s[0] == t[0];
      }
      ReplaceStepSkip(s, x, rep);
      assert s[1..] == t[1..] + u;
      BraceFreePrefix(t[1..], u, x, rep);
      assert [t[0]] + (t[1..] + ReplaceAll(u, x, rep)) == t + ReplaceAll(u, x, rep);
    }
  }

  // ---------------------------------------------------------------------
  // Templates cut into pieces

  /** A piece of a template: a run of text, or a placeholder. */
  datatype Piece = Plain(text: string) | Hole(name: string)

  /** A run of text without `{`, or a well-formed placeholder. */
  predicate WellCut(piece: Piece) {
    match piece
    case Plain(t) => '{' !in t
    case Hole(x) => IsPlaceholder(x)
  }

  ghost predicate AllWellCut(ps: seq<Piece>) {
    forall i :: 0 <= i < |ps| ==> WellCut(ps[i])
  }

  function Show(piece: Piece): string {
    match piece
    case Plain(t) => t
    case Hole(x) => x
  }

  /** The template text the pieces make up. */
  function Flatten(ps: seq<Piece>): string
    decreases |ps|
  {
    if ps == [] then "" else Show(ps[0]) + Flatten(ps[1..])
  }

  lemma FlattenCons(piece: Piece, ps: seq<Piece>)
    ensures Flatten([piece] + ps) == Show(piece) + Flatten(ps)
  {
    assert ([piece] + ps)[1..] == ps;
  }

  lemma FlattenTwo(p0: Piece, p1: Piece)
    ensures Flatten([p0, p1]) == Show(p0) + Show(p1)
  {
    FlattenCons(p1, []);
    assert [p1] + [] == [p1];
    FlattenCons(p0, [p1]);
    assert [p0] + [p1] == [p0, p1];
  }

  lemma FlattenThree(p0: Piece, p1: Piece, p2: Piece)
    ensures Flatten([p0, p1, p2]) == Show(p0) + Show(p1) + Show(p2)
  {
    FlattenTwo(p1, p2);
    FlattenCons(p0, [p1, p2]);
    assert [p0] + [p1, p2] == [p0, p1, p2];
  }

  lemma FlattenFour(p0: Piece, p1: Piece, p2: Piece, p3: Piece)
    ensures Flatten([p0, p1, p2, p3]) == Show(p0) + Show(p1) + Show(p2) + Show(p3)
  {
    FlattenThree(p1, p2, p3);
    FlattenCons(p0, [p1, p2, p3]);
    assert [p0] + [p1, p2, p3] == [p0, p1, p2, p3];
  }

  /** A template of five pieces reads as the five pieces in turn. */
  lemma FlattenFive(p0: Piece, p1: Piece, p2: Piece, p3: Piece, p4: Piece)
    ensures Flatten([p0, p1, p2, p3, p4]) == Show(p0) + Show(p1) + Show(p2) + Show(p3) + Show(p4)
  {
    FlattenFour(p1, p2, p3, p4);
    FlattenCons(p0, [p1, p2, p3, p4]);
    assert [p0] + [p1, p2, p3, p4] == [p0, p1, p2, p3, p4];
  }

  /** The piece once the placeholder `x` is filled with `rep`. */
  function FillPiece(piece: Piece, x: string, rep: string): (r: Piece)
    ensures WellCut(piece) && '{' !in rep ==> WellCut(r)
    ensures r.Hole? ==> r == piece
  {
    if piece == Hole(x) then Plain(rep) else piece
  }

  function Fill(ps: seq<Piece>, x: string, rep: string): seq<Piece> {
    seq(|ps|, i requires 0 <= i < |ps| => FillPiece(ps[i], x, rep))
  }

  /**
    `strings.ReplaceAll` of a placeholder over a template made of runs without
    `{` and whole placeholders: exactly the pieces that are that placeholder
    are replaced, every occurrence of it, and nothing else changes.
   */
  lemma {:induction false} ReplacePieces(ps: seq<Piece>, x: string, rep: string)
    requires IsPlaceholder(x) && AllWellCut(ps)
    ensures ReplaceAll(Flatten(ps), x, rep) == Flatten(Fill(ps, x, rep))
    decreases |ps|
  {
    if ps == [] {
      assert Fill(ps, x, rep) == [];
    } else {
      assert AllWellCut(ps[1..]) by {
        forall i | 0 <= i < |ps[1..]| ensures WellCut(ps[1..][i]) {
          assert ps[1..][i] == ps[i + 1];
        }
      }
      ReplacePieces(ps[1..], x, rep);
      ReplaceHead(ps[0], Flatten(ps[1..]), x, rep);
      var filled := Fill(ps, x, rep);
      assert filled[0] == FillPiece(ps[0], x, rep);
      assert filled[1..] == Fill(ps[1..], x, rep);
    }
  }

  /** The first piece of a template under `strings.ReplaceAll` of a placeholder. */
  lemma ReplaceHead(piece: Piece, u: string, x: string, rep: string)
    requires IsPlaceholder(x) && WellCut(piece)
    ensures ReplaceAll(Show(piece) + u, x, rep) == Show(FillPiece(piece, x, rep)) + ReplaceAll(u, x, rep)
  {
    match piece
    case Plain(t) =>
      BraceFreePrefix(t, u, x, rep);
    case Hole(y) =>
      if y == x {
        ReplaceLeading(x, u, rep);
      } else {
        PlaceholdersSeparate(y, x);
        ReplaceAround([], y, u, x, rep);
        assert [] + y + u == y + u;
      }
  }

  /** A text that starts with the pattern has that occurrence replaced first. */
  lemma ReplaceLeading(pat: string, u: string, rep: string)
    requires pat != []
    ensures ReplaceAll(pat + u, pat, rep) == rep + ReplaceAll(u, pat, rep)
  {
    assert (pat + u)[..|pat|] == pat && (pat + u)[|pat|..] == u;
    ReplaceStepMatch(pat + u, pat, rep);
  }

  /** strings.Join. */
  function Join(parts: seq<string>, sep: string): (r: string)
    ensures forall c :: c in r ==> c in sep || exists i :: 0 <= i < |parts| && c in parts[i]
    decreases |parts|
  {
    if parts == [] then ""
    else if |parts| == 1 then parts[0]
    else parts[0] + sep + Join(parts[1..], sep)
  }

  /**
    strings.SplitN(s, [c], 2): one part when `c` does not occur, otherwise the
    text before the first `c` and everything after it.
   */
  function SplitFirst(s: string, c: char): (parts: seq<string>)
    ensures |parts| == 1 || |parts| == 2
    ensures |parts| == 2 <==> c in s
    ensures |parts| == 1 ==> parts[0] == s
    ensures |parts| == 2 ==> c !in parts[0] && s == parts[0] + [c] + parts[1]
    decreases |s|
  {
    if s == [] then [s]
    else if s[0] == c then ["", s[1..]]
    else
      var rest := SplitFirst(s[1..], c);
      if |rest| == 2 then [[s[0]] + rest[0], rest[1]] else [s]
  }

  /** The split is determined: the key is the text before the first `c`. */
  lemma {:induction false} SplitFirstUnique(k: string, v: string, c: char)
    requires c !in k
    ensures SplitFirst(k + [c] + v, c) == [k, v]
    decreases |k|
  {
    var s := k + [c] + v;
    if k == [] {
      assert s[1..] == v;
    } else {
      assert s[1..] == k[1..] + [c] + v;
      SplitFirstUnique(k[1..], v, c);
      assert [k[0]] + k[1..] == k;
    }
  }

  /** strings.Split on a one-character separator. */
  function SplitOn(s: string, c: char): (parts: seq<string>)
    ensures |parts| >= 1
    decreases |s|
  {
    var first := SplitFirst(s, c);
    if |first| == 1 then [s] else [first[0]] + SplitOn(first[1], c)
  }

  /** Splitting what `Join` glued together gives back the parts. */
  lemma {:induction false} JoinThenSplit(parts: seq<string>, c: char)
    requires |parts| >= 1
    requires forall i :: 0 <= i < |parts| ==> c !in parts[i]
    ensures SplitOn(Join(parts, [c]), c) == parts
    decreases |parts|
  {
    if |parts| > 1 {
      var rest := Join(parts[1..], [c]);
      SplitFirstUnique(parts[0], rest, c);
      JoinThenSplit(parts[1..], c);
      assert [parts[0]] + parts[1..] == parts;
    } else {
      assert c !in parts[0];
    }
  }
}
