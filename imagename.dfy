/**
  `sanitizeImageNamePart` (internal/devcontainer/devcontainer.go): turns the
  `name` of a devcontainer configuration into the repository component of an
  image reference. The input is trimmed of white space and lower-cased, every
  maximal run of characters outside `[a-z0-9._-]` becomes one `-`, `-` and
  `.` are trimmed from both ends, and an empty result becomes `devcontainer`.
 */
module ImageName {

  /** Go's `unicode.IsSpace`: the characters `strings.TrimSpace` removes. */
  predicate IsSpace(c: char) {
    c == ' ' || ('\t' <= c <= '\r') || c == '\U{0085}' || c == '\U{00A0}' || c == '\U{1680}'
    || ('\U{2000}' <= c <= '\U{200A}')
    || c == '\U{2028}' || c == '\U{2029}' || c == '\U{202F}' || c == '\U{205F}' || c == '\U{3000}'
  }

  /** The characters the pattern `[^a-z0-9._-]` does not match. */
  predicate Allowed(c: char) {
    ('a' <= c <= 'z') || ('0' <= c <= '9') || c == '.' || c == '_' || c == '-'
  }

  /** The cutset `"-."` of the final `strings.Trim`. */
  predicate IsEdge(c: char) {
    c == '-' || c == '.'
  }

  const Fallback := "devcontainer"

  /** The two cutsets trimmed: white space, and `"-."`. */
  datatype Cutset = Spaces | Edges

  predicate Cut(cs: Cutset, c: char) {
    match cs
    case Spaces => IsSpace(c)
    case Edges => IsEdge(c)
  }

  /** The suffix left once the leading characters of the cutset are gone. */
  function DropWhile(s: string, cs: Cutset): (r: string)
    ensures |r| <= |s| && r == s[|s| - |r|..]
    ensures r != [] ==> !Cut(cs, r[0])
    ensures forall i :: 0 <= i < |s| - |r| ==> Cut(cs, s[i])
  {
    if s != [] && Cut(cs, s[0]) then DropWhile(s[1..], cs) else s
  }

  /** The prefix left once the trailing characters of the cutset are gone. */
  function DropLastWhile(s: string, cs: Cutset): (r: string)
    ensures |r| <= |s| && r == s[..|r|]
    ensures r != [] ==> !Cut(cs, r[|r| - 1])
    ensures forall i :: |r| <= i < |s| ==> Cut(cs, s[i])
  {
    if s != [] && Cut(cs, s[|s| - 1]) then DropLastWhile(s[..|s| - 1], cs) else s
  }

  /** `strings.Trim`-style removal at both ends. */
  function Trim(s: string, cs: Cutset): string {
    DropLastWhile(DropWhile(s, cs), cs)
  }

  function TrimSpace(s: string): string {
    Trim(s, Spaces)
  }

  function LowerChar(c: char): char {
    if 'A' <= c <= 'Z' then (c as int + 32) as char else c
  }

  /** Lower-casing; only the ASCII letters change. */
  function Lower(s: string): string {
    seq(|s|, i requires 0 <= i < |s| => LowerChar(s[i]))
  }

  /**
    `ReplaceAllString` of the pattern `[^a-z0-9._-]+` by `-`, as a scan: the
    regular expression matches maximal runs of disallowed characters, so the
    first character of each run becomes `-` and the rest of the run is
    dropped. `inRun` says whether the character before `s` was disallowed.
   */
  function CollapseFrom(s: string, inRun: bool): (r: string)
    ensures forall i :: 0 <= i < |r| ==> Allowed(r[i])
    ensures |r| <= |s|
  {
    if s == [] then []
    else if Allowed(s[0]) then [s[0]] + CollapseFrom(s[1..], false)
    else (if inRun then [] else "-") + CollapseFrom(s[1..], true)
  }

  function Collapse(s: string): string {
    CollapseFrom(s, false)
  }

  /**
    `sanitizeImageNamePart`: always a non-empty run of allowed characters
    that neither starts nor ends with `-` or `.`.
   */
  function Sanitize(s: string): (r: string)
    ensures r != []
    ensures forall i :: 0 <= i < |r| ==> Allowed(r[i])
    ensures !IsEdge(r[0]) && !IsEdge(r[|r| - 1])
  {
    var c := Collapse(Lower(TrimSpace(s)));
    var t := Trim(c, Edges);
    TrimAllowed(c);
    TrimEnds(c);
    FallbackAllowed();
    if t == [] then Fallback else t
  }

  /** A string of allowed characters is its own collapse. */
  lemma {:induction false} CollapseAllowed(s: string, inRun: bool)
    requires forall i :: 0 <= i < |s| ==> Allowed(s[i])
    ensures CollapseFrom(s, inRun) == s
    decreases |s|
  {
    if s != [] {
      CollapseAllowed(s[1..], false);
      assert [s[0]] + s[1..] == s;
    }
  }

  /** Inside a run, disallowed characters produce nothing. */
  lemma {:induction false} CollapseWithinRun(s: string)
    requires forall i :: 0 <= i < |s| ==> !Allowed(s[i])
    ensures CollapseFrom(s, true) == []
    decreases |s|
  {
    if s != [] {
      CollapseWithinRun(s[1..]);
    }
  }

  /** A non-empty string without allowed characters collapses to one `-`. */
  lemma CollapseRun(s: string)
    requires s != [] && forall i :: 0 <= i < |s| ==> !Allowed(s[i])
    ensures Collapse(s) == "-"
  {
    CollapseWithinRun(s[1..]);
  }

  /** Whether the scan is inside a run after reading `x`. */
  function RunAfter(x: string, inRun: bool): bool {
    if x == [] then inRun else !Allowed(x[|x| - 1])
  }

  /** Collapsing works piecewise: the scan of `y` only needs to know whether `x` ended in a run. */
  lemma {:induction false} CollapseConcat(x: string, y: string, inRun: bool)
    ensures CollapseFrom(x + y, inRun) == CollapseFrom(x, inRun) + CollapseFrom(y, RunAfter(x, inRun))
    decreases |x|
  {
    if x == [] {
      assert x + y == y;
    } else {
      var xy := x + y;
      assert xy[0] == x[0] && xy[1..] == x[1..] + y;
      CollapseConcat(x[1..], y, !Allowed(x[0]));
    }
  }

  /**
    The run state only matters before a disallowed character, so texts cut
    where no run straddles the cut collapse independently.
   */
  lemma CollapseSplit(x: string, y: string)
    requires x == [] || y == [] || Allowed(x[|x| - 1]) || Allowed(y[0])
    ensures Collapse(x + y) == Collapse(x) + Collapse(y)
  {
    CollapseConcat(x, y, false);
    if y != [] && Allowed(y[0]) {
      assert CollapseFrom(y, true) == CollapseFrom(y, false);
    }
  }

  /** The characters that carry the name: letters, digits and `_`. */
  predicate Kept(c: char) {
    Allowed(c) && !IsEdge(c)
  }

  /** The subsequence of `s` made of kept characters. */
  function Keep(s: string): string {
    if s == [] then [] else (if Kept(s[0]) then [s[0]] else []) + Keep(s[1..])
  }

  lemma {:induction false} KeepAppend(x: string, y: string)
    ensures Keep(x + y) == Keep(x) + Keep(y)
    decreases |x|
  {
    if x == [] {
      assert x + y == y;
    } else {
      var xy := x + y;
      var head := if Kept(x[0]) then [x[0]] else [];
      KeepAppend(x[1..], y);
      calc {
        Keep(xy);
        { assert xy[0] == x[0]; }
        head + Keep(xy[1..]);
        { assert xy[1..] == x[1..] + y; }
        head + (Keep(x[1..]) + Keep(y));
        Keep(x) + Keep(y);
      }
    }
  }

  /** The kept characters of a string are all its characters when every one is kept. */
  lemma {:induction false} KeepAll(s: string)
    requires forall i :: 0 <= i < |s| ==> Kept(s[i])
    ensures Keep(s) == s
    decreases |s|
  {
    if s != [] {
      KeepAll(s[1..]);
      assert [s[0]] + s[1..] == s;
    }
  }

  /** Collapsing replaces only separators: the letters, digits and `_` stay, in order. */
  lemma {:induction false} CollapseKeeps(s: string, inRun: bool)
    ensures Keep(CollapseFrom(s, inRun)) == Keep(s)
    decreases |s|
  {
    if s != [] {
      var head := if Allowed(s[0]) then [s[0]] else if inRun then [] else "-";
      CollapseKeeps(s[1..], !Allowed(s[0]));
      KeepAppend(head, CollapseFrom(s[1..], !Allowed(s[0])));
      assert Keep(head) == if Kept(s[0]) then [s[0]] else [];
    }
  }

  lemma CutNotKept(cs: Cutset, c: char)
    ensures Cut(cs, c) ==> !Kept(c)
  {
  }

  lemma {:induction false} DropKeeps(s: string, cs: Cutset)
    ensures Keep(DropWhile(s, cs)) == Keep(s)
    decreases |s|
  {
    if s != [] && Cut(cs, s[0]) {
      CutNotKept(cs, s[0]);
      DropKeeps(s[1..], cs);
    }
  }

  /** `Keep` read from the right end. */
  lemma KeepLast(s: string)
    requires s != []
    ensures Keep(s) == Keep(s[..|s| - 1]) + (if Kept(s[|s| - 1]) then [s[|s| - 1]] else [])
  {
    var n := |s| - 1;
    assert s == s[..n] + [s[n]];
    KeepAppend(s[..n], [s[n]]);
    assert Keep([s[n]]) == (if Kept(s[n]) then [s[n]] else []) + Keep([]);
  }

  lemma {:induction false} DropLastKeeps(s: string, cs: Cutset)
    ensures Keep(DropLastWhile(s, cs)) == Keep(s)
    decreases |s|
  {
    if s != [] && Cut(cs, s[|s| - 1]) {
      CutNotKept(cs, s[|s| - 1]);
      KeepLast(s);
      DropLastKeeps(s[..|s| - 1], cs);
    }
  }

  /** Neither cutset holds a kept character, so trimming keeps every kept character. */
  lemma TrimKeeps(s: string, cs: Cutset)
    ensures Keep(Trim(s, cs)) == Keep(s)
  {
    DropKeeps(s, cs);
    DropLastKeeps(DropWhile(s, cs), cs);
  }

  /** Trimming takes a slice, so a text of allowed characters stays one. */
  lemma TrimAllowed(s: string)
    requires forall i :: 0 <= i < |s| ==> Allowed(s[i])
    ensures forall i :: 0 <= i < |Trim(s, Edges)| ==> Allowed(Trim(s, Edges)[i])
  {
    var d := DropWhile(s, Edges);
    SliceAllowed(s, |s| - |d|, |s|);
    assert d == s[|s| - |d|..|s|];
    var t := DropLastWhile(d, Edges);
    SliceAllowed(d, 0, |t|);
    assert t == d[0..|t|];
  }

  lemma SliceAllowed(s: string, i: nat, j: nat)
    requires i <= j <= |s| && forall k :: 0 <= k < |s| ==> Allowed(s[k])
    ensures forall k :: 0 <= k < j - i ==> Allowed(s[i..j][k])
  {
  }

  /** A trimmed text neither starts nor ends with a character of the cutset. */
  lemma TrimEnds(s: string)
    ensures var t := Trim(s, Edges); t != [] ==> !IsEdge(t[0]) && !IsEdge(t[|t| - 1])
  {
    var d := DropWhile(s, Edges);
    var t := DropLastWhile(d, Edges);
    if t != [] {
      assert t[0] == d[0];
    }
  }

  lemma FallbackAllowed()
    ensures forall i :: 0 <= i < |Fallback| ==> Allowed(Fallback[i])
    ensures !IsEdge(Fallback[0]) && !IsEdge(Fallback[|Fallback| - 1])
  {
  }

  /** Lower-casing maps white space to white space and nothing else to it. */
  lemma SpaceLower(c: char)
    ensures IsSpace(LowerChar(c)) == IsSpace(c)
  {
  }

  lemma LowerFront(s: string)
    requires s != []
    ensures Lower(s) == [LowerChar(s[0])] + Lower(s[1..])
  {
  }

  lemma LowerBack(s: string)
    requires s != []
    ensures Lower(s) == Lower(s[..|s| - 1]) + [LowerChar(s[|s| - 1])]
  {
  }

  lemma {:induction false} DropWhileSpaceLower(s: string)
    ensures DropWhile(Lower(s), Spaces) == Lower(DropWhile(s, Spaces))
    decreases |s|
  {
    if s != [] {
      LowerFront(s);
      SpaceLower(s[0]);
      DropWhileSpaceLower(s[1..]);
    }
  }

  lemma {:induction false} DropLastWhileSpaceLower(s: string)
    ensures DropLastWhile(Lower(s), Spaces) == Lower(DropLastWhile(s, Spaces))
    decreases |s|
  {
    if s != [] {
      LowerBack(s);
      SpaceLower(s[|s| - 1]);
      DropLastWhileSpaceLower(s[..|s| - 1]);
    }
  }

  /** Trimming white space and lower-casing commute. */
  lemma TrimSpaceLower(s: string)
    ensures TrimSpace(Lower(s)) == Lower(TrimSpace(s))
  {
    DropWhileSpaceLower(s);
    DropLastWhileSpaceLower(DropWhile(s, Spaces));
  }

  lemma LowerCharTwice(c: char)
    ensures LowerChar(LowerChar(c)) == LowerChar(c)
  {
  }

  lemma LowerTwice(s: string)
    ensures Lower(Lower(s)) == Lower(s)
  {
    forall i | 0 <= i < |s| ensures Lower(Lower(s))[i] == Lower(s)[i] {
      LowerCharTwice(s[i]);
    }
  }

  /** Upper case in the name makes no difference to the sanitised part. */
  lemma SanitizeIgnoresCase(s: string)
    ensures Sanitize(Lower(s)) == Sanitize(s)
  {
    TrimSpaceLower(s);
    LowerTwice(TrimSpace(s));
  }

  /** Trimming leaves a text alone when neither end is in the cutset. */
  lemma TrimUntouched(s: string, cs: Cutset)
    requires s != [] && !Cut(cs, s[0]) && !Cut(cs, s[|s| - 1])
    ensures Trim(s, cs) == s
  {
  }

  /** Allowed characters are already lower case. */
  lemma LowerAllowed(s: string)
    requires forall i :: 0 <= i < |s| ==> Allowed(s[i])
    ensures Lower(s) == s
  {
    forall i | 0 <= i < |s| ensures Lower(s)[i] == s[i] {
      assert Allowed(s[i]);
    }
  }

  /** Sanitising a sanitised part changes nothing. */
  lemma SanitizeIdempotent(s: string)
    ensures Sanitize(Sanitize(s)) == Sanitize(s)
  {
    SanitizeFixes(Sanitize(s));
  }

  /** Every step of sanitising leaves a part that already has the promised form alone. */
  lemma SanitizeFixes(r: string)
    requires r != [] && forall i :: 0 <= i < |r| ==> Allowed(r[i])
    requires !IsEdge(r[0]) && !IsEdge(r[|r| - 1])
    ensures Sanitize(r) == r
  {
    assert TrimSpace(r) == r by {
      assert Allowed(r[0]) && Allowed(r[|r| - 1]);
      TrimUntouched(r, Spaces);
    }
    assert Lower(r) == r by {
      LowerAllowed(r);
    }
    assert Collapse(r) == r by {
      CollapseAllowed(r, false);
    }
    assert Trim(r, Edges) == r by {
      TrimUntouched(r, Edges);
    }
  }

  /** A text that starts with a kept character keeps something. */
  lemma TrimmedNonEmpty(t: string)
    requires t != [] && !IsEdge(t[0]) && Allowed(t[0])
    ensures Keep(t) != []
  {
    assert Kept(t[0]);
  }

  /**
    The letters, digits and `_` of the lower-cased name survive sanitising
    in order, and nothing else with them; a name with none of them becomes
    `devcontainer`.
   */
  lemma SanitizeKeeps(s: string)
    ensures Keep(Sanitize(s)) == if Keep(Lower(s)) == [] then Fallback else Keep(Lower(s))
    ensures Keep(Lower(s)) == [] ==> Sanitize(s) == Fallback
  {
    var t := Trim(Collapse(Lower(TrimSpace(s))), Edges);
    assert Sanitize(s) == if t == [] then Fallback else t;
    CleanKeeps(s);
    if t == [] {
      KeepAll(Fallback);
    } else {
      TrimmedNonEmpty(t);
    }
  }

  /** Every step before the fallback keeps the letters, digits and `_` of the lower-cased name. */
  lemma CleanKeeps(s: string)
    ensures Keep(Trim(Collapse(Lower(TrimSpace(s))), Edges)) == Keep(Lower(s))
  {
    var n := Lower(TrimSpace(s));
    var c := Collapse(n);
    TrimSpaceLower(s);
    TrimKeeps(Lower(s), Spaces);
    CollapseKeeps(n, false);
    TrimKeeps(c, Edges);
  }
}
