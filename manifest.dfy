/**
  The pod manifest that `kdev up` renders (main.go, `cmdUp`): the checks and
  defaults applied to the flags, the substitution of the `{{…}}` placeholders
  of the template, and the three list placeholders built from repeatable
  `key=value` flags.
 */
module Manifest {
  import opened Text
  import opened Effects

  /** The flags of `up` as given; an empty string means "not given". */
  datatype UpFlags = UpFlags(
    name: string,
    template: string,
    image: string,
    serviceAccount: string,
    pvc: string,
    workdir: string,
    labels: seq<string>,
    envs: seq<string>,
    cpu: string,
    memory: string,
    nodeSelectors: seq<string>,
    shell: string)

  const NameRequired := "--name is required"
  const ImageRequired := "--image is required"
  const DefaultServiceAccount := "dev-vscode"
  const DefaultTemplate := "templates/pod.yaml"
  const DefaultShell := "/bin/bash"

  /** Every setting the manifest and the template read needs is present. */
  predicate Settled(f: UpFlags) {
    f.name != "" && f.image != "" && f.serviceAccount != "" && f.pvc != ""
    && f.template != "" && f.shell != ""
  }

  /** `def` when `given` is empty, `given` otherwise. */
  function Default(given: string, def: string): string {
    if given == "" then def else given
  }

  /**
    The two required-flag checks, in order, then the defaults for the service
    account, the claim name, the template path and the shell.
   */
  function CheckUp(f: UpFlags): (r: Result<UpFlags>)
    ensures f.name == "" ==> r == Err(NameRequired)
    ensures f.name != "" && f.image == "" ==> r == Err(ImageRequired)
    ensures r.Ok? <==> f.name != "" && f.image != ""
    ensures r.Ok? ==> Settled(r.value)
    ensures r.Ok? ==> r.value.name == f.name && r.value.image == f.image
    ensures r.Ok? && f.serviceAccount != "" ==> r.value.serviceAccount == f.serviceAccount
    ensures r.Ok? && f.pvc != "" ==> r.value.pvc == f.pvc
    ensures r.Ok? && f.template != "" ==> r.value.template == f.template
    ensures r.Ok? && f.shell != "" ==> r.value.shell == f.shell
    ensures r.Ok? ==> r.value.(serviceAccount := f.serviceAccount, pvc := f.pvc,
                               template := f.template, shell := f.shell) == f
  {
    if f.name == "" then Err(NameRequired)
    else if f.image == "" then Err(ImageRequired)
    else Ok(f.(serviceAccount := Default(f.serviceAccount, DefaultServiceAccount),
               pvc := Default(f.pvc, f.name),
               template := Default(f.template, DefaultTemplate),
               shell := Default(f.shell, DefaultShell)))
  }

  /** A defaulted setting that was not given takes its fixed default. */
  lemma DefaultsFillGaps(f: UpFlags)
    requires f.name != "" && f.image != ""
    ensures var s := CheckUp(f).value;
      && (f.serviceAccount == "" ==> s.serviceAccount == DefaultServiceAccount)
      && (f.pvc == "" ==> s.pvc == f.name)
      && (f.template == "" ==> s.template == DefaultTemplate)
      && (f.shell == "" ==> s.shell == DefaultShell)
  {
  }

  // ---------------------------------------------------------------------
  // Scalar placeholders

  /** The keys of the `repl` map. */
  datatype Scalar = Name | Namespace | Image | ServiceAccount | PvcName | Workdir | Cpu | Memory | Shell

  function Token(p: Scalar): (t: string)
    ensures IsPlaceholder(t)
  {
    match p
    case Name => "{{NAME}}"
    case Namespace => "{{NAMESPACE}}"
    case Image => "{{IMAGE}}"
    case ServiceAccount => "{{SERVICE_ACCOUNT}}"
    case PvcName => "{{PVC_NAME}}"
    case Workdir => "{{WORKDIR}}"
    case Cpu => "{{CPU}}"
    case Memory => "{{MEMORY}}"
    case Shell => "{{SHELL}}"
  }

  lemma TokenInjective(p: Scalar, q: Scalar)
    ensures Token(p) == Token(q) ==> p == q
  {
  }

  function ScalarValue(f: UpFlags, ns: string, p: Scalar): string {
    match p
    case Name => f.name
    case Namespace => ns
    case Image => f.image
    case ServiceAccount => f.serviceAccount
    case PvcName => f.pvc
    case Workdir => f.workdir
    case Cpu => f.cpu
    case Memory => f.memory
    case Shell => f.shell
  }

  /**
    The order in which Go happens to visit the `repl` map: every key exactly
    once, in an order the language leaves unspecified.
   */
  ghost predicate IsMapOrder(order: seq<Scalar>) {
    && (forall p: Scalar :: p in order)
    && (forall i, j :: 0 <= i < j < |order| ==> order[i] != order[j])
  }

  /** One iteration of the `repl` loop: an empty value is skipped. */
  function Substitute(s: string, p: Scalar, value: string): string {
    if value == "" then s else ReplaceAll(s, Token(p), value)
  }

  /**
    The `repl` loop over the keys in `order`. Text without a `{` has no
    placeholder to replace, whatever the order and the values.
   */
  function SubstituteScalars(s: string, f: UpFlags, ns: string, order: seq<Scalar>): (r: string)
    ensures '{' !in s ==> r == s
    decreases |order|
  {
    if order == [] then s
    else
      var p := order[|order| - 1];
      var prev := SubstituteScalars(s, f, ns, order[..|order| - 1]);
      assert '{' !in s ==> Substitute(prev, p, ScalarValue(f, ns, p)) == prev by {
        if '{' !in s && ScalarValue(f, ns, p) != "" {
          BraceFreeUnchanged(prev, Token(p), ScalarValue(f, ns, p));
        }
      }
      Substitute(prev, p, ScalarValue(f, ns, p))
  }

  // ---------------------------------------------------------------------
  // List placeholders

  const LabelsToken := "{{LABELS_EXTRA}}"
  const EnvsToken := "{{ENVS}}"
  const NodeSelectorToken := "{{NODE_SELECTOR}}"

  lemma ListTokensArePlaceholders()
    ensures IsPlaceholder(LabelsToken) && IsPlaceholder(EnvsToken) && IsPlaceholder(NodeSelectorToken)
  {
  }

  /**
    `SplitN(kv, "=", 2)` followed by the `len(parts) != 2` filter: an entry
    without `=` gives nothing, any other entry its key and value.
   */
  function ParseEntry(kv: string): (r: seq<(string, string)>)
    ensures r == [] <==> '=' !in kv
    ensures r != [] ==> |r| == 1 && '=' !in r[0].0 && kv == r[0].0 + "=" + r[0].1
  {
    var parts := SplitFirst(kv, '=');
    if |parts| != 2 then [] else [(parts[0], parts[1])]
  }

  /** The key/value pairs that survive the filter, in input order. */
  function KeyValues(entries: seq<string>): (pairs: seq<(string, string)>)
    ensures |pairs| <= |entries|
    ensures forall j :: 0 <= j < |pairs| ==> '=' !in pairs[j].0
    ensures forall j :: 0 <= j < |pairs| ==>
      exists i :: 0 <= i < |entries| && entries[i] == pairs[j].0 + "=" + pairs[j].1
    decreases |entries|
  {
    if entries == [] then []
    else KeyValues(entries[..|entries| - 1]) + ParseEntry(entries[|entries| - 1])
  }

  /** Parsing distributes over concatenation: the filter keeps input order. */
  lemma {:induction false} KeyValuesAppend(xs: seq<string>, ys: seq<string>)
    ensures KeyValues(xs + ys) == KeyValues(xs) + KeyValues(ys)
    decreases |ys|
  {
    if ys == [] {
      assert xs + ys == xs;
    } else {
      var n := |ys| - 1;
      assert (xs + ys)[..|xs + ys| - 1] == xs + ys[..n];
      KeyValuesAppend(xs, ys[..n]);
    }
  }

  /** A malformed entry is dropped without disturbing its neighbours. */
  lemma KeyValuesDropMalformed(xs: seq<string>, bad: string, ys: seq<string>)
    requires '=' !in bad
    ensures KeyValues(xs + [bad] + ys) == KeyValues(xs + ys)
  {
    var front := xs + [bad];
    assert KeyValues(front) == KeyValues(xs) by {
      assert KeyValues([bad]) == [] by {
        assert [bad][..0] == [];
      }
      KeyValuesAppend(xs, [bad]);
    }
    KeyValuesAppend(front, ys);
    KeyValuesAppend(xs, ys);
  }

  /** The key is the text before the first `=`, the value everything after it. */
  lemma KeyValueSplit(k: string, v: string)
    requires '=' !in k
    ensures KeyValues([k + "=" + v]) == [(k, v)]
  {
    SplitFirstUnique(k, v, '=');
    assert [k + "=" + v][..0] == [];
  }

  /** When no entry has a `=`, nothing survives. */
  lemma {:induction false} KeyValuesAllMalformed(entries: seq<string>)
    requires forall i :: 0 <= i < |entries| ==> '=' !in entries[i]
    ensures KeyValues(entries) == []
    decreases |entries|
  {
    if entries != [] {
      KeyValuesAllMalformed(entries[..|entries| - 1]);
    }
  }

  /** The value with every `"` written as `\"`: escaping character by character. */
  function EscapeQuotes(v: string): (r: string)
    ensures r == EscapeChars(v)
  {
    EscapeQuotesCharwise(v);
    ReplaceAll(v, "\"", "\\\"")
  }

  /** Character-wise reading of the escaping. */
  function EscapeChars(v: string): string
    decreases |v|
  {
    if v == [] then []
    else (if v[0] == '"' then "\\\"" else [v[0]]) + EscapeChars(v[1..])
  }

  lemma {:induction false} EscapeQuotesCharwise(v: string)
    ensures ReplaceAll(v, "\"", "\\\"") == EscapeChars(v)
    decreases |v|
  {
    if v != [] {
      if v[0] == '"' {
        assert OccursAt(v, "\"", 0);
        ReplaceStepMatch(v, "\"", "\\\"");
      } else {
        assert !OccursAt(v, "\"", 0);
        ReplaceStepSkip(v, "\"", "\\\"");
      }
      EscapeQuotesCharwise(v[1..]);
    }
  }

  /** Reading a `\"` back as `"`, as a YAML double-quoted scalar does. */
  function UnescapeQuotes(s: string): string
    decreases |s|
  {
    if s == [] then []
    else if |s| >= 2 && s[0] == '\\' && s[1] == '"' then "\"" + UnescapeQuotes(s[2..])
    else [s[0]] + UnescapeQuotes(s[1..])
  }

  /** Escaping adds only backslashes and quotes. */
  lemma {:induction false} EscapeCharsWithout(v: string, c: char)
    requires c != '\\' && c != '"' && c !in v
    ensures c !in EscapeChars(v)
    decreases |v|
  {
    if v != [] {
      EscapeCharsWithout(v[1..], c);
    }
  }

  /** Every `"` left in an escaped value comes right after a backslash. */
  lemma {:induction false} EscapedQuotesGuarded(v: string)
    ensures forall i :: 0 <= i < |EscapeQuotes(v)| && EscapeQuotes(v)[i] == '"' ==>
      i > 0 && EscapeQuotes(v)[i - 1] == '\\'
  {
    EscapeQuotesCharwise(v);
    EscapeCharsGuarded(v);
  }

  lemma {:induction false} EscapeCharsGuarded(v: string)
    ensures forall i :: 0 <= i < |EscapeChars(v)| && EscapeChars(v)[i] == '"' ==>
      i > 0 && EscapeChars(v)[i - 1] == '\\'
    ensures EscapeChars(v) != [] ==> EscapeChars(v)[0] != '"'
    decreases |v|
  {
    if v != [] {
      EscapeCharsGuarded(v[1..]);
      var head: string := if v[0] == '"' then "\\\"" else [v[0]];
      var e := EscapeChars(v);
      assert e == head + EscapeChars(v[1..]);
      forall i | 0 <= i < |e| && e[i] == '"' ensures i > 0 && e[i - 1] == '\\' {
        if i >= |head| {
          assert e[i] == EscapeChars(v[1..])[i - |head|];
          if i - |head| == 0 {
            assert false;
          } else {
            assert e[i - 1] == EscapeChars(v[1..])[i - 1 - |head|];
          }
        }
      }
    }
  }

  /** Unescaping the escaped value gives the value back. */
  lemma {:induction false} EscapeRoundTrip(v: string)
    ensures UnescapeQuotes(EscapeQuotes(v)) == v
  {
    EscapeQuotesCharwise(v);
    EscapeCharsRoundTrip(v);
  }

  lemma {:induction false} EscapeCharsRoundTrip(v: string)
    ensures UnescapeQuotes(EscapeChars(v)) == v
    decreases |v|
  {
    if v != [] {
      EscapeCharsRoundTrip(v[1..]);
      var rest := EscapeChars(v[1..]);
      if v[0] == '"' {
        assert EscapeChars(v) == "\\\"" + rest;
        assert ("\\\"" + rest)[2..] == rest;
      } else {
        EscapeCharsGuarded(v[1..]);
        assert EscapeChars(v) == [v[0]] + rest;
        assert ([v[0]] + rest)[1..] == rest;
      }
      assert [v[0]] + v[1..] == v;
    }
  }

  /** One `--label` line: the entry as given, indented by two spaces. */
  function LabelLine(kv: string): string {
    "  " + kv
  }

  /** One `--env` entry: a `name`/`value` item of the container's env list. */
  function EnvLine(k: string, v: string): (line: string)
    ensures '{' !in k && '{' !in v ==> '{' !in line
  {
    assert '{' !in v ==> '{' !in EscapeQuotes(v) by {
      if '{' !in v {
        EscapeCharsWithout(v, '{');
      }
    }
    "        - name: " + k + "\n          value: \"" + EscapeQuotes(v) + "\""
  }

  /** One `--node` entry: a `key: "value"` line of the node selector. */
  function NodeSelectorLine(k: string, v: string): (line: string)
    ensures '{' !in k && '{' !in v ==> '{' !in line
  {
    assert '{' !in v ==> '{' !in EscapeQuotes(v) by {
      if '{' !in v {
        EscapeCharsWithout(v, '{');
      }
    }
    "    " + k + ": \"" + EscapeQuotes(v) + "\""
  }

  function LabelLines(labels: seq<string>): seq<string> {
    seq(|labels|, i requires 0 <= i < |labels| => LabelLine(labels[i]))
  }

  function EnvLines(pairs: seq<(string, string)>): seq<string> {
    seq(|pairs|, i requires 0 <= i < |pairs| => EnvLine(pairs[i].0, pairs[i].1))
  }

  function NodeSelectorLines(pairs: seq<(string, string)>): seq<string> {
    seq(|pairs|, i requires 0 <= i < |pairs| => NodeSelectorLine(pairs[i].0, pairs[i].1))
  }

  lemma EnvLinesSnoc(pairs: seq<(string, string)>, p: (string, string))
    ensures EnvLines(pairs + [p]) == EnvLines(pairs) + [EnvLine(p.0, p.1)]
  {
  }

  lemma NodeSelectorLinesSnoc(pairs: seq<(string, string)>, p: (string, string))
    ensures NodeSelectorLines(pairs + [p]) == NodeSelectorLines(pairs) + [NodeSelectorLine(p.0, p.1)]
  {
  }

  /** What replaces `{{LABELS_EXTRA}}`. */
  function LabelsValue(labels: seq<string>): string {
    if |labels| > 0 then Join(LabelLines(labels), "\n") else ""
  }

  /** What replaces `{{ENVS}}`. */
  function EnvsValue(envs: seq<string>): string {
    if |envs| > 0 then Join(EnvLines(KeyValues(envs)), "\n") else ""
  }

  /** What replaces `{{NODE_SELECTOR}}`. */
  function NodeSelectorValue(nodeSelectors: seq<string>): string {
    if |nodeSelectors| > 0 then Join(NodeSelectorLines(KeyValues(nodeSelectors)), "\n") else ""
  }

  /**
    The manifest `up` pipes to `kubectl apply`. A template without any of the
    twelve placeholders is applied exactly as read.
   */
  function Rendered(f: UpFlags, ns: string, template: string, order: seq<Scalar>): (r: string)
    ensures NoPlaceholders(template) ==> r == template
  {
    var scalars := SubstituteScalars(template, f, ns, order);
    var labelled := ReplaceAll(scalars, LabelsToken, LabelsValue(f.labels));
    var withEnvs := ReplaceAll(labelled, EnvsToken, EnvsValue(f.envs));
    assert NoPlaceholders(template) ==>
      ReplaceAll(withEnvs, NodeSelectorToken, NodeSelectorValue(f.nodeSelectors)) == template by {
      if NoPlaceholders(template) {
        SubstituteNothing(template, f, ns, order);
        ReplaceAbsent(template, LabelsToken, LabelsValue(f.labels));
        ReplaceAbsent(template, EnvsToken, EnvsValue(f.envs));
        ReplaceAbsent(template, NodeSelectorToken, NodeSelectorValue(f.nodeSelectors));
      }
    }
    ReplaceAll(withEnvs, NodeSelectorToken, NodeSelectorValue(f.nodeSelectors))
  }

  // ---------------------------------------------------------------------
  // Properties of the rendering

  /** Substitution never touches the text around a placeholder whose value is empty. */
  lemma {:induction false} SubstituteAround(a: string, b: string, f: UpFlags, ns: string,
                                            order: seq<Scalar>, p: Scalar)
    requires ScalarValue(f, ns, p) == ""
    ensures SubstituteScalars(a + Token(p) + b, f, ns, order)
         == SubstituteScalars(a, f, ns, order) + Token(p) + SubstituteScalars(b, f, ns, order)
    decreases |order|
  {
    if order != [] {
      var init := order[..|order| - 1];
      var q := order[|order| - 1];
      SubstituteAround(a, b, f, ns, init, p);
      var v := ScalarValue(f, ns, q);
      if v != "" {
        TokenInjective(p, q);
        PlaceholdersSeparate(Token(p), Token(q));
        ReplaceAround(SubstituteScalars(a, f, ns, init), Token(p), SubstituteScalars(b, f, ns, init), Token(q), v);
      }
    }
  }

  /**
    A scalar placeholder whose value is empty (`{{CPU}}` without `--cpu`) is
    left verbatim in the manifest, and the template text on either side of it
    is rendered as if it stood alone.
   */
  lemma EmptyScalarKept(f: UpFlags, ns: string, a: string, b: string, order: seq<Scalar>, p: Scalar)
    requires ScalarValue(f, ns, p) == ""
    ensures Rendered(f, ns, a + Token(p) + b, order)
         == Rendered(f, ns, a, order) + Token(p) + Rendered(f, ns, b, order)
  {
    var t := Token(p);
    SubstituteAround(a, b, f, ns, order, p);
    ListTokensArePlaceholders();
    PlaceholdersSeparate(t, LabelsToken);
    PlaceholdersSeparate(t, EnvsToken);
    PlaceholdersSeparate(t, NodeSelectorToken);
    var a1 := SubstituteScalars(a, f, ns, order);
    var b1 := SubstituteScalars(b, f, ns, order);
    ReplaceAround(a1, t, b1, LabelsToken, LabelsValue(f.labels));
    var a2 := ReplaceAll(a1, LabelsToken, LabelsValue(f.labels));
    var b2 := ReplaceAll(b1, LabelsToken, LabelsValue(f.labels));
    ReplaceAround(a2, t, b2, EnvsToken, EnvsValue(f.envs));
    var a3 := ReplaceAll(a2, EnvsToken, EnvsValue(f.envs));
    var b3 := ReplaceAll(b2, EnvsToken, EnvsValue(f.envs));
    ReplaceAround(a3, t, b3, NodeSelectorToken, NodeSelectorValue(f.nodeSelectors));
  }

  /** The template text has none of the twelve placeholders. */
  ghost predicate NoPlaceholders(template: string) {
    && (forall p: Scalar :: !Contains(template, Token(p)))
    && !Contains(template, LabelsToken)
    && !Contains(template, EnvsToken)
    && !Contains(template, NodeSelectorToken)
  }

  lemma {:induction false} SubstituteNothing(template: string, f: UpFlags, ns: string, order: seq<Scalar>)
    requires NoPlaceholders(template)
    ensures SubstituteScalars(template, f, ns, order) == template
    decreases |order|
  {
    if order != [] {
      var q := order[|order| - 1];
      SubstituteNothing(template, f, ns, order[..|order| - 1]);
      if ScalarValue(f, ns, q) != "" {
        ReplaceAbsent(template, Token(q), ScalarValue(f, ns, q));
      }
    }
  }

  /**
    A scalar placeholder standing alone in brace-free text is replaced by its
    value when the loop visits its key with a non-empty value, and is kept
    otherwise.
   */
  lemma {:induction false} SubstituteLone(a: string, b: string, f: UpFlags, ns: string,
                                          order: seq<Scalar>, p: Scalar)
    requires forall i, j :: 0 <= i < j < |order| ==> order[i] != order[j]
    requires '{' !in a && '{' !in b && '{' !in ScalarValue(f, ns, p)
    ensures SubstituteScalars(a + Token(p) + b, f, ns, order)
         == if p in order && ScalarValue(f, ns, p) != "" then a + ScalarValue(f, ns, p) + b
            else a + Token(p) + b
    decreases |order|
  {
    if order != [] {
      var init := order[..|order| - 1];
      var q := order[|order| - 1];
      assert order == init + [q];
      SubstituteLone(a, b, f, ns, init, p);
      var x := Token(p);
      var v := ScalarValue(f, ns, p);
      var w := ScalarValue(f, ns, q);
      var prev := SubstituteScalars(a + x + b, f, ns, init);
      assert SubstituteScalars(a + x + b, f, ns, order) == Substitute(prev, q, w);
      if q == p {
        assert p !in init;
        assert prev == a + x + b;
        if v != "" {
          ReplaceLone(a, x, b, v);
        }
      } else {
        assert p in order <==> p in init;
        TokenInjective(p, q);
        SubstituteOther(a, b, x, v, q, w, prev, p in init && v != "");
      }
    }
  }

  /** One step of the loop on a key other than the placeholder's own. */
  lemma SubstituteOther(a: string, b: string, x: string, v: string, q: Scalar, w: string,
                        prev: string, replaced: bool)
    requires IsPlaceholder(x) && x != Token(q)
    requires '{' !in a && '{' !in b && '{' !in v
    requires prev == if replaced then a + v + b else a + x + b
    ensures Substitute(prev, q, w) == prev
  {
    if w != "" {
      if replaced {
        BraceFreeUnchanged(a + v + b, Token(q), w);
      } else {
        KeepLone(a, x, b, Token(q), w);
      }
    }
  }

  /**
    A scalar placeholder with a non-empty value, standing alone in brace-free
    template text, is replaced by that value and nothing else changes.
   */
  lemma ScalarReplaced(f: UpFlags, ns: string, a: string, b: string, order: seq<Scalar>, p: Scalar)
    requires IsMapOrder(order)
    requires ScalarValue(f, ns, p) != ""
    requires '{' !in a && '{' !in b && '{' !in ScalarValue(f, ns, p)
    ensures Rendered(f, ns, a + Token(p) + b, order) == a + ScalarValue(f, ns, p) + b
  {
    var done := a + ScalarValue(f, ns, p) + b;
    SubstituteLone(a, b, f, ns, order, p);
    ListTokensArePlaceholders();
    BraceFreeUnchanged(done, LabelsToken, LabelsValue(f.labels));
    BraceFreeUnchanged(done, EnvsToken, EnvsValue(f.envs));
    BraceFreeUnchanged(done, NodeSelectorToken, NodeSelectorValue(f.nodeSelectors));
  }

  lemma ListTokensNotScalar(q: Scalar)
    ensures Token(q) != LabelsToken && Token(q) != EnvsToken && Token(q) != NodeSelectorToken
  {
  }

  /** The scalar loop leaves a placeholder that is not one of its keys alone. */
  lemma {:induction false} SubstituteKeepsOther(a: string, x: string, b: string, f: UpFlags, ns: string,
                                                order: seq<Scalar>)
    requires IsPlaceholder(x) && (forall q :: Token(q) != x)
    requires '{' !in a && '{' !in b
    ensures SubstituteScalars(a + x + b, f, ns, order) == a + x + b
    decreases |order|
  {
    if order != [] {
      var q := order[|order| - 1];
      SubstituteKeepsOther(a, x, b, f, ns, order[..|order| - 1]);
      if ScalarValue(f, ns, q) != "" {
        KeepLone(a, x, b, Token(q), ScalarValue(f, ns, q));
      }
    }
  }

  /** The list blocks hold no `{` when the entries hold none. */
  lemma LabelsBraceFree(labels: seq<string>)
    requires forall i :: 0 <= i < |labels| ==> '{' !in labels[i]
    ensures '{' !in LabelsValue(labels)
  {
    var lines := LabelLines(labels);
    assert forall i :: 0 <= i < |lines| ==> '{' !in lines[i];
  }

  lemma PairsBraceFree(entries: seq<string>)
    requires forall i :: 0 <= i < |entries| ==> '{' !in entries[i]
    ensures forall j :: 0 <= j < |KeyValues(entries)| ==>
      '{' !in KeyValues(entries)[j].0 && '{' !in KeyValues(entries)[j].1
  {
    var pairs := KeyValues(entries);
    forall j | 0 <= j < |pairs|
      ensures '{' !in pairs[j].0 && '{' !in pairs[j].1
    {
      var i :| 0 <= i < |entries| && entries[i] == pairs[j].0 + "=" + pairs[j].1;
    }
  }

  lemma EnvsBraceFree(envs: seq<string>)
    requires forall i :: 0 <= i < |envs| ==> '{' !in envs[i]
    ensures '{' !in EnvsValue(envs)
  {
    PairsBraceFree(envs);
    var lines := EnvLines(KeyValues(envs));
    assert forall i :: 0 <= i < |lines| ==> '{' !in lines[i];
  }

  /**
    `{{LABELS_EXTRA}}` standing alone in brace-free template text is replaced
    by the labels block; labels without `{` leave the later placeholders
    nothing to find.
   */
  lemma LabelsReplaced(f: UpFlags, ns: string, a: string, b: string, order: seq<Scalar>)
    requires '{' !in a && '{' !in b
    requires forall i :: 0 <= i < |f.labels| ==> '{' !in f.labels[i]
    ensures Rendered(f, ns, a + LabelsToken + b, order) == a + LabelsValue(f.labels) + b
  {
    var done := a + LabelsValue(f.labels) + b;
    ListTokensArePlaceholders();
    forall q | true ensures Token(q) != LabelsToken { ListTokensNotScalar(q); }
    SubstituteKeepsOther(a, LabelsToken, b, f, ns, order);
    ReplaceLone(a, LabelsToken, b, LabelsValue(f.labels));
    LabelsBraceFree(f.labels);
    BraceFreeUnchanged(done, EnvsToken, EnvsValue(f.envs));
    BraceFreeUnchanged(done, NodeSelectorToken, NodeSelectorValue(f.nodeSelectors));
  }

  /** `{{ENVS}}` standing alone in brace-free template text is replaced by the env block. */
  lemma EnvsReplaced(f: UpFlags, ns: string, a: string, b: string, order: seq<Scalar>)
    requires '{' !in a && '{' !in b
    requires forall i :: 0 <= i < |f.envs| ==> '{' !in f.envs[i]
    ensures Rendered(f, ns, a + EnvsToken + b, order) == a + EnvsValue(f.envs) + b
  {
    var done := a + EnvsValue(f.envs) + b;
    ListTokensArePlaceholders();
    forall q | true ensures Token(q) != EnvsToken { ListTokensNotScalar(q); }
    SubstituteKeepsOther(a, EnvsToken, b, f, ns, order);
    KeepLone(a, EnvsToken, b, LabelsToken, LabelsValue(f.labels));
    ReplaceLone(a, EnvsToken, b, EnvsValue(f.envs));
    EnvsBraceFree(f.envs);
    BraceFreeUnchanged(done, NodeSelectorToken, NodeSelectorValue(f.nodeSelectors));
  }

  /**
    `{{NODE_SELECTOR}}` standing alone in brace-free template text is replaced
    by the node-selector block, whatever the entries hold: it is the last
    replacement made.
   */
  lemma NodeSelectorReplaced(f: UpFlags, ns: string, a: string, b: string, order: seq<Scalar>)
    requires '{' !in a && '{' !in b
    ensures Rendered(f, ns, a + NodeSelectorToken + b, order) == a + NodeSelectorValue(f.nodeSelectors) + b
  {
    ListTokensArePlaceholders();
    forall q | true ensures Token(q) != NodeSelectorToken { ListTokensNotScalar(q); }
    SubstituteKeepsOther(a, NodeSelectorToken, b, f, ns, order);
    KeepLone(a, NodeSelectorToken, b, LabelsToken, LabelsValue(f.labels));
    KeepLone(a, NodeSelectorToken, b, EnvsToken, EnvsValue(f.envs));
    ReplaceLone(a, NodeSelectorToken, b, NodeSelectorValue(f.nodeSelectors));
  }

  // ---------------------------------------------------------------------
  // Templates with any number of placeholders

  /** A key visited in `seen` has `x` as its placeholder and a non-empty value. */
  ghost predicate Filled(f: UpFlags, ns: string, x: string, seen: seq<Scalar>) {
    exists p :: p in seen && Token(p) == x && ScalarValue(f, ns, p) != ""
  }

  /** A piece of the template once the scalar loop has visited the keys in `seen`. */
  ghost function ScalarPiece(f: UpFlags, ns: string, piece: Piece, seen: seq<Scalar>): Piece {
    if piece.Hole? && Filled(f, ns, piece.name, seen) then
      var p :| p in seen && Token(p) == piece.name && ScalarValue(f, ns, p) != "";
      Plain(ScalarValue(f, ns, p))
    else piece
  }

  ghost function ScalarPieces(f: UpFlags, ns: string, ps: seq<Piece>, seen: seq<Scalar>): seq<Piece> {
    seq(|ps|, i requires 0 <= i < |ps| => ScalarPiece(f, ns, ps[i], seen))
  }

  /** The scalar placeholders among the pieces have values without `{`. */
  ghost predicate ValuesBraceFree(f: UpFlags, ns: string, ps: seq<Piece>) {
    forall i, p :: 0 <= i < |ps| && ps[i] == Hole(Token(p)) ==> '{' !in ScalarValue(f, ns, p)
  }

  /** The key a scalar placeholder belongs to is the only one with that placeholder. */
  lemma OnlyKey(x: string, p: Scalar)
    requires Token(p) == x
    ensures forall q :: Token(q) == x ==> q == p
  {
    forall q | Token(q) == x ensures q == p {
      TokenInjective(q, p);
    }
  }

  /** One more key visited fills that key's placeholder, if its value is non-empty. */
  lemma ScalarPieceStep(f: UpFlags, ns: string, piece: Piece, init: seq<Scalar>, q: Scalar)
    ensures ScalarPiece(f, ns, piece, init + [q])
         == if ScalarValue(f, ns, q) == "" then ScalarPiece(f, ns, piece, init)
            else FillPiece(ScalarPiece(f, ns, piece, init), Token(q), ScalarValue(f, ns, q))
  {
    if piece.Hole? {
      var x := piece.name;
      if Filled(f, ns, x, init) {
        FilledBefore(f, ns, x, init, q);
      } else if x == Token(q) && ScalarValue(f, ns, q) != "" {
        FilledNow(f, ns, x, init, q);
      } else {
        NotFilled(f, ns, x, init, q);
      }
    }
  }

  lemma FilledBefore(f: UpFlags, ns: string, x: string, init: seq<Scalar>, q: Scalar)
    requires Filled(f, ns, x, init)
    ensures ScalarPiece(f, ns, Hole(x), init).Plain?
    ensures ScalarPiece(f, ns, Hole(x), init + [q]) == ScalarPiece(f, ns, Hole(x), init)
  {
    var p :| p in init && Token(p) == x && ScalarValue(f, ns, p) != "";
    assert p in init + [q];
    OnlyKey(x, p);
  }

  lemma FilledNow(f: UpFlags, ns: string, x: string, init: seq<Scalar>, q: Scalar)
    requires !Filled(f, ns, x, init) && x == Token(q) && ScalarValue(f, ns, q) != ""
    ensures ScalarPiece(f, ns, Hole(x), init) == Hole(x)
    ensures ScalarPiece(f, ns, Hole(x), init + [q]) == Plain(ScalarValue(f, ns, q))
  {
    assert q in init + [q];
    OnlyKey(x, q);
  }

  lemma NotFilled(f: UpFlags, ns: string, x: string, init: seq<Scalar>, q: Scalar)
    requires !Filled(f, ns, x, init) && !(x == Token(q) && ScalarValue(f, ns, q) != "")
    ensures ScalarPiece(f, ns, Hole(x), init) == Hole(x)
    ensures ScalarPiece(f, ns, Hole(x), init + [q]) == Hole(x)
  {
    assert forall p :: p in init + [q] ==> p in init || p == q;
  }

  lemma ScalarPiecesWellCut(f: UpFlags, ns: string, ps: seq<Piece>, seen: seq<Scalar>)
    requires AllWellCut(ps) && ValuesBraceFree(f, ns, ps)
    ensures AllWellCut(ScalarPieces(f, ns, ps, seen))
  {
    forall i | 0 <= i < |ps| ensures WellCut(ScalarPieces(f, ns, ps, seen)[i]) {
      var piece := ps[i];
      if piece.Hole? && Filled(f, ns, piece.name, seen) {
        var p :| p in seen && Token(p) == piece.name && ScalarValue(f, ns, p) != "";
        OnlyKey(piece.name, p);
        assert ps[i] == Hole(Token(p));
      }
    }
  }

  /**
    The scalar loop over a template made of runs without `{` and whole
    placeholders fills, piece by piece, every placeholder whose key it has
    visited with a non-empty value.
   */
  lemma {:induction false} SubstitutePieces(f: UpFlags, ns: string, ps: seq<Piece>, order: seq<Scalar>)
    requires AllWellCut(ps) && ValuesBraceFree(f, ns, ps)
    ensures SubstituteScalars(Flatten(ps), f, ns, order) == Flatten(ScalarPieces(f, ns, ps, order))
    decreases |order|
  {
    if order == [] {
      assert ScalarPieces(f, ns, ps, order) == ps;
    } else {
      var init := order[..|order| - 1];
      var q := order[|order| - 1];
      var w := ScalarValue(f, ns, q);
      assert order == init + [q];
      SubstitutePieces(f, ns, ps, init);
      var prev := ScalarPieces(f, ns, ps, init);
      forall i | 0 <= i < |ps|
        ensures ScalarPieces(f, ns, ps, order)[i] == if w == "" then prev[i] else FillPiece(prev[i], Token(q), w)
      {
        ScalarPieceStep(f, ns, ps[i], init, q);
      }
      if w == "" {
        assert ScalarPieces(f, ns, ps, order) == prev;
      } else {
        ScalarPiecesWellCut(f, ns, ps, init);
        ReplacePieces(prev, Token(q), w);
        assert ScalarPieces(f, ns, ps, order) == Fill(prev, Token(q), w);
      }
    }
  }

  /**
    What one piece of the template becomes in the manifest: a list
    placeholder its block, a scalar placeholder with a non-empty value that
    value; every other piece stays as it is.
   */
  ghost function RenderPiece(f: UpFlags, ns: string, piece: Piece): Piece {
    if piece == Hole(LabelsToken) then Plain(LabelsValue(f.labels))
    else if piece == Hole(EnvsToken) then Plain(EnvsValue(f.envs))
    else if piece == Hole(NodeSelectorToken) then Plain(NodeSelectorValue(f.nodeSelectors))
    else if piece.Hole? && exists p :: Token(p) == piece.name && ScalarValue(f, ns, p) != "" then
      var p :| Token(p) == piece.name && ScalarValue(f, ns, p) != "";
      Plain(ScalarValue(f, ns, p))
    else piece
  }

  ghost function RenderPieces(f: UpFlags, ns: string, ps: seq<Piece>): seq<Piece> {
    seq(|ps|, i requires 0 <= i < |ps| => RenderPiece(f, ns, ps[i]))
  }

  lemma RenderPieceAgrees(f: UpFlags, ns: string, piece: Piece, order: seq<Scalar>)
    requires forall p :: p in order
    ensures FillPiece(FillPiece(FillPiece(ScalarPiece(f, ns, piece, order),
                                          LabelsToken, LabelsValue(f.labels)),
                                EnvsToken, EnvsValue(f.envs)),
                      NodeSelectorToken, NodeSelectorValue(f.nodeSelectors))
         == RenderPiece(f, ns, piece)
  {
    if piece.Hole? {
      var x := piece.name;
      if exists p :: Token(p) == x {
        var p :| Token(p) == x;
        OnlyKey(x, p);
        ListTokensNotScalar(p);
        ScalarHoleFilled(f, ns, p, order);
        ScalarHoleRendered(f, ns, p);
      } else {
        assert !Filled(f, ns, x, order);
        assert !exists p :: Token(p) == x && ScalarValue(f, ns, p) != "";
      }
    }
  }

  /** The scalar loop turns a scalar placeholder into its value when that is non-empty. */
  lemma ScalarHoleFilled(f: UpFlags, ns: string, p: Scalar, order: seq<Scalar>)
    requires forall q :: q in order
    ensures ScalarPiece(f, ns, Hole(Token(p)), order)
         == if ScalarValue(f, ns, p) != "" then Plain(ScalarValue(f, ns, p)) else Hole(Token(p))
  {
    OnlyKey(Token(p), p);
    if ScalarValue(f, ns, p) != "" {
      assert p in order;
    }
  }

  /** A scalar placeholder is rendered as its value when that is non-empty, and kept otherwise. */
  lemma ScalarHoleRendered(f: UpFlags, ns: string, p: Scalar)
    ensures RenderPiece(f, ns, Hole(Token(p)))
         == if ScalarValue(f, ns, p) != "" then Plain(ScalarValue(f, ns, p)) else Hole(Token(p))
  {
    OnlyKey(Token(p), p);
    ListTokensNotScalar(p);
  }

  /**
    Rendering a template made of runs without `{` and whole placeholders
    works piece by piece, whatever the map order: every list placeholder
    becomes its block, every scalar placeholder with a non-empty value becomes
    that value, and the runs, the empty-valued scalars and any other
    placeholder stay as they are. The labels and env entries must hold no
    `{`, as the later replacements would otherwise also search them.
   */
  lemma RenderedPieces(f: UpFlags, ns: string, ps: seq<Piece>, order: seq<Scalar>)
    requires IsMapOrder(order)
    requires AllWellCut(ps) && ValuesBraceFree(f, ns, ps)
    requires forall i :: 0 <= i < |f.labels| ==> '{' !in f.labels[i]
    requires forall i :: 0 <= i < |f.envs| ==> '{' !in f.envs[i]
    ensures Rendered(f, ns, Flatten(ps), order) == Flatten(RenderPieces(f, ns, ps))
  {
    RenderedFilled(f, ns, ps, order);
    FilledAgrees(f, ns, ps, order);
  }

  /** The three list replacements fill the scalar-substituted pieces one token at a time. */
  lemma RenderedFilled(f: UpFlags, ns: string, ps: seq<Piece>, order: seq<Scalar>)
    requires IsMapOrder(order)
    requires AllWellCut(ps) && ValuesBraceFree(f, ns, ps)
    requires forall i :: 0 <= i < |f.labels| ==> '{' !in f.labels[i]
    requires forall i :: 0 <= i < |f.envs| ==> '{' !in f.envs[i]
    ensures Rendered(f, ns, Flatten(ps), order)
         == Flatten(Fill(Fill(Fill(ScalarPieces(f, ns, ps, order), LabelsToken, LabelsValue(f.labels)),
                              EnvsToken, EnvsValue(f.envs)),
                         NodeSelectorToken, NodeSelectorValue(f.nodeSelectors)))
  {
    var labels := LabelsValue(f.labels);
    var envs := EnvsValue(f.envs);
    var nodes := NodeSelectorValue(f.nodeSelectors);
    SubstitutePieces(f, ns, ps, order);
    ScalarPiecesWellCut(f, ns, ps, order);
    ListTokensArePlaceholders();
    LabelsBraceFree(f.labels);
    EnvsBraceFree(f.envs);
    var p1 := ScalarPieces(f, ns, ps, order);
    ReplacePieces(p1, LabelsToken, labels);
    var p2 := Fill(p1, LabelsToken, labels);
    ReplacePieces(p2, EnvsToken, envs);
    var p3 := Fill(p2, EnvsToken, envs);
    ReplacePieces(p3, NodeSelectorToken, nodes);
  }

  /** Filling the pieces token by token gives each piece's rendering. */
  lemma FilledAgrees(f: UpFlags, ns: string, ps: seq<Piece>, order: seq<Scalar>)
    requires forall p :: p in order
    ensures Fill(Fill(Fill(ScalarPieces(f, ns, ps, order), LabelsToken, LabelsValue(f.labels)),
                      EnvsToken, EnvsValue(f.envs)),
                 NodeSelectorToken, NodeSelectorValue(f.nodeSelectors))
         == RenderPieces(f, ns, ps)
  {
    var filled := Fill(Fill(Fill(ScalarPieces(f, ns, ps, order), LabelsToken, LabelsValue(f.labels)),
                            EnvsToken, EnvsValue(f.envs)),
                       NodeSelectorToken, NodeSelectorValue(f.nodeSelectors));
    forall i | 0 <= i < |ps| ensures filled[i] == RenderPieces(f, ns, ps)[i] {
      RenderPieceAgrees(f, ns, ps[i], order);
    }
  }

  /**
    Two scalar placeholders with non-empty values without `{`, the same one
    twice or two different ones, amid template text without `{`: both are
    replaced, whatever the map order and whatever the list flags hold.
   */
  lemma TwoScalarsReplaced(f: UpFlags, ns: string, a: string, m: string, b: string,
                           order: seq<Scalar>, p: Scalar, q: Scalar)
    requires IsMapOrder(order)
    requires ScalarValue(f, ns, p) != "" && ScalarValue(f, ns, q) != ""
    requires '{' !in a && '{' !in m && '{' !in b
    requires '{' !in ScalarValue(f, ns, p) && '{' !in ScalarValue(f, ns, q)
    ensures Rendered(f, ns, a + Token(p) + m + Token(q) + b, order)
         == a + ScalarValue(f, ns, p) + m + ScalarValue(f, ns, q) + b
  {
    var done := a + ScalarValue(f, ns, p) + m + ScalarValue(f, ns, q) + b;
    TwoScalarsSubstituted(f, ns, a, m, b, order, p, q);
    assert '{' !in done;
    ListTokensArePlaceholders();
    BraceFreeUnchanged(done, LabelsToken, LabelsValue(f.labels));
    BraceFreeUnchanged(done, EnvsToken, EnvsValue(f.envs));
    BraceFreeUnchanged(done, NodeSelectorToken, NodeSelectorValue(f.nodeSelectors));
  }

  lemma TwoScalarsSubstituted(f: UpFlags, ns: string, a: string, m: string, b: string,
                              order: seq<Scalar>, p: Scalar, q: Scalar)
    requires IsMapOrder(order)
    requires ScalarValue(f, ns, p) != "" && ScalarValue(f, ns, q) != ""
    requires '{' !in a && '{' !in m && '{' !in b
    requires '{' !in ScalarValue(f, ns, p) && '{' !in ScalarValue(f, ns, q)
    ensures SubstituteScalars(a + Token(p) + m + Token(q) + b, f, ns, order)
         == a + ScalarValue(f, ns, p) + m + ScalarValue(f, ns, q) + b
  {
    var ps := [Plain(a), Hole(Token(p)), Plain(m), Hole(Token(q)), Plain(b)];
    FlattenFive(Plain(a), Hole(Token(p)), Plain(m), Hole(Token(q)), Plain(b));
    TwoScalarsCut(f, ns, a, m, b, p, q);
    SubstitutePieces(f, ns, ps, order);
    TwoScalarsFilled(f, ns, a, m, b, order, p, q);
  }

  lemma TwoScalarsFilled(f: UpFlags, ns: string, a: string, m: string, b: string,
                         order: seq<Scalar>, p: Scalar, q: Scalar)
    requires forall r :: r in order
    requires ScalarValue(f, ns, p) != "" && ScalarValue(f, ns, q) != ""
    ensures Flatten(ScalarPieces(f, ns, [Plain(a), Hole(Token(p)), Plain(m), Hole(Token(q)), Plain(b)], order))
         == a + ScalarValue(f, ns, p) + m + ScalarValue(f, ns, q) + b
  {
    var ss := ScalarPieces(f, ns, [Plain(a), Hole(Token(p)), Plain(m), Hole(Token(q)), Plain(b)], order);
    ScalarHoleFilled(f, ns, p, order);
    ScalarHoleFilled(f, ns, q, order);
    assert |ss| == 5;
    assert ss == [ss[0], ss[1], ss[2], ss[3], ss[4]];
    FlattenFive(ss[0], ss[1], ss[2], ss[3], ss[4]);
  }

  lemma TwoScalarsCut(f: UpFlags, ns: string, a: string, m: string, b: string, p: Scalar, q: Scalar)
    requires '{' !in a && '{' !in m && '{' !in b
    requires '{' !in ScalarValue(f, ns, p) && '{' !in ScalarValue(f, ns, q)
    ensures AllWellCut([Plain(a), Hole(Token(p)), Plain(m), Hole(Token(q)), Plain(b)])
    ensures ValuesBraceFree(f, ns, [Plain(a), Hole(Token(p)), Plain(m), Hole(Token(q)), Plain(b)])
  {
    var ps := [Plain(a), Hole(Token(p)), Plain(m), Hole(Token(q)), Plain(b)];
    assert IsPlaceholder(Token(p)) && IsPlaceholder(Token(q));
    forall i, r | 0 <= i < |ps| && ps[i] == Hole(Token(r)) ensures '{' !in ScalarValue(f, ns, r) {
      if i == 1 {
        TokenInjective(r, p);
      } else {
        TokenInjective(r, q);
      }
    }
  }

  /**
    An empty `--env` list, or one whose entries all lack `=`, replaces
    `{{ENVS}}` with the empty string; likewise for `--node`.
   */
  lemma MalformedListsVanish(entries: seq<string>)
    requires forall i :: 0 <= i < |entries| ==> '=' !in entries[i]
    ensures EnvsValue(entries) == "" && NodeSelectorValue(entries) == ""
  {
    KeyValuesAllMalformed(entries);
  }

  /**
    The labels block holds one line per `--label` entry, in input order, each
    the raw entry indented by two spaces: splitting it at line breaks gives
    those lines back.
   */
  lemma LabelsBlockLines(labels: seq<string>)
    requires |labels| > 0
    requires forall i :: 0 <= i < |labels| ==> '\n' !in labels[i]
    ensures |SplitOn(LabelsValue(labels), '\n')| == |labels|
    ensures forall i :: 0 <= i < |labels| ==> SplitOn(LabelsValue(labels), '\n')[i] == "  " + labels[i]
  {
    var lines := LabelLines(labels);
    forall i | 0 <= i < |lines| ensures '\n' !in lines[i] {
      assert lines[i] == "  " + labels[i];
    }
    JoinThenSplit(lines, '\n');
  }

  /** `up --env` with one entry `k=v` yields exactly one item, quoting only the value. */
  lemma EnvEntryLine(k: string, v: string)
    requires '=' !in k
    ensures EnvsValue([k + "=" + v]) == "        - name: " + k + "\n          value: \"" + EscapeQuotes(v) + "\""
  {
    KeyValueSplit(k, v);
  }

  /**
    A list placeholder can re-form from the text around a replaced one:
    `{{LABELS_{{LABELS_EXTRA}}EXTRA}}` with no labels still holds the
    placeholder after the substitution.
   */
  lemma LabelsPlaceholderCanReform(a: string, b: string)
    requires a == "{{LABELS_" && b == "EXTRA}}"
    ensures Contains(ReplaceAll(a + LabelsToken + b, LabelsToken, LabelsValue([])), LabelsToken)
  {
    ReformingFirst(a, b);
    assert LabelsValue([]) == "";
    Reform(a, LabelsToken, b);
  }

  /** Replacing the only occurrence by nothing rejoins the text around it. */
  lemma Reform(a: string, tok: string, b: string)
    requires tok != [] && |b| < |tok| && a + b == tok && FirstAt(a + tok + b, tok, |a|)
    ensures Contains(ReplaceAll(a + tok + b, tok, ""), tok)
  {
    ReplaceOnly(a, tok, b, "");
    assert a + "" + b == tok;
    assert OccursAt(a + "" + b, tok, 0);
  }

  /** In that template the whole placeholder is the first occurrence. */
  lemma ReformingFirst(a: string, b: string)
    requires a == "{{LABELS_" && b == "EXTRA}}"
    ensures a + b == LabelsToken
    ensures FirstAt(a + LabelsToken + b, LabelsToken, |a|)
  {
    var s := a + LabelsToken + b;
    forall j: nat | j < 9 ensures !OccursAt(s, LabelsToken, j) {
      if j == 0 {
        assert s[9] != LabelsToken[9];
      } else if j == 8 {
        assert s[8] != LabelsToken[0];
      } else {
        assert s[j + 1] != LabelsToken[1];
      }
    }
    assert s[9..25] == LabelsToken;
  }

  // ---------------------------------------------------------------------
  // The rendering loops of `up`

  method BuildLabelLines(labels: seq<string>) returns (lbl: seq<string>)
    ensures |lbl| == |labels|
    ensures forall i :: 0 <= i < |labels| ==> lbl[i] == "  " + labels[i]
  {
    lbl := [];
    for i := 0 to |labels|
      invariant |lbl| == i
      invariant forall j :: 0 <= j < i ==> lbl[j] == "  " + labels[j]
    {
      lbl := lbl + [LabelLine(labels[i])];
    }
  }

  method BuildEnvLines(envs: seq<string>) returns (lines: seq<string>)
    ensures lines == EnvLines(KeyValues(envs))
  {
    lines := [];
    for i := 0 to |envs|
      invariant lines == EnvLines(KeyValues(envs[..i]))
    {
      assert envs[..i + 1][..i] == envs[..i];
      var parsed := KeyValues(envs[..i]);
      assert KeyValues(envs[..i + 1]) == parsed + ParseEntry(envs[i]);
      var parts := SplitFirst(envs[i], '=');
      if |parts| == 2 {
        EnvLinesSnoc(parsed, (parts[0], parts[1]));
        lines := lines + [EnvLine(parts[0], parts[1])];
      } else {
        assert parsed + [] == parsed;
      }
    }
    assert envs[..|envs|] == envs;
  }

  method BuildNodeSelectorLines(nodeSelectors: seq<string>) returns (lines: seq<string>)
    ensures lines == NodeSelectorLines(KeyValues(nodeSelectors))
  {
    lines := [];
    for i := 0 to |nodeSelectors|
      invariant lines == NodeSelectorLines(KeyValues(nodeSelectors[..i]))
    {
      assert nodeSelectors[..i + 1][..i] == nodeSelectors[..i];
      var parsed := KeyValues(nodeSelectors[..i]);
      assert KeyValues(nodeSelectors[..i + 1]) == parsed + ParseEntry(nodeSelectors[i]);
      var parts := SplitFirst(nodeSelectors[i], '=');
      if |parts| == 2 {
        NodeSelectorLinesSnoc(parsed, (parts[0], parts[1]));
        lines := lines + [NodeSelectorLine(parts[0], parts[1])];
      } else {
        assert parsed + [] == parsed;
      }
    }
    assert nodeSelectors[..|nodeSelectors|] == nodeSelectors;
  }

  /** The body of `up` between reading the template and `kubectl apply`. */
  method RenderManifest(f: UpFlags, ns: string, template: string, order: seq<Scalar>)
    returns (rendered: string)
    requires IsMapOrder(order)
    ensures rendered == Rendered(f, ns, template, order)
  {
    rendered := template;
    for i := 0 to |order|
      invariant rendered == SubstituteScalars(template, f, ns, order[..i])
    {
      assert order[..i + 1][..i] == order[..i];
      var k, v := Token(order[i]), ScalarValue(f, ns, order[i]);
      if v == "" {
        continue;
      }
      rendered := ReplaceAll(rendered, k, v);
    }
    assert order[..|order|] == order;

    if |f.labels| > 0 {
      var lbl := BuildLabelLines(f.labels);
      assert lbl == LabelLines(f.labels);
      rendered := ReplaceAll(rendered, LabelsToken, Join(lbl, "\n"));
    } else {
      rendered := ReplaceAll(rendered, LabelsToken, "");
    }

    if |f.envs| > 0 {
      var lines := BuildEnvLines(f.envs);
      rendered := ReplaceAll(rendered, EnvsToken, Join(lines, "\n"));
    } else {
      rendered := ReplaceAll(rendered, EnvsToken, "");
    }

    if |f.nodeSelectors| > 0 {
      var lines := BuildNodeSelectorLines(f.nodeSelectors);
      rendered := ReplaceAll(rendered, NodeSelectorToken, Join(lines, "\n"));
    } else {
      rendered := ReplaceAll(rendered, NodeSelectorToken, "");
    }
  }
}
