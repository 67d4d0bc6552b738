# kdev in Dafny

`kdev` is a small command-line tool that manages development pods in
Kubernetes by calling `kubectl`, and builds devcontainer images by calling
`docker` or the devcontainers CLI. This project models what the tool decides
before it hands over to those programs:

- `kdev up`:
  - checks the flags and fills in their defaults;
  - renders the pod manifest, replacing the `{{…}}` placeholders of the template;
  - expands the `--label`, `--env` and `--node` lists;
  - pipes the manifest to `kubectl apply`.
- `kdev attach`, `kdev ls` and `kdev rm`: their `kubectl` argument vectors and the order of the two `rm` deletions.
- The persistent `--namespace` default.
- `kdev devcontainer build`, defined in internal/devcontainer/devcontainer.go. The
  main.go of this repository registers only `up`, `attach`, `ls` and `rm`
  (main.go:56), so that command is modelled as the package defines it, not
  as something the `kdev` binary reaches:
  - reads `.devcontainer/devcontainer.json` and applies its defaults;
  - sanitises the configuration name into an image-name part;
  - resolves the image reference;
  - chooses between the devcontainers CLI and `docker build`;
  - composes the `docker build` argument vector;
  - pushes the image when asked to.

Every subprocess call and file access is an `Effects.Action`. A command is a
function from the outcomes of those actions, which are inputs, to the
`Effects.Run` it performs: the actions in order, then the result. Go map
iteration order is unspecified, so it is an input as well: a sequence that
enumerates the keys once each (`Manifest.IsMapOrder`,
`DevContainer.IsEnumeration`). Loops that build a value step by step are
methods. Each is proved equal to the function that specifies it.

Modules:

- `Effects` (effects.dfy): results, outcomes, actions and runs.
- `Text` (text.dfy): Go's `strings.ReplaceAll`, `strings.Join` and `strings.SplitN(…, 2)`, each with its characterisation.
- `Manifest` (manifest.dfy): the rendering done by `up`.
- `Commands` (commands.dfy): the four cluster commands as runs.
- `ImageName` (imagename.dfy): `sanitizeImageNamePart`.
- `DevContainer` (devcontainer.dfy): `kdev devcontainer build`.

## Model

| member | source | states |
|---|---|---|
| Commands.EffectiveNamespace | main.go:46-51 | The namespace is never empty: a given `--namespace` is kept, and an empty one becomes `dev`. |
| Commands.Up | main.go:83-177 | Missing `--name`, then missing `--image`, fail with their messages before any action. Otherwise the template is read first, and a read error is returned as it is. `kubectl apply -n <ns> -f -` follows iff the read succeeded, with the rendered manifest as input, and its outcome is then the result. `up` succeeds iff both flags are given, the read succeeded and the apply succeeded. |
| Commands.Attach | main.go:208-211 | Without `--name` it fails with "--name is required" and runs nothing. Otherwise it runs exactly `kubectl exec -n <ns> -it <name> -- <shell>`, where the shell is the `--shell` value or `/bin/bash` when that is empty. The result is that command's outcome. |
| Commands.List | main.go:225-227 | `ls` runs one `kubectl get pods -n <ns> -l app=kdev -o wide`, and its result is that command's outcome. |
| Commands.Remove | main.go:242-252 | Without `--name` nothing runs. Otherwise `kubectl delete pod -n <ns> <name>` always comes first. When it fails, its error is returned and nothing else runs. `kubectl delete pvc -n <ns> <name>` runs second iff the pod delete succeeded and `--with-pvc` is set, and its outcome is then the result. No other action runs. Success iff the pod delete succeeded and, with `--with-pvc`, the claim delete too. |
| Manifest.CheckUp | main.go:84-99 | The name check comes before the image check. Both succeed iff name and image are given. The service account, claim name, template and shell are then all non-empty. Given values are kept, and no other flag changes. |
| Manifest.DefaultsFillGaps | main.go:90-99 | A missing service account becomes `dev-vscode`, a missing claim name the pod name, a missing template `templates/pod.yaml`, and a missing shell `/bin/bash`. |
| Manifest.Token | main.go:109-119 | Every key of the scalar replacement map is a placeholder: `{{`, a name without braces, then `}}`. |
| Manifest.TokenInjective | main.go:109-119 | Different scalar settings have different placeholders. |
| Manifest.SubstituteScalars | main.go:121-126 | Text without a `{` passes through the scalar replacement loop unchanged, whatever the map order and the values. |
| Manifest.ListTokensArePlaceholders | main.go:130-163 | `{{LABELS_EXTRA}}`, `{{ENVS}}` and `{{NODE_SELECTOR}}` are placeholders. |
| Manifest.ParseEntry | main.go:142-145 | An entry yields nothing iff it has no `=`. Otherwise it yields one pair whose key has no `=`, and key, `=` and value make up the entry. |
| Manifest.KeyValuesAppend | main.go:140-146 | Parsing distributes over concatenation of the entry lists, so surviving entries keep their input order. |
| Manifest.KeyValuesDropMalformed | main.go:142-144 | Removing an entry without `=` from anywhere in the list changes nothing. |
| Manifest.KeyValueSplit | main.go:143-145 | `k=v` with no `=` in `k` parses to the key `k` and the value `v`, even when `v` holds further `=`. |
| Manifest.KeyValuesAllMalformed | main.go:140-146 | A list in which no entry has `=` parses to nothing. |
| Manifest.KeyValues | main.go:140-146 | At most one pair per entry. Every key is free of `=`, and every pair `(k, v)` comes from an entry that reads `k=v`. |
| Manifest.EscapeQuotes | main.go:145 | Replacing every `"` by `\"` escapes the value character by character: each `"` becomes `\"` and every other character is kept. |
| Manifest.EscapeQuotesCharwise | main.go:145 | Replacing every `"` by `\"` is equivalent to escaping character by character. |
| Manifest.EscapedQuotesGuarded | main.go:145 | In an escaped value, every `"` is immediately preceded by a backslash. |
| Manifest.EscapeRoundTrip | main.go:159 | Reading every `\"` of an escaped value back as `"` gives the value back. |
| Manifest.EnvLine | main.go:145 | An env item has no `{` when its key and value have none. |
| Manifest.NodeSelectorLine | main.go:159 | A node-selector line has no `{` when its key and value have none. |
| Manifest.SubstituteAround | main.go:121-126 | In the scalar replacement loop, a placeholder whose value is empty is kept. The text on either side of it is substituted independently, whatever the map order. |
| Manifest.EmptyScalarKept | main.go:105-164 | A scalar placeholder with an empty value (`{{CPU}}` without `--cpu`) appears verbatim in the manifest. The template text on each side is rendered as if it stood alone. |
| Manifest.SubstituteNothing | main.go:121-126 | A template without placeholders passes through the replacement loop unchanged, in any map order. |
| Manifest.SubstituteLone | main.go:121-126 | A scalar placeholder alone in text without `{` is replaced by its value iff the loop visits its key with a non-empty value, and is kept otherwise. The surrounding text is untouched. This needs only that no key is visited twice, and a value without `{`. |
| Manifest.ScalarReplaced | main.go:105-126 | In the rendered manifest, a scalar placeholder with a non-empty value, alone in template text without `{`, is replaced by that value. The rest of the text is unchanged, for any map order. |
| Manifest.SubstituteKeepsOther | main.go:121-126 | The scalar loop keeps a placeholder that is not one of its keys, in text without `{`. |
| Manifest.LabelsReplaced | main.go:130-136 | `{{LABELS_EXTRA}}` alone in template text without `{` is replaced by the labels block, when no label holds `{`. The rest of the text is unchanged. |
| Manifest.EnvsReplaced | main.go:140-150 | `{{ENVS}}` alone in template text without `{` is replaced by the env block, when no entry holds `{`. The rest of the text is unchanged. |
| Manifest.NodeSelectorReplaced | main.go:154-164 | `{{NODE_SELECTOR}}` alone in template text without `{` is replaced by the node-selector block, whatever the entries hold. The rest of the text is unchanged. |
| Manifest.ScalarPieceStep | main.go:121-126 | One more iteration of the scalar loop fills the placeholder of the key it visits when that key's value is non-empty. Every other piece is unchanged. |
| Manifest.SubstitutePieces | main.go:121-126 | Take a template made of runs without `{` and whole placeholders. For every order, the scalar loop fills each placeholder whose key it visits with a non-empty value, every occurrence of it. |
| Manifest.ScalarHoleRendered | main.go:109-126 | A scalar placeholder is rendered as its value when that is non-empty, and kept otherwise. |
| Manifest.RenderedPieces | main.go:105-164 | Take a template made of runs without `{` and any number of whole placeholders. For every map order, rendering works piece by piece: each list placeholder becomes its block, and each scalar placeholder with a non-empty value becomes that value. Runs, empty-valued scalars and unknown placeholders stay. Values, labels and env entries must hold no `{`. |
| Manifest.TwoScalarsReplaced | main.go:105-126 | Two scalar placeholders whose values are non-empty and hold no `{`, the same one twice or two different ones, amid text without `{`, are both replaced by their values, for every map order and whatever the `--label`, `--env` and `--node` entries hold. |
| Manifest.LabelsBraceFree | main.go:130-133 | The labels block has no `{` when no label has one. |
| Manifest.PairsBraceFree | main.go:140-146 | The parsed keys and values have no `{` when no entry has one. |
| Manifest.EnvsBraceFree | main.go:140-146 | The env block has no `{` when no entry has one. |
| Manifest.Rendered | main.go:105-164 | A template without any of the twelve placeholders is applied exactly as read. |
| Manifest.MalformedListsVanish | main.go:140-164 | An empty `--env` or `--node` list, or one whose entries all lack `=`, replaces its placeholder with the empty string. |
| Manifest.LabelsBlockLines | main.go:130-133 | Given at least one `--label` entry and no entry holding a newline, the labels block has one line per entry, in input order, each being the raw entry indented by two spaces. |
| Manifest.EnvEntryLine | main.go:140-147 | One `--env k=v` entry yields the `name: k` / `value: "…"` item. Only the value is escaped. |
| Manifest.LabelsPlaceholderCanReform | main.go:130-136 | The labels placeholder does not always vanish: in `{{LABELS_{{LABELS_EXTRA}}EXTRA}}` without labels, the replacement joins the surrounding text into a new `{{LABELS_EXTRA}}`. |
| Manifest.BuildLabelLines | main.go:130-132 | The label loop yields one two-space-indented line per entry, in order. |
| Manifest.BuildEnvLines | main.go:140-146 | The env loop yields exactly the items of the parsed pairs, in order. |
| Manifest.BuildNodeSelectorLines | main.go:154-160 | The node-selector loop yields exactly the `key: "value"` lines of the parsed pairs, in order. |
| Manifest.RenderManifest | main.go:105-164 | The rendering loops and replacements produce exactly the specified manifest, for any map order. |
| Text.ReplaceAbsent | main.go:125 | `strings.ReplaceAll` leaves a text without the pattern unchanged. |
| Text.ReplaceFirst | main.go:125 | `strings.ReplaceAll` copies the text before the first occurrence, replaces that occurrence, and continues after it. |
| Text.ReplaceOnly | main.go:133 | A text holding the pattern once, with a tail shorter than the pattern, has exactly that occurrence replaced. |
| Text.ReplaceAround | main.go:121-126 | A text separate from the pattern survives `strings.ReplaceAll`, and the text on either side is replaced independently. |
| Text.ReplaceAll | main.go:125 | Replacing a pattern by itself gives the text back. |
| Text.NoBraceNoPlaceholder | main.go:109-119 | Text without `{` contains no placeholder. |
| Text.BraceFreeUnchanged | main.go:125 | `strings.ReplaceAll` leaves text without `{` unchanged when the pattern is a placeholder. |
| Text.ReplaceLone | main.go:125 | In `a + x + b`, where `x` is a placeholder and `a` and `b` have no `{`, exactly `x` is replaced. |
| Text.KeepLone | main.go:125 | Replacing one placeholder leaves a different placeholder standing in text without `{` unchanged. |
| Text.BraceFreePrefix | main.go:125 | Replacing a placeholder copies a leading text without `{` unchanged and goes on after it. |
| Text.ReplacePieces | main.go:125 | Take a template made of runs without `{` and whole placeholders. Replacing one placeholder replaces every piece that is that placeholder, and only those. |
| Text.PlaceholdersSeparate | main.go:109-119 | Two different placeholders cannot overlap or contain each other. |
| Text.SplitFirst | main.go:143 | `strings.SplitN(s, "=", 2)` gives two parts iff `=` occurs. The first part has no `=`, and the parts joined by `=` give `s` back. Otherwise it gives `s` itself. |
| Text.SplitFirstUnique | main.go:143 | Splitting `k=v` at the first `=`, when `k` has no `=`, gives exactly `k` and `v`. |
| Text.JoinThenSplit | main.go:133 | Splitting lines joined by `\n` gives the lines back when none contains `\n`. |
| Text.Join | main.go:133 | Every character of the joined text comes from the separator or from one of the parts. |
| ImageName.Sanitize | internal/devcontainer/devcontainer.go:32-41 | The result is never empty, consists only of `[a-z0-9._-]`, and neither starts nor ends with `-` or `.`. |
| ImageName.SanitizeIdempotent | internal/devcontainer/devcontainer.go:32-41 | Sanitising a sanitised part returns it unchanged. |
| ImageName.SanitizeFixes | internal/devcontainer/devcontainer.go:32-41 | Every text of the sanitised form is its own sanitisation. |
| ImageName.SanitizeKeeps | internal/devcontainer/devcontainer.go:33-39 | The letters, digits and `_` of the lower-cased name survive, in order, with none added. A name with none of them becomes `devcontainer`. |
| ImageName.SanitizeIgnoresCase | internal/devcontainer/devcontainer.go:33 | Lower-casing the name first makes no difference. |
| ImageName.TrimSpaceLower | internal/devcontainer/devcontainer.go:33 | Trimming white space and lower-casing commute. |
| ImageName.CollapseFrom | internal/devcontainer/devcontainer.go:34-35 | The replacement of disallowed runs yields only allowed characters and never lengthens the text. |
| ImageName.CollapseRun | internal/devcontainer/devcontainer.go:34-35 | A non-empty run of disallowed characters becomes exactly one `-`. |
| ImageName.CollapseSplit | internal/devcontainer/devcontainer.go:34-35 | Texts cut where no run of disallowed characters straddles the cut are collapsed independently. |
| ImageName.CollapseAllowed | internal/devcontainer/devcontainer.go:34-35 | A text of allowed characters is left as it is. |
| ImageName.CollapseKeeps | internal/devcontainer/devcontainer.go:34-35 | Collapsing keeps every letter, digit and `_`, in order. |
| ImageName.DropWhile | internal/devcontainer/devcontainer.go:36 | Trimming the front removes only characters of the given cutset (the `-.` of the sanitizer, or the white space of `strings.TrimSpace`), and leaves a suffix that does not start with one. |
| ImageName.DropLastWhile | internal/devcontainer/devcontainer.go:36 | Trimming the back removes only characters of the given cutset, and leaves a prefix that does not end with one. |
| ImageName.TrimKeeps | internal/devcontainer/devcontainer.go:33-36 | Neither trim removes a letter, digit or `_`. |
| DevContainer.ReadConfig | internal/devcontainer/devcontainer.go:168-181 | A read failure gives "failed to read .devcontainer/devcontainer.json: …", and a decoding failure gives "invalid JSON: …". Success iff both steps succeed. A missing name then becomes `devcontainer`, a given name is kept, and nothing else changes. |
| DevContainer.WithBuildDefaults | internal/devcontainer/devcontainer.go:69-74 | A missing Dockerfile name becomes `Dockerfile` and a missing context `.`. Given values are kept, and nothing else changes. |
| DevContainer.ResolveImage | internal/devcontainer/devcontainer.go:98-103 | It fails iff no `--image` is given and `--registry` or `--tag` is missing. The message carries the CLI suffix on the CLI path. A given `--image` is used verbatim. Otherwise the reference is `<registry>/<sanitised name>:<tag>`. |
| DevContainer.ResolvedImageParts | internal/devcontainer/devcontainer.go:102 | A composed reference starts with `<registry>/`. After its last `/` it reads back as the sanitised name, then `:` and the tag. |
| DevContainer.CliArgs | internal/devcontainer/devcontainer.go:85-88 | The CLI vector is `build --workspace-folder . --image-name <image>`, followed by `--platform <p>` exactly when a platform is given. |
| DevContainer.BuildArgFlags | internal/devcontainer/devcontainer.go:114-119 | Two words per build argument. |
| DevContainer.BuildArgPairs | internal/devcontainer/devcontainer.go:114-119 | The i-th pair is `--build-arg` followed by `KEY=value` of the i-th visited key. |
| DevContainer.BuildArgsAreTheMap | internal/devcontainer/devcontainer.go:113-119 | Whatever order Go visits the map in, the `KEY=value` words passed are exactly the entries of the map. |
| DevContainer.DockerBuildHead | internal/devcontainer/devcontainer.go:126-130 | The `docker build` vector starts with `build`, then `--platform <p>` when a platform is given, then `-f <dockerfile> -t <image>`. |
| DevContainer.DockerBuildPairs | internal/devcontainer/devcontainer.go:113-131 | Next come the build-argument pairs, in visiting order. |
| DevContainer.DockerBuildTail | internal/devcontainer/devcontainer.go:120-132 | Next comes the `REMOTE_USER` pair when a remote user is set, and the context is last. The length is exactly the sum of these parts. |
| DevContainer.ComposeBuildArgs | internal/devcontainer/devcontainer.go:113-132 | The `buildArgs` loop and the appends to `base` and `argsList` produce exactly the specified `docker build` vector. |
| DevContainer.DockerPath | internal/devcontainer/devcontainer.go:105-153 | The first action is the `stat` of `.devcontainer/<dockerfile>`. A build runs iff it exists, and a push iff the build succeeded and `--push` is set: one, two or three actions. Each failure has its message. Success iff every step taken succeeded. The devcontainers CLI is never called. |
| DevContainer.CliPathIgnoresPush | internal/devcontainer/devcontainer.go:76-93 | On the CLI path, `--push`, the Dockerfile and the Docker outcomes make no difference, and nothing is pushed. |
| DevContainer.Build | internal/devcontainer/devcontainer.go:62-154 | The configuration is read first, and a read or decoding error ends the run. The CLI and Docker are exclusive. The CLI runs iff features are present, `--use-devcontainers-cli` is set and an image can be resolved, and that run is exactly the read and the CLI call. Without the CLI path, once an image can be resolved, the run is exactly the read followed by the Docker path's run, including the "dockerfile not found: …" failure. A push runs iff a build succeeded and `--push` is set. Also states when the command succeeds. |
| DevContainer.UnresolvedImage | internal/devcontainer/devcontainer.go:98-101 | When no image can be resolved, the command reads the configuration and then fails with "either --image or both --registry and --tag must be provided". On the CLI path " (required when using devcontainers CLI)" is appended. Nothing else runs. |
| DevContainer.DockerfilePath | internal/devcontainer/devcontainer.go:105 | The Dockerfile path is `.devcontainer/` followed by the name, and its last segment is the name when that has no `/`. |
| DevContainer.DockerBuildArgs | internal/devcontainer/devcontainer.go:113-132 | The vector starts with `build` and ends with the context. Its length is 6, plus 2 with a platform, plus 2 per build argument, plus 2 with a remote user. |

## Left out

- Subprocesses, file reads, the `stat` of the Dockerfile, and JSON decoding are not executed. Their outcomes are inputs, and the commands record which of them they perform.
- Output to stdout and stderr, `os.Exit`, cobra's flag registration and `MarkFlagRequired`, and the flags' declared defaults: the `--workdir` value is the flag value as cobra delivers it, `/workspaces` unless given.
- The interactive session of `kdev attach` takes place inside `kubectl exec -it`. Only its argument vector is modelled.
- `runKubectlCapture` (main.go:30-40) is never called by the commands, and is not part of this model.
- The VS Code customizations of `devcontainer.json` are decoded but never used. Of `features` only the keys are kept, since only the count is consulted.
- Manifest.Rendered: does not claim that no `{{LABELS_EXTRA}}`, `{{ENVS}}` or `{{NODE_SELECTOR}}` remains after rendering. That is false in general, as `Manifest.LabelsPlaceholderCanReform` shows. What is proved instead: every occurrence found by the left-to-right scan is replaced (`Text.ReplaceFirst`, `Text.ReplaceAbsent`). For a template made of runs without `{` and any number of placeholders, whose values hold no `{`, every placeholder is replaced by its value or block (`Manifest.RenderedPieces`). `Text.ReplaceOnly` covers a single occurrence only when the text after it is shorter than the pattern.
- Manifest.EscapeRoundTrip: only `"` is escaped, as in the source. A value ending in a backslash, or holding `\"` already, does not read back as the same YAML string. The round trip is stated for the escaping alone.
- ImageName.Sanitize: lower-cases the ASCII letters only. Go's `strings.ToLower` also maps the Kelvin sign U+212A to `k` and U+0130 to `i`, so for names holding those two the model gives `-` where Go keeps a letter. Every other non-ASCII letter is outside `[a-z0-9._-]` either way. Invalid UTF-8 and the rune decoding of the regular-expression engine are not modelled.
- DevContainer.DockerfilePath: `filepath.Join` also cleans the path (`..`, doubled slashes). The model joins with `/` without cleaning.
- `--label`, `--env` and `--node` are string-slice flags (main.go:187-191): cobra splits each value given at commas, as CSV, before `up` sees it. The model starts from the resulting list of entries.
- Manifest.TwoScalarsReplaced: stated for template text and the two values without `{`; the `--label`, `--env` and `--node` entries are unrestricted.
- Manifest.RenderedPieces, Manifest.LabelsReplaced, Manifest.EnvsReplaced, Manifest.ScalarReplaced: stated for template runs, values, labels and env entries without `{`. Without that condition, a replacement can form a new placeholder (`Manifest.LabelsPlaceholderCanReform`), and a value holding a later placeholder is itself replaced.
- DevContainer.ResolvedImageParts: reads the parts back only for a tag without `/`. `DevContainer.ResolveImage` states the composed reference for every tag.
- Go map iteration order is an input. The model states properties for every order, not for the order a particular run takes.
