/**
  `kdev devcontainer build` (internal/devcontainer/devcontainer.go): reading
  `.devcontainer/devcontainer.json`, the defaults of its `build` section, the
  resolution of the image reference, the choice between the devcontainers CLI
  and a plain `docker build`, the `docker build` argument vector, and the
  optional push.
 */
module DevContainer {
  import opened Effects
  import opened Text
  import opened ImageName

  const ConfigPath := ".devcontainer/devcontainer.json"
  const DefaultName := "devcontainer"
  const DefaultDockerfile := "Dockerfile"
  const DefaultContext := "."
  const ImageOrRegistryRequired := "either --image or both --registry and --tag must be provided"
  const CliSuffix := " (required when using devcontainers CLI)"

  /**
    The fields of `devcontainer.json` the command reads. Of `features` only
    the keys matter (only its size is consulted); the VS Code customizations
    are decoded but never used.
   */
  datatype Config = Config(
    name: string,
    dockerfile: string,
    context: string,
    args: map<string, string>,
    features: set<string>,
    remoteUser: string)

  /** The flags of `devcontainer build`; an empty string means "not given". */
  datatype BuildFlags = BuildFlags(
    push: bool,
    image: string,
    registry: string,
    tag: string,
    platform: string,
    useCli: bool)

  /**
    `readDevContainerConfig`: `read` is the outcome of reading the file and
    `decoded` that of decoding its bytes as JSON; a missing name becomes
    `devcontainer`.
   */
  function ReadConfig(read: Result<string>, decoded: Result<Config>): (r: Result<Config>)
    ensures read.Err? ==> r == Err("failed to read " + ConfigPath + ": " + read.msg)
    ensures read.Ok? && decoded.Err? ==> r == Err("invalid JSON: " + decoded.msg)
    ensures r.Ok? <==> read.Ok? && decoded.Ok?
    ensures r.Ok? ==> r.value.name != ""
    ensures r.Ok? && decoded.value.name != "" ==> r.value.name == decoded.value.name
    ensures r.Ok? && decoded.value.name == "" ==> r.value.name == DefaultName
    ensures r.Ok? ==> r.value.(name := decoded.value.name) == decoded.value
  {
    match read
    case Err(e) => Err("failed to read " + ConfigPath + ": " + e)
    case Ok(_) =>
      match decoded
      case Err(e) => Err("invalid JSON: " + e)
      case Ok(c) => Ok(if c.name == "" then c.(name := DefaultName) else c)
  }

  /** The fallbacks for an empty Dockerfile name and an empty build context. */
  function WithBuildDefaults(c: Config): (d: Config)
    ensures d.dockerfile != "" && d.context != ""
    ensures c.dockerfile != "" ==> d.dockerfile == c.dockerfile
    ensures c.context != "" ==> d.context == c.context
    ensures c.dockerfile == "" ==> d.dockerfile == DefaultDockerfile
    ensures c.context == "" ==> d.context == DefaultContext
    ensures d.(dockerfile := c.dockerfile, context := c.context) == c
  {
    c.(dockerfile := if c.dockerfile == "" then DefaultDockerfile else c.dockerfile,
       context := if c.context == "" then DefaultContext else c.context)
  }

  /** `filepath.Join(".devcontainer", dockerfile)`, without the `Clean` step. */
  function DockerfilePath(dockerfile: string): (path: string)
    ensures |path| == |".devcontainer/"| + |dockerfile|
    ensures path[..|".devcontainer/"|] == ".devcontainer/"
    ensures path[|".devcontainer/"|..] == dockerfile
    ensures '/' !in dockerfile ==> LastSegment(path, '/') == dockerfile
  {
    assert '/' !in dockerfile ==> LastSegment(".devcontainer/" + dockerfile, '/') == dockerfile by {
      if '/' !in dockerfile {
        LastSegmentAfter(".devcontainer", dockerfile, '/');
        assert ".devcontainer" + ['/'] + dockerfile == ".devcontainer/" + dockerfile;
      }
    }
    ".devcontainer/" + dockerfile
  }

  /**
    The image reference: `--image` as given, otherwise
    `<registry>/<sanitised name>:<tag>`, which needs both `--registry` and
    `--tag`. On the CLI path the error message carries a suffix.
   */
  function ResolveImage(flags: BuildFlags, name: string, viaCli: bool): (r: Result<string>)
    ensures r.Err? <==> flags.image == "" && (flags.registry == "" || flags.tag == "")
    ensures r.Err? ==> r.msg == ImageOrRegistryRequired + (if viaCli then CliSuffix else "")
    ensures flags.image != "" ==> r == Ok(flags.image)
    ensures flags.image == "" && flags.registry != "" && flags.tag != "" ==>
      r == Ok(flags.registry + "/" + Sanitize(name) + ":" + flags.tag)
    ensures r.Ok? ==> r.value != ""
  {
    if flags.image != "" then Ok(flags.image)
    else if flags.registry == "" || flags.tag == "" then Err(ImageOrRegistryRequired + (if viaCli then CliSuffix else ""))
    else Ok(flags.registry + "/" + Sanitize(name) + ":" + flags.tag)
  }

  /** The part of `s` after its last `c` (all of `s` when there is none). */
  function LastSegment(s: string, c: char): (r: string)
    ensures c !in r
  {
    if s == [] then []
    else if s[|s| - 1] == c then []
    else LastSegment(s[..|s| - 1], c) + [s[|s| - 1]]
  }

  lemma {:induction false} LastSegmentAfter(a: string, b: string, c: char)
    requires c !in b
    ensures LastSegment(a + [c] + b, c) == b
    decreases |b|
  {
    var s := a + [c] + b;
    if b == [] {
      assert s[|s| - 1] == c;
    } else {
      var b' := b[..|b| - 1];
      assert s[..|s| - 1] == a + [c] + b';
      assert s[|s| - 1] == b[|b| - 1];
      LastSegmentAfter(a, b', c);
      assert b' + [b[|b| - 1]] == b;
    }
  }

  /** Neither `/` nor `:` is an allowed character. */
  lemma NoSeparators(n: string)
    requires forall i :: 0 <= i < |n| ==> Allowed(n[i])
    ensures '/' !in n && ':' !in n
  {
    forall i | 0 <= i < |n| ensures n[i] != '/' && n[i] != ':' {
      assert Allowed(n[i]);
    }
  }

  /**
    A composed reference reads back as its parts: the registry, then after
    the last `/` the sanitised name and, after the first `:`, the tag.
   */
  lemma ResolvedImageParts(flags: BuildFlags, name: string, viaCli: bool)
    requires flags.image == "" && flags.registry != "" && flags.tag != ""
    requires '/' !in flags.tag
    ensures ResolveImage(flags, name, viaCli).Ok?
    ensures var ref := ResolveImage(flags, name, viaCli).value;
      && ref[..|flags.registry| + 1] == flags.registry + "/"
      && SplitFirst(LastSegment(ref, '/'), ':') == [Sanitize(name), flags.tag]
  {
    var n := Sanitize(name);
    NoSeparators(n);
    ReferenceParts(flags.registry, n, flags.tag);
  }

  /** `<registry>/<n>:<tag>` splits back into its parts when `n` has no separator and the tag no `/`. */
  lemma ReferenceParts(registry: string, n: string, tag: string)
    requires '/' !in n && ':' !in n && '/' !in tag
    ensures var ref := registry + "/" + n + ":" + tag;
      && ref[..|registry| + 1] == registry + "/"
      && SplitFirst(LastSegment(ref, '/'), ':') == [n, tag]
  {
    var ref := registry + "/" + n + ":" + tag;
    var tail := n + ":" + tag;
    assert '/' !in tail;
    assert ref == registry + ['/'] + tail;
    LastSegmentAfter(registry, tail, '/');
    assert tail == n + [':'] + tag;
    SplitFirstUnique(n, tag, ':');
  }

  /** The `devcontainer build` vector of the CLI path. */
  function CliArgs(image: string, platform: string): (argv: seq<string>)
    ensures |argv| == if platform == "" then 5 else 7
    ensures argv[..5] == ["build", "--workspace-folder", ".", "--image-name", image]
    ensures platform != "" ==> argv[5..] == ["--platform", platform]
  {
    ["build", "--workspace-folder", ".", "--image-name", image]
      + (if platform != "" then ["--platform", platform] else [])
  }

  /** The keys of the build-argument map in the order Go visits them: each once. */
  ghost predicate IsEnumeration(keys: seq<string>, args: map<string, string>) {
    && (forall i :: 0 <= i < |keys| ==> keys[i] in args)
    && (forall k :: k in args ==> k in keys)
    && (forall i, j :: 0 <= i < j < |keys| ==> keys[i] != keys[j])
  }

  /** `KEY=value`. */
  function Entry(args: map<string, string>, k: string): string
    requires k in args
  {
    k + "=" + args[k]
  }

  /** The `--build-arg KEY=value` pairs for `keys`, in that order. */
  function BuildArgFlags(args: map<string, string>, keys: seq<string>): (flags: seq<string>)
    requires forall i :: 0 <= i < |keys| ==> keys[i] in args
    ensures |flags| == 2 * |keys|
    decreases |keys|
  {
    if keys == [] then []
    else
      var last := keys[|keys| - 1];
      BuildArgFlags(args, keys[..|keys| - 1]) + ["--build-arg", Entry(args, last)]
  }

  function PlatformFlag(platform: string): seq<string> {
    if platform != "" then ["--platform", platform] else []
  }

  function RemoteUserFlag(remoteUser: string): seq<string> {
    if remoteUser != "" then ["--build-arg", "REMOTE_USER=" + remoteUser] else []
  }

  /** The `docker build` vector, with the build arguments visited in the order `keys`. */
  function DockerBuildArgs(platform: string, dockerfile: string, image: string, cfg: Config,
                           keys: seq<string>): (argv: seq<string>)
    requires forall i :: 0 <= i < |keys| ==> keys[i] in cfg.args
    ensures |argv| == 6 + |PlatformFlag(platform)| + 2 * |keys| + |RemoteUserFlag(cfg.remoteUser)|
    ensures argv[0] == "build" && argv[|argv| - 1] == cfg.context
  {
    ["build"] + PlatformFlag(platform) + ["-f", dockerfile, "-t", image]
      + BuildArgFlags(cfg.args, keys) + RemoteUserFlag(cfg.remoteUser) + [cfg.context]
  }

  /** The `--build-arg` pairs come in order: flag, then `KEY=value` of the i-th key. */
  lemma {:induction false} BuildArgPairs(args: map<string, string>, keys: seq<string>)
    requires forall i :: 0 <= i < |keys| ==> keys[i] in args
    ensures forall i :: 0 <= i < |keys| ==>
      BuildArgFlags(args, keys)[2 * i] == "--build-arg"
      && BuildArgFlags(args, keys)[2 * i + 1] == Entry(args, keys[i])
    decreases |keys|
  {
    if keys != [] {
      BuildArgPairs(args, keys[..|keys| - 1]);
    }
  }

  /**
    Whatever order Go visits the map in, exactly the entries of the map are
    passed as build arguments.
   */
  lemma BuildArgsAreTheMap(args: map<string, string>, keys: seq<string>)
    requires IsEnumeration(keys, args)
    ensures (set i | 0 <= i < |keys| :: BuildArgFlags(args, keys)[2 * i + 1])
            == (set k | k in args :: Entry(args, k))
  {
    BuildArgPairs(args, keys);
    PairsCoverMap(args, keys, BuildArgFlags(args, keys));
  }

  /** Any vector carrying the i-th entry at 2i+1 carries exactly the map's entries there. */
  lemma PairsCoverMap(args: map<string, string>, keys: seq<string>, flags: seq<string>)
    requires IsEnumeration(keys, args) && |flags| == 2 * |keys|
    requires forall i :: 0 <= i < |keys| ==> flags[2 * i + 1] == Entry(args, keys[i])
    ensures (set i | 0 <= i < |keys| :: flags[2 * i + 1]) == (set k | k in args :: Entry(args, k))
  {
    var passed := set i | 0 <= i < |keys| :: flags[2 * i + 1];
    var entries := set k | k in args :: Entry(args, k);
    forall e | e in entries ensures e in passed {
      var k :| k in args && e == Entry(args, k);
      var i :| 0 <= i < |keys| && keys[i] == k;
      assert flags[2 * i + 1] == e;
    }
    forall e | e in passed ensures e in entries {
      var i :| 0 <= i < |keys| && e == flags[2 * i + 1];
      assert e == Entry(args, keys[i]);
    }
  }

  /**
    The shape of the `docker build` vector: `build`, the optional platform,
    then `-f <dockerfile> -t <image>`.
   */
  lemma DockerBuildHead(platform: string, dockerfile: string, image: string, cfg: Config,
                        keys: seq<string>)
    requires forall i :: 0 <= i < |keys| ==> keys[i] in cfg.args
    ensures var argv := DockerBuildArgs(platform, dockerfile, image, cfg, keys);
      var p := if platform == "" then 0 else 2;
      && |argv| >= p + 6
      && argv[0] == "build"
      && (platform != "" ==> argv[1..3] == ["--platform", platform])
      && argv[p + 1..p + 5] == ["-f", dockerfile, "-t", image]
  {
    var head := ["build"] + PlatformFlag(platform) + ["-f", dockerfile, "-t", image];
    var rest := BuildArgFlags(cfg.args, keys) + RemoteUserFlag(cfg.remoteUser) + [cfg.context];
    var argv := DockerBuildArgs(platform, dockerfile, image, cfg, keys);
    assert argv == head + rest;
    assert argv[..|head|] == head;
  }

  /**
    Then two words per build argument, in the order the keys are visited:
    `--build-arg` and `KEY=value`.
   */
  lemma DockerBuildPairs(platform: string, dockerfile: string, image: string, cfg: Config,
                         keys: seq<string>)
    requires forall i :: 0 <= i < |keys| ==> keys[i] in cfg.args
    ensures var argv := DockerBuildArgs(platform, dockerfile, image, cfg, keys);
      var p := if platform == "" then 0 else 2;
      && |argv| >= p + 5 + 2 * |keys|
      && forall i :: 0 <= i < |keys| ==>
           argv[p + 5 + 2 * i] == "--build-arg" && argv[p + 6 + 2 * i] == Entry(cfg.args, keys[i])
  {
    var head := ["build"] + PlatformFlag(platform) + ["-f", dockerfile, "-t", image];
    var flags := BuildArgFlags(cfg.args, keys);
    var rest := RemoteUserFlag(cfg.remoteUser) + [cfg.context];
    var argv := DockerBuildArgs(platform, dockerfile, image, cfg, keys);
    assert argv == head + flags + rest;
    BuildArgPairs(cfg.args, keys);
    forall i | 0 <= i < |keys|
      ensures argv[|head| + 2 * i] == "--build-arg" && argv[|head| + 2 * i + 1] == Entry(cfg.args, keys[i])
    {
      assert argv[|head| + 2 * i] == flags[2 * i];
      assert argv[|head| + 2 * i + 1] == flags[2 * i + 1];
    }
  }

  /**
    Then the optional `REMOTE_USER` argument, and the context last; nothing
    else is in the vector.
   */
  lemma DockerBuildTail(platform: string, dockerfile: string, image: string, cfg: Config,
                        keys: seq<string>)
    requires forall i :: 0 <= i < |keys| ==> keys[i] in cfg.args
    ensures var argv := DockerBuildArgs(platform, dockerfile, image, cfg, keys);
      var p := if platform == "" then 0 else 2;
      var u := if cfg.remoteUser == "" then 0 else 2;
      && |argv| == 6 + p + 2 * |keys| + u
      && (cfg.remoteUser != "" ==>
            argv[|argv| - 3..|argv| - 1] == ["--build-arg", "REMOTE_USER=" + cfg.remoteUser])
      && argv[|argv| - 1] == cfg.context
  {
    var front := ["build"] + PlatformFlag(platform) + ["-f", dockerfile, "-t", image]
      + BuildArgFlags(cfg.args, keys);
    var user := RemoteUserFlag(cfg.remoteUser);
    var argv := DockerBuildArgs(platform, dockerfile, image, cfg, keys);
    assert argv == front + user + [cfg.context];
    assert argv[|front|..|argv| - 1] == user;
  }

  /** Regrouping a concatenation of four sequences. */
  lemma Rejoin<T>(a: seq<T>, b: seq<T>, c: seq<T>, d: seq<T>)
    ensures a + (b + c) + d == a + b + c + d
  {
  }

  /**
    The loop of the source that collects the build arguments, then the
    composition of the vector.
   */
  method ComposeBuildArgs(platform: string, dockerfile: string, image: string, cfg: Config,
                          keys: seq<string>) returns (argv: seq<string>)
    requires IsEnumeration(keys, cfg.args)
    ensures argv == DockerBuildArgs(platform, dockerfile, image, cfg, keys)
  {
    var buildArgs: seq<string> := [];
    for i := 0 to |keys|
      invariant buildArgs == BuildArgFlags(cfg.args, keys[..i])
    {
      var k := keys[i];
      buildArgs := buildArgs + ["--build-arg", k + "=" + cfg.args[k]];
      assert keys[..i + 1][..i] == keys[..i];
    }
    assert keys[..|keys|] == keys;
    ghost var flags := buildArgs;
    if cfg.remoteUser != "" {
      buildArgs := buildArgs + ["--build-arg", "REMOTE_USER=" + cfg.remoteUser];
    }
    assert buildArgs == flags + RemoteUserFlag(cfg.remoteUser);
    var base := ["build"];
    if platform != "" {
      base := base + ["--platform", platform];
    }
    base := base + ["-f", dockerfile, "-t", image];
    assert base == ["build"] + PlatformFlag(platform) + ["-f", dockerfile, "-t", image];
    argv := base + buildArgs;
    argv := argv + [cfg.context];
    Rejoin(base, flags, RemoteUserFlag(cfg.remoteUser), [cfg.context]);
  }

  /** The CLI path is taken when the configuration has features and `--use-devcontainers-cli` is set. */
  predicate ViaCli(cfg: Config, flags: BuildFlags) {
    |cfg.features| > 0 && flags.useCli
  }

  /** The run has a `docker` call whose first word is `verb`. */
  predicate CallsDocker(r: Run, verb: string) {
    exists a :: a in r.actions && a.Docker? && a.args != [] && a.args[0] == verb
  }

  /** The run calls the devcontainers CLI. */
  predicate CallsCli(r: Run) {
    exists a :: a in r.actions && a.DevcontainerCli?
  }

  /**
    The plain Docker path once the image is known: check that the Dockerfile
    exists, build, and push when asked to. `dockerfileExists` is the outcome
    of the `stat`; `build` and `push` those of the two `docker` calls.
   */
  function DockerPath(flags: BuildFlags, cfg: Config, image: string, keys: seq<string>,
                      dockerfileExists: bool, build: Outcome, push: Outcome): (r: Run)
    requires IsEnumeration(keys, cfg.args)
    ensures |r.actions| == if !dockerfileExists then 1 else if build.Success? && flags.push then 3 else 2
    ensures r.actions[0] == StatFile(DockerfilePath(cfg.dockerfile))
    ensures !CallsCli(r)
    ensures CallsDocker(r, "build") <==> dockerfileExists
    ensures dockerfileExists ==>
      r.actions[1] == Docker(DockerBuildArgs(flags.platform, DockerfilePath(cfg.dockerfile), image, cfg, keys))
    ensures CallsDocker(r, "push") <==> dockerfileExists && build.Success? && flags.push
    ensures CallsDocker(r, "push") ==> |r.actions| == 3 && r.actions[2] == Docker(["push", image])
    ensures !dockerfileExists ==> r.outcome == Failure("dockerfile not found: " + DockerfilePath(cfg.dockerfile))
    ensures dockerfileExists && build.Failure? ==> r.outcome == Failure("docker build failed: " + build.msg)
    ensures CallsDocker(r, "push") && push.Failure? ==> r.outcome == Failure("docker push failed: " + push.msg)
    ensures r.outcome.Success? <==> dockerfileExists && build.Success? && (flags.push ==> push.Success?)
  {
    var dockerfile := DockerfilePath(cfg.dockerfile);
    var statStep := [StatFile(dockerfile)];
    if !dockerfileExists then Run(statStep, Failure("dockerfile not found: " + dockerfile))
    else
      var buildCall := Docker(DockerBuildArgs(flags.platform, dockerfile, image, cfg, keys));
      var buildStep := statStep + [buildCall];
      assert buildCall in buildStep;
      if build.Failure? then Run(buildStep, Failure("docker build failed: " + build.msg))
      else if !flags.push then Run(buildStep, Success)
      else
        var pushCall := Docker(["push", image]);
        var pushStep := buildStep + [pushCall];
        assert pushCall in pushStep && buildCall in pushStep;
        if push.Failure? then Run(pushStep, Failure("docker push failed: " + push.msg))
        else Run(pushStep, Success)
  }

  /**
    On the CLI path neither `--push`, the Dockerfile, nor the outcomes of
    the Docker steps make any difference: nothing is pushed.
   */
  lemma CliPathIgnoresPush(flags: BuildFlags, read: Result<string>, decoded: Result<Config>, keys: seq<string>,
                           cli: Outcome, exists1: bool, build1: Outcome, push1: Outcome,
                           exists2: bool, build2: Outcome, push2: Outcome)
    requires decoded.Ok? && IsEnumeration(keys, decoded.value.args)
    requires ViaCli(decoded.value, flags)
    ensures Build(flags, read, decoded, keys, exists1, cli, build1, push1)
            == Build(flags.(push := !flags.push), read, decoded, keys, exists2, cli, build2, push2)
    ensures !CallsDocker(Build(flags, read, decoded, keys, exists1, cli, build1, push1), "push")
  {
  }

  /**
    `kdev devcontainer build`. `read` and `decoded` are the outcomes of
    reading and decoding the configuration, `keys` the order in which Go
    visits its build arguments, `dockerfileExists` the outcome of the `stat`,
    and `cli`, `build`, `push` the outcomes of the three possible
    subprocesses.
   */
  function Build(flags: BuildFlags, read: Result<string>, decoded: Result<Config>, keys: seq<string>,
                 dockerfileExists: bool, cli: Outcome, build: Outcome, push: Outcome): (r: Run)
    requires decoded.Ok? ==> IsEnumeration(keys, decoded.value.args)
    ensures |r.actions| >= 1 && r.actions[0] == ReadFile(ConfigPath)
    ensures ReadConfig(read, decoded).Err? ==> r == Run([ReadFile(ConfigPath)], Failure(ReadConfig(read, decoded).msg))
    ensures CallsCli(r) ==> !CallsDocker(r, "build") && !CallsDocker(r, "push")
    ensures CallsCli(r) <==> read.Ok? && decoded.Ok? && ViaCli(decoded.value, flags)
                             && (flags.image != "" || (flags.registry != "" && flags.tag != ""))
    ensures CallsDocker(r, "build") <==> read.Ok? && decoded.Ok? && !ViaCli(decoded.value, flags)
                                         && (flags.image != "" || (flags.registry != "" && flags.tag != ""))
                                         && dockerfileExists
    ensures CallsDocker(r, "push") <==> CallsDocker(r, "build") && build.Success? && flags.push
    ensures read.Ok? && decoded.Ok? && !ViaCli(decoded.value, flags)
            && (flags.image != "" || (flags.registry != "" && flags.tag != "")) ==>
      var cfg := WithBuildDefaults(ReadConfig(read, decoded).value);
      r == Run([ReadFile(ConfigPath)] + DockerPath(flags, cfg, ResolveImage(flags, cfg.name, false).value, keys,
                                                   dockerfileExists, build, push).actions,
               DockerPath(flags, cfg, ResolveImage(flags, cfg.name, false).value, keys,
                          dockerfileExists, build, push).outcome)
    ensures CallsCli(r) ==>
      var cfg := ReadConfig(read, decoded).value;
      r == Run([ReadFile(ConfigPath), DevcontainerCli(CliArgs(ResolveImage(flags, cfg.name, true).value, flags.platform))], cli)
    ensures r.outcome.Success? <==>
      && read.Ok? && decoded.Ok?
      && (flags.image != "" || (flags.registry != "" && flags.tag != ""))
      && (if ViaCli(decoded.value, flags) then cli.Success?
          else dockerfileExists && build.Success? && (flags.push ==> push.Success?))
  {
    var readStep := [ReadFile(ConfigPath)];
    match ReadConfig(read, decoded)
    case Err(msg) => Run(readStep, Failure(msg))
    case Ok(c) =>
      var cfg := WithBuildDefaults(c);
      if ViaCli(cfg, flags) then
        match ResolveImage(flags, cfg.name, true)
        case Err(msg) => Run(readStep, Failure(msg))
        case Ok(image) =>
          var call := DevcontainerCli(CliArgs(image, flags.platform));
          assert call in readStep + [call];
          Run(readStep + [call], cli)
      else
        match ResolveImage(flags, cfg.name, false)
        case Err(msg) => Run(readStep, Failure(msg))
        case Ok(image) =>
          var rest := DockerPath(flags, cfg, image, keys, dockerfileExists, build, push);
          Run(readStep + rest.actions, rest.outcome)
  }

  /**
    Without `--image`, and without one of `--registry` and `--tag`, the
    command stops after reading the configuration, on either path.
   */
  lemma UnresolvedImage(flags: BuildFlags, read: Result<string>, decoded: Result<Config>, keys: seq<string>,
                        dockerfileExists: bool, cli: Outcome, build: Outcome, push: Outcome)
    requires read.Ok? && decoded.Ok? && IsEnumeration(keys, decoded.value.args)
    requires flags.image == "" && (flags.registry == "" || flags.tag == "")
    ensures Build(flags, read, decoded, keys, dockerfileExists, cli, build, push)
         == Run([ReadFile(ConfigPath)],
                Failure(ImageOrRegistryRequired + (if ViaCli(decoded.value, flags) then CliSuffix else "")))
  {
  }
}
