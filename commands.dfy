/**
  The `RunE` bodies of `kdev up`, `attach`, `ls` and `rm` (main.go) as plans:
  each command is a function from the outcomes of the steps it delegates to
  `kubectl` (and, for `up`, of reading the template) to the actions it takes
  and the error it returns.
 */
module Commands {
  import opened Effects
  import opened Manifest

  const DefaultNamespace := "dev"

  /** The persistent pre-run hook: an empty `--namespace` becomes `dev`. */
  function EffectiveNamespace(flag: string): (ns: string)
    ensures ns != ""
    ensures flag != "" ==> ns == flag
    ensures flag == "" ==> ns == DefaultNamespace
  {
    if flag == "" then DefaultNamespace else flag
  }

  /** The `kubectl` argument vector `up` pipes the manifest into. */
  function ApplyArgs(ns: string): seq<string> {
    ["apply", "-n", ns, "-f", "-"]
  }

  /**
    `kdev up`. The flag checks run first; only then is the template read, and
    only a template that was read is rendered and applied. `read` is the
    content of the template file or the read error, `apply` the outcome of
    `kubectl apply`.
   */
  function Up(f: UpFlags, nsFlag: string, order: seq<Scalar>, read: Result<string>, apply: Outcome): (r: Run)
    ensures CheckUp(f).Err? ==> r == Run([], Failure(CheckUp(f).msg))
    ensures CheckUp(f).Ok? ==> |r.actions| >= 1 && r.actions[0] == ReadFile(CheckUp(f).value.template)
    ensures |r.actions| <= 2
    ensures |r.actions| == 2 <==> CheckUp(f).Ok? && read.Ok?
    ensures |r.actions| == 2 ==>
      r.actions[1] == KubectlApply(["apply", "-n", EffectiveNamespace(nsFlag), "-f", "-"],
                                   Rendered(CheckUp(f).value, EffectiveNamespace(nsFlag), read.value, order))
    ensures CheckUp(f).Ok? && read.Err? ==> r.outcome == Failure(read.msg)
    ensures |r.actions| == 2 ==> r.outcome == apply
    ensures r.outcome.Success? <==> f.name != "" && f.image != "" && read.Ok? && apply.Success?
  {
    match CheckUp(f)
    case Err(msg) => Run([], Failure(msg))
    case Ok(settings) =>
      var readStep := [ReadFile(settings.template)];
      match read
      case Err(msg) => Run(readStep, Failure(msg))
      case Ok(text) =>
        var ns := EffectiveNamespace(nsFlag);
        var manifest := Rendered(settings, ns, text, order);
        Run(readStep + [KubectlApply(ApplyArgs(ns), manifest)], apply)
  }

  /** The shell `attach` starts: `/bin/bash` unless `--shell` is given. */
  function AttachShell(shell: string): string {
    if shell == "" then DefaultShell else shell
  }

  /** The fixed `kubectl exec` vector of `attach`. */
  function AttachArgs(ns: string, name: string, shell: string): seq<string> {
    ["exec", "-n", ns, "-it", name, "--", AttachShell(shell)]
  }

  /** `kdev attach`: one `kubectl exec -it`, whose outcome is the command's. */
  function Attach(name: string, shell: string, nsFlag: string, exec: Outcome): (r: Run)
    ensures name == "" ==> r == Run([], Failure("--name is required"))
    ensures name != "" ==> r.outcome == exec
    ensures name != "" ==>
      r.actions == [Kubectl(["exec", "-n", EffectiveNamespace(nsFlag), "-it", name, "--",
                             if shell == "" then "/bin/bash" else shell])]
  {
    if name == "" then Run([], Failure("--name is required"))
    else Run([Kubectl(AttachArgs(EffectiveNamespace(nsFlag), name, shell))], exec)
  }

  /** The fixed `kubectl get` vector of `ls`. */
  function ListArgs(ns: string): seq<string> {
    ["get", "pods", "-n", ns, "-l", "app=kdev", "-o", "wide"]
  }

  /** `kdev ls`: one `kubectl get pods` by the `app=kdev` label. */
  function List(nsFlag: string, get: Outcome): (r: Run)
    ensures |r.actions| == 1 && r.outcome == get
    ensures r.actions[0] == Kubectl(["get", "pods", "-n", EffectiveNamespace(nsFlag), "-l", "app=kdev", "-o", "wide"])
  {
    Run([Kubectl(ListArgs(EffectiveNamespace(nsFlag)))], get)
  }

  /** `kubectl delete <kind> -n <ns> <name>`. */
  function DeleteArgs(kind: string, ns: string, name: string): seq<string> {
    ["delete", kind, "-n", ns, name]
  }

  /**
    `kdev rm`: delete the pod; only when that succeeded and `--with-pvc` is
    set, delete the claim of the same name in the same namespace.
   */
  function Remove(name: string, nsFlag: string, withPvc: bool, podDelete: Outcome, pvcDelete: Outcome): (r: Run)
    ensures name == "" ==> r == Run([], Failure("--name is required"))
    ensures |r.actions| == if name == "" then 0 else if podDelete.Success? && withPvc then 2 else 1
    ensures name != "" ==> r.actions[0] == Kubectl(["delete", "pod", "-n", EffectiveNamespace(nsFlag), name])
    ensures podDelete.Failure? ==> r.outcome == (if name == "" then Failure("--name is required") else podDelete)
    ensures podDelete.Failure? ==> |r.actions| <= 1
    ensures Kubectl(DeleteArgs("pvc", EffectiveNamespace(nsFlag), name)) in r.actions
            <==> name != "" && podDelete.Success? && withPvc
    ensures |r.actions| == 2 ==> r.actions[1] == Kubectl(["delete", "pvc", "-n", EffectiveNamespace(nsFlag), name])
    ensures r.outcome.Success? <==> name != "" && podDelete.Success? && (withPvc ==> pvcDelete.Success?)
    ensures name != "" && podDelete.Success? && withPvc ==> r.outcome == pvcDelete
  {
    if name == "" then Run([], Failure("--name is required"))
    else
      var ns := EffectiveNamespace(nsFlag);
      var pod := [Kubectl(DeleteArgs("pod", ns, name))];
      if podDelete.Failure? then Run(pod, podDelete)
      else if withPvc then Run(pod + [Kubectl(DeleteArgs("pvc", ns, name))], pvcDelete)
      else Run(pod, Success)
  }
}
